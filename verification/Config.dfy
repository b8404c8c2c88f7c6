/** The configuration tree: flattened into parser events, parsed back into linked nodes, and looked up by path. */
module Config {
  import opened Wrappers
  import opened Metrics
  import opened Sequences

  // ---------- Trees and events ----------

  datatype Tree = Scalar(s: cstring) | List(items: seq<cstring>) | Dict(entries: seq<Entry>)
  datatype Entry = Entry(key: cstring, value: Tree)

  datatype Event = ScalarEv(s: cstring) | SequenceStart | SequenceEnd | MappingStart | MappingEnd | OtherEv

  function ItemEvents(items: seq<cstring>): seq<Event> {
    if items == [] then [SequenceEnd] else [ScalarEv(items[0])] + ItemEvents(items[1..])
  }

  /** The events of a value, as the YAML parser emits them for it */
  function Flatten(t: Tree): seq<Event>
    decreases t, 1
  {
    match t
    case Scalar(s) => [ScalarEv(s)]
    case List(items) => [SequenceStart] + ItemEvents(items)
    case Dict(entries) => [MappingStart] + EntryEvents(entries)
  }

  /** The events of a mapping after its start */
  function EntryEvents(entries: seq<Entry>): seq<Event>
    decreases entries, 0
  {
    if entries == [] then [MappingEnd]
    else [ScalarEv(entries[0].key)] + Flatten(entries[0].value) + EntryEvents(entries[1..])
  }

  // ---------- What the parser builds ----------

  /** One monikor_config_dict_t: the nodes behind it are those following it in its sequence. */
  datatype Node = Node(key: Option<cstring>, cell: Cell)
  datatype Cell = DictCell(sub: seq<Node>) | ListCell(items: seq<cstring>) | ScalarCell(value: cstring)

  /** monikor_config_dict_new: no key, and a dictionary that is NULL */
  const EMPTY_NODE := Node(None, DictCell([]))

  function Built(t: Tree): Cell
    decreases t, 1
  {
    match t
    case Scalar(s) => ScalarCell(s)
    case List(items) => ListCell(items)
    case Dict(entries) => DictCell(BuiltDict(entries))
  }

  function BuiltEntries(entries: seq<Entry>): (r: seq<Node>)
    ensures |r| == |entries|
    decreases entries, 0
  {
    if entries == [] then [] else [Node(Some(entries[0].key), Built(entries[0].value))] + BuiltEntries(entries[1..])
  }

  /** A mapping without entries leaves the node it was given untouched. */
  function BuiltDict(entries: seq<Entry>): seq<Node>
    decreases entries, 1
  {
    if entries == [] then [EMPTY_NODE] else BuiltEntries(entries)
  }

  // ---------- The grammar ----------

  function ParseList(evs: seq<Event>): Option<(seq<cstring>, seq<Event>)> {
    if evs == [] then None
    else match evs[0]
      case SequenceEnd => Some(([], evs[1..]))
      case ScalarEv(s) =>
        (match ParseList(evs[1..])
         case None => None
         case Some((items, rest)) => Some(([s] + items, rest)))
      case _ => None
  }

  function ParseValue(evs: seq<Event>): (r: Option<(Tree, seq<Event>)>)
    ensures r.Some? ==> |r.value.1| < |evs|
    decreases |evs|
  {
    if evs == [] then None
    else match evs[0]
      case ScalarEv(s) => Some((Scalar(s), evs[1..]))
      case SequenceStart =>
        ListShrinks(evs[1..]);
        (match ParseList(evs[1..])
         case None => None
         case Some((items, rest)) => Some((List(items), rest)))
      case MappingStart =>
        (match ParseEntries(evs[1..])
         case None => None
         case Some((entries, rest)) => Some((Dict(entries), rest)))
      case _ => None
  }

  function ParseEntries(evs: seq<Event>): (r: Option<(seq<Entry>, seq<Event>)>)
    ensures r.Some? ==> |r.value.1| < |evs|
    decreases |evs|
  {
    if evs == [] then None
    else match evs[0]
      case MappingEnd => Some(([], evs[1..]))
      case ScalarEv(key) =>
        (match ParseValue(evs[1..])
         case None => None
         case Some((v, rest)) =>
           match ParseEntries(rest)
           case None => None
           case Some((entries, more)) => Some(([Entry(key, v)] + entries, more)))
      case _ => None
  }

  lemma {:induction false} ListShrinks(evs: seq<Event>)
    ensures var r := ParseList(evs); r.Some? ==> |r.value.1| < |evs|
  {
    if evs != [] && evs[0].ScalarEv? {
      ListShrinks(evs[1..]);
    }
  }

  // ---------- Round trip ----------

  lemma {:induction false} ItemsRoundTrip(items: seq<cstring>, rest: seq<Event>)
    ensures ParseList(ItemEvents(items) + rest) == Some((items, rest))
  {
    var evs := ItemEvents(items) + rest;
    if items == [] {
      assert evs[1..] == rest;
    } else {
      ItemsRoundTrip(items[1..], rest);
      assert evs[1..] == ItemEvents(items[1..]) + rest;
      assert [items[0]] + items[1..] == items;
    }
  }

  /** Parsing the events of a tree, whatever follows them, gives that tree and leaves exactly what follows. */
  lemma {:induction false} ValueRoundTrip(t: Tree, rest: seq<Event>)
    ensures ParseValue(Flatten(t) + rest) == Some((t, rest))
    decreases t, 1
  {
    var evs := Flatten(t) + rest;
    match t
    case Scalar(s) => assert evs[1..] == rest;
    case List(items) =>
      ItemsRoundTrip(items, rest);
      assert evs[1..] == ItemEvents(items) + rest;
    case Dict(entries) =>
      EntriesRoundTrip(entries, rest);
      assert evs[1..] == EntryEvents(entries) + rest;
  }

  /** A key, its value and the entries after them, parsed one after the other */
  lemma EntryParsed(evs: seq<Event>, e: Entry, entries: seq<Entry>, tail: seq<Event>, rest: seq<Event>)
    requires evs != [] && evs[0] == ScalarEv(e.key) && ParseValue(evs[1..]) == Some((e.value, tail))
    requires ParseEntries(tail) == Some((entries, rest))
    ensures ParseEntries(evs) == Some(([e] + entries, rest))
  {
    hide ParseValue;
  }

  lemma FirstEntry(entries: seq<Entry>, rest: seq<Event>)
    requires entries != []
    ensures var evs := EntryEvents(entries) + rest;
            && evs[0] == ScalarEv(entries[0].key)
            && evs[1..] == Flatten(entries[0].value) + (EntryEvents(entries[1..]) + rest)
  {
    hide Flatten;
    BehindFirst(ScalarEv(entries[0].key), Flatten(entries[0].value), EntryEvents(entries[1..]), rest);
  }

  lemma {:induction false} EntriesRoundTrip(entries: seq<Entry>, rest: seq<Event>)
    ensures ParseEntries(EntryEvents(entries) + rest) == Some((entries, rest))
    decreases entries, 0
  {
    var evs := EntryEvents(entries) + rest;
    if entries == [] {
      assert evs[1..] == rest;
    } else {
      hide ParseEntries, ParseValue, Flatten, EntryEvents;
      var tail := EntryEvents(entries[1..]) + rest;
      ValueRoundTrip(entries[0].value, tail);
      EntriesRoundTrip(entries[1..], rest);
      FirstEntry(entries, rest);
      EntryParsed(evs, entries[0], entries[1..], tail, rest);
      assert [entries[0]] + entries[1..] == entries;
    }
  }

  /** The parser accepts nothing but flattened trees. */
  lemma {:induction false} ItemsOnly(evs: seq<Event>)
    ensures var r := ParseList(evs); r.Some? ==> evs == ItemEvents(r.value.0) + r.value.1
  {
    if evs != [] && evs[0].ScalarEv? {
      ItemsOnly(evs[1..]);
    }
    assert evs != [] ==> evs == [evs[0]] + evs[1..];
  }

  lemma {:induction false} ValueOnly(evs: seq<Event>)
    ensures var r := ParseValue(evs); r.Some? ==> evs == Flatten(r.value.0) + r.value.1
    decreases |evs|
  {
    if evs != [] {
      assert evs == [evs[0]] + evs[1..];
      ItemsOnly(evs[1..]);
      EntriesOnly(evs[1..]);
    }
  }

  lemma {:induction false} EntriesOnly(evs: seq<Event>)
    ensures var r := ParseEntries(evs); r.Some? ==> evs == EntryEvents(r.value.0) + r.value.1
    decreases |evs|
  {
    if evs != [] {
      assert evs == [evs[0]] + evs[1..];
      if evs[0].ScalarEv? {
        ValueOnly(evs[1..]);
        var v := ParseValue(evs[1..]);
        if v.Some? {
          EntriesOnly(v.value.1);
        }
      }
    }
  }

  // ---------- The parser as it runs ----------

  /** A parser over the events still to come. The end of the events is an error, like any other. */
  class Parser {
    var events: seq<Event>

    constructor (events: seq<Event>)
      ensures this.events == events
    {
      this.events := events;
    }

    method Next() returns (ev: Option<Event>)
      modifies this
      ensures old(events) == [] ==> ev == None && events == []
      ensures old(events) != [] ==> ev == Some(old(events)[0]) && events == old(events)[1..]
    {
      if events == [] {
        return None;
      }
      ev := Some(events[0]);
      events := events[1..];
    }

    method ConfigParseList() returns (r: Option<seq<cstring>>)
      modifies this
      ensures match ParseList(old(events))
              case None => r == None
              case Some((items, rest)) => r == Some(items) && events == rest
      ensures |events| <= |old(events)|
    {
      var items: seq<cstring> := [];
      while true
        invariant |events| <= |old(events)|
        invariant match ParseList(old(events))
                  case None => ParseList(events) == None
                  case Some((all, rest)) =>
                    ParseList(events).Some? && ParseList(events).value.1 == rest
                    && items + ParseList(events).value.0 == all
        decreases |events|
      {
        var ev := Next();
        if ev.None? {
          return None;
        }
        if ev.value == SequenceEnd {
          assert items + [] == items;
          return Some(items);
        }
        if !ev.value.ScalarEv? {
          return None;
        }
        items := items + [ev.value.s];
      }
    }

    method ConfigParseKey() returns (r: Option<Cell>)
      modifies this
      ensures match ParseValue(old(events))
              case None => r == None
              case Some((t, rest)) => r == Some(Built(t)) && events == rest
      ensures |events| <= |old(events)|
      ensures r.Some? ==> |events| < |old(events)|
      decreases |events|, 0
    {
      var ev := Next();
      if ev.None? {
        return None;
      }
      match ev.value
      case ScalarEv(s) => return Some(ScalarCell(s));
      case SequenceStart =>
        var items := ConfigParseList();
        return if items.None? then None else Some(ListCell(items.value));
      case MappingStart =>
        var sub := ConfigParseMapping();
        return if sub.None? then None else Some(DictCell(sub.value));
      case _ => return None;
    }

    /** The nodes linked from the one it is given, which stays as it was made when there is no entry */
    method ConfigParseMapping() returns (r: Option<seq<Node>>)
      modifies this
      ensures match ParseEntries(old(events))
              case None => r == None
              case Some((entries, rest)) => r == Some(BuiltDict(entries)) && events == rest
      ensures |events| <= |old(events)|
      decreases |events|, 1
    {
      var elms: seq<Node> := [];
      while true
        invariant |events| <= |old(events)|
        invariant match ParseEntries(old(events))
                  case None => ParseEntries(events) == None
                  case Some((all, rest)) =>
                    ParseEntries(events).Some? && ParseEntries(events).value.1 == rest
                    && elms + BuiltEntries(ParseEntries(events).value.0) == BuiltEntries(all)
        decreases |events|
      {
        var ev := Next();
        if ev.None? {
          return None;
        }
        if ev.value == MappingEnd {
          assert elms + [] == elms;
          return Some(if elms == [] then [EMPTY_NODE] else elms);
        }
        if !ev.value.ScalarEv? {
          return None;
        }
        var cell := ConfigParseKey();
        if cell.None? {
          return None;
        }
        elms := elms + [Node(Some(ev.value.s), cell.value)];
      }
    }
  }

  // ---------- Paths ----------

  const DOT: cbyte := 46

  function Token(s: cstring): (t: cstring)
    ensures |t| <= |s| && s[..|t|] == t && DOT !in t && (|t| < |s| ==> s[|t|] == DOT)
  {
    if s == [] || s[0] == DOT then [] else [s[0]] + Token(s[1..])
  }

  /** strtok_r over one separator: runs of dots separate, and empty tokens do not exist. */
  function Tokens(s: cstring): seq<cstring>
    decreases |s|
  {
    if s == [] then []
    else if s[0] == DOT then Tokens(s[1..])
    else [Token(s)] + Tokens(s[|Token(s)|..])
  }

  function Join(keys: seq<cstring>): cstring {
    if keys == [] then [] else if |keys| == 1 then keys[0] else keys[0] + [DOT] + Join(keys[1..])
  }

  predicate IsKey(k: cstring) {
    k != [] && DOT !in k
  }

  lemma {:induction false} TokenOfKey(k: cstring, rest: cstring)
    requires DOT !in k && (rest == [] || rest[0] == DOT)
    ensures Token(k + rest) == k
  {
    if k != [] {
      assert (k + rest)[1..] == k[1..] + rest;
      TokenOfKey(k[1..], rest);
    } else {
      assert k + rest == rest;
    }
  }

  /** Splitting undoes joining. */
  lemma {:induction false} SplitJoin(keys: seq<cstring>)
    requires forall k :: k in keys ==> IsKey(k)
    ensures Tokens(Join(keys)) == keys
  {
    if keys != [] {
      var k, tail := keys[0], keys[1..];
      var rest := if tail == [] then [] else [DOT] + Join(tail);
      assert Join(keys) == k + rest;
      assert k in keys && forall x :: x in tail ==> x in keys;
      TokenOfKey(k, rest);
      SplitJoin(tail);
      assert (k + rest)[|k|..] == rest;
      if tail != [] {
        assert rest[1..] == Join(tail);
      }
    }
  }

  lemma {:induction false} TokensAreKeys(s: cstring)
    ensures forall k :: k in Tokens(s) ==> IsKey(k)
    decreases |s|
  {
    if s != [] {
      if s[0] == DOT {
        TokensAreKeys(s[1..]);
      } else {
        TokensAreKeys(s[|Token(s)|..]);
      }
    }
  }

  lemma NoDots(k: cstring, rest: cstring)
    requires k != [] && DOT !in k && (rest == [] || rest[0] == DOT)
    ensures Tokens(k + rest) == [k] + Tokens(rest)
  {
    TokenOfKey(k, rest);
    assert (k + rest)[|k|..] == rest;
  }

  /** Any string is a run without dots, and either that is all or a dot follows: what tokens it has, one way or other */
  lemma TokensTell(k: cstring, rest: cstring)
    requires DOT !in k
    ensures Tokens(k) == if k == [] then [] else [k]
    ensures Tokens(k + [DOT] + rest) == Tokens(k) + Tokens(rest)
  {
    assert ([DOT] + rest)[1..] == rest && k + [DOT] + rest == k + ([DOT] + rest);
    if k == [] {
      assert k + ([DOT] + rest) == [DOT] + rest;
    } else {
      NoDots(k, []);
      NoDots(k, [DOT] + rest);
      assert k + [] == k;
    }
  }

  // ---------- Lookup ----------

  /** The value of the first entry with this key */
  function FirstMatch(entries: seq<Entry>, key: cstring): Option<Tree> {
    if entries == [] then None
    else if entries[0].key == key then Some(entries[0].value)
    else FirstMatch(entries[1..], key)
  }

  /** The tree at a path, the first match being followed at every level */
  function Lookup(entries: seq<Entry>, path: seq<cstring>): Option<Tree>
    requires path != []
    decreases |path|
  {
    match FirstMatch(entries, path[0])
    case None => None
    case Some(t) =>
      if |path| == 1 then Some(t)
      else if t.Dict? then Lookup(t.entries, path[1..])
      else None
  }

  /** Where the inner loop of the walk stops: the nodes from the first one with this key on */
  function Seek(nodes: seq<Node>, key: cstring): seq<Node> {
    if nodes == [] || nodes[0].key == Some(key) then nodes else Seek(nodes[1..], key)
  }

  /** The walk of monikor_config_get_subdict, as a recursion over the keys left; the result is the nodes from the
      one found on, none for NULL. */
  function Walk(nodes: seq<Node>, keys: seq<cstring>): seq<Node>
    decreases |keys|
  {
    if keys == [] then nodes
    else
      var found := Seek(nodes, keys[0]);
      if found == [] then []
      else if |keys| == 1 then found
      else if !found[0].cell.DictCell? then []
      else Walk(found[0].cell.sub, keys[1..])
  }

  lemma {:induction false} SeekFinds(entries: seq<Entry>, key: cstring)
    ensures var found := Seek(BuiltEntries(entries), key);
            match FirstMatch(entries, key)
            case None => found == []
            case Some(t) => found != [] && found[0] == Node(Some(key), Built(t))
  {
    if entries != [] && entries[0].key != key {
      assert BuiltEntries(entries)[1..] == BuiltEntries(entries[1..]);
      SeekFinds(entries[1..], key);
    }
  }

  /** The walk through the nodes a mapping was parsed into is the recursive first-match lookup in the tree; the
      keyless node of an empty mapping matches nothing. */
  lemma {:induction false} WalkRefinesLookup(entries: seq<Entry>, path: seq<cstring>)
    requires path != []
    ensures var found := Walk(BuiltDict(entries), path);
            match Lookup(entries, path)
            case None => found == []
            case Some(t) => found != [] && found[0] == Node(Some(path[|path| - 1]), Built(t))
    decreases |path|
  {
    SeekFinds(entries, path[0]);
    if entries == [] {
      assert Seek([EMPTY_NODE], path[0]) == Seek([EMPTY_NODE][1..], path[0]);
    }
    var t := FirstMatch(entries, path[0]);
    if |path| > 1 && t.Some? && t.value.Dict? {
      WalkRefinesLookup(t.value.entries, path[1..]);
    }
  }

  /** A path without keys, of dots alone, finds the root. */
  lemma NoKeysFindRoot(nodes: seq<Node>, path: cstring)
    requires forall i :: 0 <= i < |path| ==> path[i] == DOT
    ensures Walk(nodes, Tokens(path)) == nodes
    decreases |path|
  {
    if path != [] {
      NoKeysFindRoot(nodes, path[1..]);
    }
  }

  // ---------- The lookup as it runs ----------

  method StrlFromSeparatedString(s: cstring) returns (keys: seq<cstring>)
    ensures keys == Tokens(s)
  {
    keys := [];
    var str := s;
    while str != []
      invariant keys + Tokens(str) == Tokens(s)
      decreases |str|
    {
      if str[0] == DOT {
        str := str[1..];
      } else {
        var token := Token(str);
        keys, str := keys + [token], str[|token|..];
      }
    }
  }

  method GetSubdict(dict: seq<Node>, keys: seq<cstring>) returns (sub: seq<Node>)
    ensures sub == Walk(dict, keys)
  {
    sub := dict;
    for k := 0 to |keys|
      invariant Walk(dict, keys) == Walk(sub, keys[k..])
    {
      ghost var left := sub;
      while sub != [] && sub[0].key != Some(keys[k])
        invariant Seek(left, keys[k]) == Seek(sub, keys[k])
        decreases |sub|
      {
        sub := sub[1..];
      }
      assert keys[k..][1..] == keys[k + 1..];
      if sub != [] && k == |keys| - 1 {
        return;
      }
      if sub == [] || !sub[0].cell.DictCell? {
        return [];
      }
      sub := sub[0].cell.sub;
    }
  }

  method GetDict(dict: seq<Node>, key: cstring) returns (d: seq<Node>)
    ensures var found := Walk(dict, Tokens(key)); d == if found != [] && found[0].cell.DictCell? then found else []
  {
    var keys := StrlFromSeparatedString(key);
    d := GetSubdict(dict, keys);
    if d == [] || !d[0].cell.DictCell? {
      d := [];
    }
  }

  method GetList(dict: seq<Node>, key: cstring) returns (r: Option<seq<cstring>>)
    ensures var found := Walk(dict, Tokens(key));
            r == if found != [] && found[0].cell.ListCell? then Some(found[0].cell.items) else None
  {
    var keys := StrlFromSeparatedString(key);
    var d := GetSubdict(dict, keys);
    r := if d == [] || !d[0].cell.ListCell? then None else Some(d[0].cell.items);
  }

  method GetScalar(dict: seq<Node>, key: cstring) returns (r: Option<cstring>)
    ensures var found := Walk(dict, Tokens(key));
            r == if found != [] && found[0].cell.ScalarCell? then Some(found[0].cell.value) else None
  {
    var keys := StrlFromSeparatedString(key);
    var d := GetSubdict(dict, keys);
    r := if d == [] || !d[0].cell.ScalarCell? then None else Some(d[0].cell.value);
  }

  /** Parsing a mapping's events and getting a scalar by its joined path finds the scalar the tree has there. */
  method ParseThenGetScalar(entries: seq<Entry>, rest: seq<Event>, path: seq<cstring>) returns (r: Option<cstring>)
    requires path != [] && forall k :: k in path ==> IsKey(k)
    ensures r == match Lookup(entries, path) case Some(Scalar(s)) => Some(s) case _ => None
  {
    var parser := new Parser(EntryEvents(entries) + rest);
    EntriesRoundTrip(entries, rest);
    var nodes := parser.ConfigParseMapping();
    SplitJoin(path);
    WalkRefinesLookup(entries, path);
    r := GetScalar(nodes.value, Join(path));
  }

  /** ... and so does getting a list ... */
  method ParseThenGetList(entries: seq<Entry>, rest: seq<Event>, path: seq<cstring>) returns (r: Option<seq<cstring>>)
    requires path != [] && forall k :: k in path ==> IsKey(k)
    ensures r == match Lookup(entries, path) case Some(List(items)) => Some(items) case _ => None
  {
    var parser := new Parser(EntryEvents(entries) + rest);
    EntriesRoundTrip(entries, rest);
    var nodes := parser.ConfigParseMapping();
    SplitJoin(path);
    WalkRefinesLookup(entries, path);
    r := GetList(nodes.value, Join(path));
  }

  /** These nodes hold, at every path, the scalars and lists that the entries have there. */
  ghost predicate Mirrors(nodes: seq<Node>, entries: seq<Entry>) {
    forall path :: path != [] ==> Agrees(Walk(nodes, path), Lookup(entries, path))
  }

  predicate Agrees(found: seq<Node>, t: Option<Tree>) {
    match t
    case None => found == []
    case Some(Scalar(s)) => found != [] && found[0].cell == ScalarCell(s)
    case Some(List(items)) => found != [] && found[0].cell == ListCell(items)
    case Some(Dict(_)) => found != [] && found[0].cell.DictCell?
  }

  lemma BuiltMirrors(entries: seq<Entry>)
    ensures Mirrors(BuiltDict(entries), entries)
  {
    forall path: seq<cstring> | path != []
      ensures Agrees(Walk(BuiltDict(entries), path), Lookup(entries, path))
    {
      WalkRefinesLookup(entries, path);
    }
  }

  /** ... and getting a dictionary: a node under the last key of the path, with all that the tree has below it. */
  method ParseThenGetDict(entries: seq<Entry>, rest: seq<Event>, path: seq<cstring>) returns (d: seq<Node>)
    requires path != [] && forall k :: k in path ==> IsKey(k)
    ensures match Lookup(entries, path)
            case Some(Dict(sub)) =>
              && d != [] && d[0].key == Some(path[|path| - 1])
              && d[0].cell.DictCell? && Mirrors(d[0].cell.sub, sub)
            case _ => d == []
  {
    var parser := new Parser(EntryEvents(entries) + rest);
    EntriesRoundTrip(entries, rest);
    var nodes := parser.ConfigParseMapping();
    SplitJoin(path);
    WalkRefinesLookup(entries, path);
    ghost var t := Lookup(entries, path);
    if t.Some? && t.value.Dict? {
      BuiltMirrors(t.value.entries);
    }
    d := GetDict(nodes.value, Join(path));
  }
}
