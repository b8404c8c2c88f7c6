/** A list of metrics on its way from a client's buffer into the store of the agent that receives it. */
module Reception {
  import opened Metrics
  import opened MetricLists
  import opened ByteOrder
  import opened Wire
  import opened Codec
  import opened Agents
  import opened Handlers
  import opened Servers
  import opened Sequences
  import opened Wrappers
  import Spec = AgentSpec

  /** The decoder takes a new record for every metric it gives. */
  lemma {:induction false} DecodedAllocated(fc: FloatCodec, data: seq<byte>, pos: nat, limit: nat, count: nat,
                                            rec: nat, ids: nat -> uint16)
    ensures var ms := DecodeBody(fc, data, pos, limit, count, rec, ids).metrics; Spec.Allocated(rec, ms) == ms
    decreases count
  {
    hide DecodeMetric, EncodedSize;
    if count > 0 && pos < limit && pos <= |data| {
      var p := DecodeMetric(fc, data[pos..], rec, ids(rec));
      if p.Got? {
        var next := pos + EncodedSize(p.metric);
        var rest := DecodeBody(fc, data, next, limit, count - 1, rec + 1, ids).metrics;
        DecodedAllocated(fc, data, next, limit, count - 1, rec + 1, ids);
        DecodedRecord(fc, data[pos..], rec, ids(rec));
        DecodeTurn(fc, data, pos, limit, count, rec, ids, p.metric);
        assert ([p.metric] + rest)[1..] == rest;
      }
    }
  }

  lemma DecodedRecord(fc: FloatCodec, data: seq<byte>, rec: nat, id: uint16)
    ensures var p := DecodeMetric(fc, data, rec, id); p.Got? ==> p.metric.rec == rec
  {
    hide ReadHeader, DecodeValue;
  }

  /** The client handler once the header `buf` and all the bytes it announces have been read */
  method HandleClientData(agent: Monikor, buf: seq<byte>, data: seq<byte>, host: Host, fc: FloatCodec,
                          ids: nat -> uint16)
    requires agent.Valid()
    requires |buf| == LIST_HDR_SIZE && |data| == FromBig(buf[3..11])
    requires DecodeList(fc, buf + data, agent.metrics.next, ids).defined
    modifies agent`exits, agent.metrics, agent.metrics.Lists(), agent.metrics.repr
    ensures agent.Valid()
    ensures agent.State()
         == Spec.Receive(old(agent.State()), DecodeList(fc, buf + data, old(agent.metrics.next), ids).metrics)
  {
    hide DecodeBody;
    var rec := agent.metrics.next;
    var version, count, size := ListHeaderUnserialize(buf, host);
    assert (buf + data)[LIST_HDR_SIZE..] == data && (buf + data)[1..3] == buf[1..3];
    assert (buf + data)[3..11] == buf[3..11];
    DecodedAllocated(fc, data, 0, size, count, rec, ids);
    var n, list := Unserialize(data, count, size, host, fc, rec, ids);
    agent.LpushRecords(list, n);
  }

  // ---------- Reading a client ----------

  /** What one read(2) gives: bytes, at most as many as asked for, or an error */
  datatype Read = Bytes(bytes: seq<byte>) | Failed

  /** How the loop reading a body ends; Blocked while it waits for more */
  datatype Arrival = Complete(data: seq<byte>) | Error | Blocked

  function Asked(bytes: seq<byte>, n: nat): seq<byte> {
    if |bytes| <= n then bytes else bytes[..n]
  }

  function ReadBody(replies: seq<Read>, size: nat, got: seq<byte>): (r: Arrival)
    requires |got| <= size
    ensures r.Complete? ==> |r.data| == size && got <= r.data
  {
    if replies == [] then Blocked
    else match replies[0]
      case Failed => Error
      case Bytes(bytes) =>
        var more := got + Asked(bytes, size - |got|);
        if |more| < size then ReadBody(replies[1..], size, more) else Complete(more)
  }

  /** A body that comes in any number of pieces, the first of which may be all of it, is read whole. */
  lemma {:induction false} PiecesComplete(pieces: seq<seq<byte>>, replies: seq<Read>, got: seq<byte>)
    requires |replies| == |pieces| && forall i :: 0 <= i < |replies| ==> replies[i] == Bytes(pieces[i])
    requires pieces != [] && forall i :: 0 < i < |pieces| ==> pieces[i] != []
    ensures ReadBody(replies, |got + Flatten(pieces)|, got) == Complete(got + Flatten(pieces))
    decreases |pieces|
  {
    FlattenHead(pieces);
    var more := got + pieces[0];
    assert got + Flatten(pieces) == more + Flatten(pieces[1..]);
    if |pieces| > 1 {
      assert pieces[1..][0] != [];
      FlattenHead(pieces[1..]);
      PiecesComplete(pieces[1..], replies[1..], more);
    } else {
      assert Flatten(pieces[1..]) == [];
    }
  }

  /** Pieces that do not make up the body leave the loop waiting, and an error after them ends it. */
  lemma {:induction false} PiecesAwaited(pieces: seq<seq<byte>>, replies: seq<Read>, size: nat, got: seq<byte>,
                                         more: seq<Read>)
    requires |replies| == |pieces| && forall i :: 0 <= i < |replies| ==> replies[i] == Bytes(pieces[i])
    requires |got + Flatten(pieces)| < size
    ensures ReadBody(replies, size, got) == Blocked
    ensures more != [] && more[0].Failed? ==> ReadBody(replies + more, size, got) == Error
    decreases |pieces|
  {
    if pieces == [] {
      assert replies + more == more;
    } else {
      FlattenHead(pieces);
      assert got + Flatten(pieces) == got + pieces[0] + Flatten(pieces[1..]);
      assert (replies + more)[1..] == replies[1..] + more;
      PiecesAwaited(pieces[1..], replies[1..], size, got + pieces[0], more);
    }
  }

  method ReadClient(replies: seq<Read>, size: nat) returns (r: Arrival)
    ensures r == ReadBody(replies, size, [])
  {
    var data: seq<byte> := [];
    for i := 0 to |replies|
      invariant |data| <= size && ReadBody(replies, size, []) == ReadBody(replies[i..], size, data)
    {
      assert replies[i..][1..] == replies[i + 1..];
      if replies[i].Failed? {
        return Error;
      }
      data := data + Asked(replies[i].bytes, size - |data|);
      if !(|data| < size) {
        return Complete(data);
      }
    }
    return Blocked;
  }

  /** What a client's header and replies come to: a body, or no more of this client */
  function ClientBody(buf: seq<byte>, canAllocate: bool, replies: seq<Read>): Arrival {
    if |buf| < LIST_HDR_SIZE || !canAllocate then Error else ReadBody(replies, FromBig(buf[3..11]), [])
  }

  /** What the client handler returns, None while it is still waiting for bytes */
  function ReturnOf(body: Arrival): Option<int> {
    match body
    case Complete(_) => Some(0)
    case Error => Some(-1)
    case Blocked => None
  }

  /** What a complete body decodes to is defined, as it always is of what an encoder wrote. */
  predicate Decodable(buf: seq<byte>, body: Arrival, fc: FloatCodec, rec: nat, ids: nat -> uint16) {
    body.Complete? && |buf| == LIST_HDR_SIZE ==> DecodeList(fc, buf + body.data, rec, ids).defined
  }

  /** A complete list is pushed whole; nothing is pushed otherwise. */
  function AfterClient(a: Spec.Agent, buf: seq<byte>, body: Arrival, fc: FloatCodec, ids: nat -> uint16): Spec.Agent {
    if body.Complete? && |buf| == LIST_HDR_SIZE
    then Spec.Receive(a, DecodeList(fc, buf + body.data, a.store.next, ids).metrics) else a
  }

  /** A list as an encoder writes it, its body arriving in any pieces, is served, and what is pushed is the metrics its
      count announces, in order, in the receiver's next records. Without a complete body nothing is pushed. */
  lemma ClientIsServed(a: Spec.Agent, ms: seq<Metric>, pieces: seq<seq<byte>>, replies: seq<Read>, fc: FloatCodec,
                       ids: nat -> uint16)
    requires AllHoldable(fc, ms) && ShortNames(ms) && BodySize(ms) < TWO_64
    requires |replies| == |pieces| && forall i :: 0 <= i < |replies| ==> replies[i] == Bytes(pieces[i])
    requires pieces != [] && (forall i :: 0 < i < |pieces| ==> pieces[i] != []) && Flatten(pieces) == Body(fc, ms)
    ensures var buf := EncodeList(fc, ms)[..11];
            var body := ClientBody(buf, true, replies);
            && ReturnOf(body) == Some(0) && Decodable(buf, body, fc, a.store.next, ids)
            && AfterClient(a, buf, body, fc, ids) == Spec.Receive(a, Restored(Announced(ms), a.store.next, ids))
  {
    hide DecodeList, EncodeList, Announced, Body, BodySize, FromBig;
    var bytes := EncodeList(fc, ms);
    ListHeaderFields(fc, ms);
    assert bytes[..11][3..11] == bytes[3..11] && bytes[..11] + bytes[11..] == bytes;
    PiecesComplete(pieces, replies, []);
    assert [] + Flatten(pieces) == Flatten(pieces);
    ListRoundTrip(fc, ms, a.store.next, ids);
  }

  lemma ClientPushesNothing(a: Spec.Agent, buf: seq<byte>, canAllocate: bool, replies: seq<Read>, fc: FloatCodec,
                            ids: nat -> uint16)
    ensures var body := ClientBody(buf, canAllocate, replies);
            && (|buf| < 11 || !canAllocate ==> body == Error)
            && (body == Error ==> ReturnOf(body) == Some(-1)) && (body == Blocked ==> ReturnOf(body) == None)
            && (!body.Complete? ==> AfterClient(a, buf, body, fc, ids) == a)
  {}

  /** The client handler up to its disconnection: a complete list is pushed whole, and nothing otherwise. */
  method ReadList(agent: Monikor, buf: seq<byte>, canAllocate: bool, replies: seq<Read>, host: Host, fc: FloatCodec,
                  ids: nat -> uint16) returns (r: Option<int>)
    requires agent.Valid() && |buf| <= LIST_HDR_SIZE
    requires Decodable(buf, ClientBody(buf, canAllocate, replies), fc, agent.metrics.next, ids)
    modifies agent`exits, agent.metrics, agent.metrics.Lists(), agent.metrics.repr
    ensures agent.Valid() && r == ReturnOf(ClientBody(buf, canAllocate, replies))
    ensures agent.State() == AfterClient(old(agent.State()), buf, ClientBody(buf, canAllocate, replies), fc, ids)
  {
    hide DecodeList, ReadBody, FromBig, Monikor.Valid;
    if |buf| < LIST_HDR_SIZE {
      return Some(-1);
    }
    var version, count, size := ListHeaderUnserialize(buf, host);
    if !canAllocate {
      return Some(-1);
    }
    var body := ReadClient(replies, size);
    if body.Complete? {
      HandleClientData(agent, buf, body.data, host, fc, ids);
    }
    return ReturnOf(body);
  }

  /** monikor_server_handle_client: `buf` is what the read of the header gave. Complete or in error, the list ends the
      connection; while its body is awaited nothing happens. */
  method HandleClient(server: Server, handler: Handler, agent: Monikor, buf: seq<byte>, canAllocate: bool,
                      replies: seq<Read>, host: Host, fc: FloatCodec, ids: nat -> uint16, ghost i: nat)
    returns (r: Option<int>)
    requires server.Valid() && i < |server.handlers.nodes| && server.handlers.nodes[i] == handler
    requires handler.role.Client?
    requires agent.Valid() && |buf| <= LIST_HDR_SIZE
    requires Decodable(buf, ClientBody(buf, canAllocate, replies), fc, agent.metrics.next, ids)
    modifies server`nClients, server.sockets, server.handlers, server.handlers.repr`prev, server.handlers.repr`next
    modifies agent`exits, agent.metrics, agent.metrics.Lists(), agent.metrics.repr
    ensures server.Valid() && agent.Valid() && r == ReturnOf(ClientBody(buf, canAllocate, replies))
    ensures agent.State() == AfterClient(old(agent.State()), buf, ClientBody(buf, canAllocate, replies), fc, ids)
    ensures r.Some? ==> server.handlers.nodes == old(server.handlers.nodes)[..i] + old(server.handlers.nodes)[i + 1..]
                        && server.sockets[..] == old(server.sockets[..])[handler.role.slot := INACTIVE]
                        && server.nClients == old(server.nClients) - 1
    ensures r.None? ==> server.handlers.nodes == old(server.handlers.nodes)
                        && server.sockets[..] == old(server.sockets[..]) && server.nClients == old(server.nClients)
  {
    hide AfterClient, Decodable, ClientBody, Monikor.Valid, Monikor.State;
    r := ReadList(agent, buf, canAllocate, replies, host, fc, ids);
    if r.Some? {
      server.Disconnect(handler, i);
    }
  }

  // ---------- From agent to agent ----------

  /** From one agent's list to another's store, whatever the byte orders of the two hosts: the receiver's state is
      the one it gets by pushing, in order and in records of its own, the metrics the list's count announces. */
  method Relay(list: MetricList, from: Host, agent: Monikor, to: Host, fc: FloatCodec, ids: nat -> uint16)
    requires list.Valid() && agent.Valid()
    requires AllHoldable(fc, list.contents) && ShortNames(list.contents) && BodySize(list.contents) < TWO_64
    modifies agent`exits, agent.metrics, agent.metrics.Lists(), agent.metrics.repr
    ensures agent.Valid()
    ensures agent.State() == Spec.Receive(old(agent.State()),
                                          Restored(Announced(old(list.contents)), old(agent.metrics.next), ids))
  {
    hide DecodeList, EncodeList, Announced;
    var ms, next := list.contents, agent.metrics.next;
    var bytes := Serialize(list, from, fc);
    ListHeaderFields(fc, ms);
    ListRoundTrip(fc, ms, next, ids);
    var wire := bytes[..];
    assert wire[..LIST_HDR_SIZE] + wire[LIST_HDR_SIZE..] == wire && wire[..LIST_HDR_SIZE][3..11] == wire[3..11];
    HandleClientData(agent, wire[..LIST_HDR_SIZE], wire[LIST_HDR_SIZE..], to, fc, ids);
  }
}
