/** A child command: its output is read, its exit is reaped, and its callback waits for both. */
module Commands {
  import opened Metrics

  const READ_SIZE := 4096
  const PROCESS_DONE: bv8 := 1
  const READ_DONE: bv8 := 2
  const FAILED: bv8 := 4

  predicate Finished(state: bv8) {
    state & (PROCESS_DONE | READ_DONE) == PROCESS_DONE | READ_DONE
  }

  predicate Has(state: bv8, bit: bv8) {
    state & bit != 0
  }

  type chunk = b: seq<byte> | |b| == READ_SIZE witness seq(READ_SIZE, _ => 0)
  type piece = b: seq<byte> | |b| < READ_SIZE witness []

  /** How the reads of one readable event end: with fewer bytes than asked for, none at end of file, or an error */
  datatype Ending = Short(bytes: piece) | ReadError

  datatype Event = Readable(full: seq<chunk>, last: Ending) | Exits(clean: bool)

  /** `reports` holds what the callback saw, each time it was called. */
  datatype Command = Command(state: bv8, open: bool, output: seq<byte>, reports: seq<(bv8, seq<byte>)>)

  const STARTED := Command(0, true, [], [])

  function Concat(chunks: seq<chunk>): seq<byte> {
    if chunks == [] then [] else Concat(chunks[..|chunks| - 1]) + chunks[|chunks| - 1]
  }

  // The bits set when the process exits, when its output ends, and when a read fails

  function Exit(state: bv8, clean: bool): bv8 {
    state | PROCESS_DONE | if clean then 0 else FAILED
  }

  function End(state: bv8): bv8 {
    state | READ_DONE
  }

  function Fail(state: bv8): bv8 {
    state | READ_DONE | FAILED
  }

  function MaybeFinish(c: Command): Command {
    if Finished(c.state) then c.(reports := c.reports + [(c.state, c.output)]) else c
  }

  /** A closed descriptor is never readable; a read error discards the output and does not look whether the command is
      finished. */
  function Step(c: Command, ev: Event): Command {
    match ev
    case Exits(clean) =>
      MaybeFinish(c.(state := Exit(c.state, clean)))
    case Readable(full, last) =>
      if !c.open then c
      else match last
        case ReadError => c.(state := Fail(c.state), output := [], open := false)
        case Short(bytes) =>
          var d := c.(output := c.output + Concat(full) + bytes);
          MaybeFinish(if bytes == [] then d.(state := End(d.state), open := false) else d)
  }

  function Run(evs: seq<Event>): Command {
    if evs == [] then STARTED else Step(Run(evs[..|evs| - 1]), evs[|evs| - 1])
  }

  // ---------- Histories ----------

  function Exited(evs: seq<Event>): nat {
    if evs == [] then 0 else Exited(evs[..|evs| - 1]) + if evs[|evs| - 1].Exits? then 1 else 0
  }

  /** The exits of a run were all clean. */
  predicate Clean(evs: seq<Event>) {
    forall ev :: ev in evs && ev.Exits? ==> ev.clean
  }

  /** A read that finds the end of the output, or fails: the last the descriptor sees */
  predicate Ends(ev: Event) {
    ev.Readable? && (ev.last.ReadError? || ev.last.bytes == [])
  }

  predicate Ended(evs: seq<Event>) {
    exists ev :: ev in evs && Ends(ev)
  }

  /** The read that ended the output of a run failed. */
  predicate ReadFailed(evs: seq<Event>) {
    evs != [] && (ReadFailed(evs[..|evs| - 1]) || FailsAfter(evs[..|evs| - 1], evs[|evs| - 1]))
  }

  /** ... and came once the process had exited. */
  predicate ReadFailedLate(evs: seq<Event>) {
    evs != [] &&
    (ReadFailedLate(evs[..|evs| - 1])
     || (Exited(evs[..|evs| - 1]) > 0 && FailsAfter(evs[..|evs| - 1], evs[|evs| - 1])))
  }

  predicate FailsAfter(evs: seq<Event>, ev: Event) {
    !Ended(evs) && ev.Readable? && ev.last.ReadError?
  }

  /** The bytes of every read up to the one that ended the output */
  function AllRead(evs: seq<Event>): seq<byte> {
    if evs == [] then []
    else
      var front, ev := evs[..|evs| - 1], evs[|evs| - 1];
      AllRead(front) + if !Ended(front) && ev.Readable? && ev.last.Short? then Concat(ev.full) + ev.last.bytes else []
  }

  // ---------- Properties of every run ----------

  lemma ExitBits(state: bv8, clean: bool)
    ensures Has(Exit(state, clean), PROCESS_DONE)
    ensures Has(Exit(state, clean), READ_DONE) == Has(state, READ_DONE)
    ensures Has(Exit(state, clean), FAILED) == (Has(state, FAILED) || !clean)
  {}

  lemma ReadBits(state: bv8)
    ensures Has(End(state), READ_DONE) && Has(Fail(state), READ_DONE) && Has(Fail(state), FAILED)
    ensures Has(End(state), PROCESS_DONE) == Has(Fail(state), PROCESS_DONE) == Has(state, PROCESS_DONE)
    ensures Has(End(state), FAILED) == Has(state, FAILED)
  {}

  predicate FailsToRead(c: Command, ev: Event) {
    c.open && ev.Readable? && ev.last.ReadError?
  }

  /** Each event sets the bits it stands for, and clears none; a read that ends the output closes the descriptor. */
  lemma StepBits(c: Command, ev: Event)
    ensures var d := Step(c, ev);
            && (Has(d.state, PROCESS_DONE) <==> Has(c.state, PROCESS_DONE) || ev.Exits?)
            && (Has(d.state, READ_DONE) <==> Has(c.state, READ_DONE) || (c.open && !d.open))
            && (Has(d.state, FAILED) <==> Has(c.state, FAILED) || (ev.Exits? && !ev.clean) || FailsToRead(c, ev))
            && (d.open <==> c.open && !Ends(ev))
  {
    hide Has, Finished, Concat, Exit, End, Fail;
    ReadBits(c.state);
    if ev.Exits? {
      ExitBits(c.state, ev.clean);
    }
  }

  lemma EndedStep(evs: seq<Event>, ev: Event)
    ensures Ended(evs + [ev]) <==> Ended(evs) || Ends(ev)
    ensures Clean(evs + [ev]) <==> Clean(evs) && (ev.Exits? ==> ev.clean)
  {
    assert ev in evs + [ev] && forall e :: e in evs ==> e in evs + [ev];
  }

  /** In every run the descriptor is open until a read finds the end of the output or fails, and the state bits say: the
      process exited; the output ended; a read failed, or the exit was not clean. */
  lemma {:induction false} BitsTell(evs: seq<Event>)
    ensures var c := Run(evs);
            && (c.open <==> !Ended(evs))
            && (Has(c.state, PROCESS_DONE) <==> Exited(evs) > 0)
            && (Has(c.state, READ_DONE) <==> Ended(evs))
            && (Has(c.state, FAILED) <==> ReadFailed(evs) || !Clean(evs))
  {
    hide Step, Has, Ended, Clean;
    if evs == [] {
      StartBits();
    } else {
      var n := |evs| - 1;
      BitsTell(evs[..n]);
      StepBits(Run(evs[..n]), evs[n]);
      assert evs == evs[..n] + [evs[n]];
      EndedStep(evs[..n], evs[n]);
    }
  }

  lemma StartBits()
    ensures !Ended([]) && Clean([])
    ensures !Has(STARTED.state, PROCESS_DONE) && !Has(STARTED.state, READ_DONE) && !Has(STARTED.state, FAILED)
  {}

  lemma FinishedBits(state: bv8)
    ensures Finished(state) <==> Has(state, PROCESS_DONE) && Has(state, READ_DONE)
  {}

  lemma FinishedTells(evs: seq<Event>)
    ensures Finished(Run(evs).state) <==> Exited(evs) > 0 && Ended(evs)
  {
    BitsTell(evs);
    FinishedBits(Run(evs).state);
  }

  /** With one exit, the callback is called at most once, and exactly when the output has ended, the process has exited,
      and it was not a read failing after that exit that ended the output; it then sees both bits, and nothing changes
      after it. */
  lemma {:induction false} CallbackOnce(evs: seq<Event>)
    requires Exited(evs) <= 1
    ensures var c := Run(evs);
            && c.reports == (if Exited(evs) == 1 && Ended(evs) && !ReadFailedLate(evs)
                             then [(c.state, c.output)] else [])
            && (c.reports != [] ==> Finished(c.state))
            && (ReadFailedLate(evs) ==> Exited(evs) == 1 && Ended(evs))
  {
    hide Finished, Ended;
    if evs == [] {
      StartBits();
    } else {
      var n := |evs| - 1;
      CallbackOnce(evs[..n]);
      FinishedTells(evs[..n]);
      FinishedTells(evs);
      BitsTell(evs[..n]);
      assert evs == evs[..n] + [evs[n]];
      EndedStep(evs[..n], evs[n]);
    }
  }

  /** What an event does to the output */
  lemma StepOutput(c: Command, ev: Event)
    ensures Step(c, ev).output == if FailsToRead(c, ev) then []
                                  else if c.open && ev.Readable? then c.output + (Concat(ev.full) + ev.last.bytes)
                                  else c.output
  {
    hide Concat, Finished;
    if c.open && ev.Readable? && ev.last.Short? {
      var full := Concat(ev.full);
      assert c.output + full + ev.last.bytes == c.output + (full + ev.last.bytes);
    }
  }

  /** In every run the output is every byte read up to the end of the output, unless a failed read ended it, which
      leaves none. */
  lemma {:induction false} OutputIsAllRead(evs: seq<Event>)
    ensures Run(evs).output == if ReadFailed(evs) then [] else AllRead(evs)
    ensures ReadFailed(evs) ==> Ended(evs)
  {
    hide Step, Concat, Ended;
    if evs != [] {
      var n := |evs| - 1;
      OutputIsAllRead(evs[..n]);
      BitsTell(evs[..n]);
      StepOutput(Run(evs[..n]), evs[n]);
      assert evs == evs[..n] + [evs[n]];
      EndedStep(evs[..n], evs[n]);
    }
  }

  // ---------- The command as it runs ----------

  class CommandExec {
    var state: bv8
    var open: bool          // the output descriptor has not been closed
    var output: seq<byte>
    var reports: seq<(bv8, seq<byte>)>

    function State(): Command
      reads this
    {
      Command(state, open, output, reports)
    }

    constructor ()
      ensures State() == STARTED
    {
      state, open, output, reports := 0, true, [], [];
    }

    method MaybeFinishCommandExec()
      modifies this`reports
      ensures State() == MaybeFinish(old(State()))
    {
      if Finished(state) {
        reports := reports + [(state, output)];
      }
    }

    /** Reads until fewer bytes come than were asked for. */
    method HandleCommandOutput(full: seq<chunk>, last: Ending)
      requires open
      modifies this
      ensures State() == Step(old(State()), Readable(full, last))
      ensures open <==> last.Short? && last.bytes != []
    {
      var nReads := 0;
      var readBytes := READ_SIZE;
      while readBytes == READ_SIZE
        invariant nReads <= |full| + 1 && (readBytes == READ_SIZE <==> nReads <= |full|)
        invariant state == old(state) && open && reports == old(reports)
        invariant nReads <= |full| ==> output == old(output) + Concat(full[..nReads])
        invariant nReads > |full| ==>
                    && last.Short? && readBytes == |last.bytes|
                    && output == old(output) + Concat(full) + last.bytes
        decreases |full| + 1 - nReads
      {
        if nReads == |full| && last.ReadError? {
          state := state | READ_DONE | FAILED;
          output := [];
          open := false;
          return;
        }
        var bytes := if nReads < |full| then full[nReads] else last.bytes;
        assert nReads < |full| ==> full[..nReads + 1][..nReads] == full[..nReads];
        assert full[..|full|] == full;
        readBytes := |bytes|;
        output := output + bytes;
        nReads := nReads + 1;
      }
      if readBytes == 0 {
        state := state | READ_DONE;
        open := false;
      }
      MaybeFinishCommandExec();
    }

    method HandleProcessExit(clean: bool)
      modifies this
      ensures State() == Step(old(State()), Exits(clean))
    {
      state := state | PROCESS_DONE;
      if !clean {
        state := state | FAILED;
      }
      MaybeFinishCommandExec();
    }
  }
}
