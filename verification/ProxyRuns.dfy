/** What every run of the proxy keeps, for every order of chunks, write callbacks, drains, failures,
    ends and timers, and where a run that settles ends up. */
module ProxyRuns {
  import opened Wire
  import opened Wrappers
  import opened ProxySpec

  /** The exit code that a verdict on the whole stream calls for. */
  function CodeOf(v: Verdict): nat {
    if v.Exited? then v.code else 1
  }

  // ---------- The invariant ----------

  /** `pending` counts the outstanding callbacks; without trouble each write is one or the other;
      output that is owed has an armed stall timer. */
  ghost predicate WritesInv(s: Proxy) {
    var n, w := |s.input.parser.writes|, s.writes;
    && (forall i :: i in w.outstanding ==> i < n)
    && (forall i :: i in w.acked ==> i < n)
    && w.outstanding !! w.acked
    && w.pending >= 0
    && (s.ending.exited ==> w.pending == 0)
    && (s.ending.exited && !s.ending.trouble ==> w.outstanding == {})
    && (!s.ending.exited ==> w.pending == |w.outstanding|)
    && (!s.ending.trouble ==> forall i: nat :: i < n ==> i in w.outstanding || i in w.acked)
    && (!s.ending.exited ==> (s.ending.stall <==> !w.Idle()))
  }

  /** The exit function is called once, when `exited` is set, with the code decided by then. */
  ghost predicate EndingInv(s: Proxy) {
    var e := s.ending;
    && (e.exited ==> e.finishing.Some?)
    && e.exits == (if e.exited then [e.finishing.value] else [])
    && (e.finishing.None? ==> !e.failing && !e.trouble)
    && (e.failing || e.trouble ==> e.finishing == Some(1))
    && (!e.exited ==> (e.deadline <==> e.finishing.Some? || s.input.parser.phase.Done?))
    && (e.exited ==> !e.deadline && !e.stall)
    && (e.destroyed <==> e.finishing.Some?)
    && (e.inputStopped <==> e.finishing.Some? || s.input.parser.phase.Done?)
    && (e.finishing.Some? && s.writes.pending == 0 && !e.exited ==> e.trouble)
  }

  /** The parser is where the bytes read so far take it, and a decided code is its verdict. */
  ghost predicate VerdictInv(s: Proxy) {
    var i, e := s.input, s.ending;
    && i.parser == FeedAll(START, i.consumed)
    && (i.parser.phase.Rejected? ==> e.finishing == Some(1))
    && (i.parser.phase.Done? ==> e.finishing.Some? || e.deadline)
    && (e.finishing.Some? && !e.trouble ==>
          && e.finishing == Some(CodeOf(i.parser.phase.AtEnd()))
          && (i.parser.phase.Rejected? || (i.remoteEnded && i.Unread() == [])))
  }

  ghost predicate Inv(s: Proxy) {
    WritesInv(s) && EndingInv(s) && VerdictInv(s)
  }

  /** Between events nothing readable is left undone: either an output is blocked, or the session is
      finishing, or all bytes are read and the peer has not ended. */
  ghost predicate Quiescent(s: Proxy) {
    s.ending.finishing.None? && s.writes.blocked == {} ==> s.input.Unread() == [] && !s.input.remoteEnded
  }

  // ---------- Preservation ----------

  lemma TakeKeepsParser(i: Input)
    requires i.Unread() != [] && i.parser == FeedAll(START, i.consumed)
    ensures Take(i).parser == FeedAll(START, Take(i).consumed)
  {
    var b := i.Unread()[0];
    FeedAllConcat(START, i.consumed, [b]);
    assert FeedAll(i.parser, [b]) == Feed(i.parser, b);
  }

  /** A byte completes at most one write, and never takes one back. */
  lemma FeedWrites(p: Parser, b: byte)
    requires p.phase.Valid()
    ensures Feed(p, b).writes == p.writes || |Feed(p, b).writes| == |p.writes| + 1
    ensures Feed(p, b).writes != p.writes ==> p.phase.Body? && Feed(p, b).phase == Header([])
  {}

  lemma WriteKeeps(s: Proxy, t: Proxy, output: Output)
    requires WritesInv(s) && EndingInv(s) && s.ending.finishing.None?
    requires |t.input.parser.writes| == |s.input.parser.writes| + 1
    requires !s.input.parser.phase.Done? && !t.input.parser.phase.Done?
    requires t.writes == s.writes && t.ending == s.ending
    ensures var u := AfterByte(|s.input.parser.writes|, t, output);
            WritesInv(u) && EndingInv(u) && (u.ending.finishing.None? || u.ending.trouble)
  {
    var i := |s.input.parser.writes|;
    assert i !in s.writes.outstanding;
    if output(i).Threw? {
      ThrewKeeps(s, t, output);
    } else {
      IssuedKeeps(s, t, output);
      IssuedKeepsEnding(s, t, output);
    }
  }

  lemma IssuedKeeps(s: Proxy, t: Proxy, output: Output)
    requires WritesInv(s) && EndingInv(s) && s.ending.finishing.None?
    requires |t.input.parser.writes| == |s.input.parser.writes| + 1
    requires !s.input.parser.phase.Done? && !t.input.parser.phase.Done?
    requires t.writes == s.writes && t.ending == s.ending && !output(|s.input.parser.writes|).Threw?
    ensures WritesInv(AfterByte(|s.input.parser.writes|, t, output))
  {
    OneMore(s.writes.outstanding, |s.input.parser.writes|);
  }

  lemma OneMore(outstanding: set<nat>, i: nat)
    requires forall j :: j in outstanding ==> j < i
    ensures |outstanding + {i}| == |outstanding| + 1
  {}

  lemma IssuedKeepsEnding(s: Proxy, t: Proxy, output: Output)
    requires WritesInv(s) && EndingInv(s) && s.ending.finishing.None?
    requires |t.input.parser.writes| == |s.input.parser.writes| + 1
    requires !s.input.parser.phase.Done? && !t.input.parser.phase.Done?
    requires t.writes == s.writes && t.ending == s.ending && !output(|s.input.parser.writes|).Threw?
    ensures var u := AfterByte(|s.input.parser.writes|, t, output);
            EndingInv(u) && u.ending.finishing.None?
  {}

  lemma ThrewKeeps(s: Proxy, t: Proxy, output: Output)
    requires WritesInv(s) && EndingInv(s) && s.ending.finishing.None?
    requires |t.input.parser.writes| == |s.input.parser.writes| + 1
    requires !s.input.parser.phase.Done? && !t.input.parser.phase.Done?
    requires t.writes == s.writes && t.ending == s.ending && output(|s.input.parser.writes|).Threw?
    ensures var u := AfterByte(|s.input.parser.writes|, t, output);
            WritesInv(u) && EndingInv(u) && u.ending.trouble
  {}

  lemma TakeByteKeeps(s: Proxy, output: Output)
    requires Inv(s) && Reading(s)
    ensures Inv(TakeByte(s, output))
  {
    TakeKeepsParser(s.input);
    FeedWrites(s.input.parser, s.input.Unread()[0]);
    var t := s.(input := Take(s.input));
    if t.input.parser.writes != s.input.parser.writes {
      WriteKeeps(s, t, output);
    }
  }

  lemma {:induction false} PumpLoopKeeps(s: Proxy, output: Output)
    requires Inv(s)
    ensures Inv(PumpLoop(s, output))
    decreases |s.input.Unread()|
  {
    if Reading(s) {
      TakeByteKeeps(s, output);
      PumpLoopKeeps(TakeByte(s, output), output);
    }
  }

  lemma PumpKeeps(s: Proxy, output: Output)
    requires Inv(s)
    ensures Inv(Pump(s, output)) && Quiescent(Pump(s, output))
  {
    PumpLoopKeeps(s, output);
  }

  lemma StepKeeps(s: Proxy, e: Event, output: Output)
    requires Inv(s) && Quiescent(s) && Enabled(s, e)
    ensures Inv(Step(s, e, output)) && Quiescent(Step(s, e, output))
  {
    match e
    case Readable(chunk) => PumpKeeps(s.(input := s.input.(readable := s.input.readable + chunk)), output);
    case Drained(channel) =>
      if !s.ending.exited {
        var w := s.writes.(blocked := s.writes.blocked - {channel});
        PumpKeeps(s.(writes := w, ending := UpdateStall(s.ending, w)), output);
      }
    case RemoteEnd => PumpKeeps(s.(input := s.input.(remoteEnded := true)), output);
    case WriteDone(i, ok) => CallbackKeeps(s, i, ok);
    case _ =>
  }

  lemma CallbackKeeps(s: Proxy, i: nat, ok: bool)
    requires Inv(s) && Quiescent(s) && i in s.writes.outstanding
    ensures Inv(WriteCallback(s, i, ok)) && Quiescent(WriteCallback(s, i, ok))
  {
    assert |s.writes.outstanding - {i}| == |s.writes.outstanding| - 1;
  }

  ghost predicate RunInv(leftover: seq<byte>, events: seq<Event>, output: Output) {
    var s := Run(leftover, events, output);
    Inv(s) && Quiescent(s)
  }

  lemma {:induction false} RunKeeps(leftover: seq<byte>, events: seq<Event>, output: Output)
    requires Possible(leftover, events, output)
    ensures RunInv(leftover, events, output)
    decreases |events|
  {
    if events == [] {
      PumpKeeps(Start(leftover), output);
    } else {
      var n := |events| - 1;
      PossiblePrefix(leftover, events, output, n);
      RunKeeps(leftover, events[..n], output);
      var s := Run(leftover, events[..n], output);
      assert Enabled(s, events[n]);
      StepKeeps(s, events[n], output);
    }
  }

  lemma PossiblePrefix(leftover: seq<byte>, events: seq<Event>, output: Output, n: nat)
    requires Possible(leftover, events, output) && n <= |events|
    ensures Possible(leftover, events[..n], output)
  {
    forall k | 0 <= k < n ensures Enabled(Run(leftover, events[..n][..k], output), events[..n][k]) {
      assert events[..n][..k] == events[..k];
    }
  }
}
