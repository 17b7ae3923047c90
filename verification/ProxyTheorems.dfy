/** The promises of the proxy, for whole runs. */
module ProxyTheorems {
  import opened Wire
  import opened Wrappers
  import opened ProxySpec
  import opened ProxyRuns

  /** Every byte the peer's stream has delivered: the handshake's leftover, then the chunks. */
  function Received(leftover: seq<byte>, events: seq<Event>): seq<byte>
    decreases |events|
  {
    if events == [] then leftover
    else
      var n := |events| - 1;
      Received(leftover, events[..n]) + if events[n].Readable? then events[n].chunk else []
  }

  // ---------- Nothing delivered is lost or reordered ----------

  function Stream(s: Proxy): seq<byte> {
    s.input.consumed + s.input.Unread()
  }

  lemma TakeKeepsStream(s: Proxy, output: Output)
    requires s.input.parser.phase.Valid() && s.input.Unread() != []
    ensures Stream(TakeByte(s, output)) == Stream(s)
    ensures s.input.parser.writes <= TakeByte(s, output).input.parser.writes
    ensures TakeByte(s, output).input.remoteEnded == s.input.remoteEnded
  {
    var i, j := s.input, Take(s.input);
    assert i.Unread() == [i.Unread()[0]] + j.Unread();
    assert i.consumed + i.Unread() == j.consumed + j.Unread();
  }

  lemma {:induction false} PumpLoopKeepsStream(s: Proxy, output: Output)
    requires s.input.parser.phase.Valid()
    ensures Stream(PumpLoop(s, output)) == Stream(s)
    ensures s.input.parser.writes <= PumpLoop(s, output).input.parser.writes
    ensures PumpLoop(s, output).input.remoteEnded == s.input.remoteEnded
    decreases |s.input.Unread()|
  {
    if Reading(s) {
      TakeKeepsStream(s, output);
      PumpLoopKeepsStream(TakeByte(s, output), output);
    }
  }

  lemma PumpKeepsStream(s: Proxy, output: Output)
    requires s.input.parser.phase.Valid()
    ensures Stream(Pump(s, output)) == Stream(s)
    ensures s.input.parser.writes <= Pump(s, output).input.parser.writes
  {
    PumpLoopKeepsStream(s, output);
  }

  lemma StepExtendsStream(s: Proxy, e: Event, output: Output)
    requires s.input.parser.phase.Valid()
    ensures Stream(Step(s, e, output)) == Stream(s) + if e.Readable? then e.chunk else []
    ensures s.input.parser.writes <= Step(s, e, output).input.parser.writes
  {
    match e
    case Readable(chunk) =>
      var t := s.(input := s.input.(readable := s.input.readable + chunk));
      assert Stream(t) == Stream(s) + chunk;
      PumpKeepsStream(t, output);
    case Drained(channel) =>
      var w := s.writes.(blocked := s.writes.blocked - {channel});
      PumpKeepsStream(s.(writes := w, ending := UpdateStall(s.ending, w)), output);
    case RemoteEnd => PumpKeepsStream(s.(input := s.input.(remoteEnded := true)), output);
    case _ =>
  }

  lemma {:induction false} RunStream(leftover: seq<byte>, events: seq<Event>, output: Output)
    ensures Stream(Run(leftover, events, output)) == Received(leftover, events)
    decreases |events|
  {
    if events == [] {
      PumpKeepsStream(Start(leftover), output);
    } else {
      var n := |events| - 1;
      RunStream(leftover, events[..n], output);
      StepExtendsStream(Run(leftover, events[..n], output), events[n], output);
    }
  }

  // ---------- The verdict ----------

  /** However the stream was cut up and held back, what was read so far has given the writes and the
      verdict of one-shot parsing. */
  lemma ReadSoFar(leftover: seq<byte>, events: seq<Event>, output: Output)
    requires Possible(leftover, events, output)
    ensures var i := Run(leftover, events, output).input;
            && i.consumed <= Received(leftover, events)
            && Parse(i.consumed) == Parsed(i.parser.writes, i.parser.phase.AtEnd())
  {
    RunKeeps(leftover, events, output);
    RunStream(leftover, events, output);
    var i := Run(leftover, events, output).input;
    FeedAllRefinesParse([], i.consumed);
    assert [] + Parse(i.consumed).writes == Parse(i.consumed).writes;
  }

  /** A stream is rejected by the part that was read: the unread rest cannot change that. */
  lemma RejectionIsFinal(s: seq<byte>, t: seq<byte>)
    requires FeedAll(START, s).phase.Rejected?
    ensures Parse(s + t) == Parse(s)
  {
    FeedAllConcat(START, s, t);
    FeedRejected(FeedAll(START, s), t);
    FeedAllRefinesParse([], s);
    FeedAllRefinesParse([], s + t);
    assert [] + Parse(s).writes == Parse(s).writes;
    assert [] + Parse(s + t).writes == Parse(s + t).writes;
  }

  /** Once a code is decided without trouble, it is the one-shot verdict on all that was delivered. */
  lemma DecidedByStream(leftover: seq<byte>, events: seq<Event>, output: Output)
    requires Possible(leftover, events, output)
    requires var e := Run(leftover, events, output).ending; e.finishing.Some? && !e.trouble
    ensures var s := Run(leftover, events, output);
            && s.ending.finishing == Some(CodeOf(Parse(Received(leftover, events)).verdict))
            && s.input.parser.writes == Parse(Received(leftover, events)).writes
  {
    RunKeeps(leftover, events, output);
    RunStream(leftover, events, output);
    ReadSoFar(leftover, events, output);
    var i := Run(leftover, events, output).input;
    if i.parser.phase.Rejected? {
      RejectionIsFinal(i.consumed, i.Unread());
    } else {
      assert i.consumed + i.Unread() == i.consumed;
    }
  }

  // ---------- What the events say about the state ----------

  function WritesOf(leftover: seq<byte>, events: seq<Event>, output: Output): seq<Write> {
    Run(leftover, events, output).input.parser.writes
  }

  /** How many writes there were when this channel was drained last. */
  function DrainedAt(leftover: seq<byte>, events: seq<Event>, output: Output, channel: byte): nat
    decreases |events|
  {
    if events == [] then 0
    else
      var n := |events| - 1;
      if events[n] == Drained(channel) then |WritesOf(leftover, events[..n], output)|
      else DrainedAt(leftover, events[..n], output, channel)
  }

  /** One of these writes, not before number `from`, is on the channel and was answered `Full`. */
  ghost predicate FullSince(writes: seq<Write>, from: nat, output: Output, channel: byte) {
    exists i :: from <= i < |writes| && FullOn(writes[i], output(i), channel)
  }

  predicate FullOn(w: Write, result: WriteResult, channel: byte) {
    w.channel == channel && result == Full
  }

  /** A write on the channel was answered `Full`, and no drain of the channel has come since. */
  ghost predicate Owed(leftover: seq<byte>, events: seq<Event>, output: Output, channel: byte) {
    FullSince(WritesOf(leftover, events, output), DrainedAt(leftover, events, output, channel), output, channel)
  }

  ghost predicate BlockedInv(s: Proxy, from: nat, output: Output, channel: byte) {
    channel in s.writes.blocked <==> FullSince(s.input.parser.writes, from, output, channel)
  }

  lemma FullSinceGrows(writes: seq<Write>, w: Write, from: nat, output: Output, channel: byte)
    requires from <= |writes|
    ensures FullSince(writes + [w], from, output, channel)
       <==> FullSince(writes, from, output, channel) || FullOn(w, output(|writes|), channel)
  {
    var all := writes + [w];
    assert all[|writes|] == w;
    if FullSince(writes, from, output, channel) {
      var i :| from <= i < |writes| && FullOn(writes[i], output(i), channel);
      assert FullOn(all[i], output(i), channel);
    }
  }

  lemma {:induction false} PumpLoopBlocks(s: Proxy, from: nat, output: Output, channel: byte)
    requires s.input.parser.phase.Valid() && from <= |s.input.parser.writes| && BlockedInv(s, from, output, channel)
    ensures BlockedInv(PumpLoop(s, output), from, output, channel)
    decreases |s.input.Unread()|
  {
    if Reading(s) {
      var t := TakeByte(s, output);
      var writes, b := s.input.parser.writes, s.input.Unread()[0];
      FeedAppends(s.input.parser, b);
      if t.input.parser.writes != writes {
        FullSinceGrows(writes, t.input.parser.writes[|writes|], from, output, channel);
      }
      PumpLoopBlocks(t, from, output, channel);
    }
  }

  lemma FeedAppends(p: Parser, b: byte)
    requires p.phase.Valid()
    ensures var q := Feed(p, b);
            q.writes == p.writes || (|q.writes| == |p.writes| + 1 && q.writes == p.writes + [q.writes[|p.writes|]])
  {}

  lemma PumpBlocks(s: Proxy, from: nat, output: Output, channel: byte)
    requires s.input.parser.phase.Valid() && from <= |s.input.parser.writes| && BlockedInv(s, from, output, channel)
    ensures BlockedInv(Pump(s, output), from, output, channel)
  {
    PumpLoopBlocks(s, from, output, channel);
  }

  lemma StepBlocks(s: Proxy, e: Event, from: nat, output: Output, channel: byte)
    requires s.input.parser.phase.Valid() && !s.ending.exited
    requires from <= |s.input.parser.writes| && BlockedInv(s, from, output, channel)
    ensures BlockedInv(Step(s, e, output), if e == Drained(channel) then |s.input.parser.writes| else from, output,
                       channel)
  {
    match e
    case Readable(chunk) =>
      PumpBlocks(s.(input := s.input.(readable := s.input.readable + chunk)), from, output, channel);
    case Drained(c) =>
      var w := s.writes.(blocked := s.writes.blocked - {c});
      PumpBlocks(s.(writes := w, ending := UpdateStall(s.ending, w)),
                 if c == channel then |s.input.parser.writes| else from, output, channel);
    case RemoteEnd => PumpBlocks(s.(input := s.input.(remoteEnded := true)), from, output, channel);
    case _ =>
  }

  /** Until the exit a channel is blocked exactly when the last write on it that was answered `Full` came after
      the last drain of it. */
  lemma {:induction false} BlockedMeansOwed(leftover: seq<byte>, events: seq<Event>, output: Output, channel: byte)
    requires !Run(leftover, events, output).ending.exited
    ensures DrainedAt(leftover, events, output, channel) <= |WritesOf(leftover, events, output)|
    ensures channel in Run(leftover, events, output).writes.blocked <==> Owed(leftover, events, output, channel)
    decreases |events|
  {
    if events == [] {
      PumpBlocks(Start(leftover), 0, output, channel);
    } else {
      var n := |events| - 1;
      var s := Run(leftover, events[..n], output);
      if s.ending.exited {
        ExitedStays(s, events[n], output);
      } else {
        BlockedMeansOwed(leftover, events[..n], output, channel);
        StepBlocks(s, events[n], DrainedAt(leftover, events[..n], output, channel), output, channel);
        StepExtendsStream(s, events[n], output);
      }
    }
  }

  lemma ExitedStays(s: Proxy, e: Event, output: Output)
    requires s.input.parser.phase.Valid() && s.ending.exited
    ensures Step(s, e, output).ending.exited
  {}

  /** The callback of write `i` came. */
  predicate CalledBack(events: seq<Event>, i: nat) {
    WriteDone(i, true) in events || WriteDone(i, false) in events
  }

  /** The end of the peer was seen exactly when it came; a write is outstanding exactly until its callback, and
      acknowledged only by a callback without an error. */
  ghost predicate EventsInv(s: Proxy, events: seq<Event>, output: Output) {
    && (s.input.remoteEnded <==> RemoteEnd in events)
    && (forall i: nat :: i in s.writes.outstanding <==>
          i < |s.input.parser.writes| && !output(i).Threw? && !CalledBack(events, i))
    && (forall i: nat :: i in s.writes.acked ==> WriteDone(i, true) in events)
    && (forall i: nat :: CalledBack(events, i) ==> i < |s.input.parser.writes|)
  }

  lemma {:induction false} PumpLoopTells(s: Proxy, events: seq<Event>, output: Output)
    requires s.input.parser.phase.Valid() && EventsInv(s, events, output)
    ensures EventsInv(PumpLoop(s, output), events, output)
    decreases |s.input.Unread()|
  {
    if Reading(s) {
      FeedAppends(s.input.parser, s.input.Unread()[0]);
      PumpLoopTells(TakeByte(s, output), events, output);
    }
  }

  lemma PumpTells(s: Proxy, events: seq<Event>, output: Output)
    requires s.input.parser.phase.Valid() && EventsInv(s, events, output)
    ensures EventsInv(Pump(s, output), events, output)
  {
    PumpLoopTells(s, events, output);
  }

  lemma EventAdded(before: seq<Event>, e: Event)
    ensures RemoteEnd in before + [e] <==> RemoteEnd in before || e.RemoteEnd?
    ensures forall i: nat, ok: bool ::
              WriteDone(i, ok) in before + [e] <==> WriteDone(i, ok) in before || e == WriteDone(i, ok)
    ensures forall i: nat :: CalledBack(before + [e], i) <==> CalledBack(before, i) || (e.WriteDone? && e.write == i)
  {}

  lemma StepTells(s: Proxy, before: seq<Event>, e: Event, output: Output)
    requires s.input.parser.phase.Valid() && EventsInv(s, before, output) && Enabled(s, e)
    ensures EventsInv(Step(s, e, output), before + [e], output)
  {
    var after := before + [e];
    EventAdded(before, e);
    match e
    case Readable(chunk) => PumpTells(s.(input := s.input.(readable := s.input.readable + chunk)), after, output);
    case Drained(c) =>
      var w := s.writes.(blocked := s.writes.blocked - {c});
      PumpTells(s.(writes := w, ending := UpdateStall(s.ending, w)), after, output);
    case RemoteEnd => PumpTells(s.(input := s.input.(remoteEnded := true)), after, output);
    case _ =>
  }

  lemma {:induction false} EventsTell(leftover: seq<byte>, events: seq<Event>, output: Output)
    requires Possible(leftover, events, output)
    ensures EventsInv(Run(leftover, events, output), events, output)
    decreases |events|
  {
    if events == [] {
      PumpTells(Start(leftover), [], output);
    } else {
      var n := |events| - 1;
      PossiblePrefix(leftover, events, output, n);
      EventsTell(leftover, events[..n], output);
      assert Enabled(Run(leftover, events[..n], output), events[n]);
      StepTells(Run(leftover, events[..n], output), events[..n], events[n], output);
      assert events[..n] + [events[n]] == events;
    }
  }

  /** The peer has ended, every channel was drained after its last full write, and every write called back. */
  ghost predicate Settled(leftover: seq<byte>, events: seq<Event>, output: Output) {
    && RemoteEnd in events
    && (forall channel :: !Owed(leftover, events, output, channel))
    && (forall i: nat :: i < |WritesOf(leftover, events, output)| ==> CalledBack(events, i))
  }

  lemma SettledIsIdle(leftover: seq<byte>, events: seq<Event>, output: Output)
    requires Settled(leftover, events, output) && !Run(leftover, events, output).ending.exited
    requires EventsInv(Run(leftover, events, output), events, output)
    ensures var w := Run(leftover, events, output).writes; w.blocked == {} && w.outstanding == {}
  {
    forall channel: byte ensures channel !in Run(leftover, events, output).writes.blocked {
      BlockedMeansOwed(leftover, events, output, channel);
    }
  }

  /** Incremental parsing refines one-shot parsing: a run without trouble whose peer has ended and
      whose outputs have drained and called back has exited, once, with the one-shot verdict, having
      written exactly the one-shot frames. */
  lemma SettledRun(leftover: seq<byte>, events: seq<Event>, output: Output)
    requires Possible(leftover, events, output) && Settled(leftover, events, output)
    requires !Run(leftover, events, output).ending.trouble
    ensures var s := Run(leftover, events, output);
            && s.ending.exits == [CodeOf(Parse(Received(leftover, events)).verdict)]
            && s.input.parser.writes == Parse(Received(leftover, events)).writes
  {
    RunKeeps(leftover, events, output);
    EventsTell(leftover, events, output);
    var s := Run(leftover, events, output);
    if !s.ending.exited { SettledIsIdle(leftover, events, output); }
    DecidedByStream(leftover, events, output);
  }

  // ---------- A healthy session comes to its end ----------

  function Callbacks(n: nat): seq<Event> {
    if n == 0 then [] else Callbacks(n - 1) + [WriteDone(n - 1, true)]
  }

  /** The whole session in one chunk, then the callbacks of the first `n` writes. */
  function Delivery(session: seq<byte>, n: nat): seq<Event> {
    [Readable(session)] + Callbacks(n)
  }

  lemma {:induction false} CallbacksAre(n: nat, e: Event)
    ensures e in Callbacks(n) <==> e.WriteDone? && e.ok && e.write < n
    decreases n
  {
    if n > 0 { CallbacksAre(n - 1, e); }
  }

  lemma DeliveryIs(session: seq<byte>, n: nat, e: Event)
    ensures e in Delivery(session, n) <==> e == Readable(session) || (e.WriteDone? && e.ok && e.write < n)
  {
    CallbacksAre(n, e);
  }

  lemma DeliverySnoc(session: seq<byte>, n: nat)
    ensures Delivery(session, n + 1) == Delivery(session, n) + [WriteDone(n, true)]
  {}

  lemma {:induction false} DeliveryReceived(session: seq<byte>, n: nat)
    ensures Received([], Delivery(session, n)) == session
    decreases n
  {
    if n == 0 {
      assert Delivery(session, 0)[..0] == [];
      assert Received([], []) == [];
    } else {
      DeliverySnoc(session, n - 1);
      DeliveryReceived(session, n - 1);
      var before := Delivery(session, n - 1);
      assert (before + [WriteDone(n - 1, true)])[..|before|] == before;
    }
  }

  lemma PossibleSnoc(leftover: seq<byte>, events: seq<Event>, e: Event, output: Output)
    requires Possible(leftover, events, output) && Enabled(Run(leftover, events, output), e)
    ensures Possible(leftover, events + [e], output)
  {
    var all := events + [e];
    forall k | 0 <= k < |all| ensures Enabled(Run(leftover, all[..k], output), all[k]) {
      if k < |events| { assert all[..k] == events[..k]; } else { assert all[..k] == events; }
    }
  }

  /** With outputs that accept everything, a session that was delivered whole has been read and written whole. */
  lemma AllRead(writes: seq<Write>, code: byte, session: seq<byte>, events: seq<Event>, n: nat, output: Output)
    requires ValidWrites(writes) && session == FramesOf(writes) + ExitFrame(code) && events == Delivery(session, n)
    requires (forall i :: output(i) == Accepted) && Possible([], events, output)
    ensures var s := Run([], events, output);
            && !s.ending.trouble && !s.input.remoteEnded && s.input.Unread() == []
            && s.input.parser.writes == writes
  {
    forall e | e in events ensures Benign(e) { DeliveryIs(session, n, e); }
    NoTroubleWithoutCause([], events, output);
    EventsTell([], events, output);
    DeliveryIs(session, n, RemoteEnd);
    DeliveryReceived(session, n);
    RunStream([], events, output);
    ParseSession(writes, code, []);
    assert session + [] == session;
    RunKeeps([], events, output);
    AllConsumed([], events, session, output);
    ReadSoFar([], events, output);
  }

  lemma AllConsumed(leftover: seq<byte>, events: seq<Event>, session: seq<byte>, output: Output)
    requires RunInv(leftover, events, output) && (forall i :: output(i) == Accepted)
    requires var s := Run(leftover, events, output);
             !s.ending.trouble && !s.input.remoteEnded && Stream(s) == session && Parse(session).verdict.Exited?
    ensures var s := Run(leftover, events, output); s.input.Unread() == [] && s.input.consumed == session
  {
    var s := Run(leftover, events, output);
    if s.input.parser.phase.Rejected? { RejectedIsNoSession(s.input, session); }
    NothingBlocked(leftover, events, output);
    assert s.input.consumed + [] == s.input.consumed;
  }

  lemma RejectedIsNoSession(i: Input, session: seq<byte>)
    requires i.parser == FeedAll(START, i.consumed) && i.parser.phase.Rejected?
    requires i.consumed + i.Unread() == session
    ensures !Parse(session).verdict.Exited?
  {
    RejectionIsFinal(i.consumed, i.Unread());
    FeedAllRefinesParse([], i.consumed);
  }

  lemma NothingBlocked(leftover: seq<byte>, events: seq<Event>, output: Output)
    requires !Run(leftover, events, output).ending.exited && forall i :: output(i) == Accepted
    ensures Run(leftover, events, output).writes.blocked == {}
  {
    forall channel: byte ensures channel !in Run(leftover, events, output).writes.blocked {
      BlockedMeansOwed(leftover, events, output, channel);
    }
  }

  lemma {:induction false} DeliveryIsPossible(writes: seq<Write>, code: byte, session: seq<byte>, n: nat,
                                              output: Output)
    requires ValidWrites(writes) && session == FramesOf(writes) + ExitFrame(code)
    requires n <= |writes| && forall i :: output(i) == Accepted
    ensures Possible([], Delivery(session, n), output)
    decreases n
  {
    if n == 0 {
      NothingYet([], session, output);
    } else {
      DeliveryIsPossible(writes, code, session, n - 1, output);
      NextCallbackCanCome(writes, code, session, Delivery(session, n - 1), n - 1, output);
      PossibleSnoc([], Delivery(session, n - 1), WriteDone(n - 1, true), output);
      DeliverySnoc(session, n - 1);
    }
  }

  lemma NothingYet(none: seq<Event>, session: seq<byte>, output: Output)
    requires none == []
    ensures Possible([], Delivery(session, 0), output)
  {
    EventsTell([], none, output);
    PossibleSnoc([], none, Readable(session), output);
    assert Delivery(session, 0) == none + [Readable(session)];
  }

  lemma NextCallbackCanCome(writes: seq<Write>, code: byte, session: seq<byte>, events: seq<Event>, n: nat,
                            output: Output)
    requires ValidWrites(writes) && session == FramesOf(writes) + ExitFrame(code) && events == Delivery(session, n)
    requires n < |writes| && (forall i :: output(i) == Accepted) && Possible([], events, output)
    ensures Enabled(Run([], events, output), WriteDone(n, true))
  {
    AllRead(writes, code, session, events, n, output);
    EventsTell([], events, output);
    DeliveryIs(session, n, WriteDone(n, true));
    DeliveryIs(session, n, WriteDone(n, false));
  }

  /** Every session can be completed: delivered whole to outputs that accept it, with every callback and the peer's
      end, it gives exactly its writes, no trouble, and one exit with its code. */
  lemma CanComplete(writes: seq<Write>, code: byte, output: Output) returns (events: seq<Event>)
    requires ValidWrites(writes) && forall i :: output(i) == Accepted
    ensures Possible([], events, output)
    ensures var s := Run([], events, output);
            !s.ending.trouble && s.ending.exits == [code as nat] && s.input.parser.writes == writes
  {
    var session := FramesOf(writes) + ExitFrame(code);
    var before := Delivery(session, |writes|);
    DeliveryIsPossible(writes, code, session, |writes|, output);
    AllRead(writes, code, session, before, |writes|, output);
    PossibleSnoc([], before, RemoteEnd, output);
    events := before + [RemoteEnd];
    EndFollows([], before, output);
    Completes(writes, code, session, events, output);
  }

  lemma EndFollows(leftover: seq<byte>, before: seq<Event>, output: Output)
    ensures Received(leftover, before + [RemoteEnd]) == Received(leftover, before)
    ensures WritesOf(leftover, before + [RemoteEnd], output)
         == Pump(Run(leftover, before, output).(input := Run(leftover, before, output).input.(remoteEnded := true)),
                 output).input.parser.writes
    ensures Run(leftover, before, output).input.Unread() == []
            ==> WritesOf(leftover, before + [RemoteEnd], output) == WritesOf(leftover, before, output)
  {
    assert (before + [RemoteEnd])[..|before|] == before;
    assert Received(leftover, before) + [] == Received(leftover, before);
  }

  lemma Completes(writes: seq<Write>, code: byte, session: seq<byte>, events: seq<Event>, output: Output)
    requires ValidWrites(writes) && session == FramesOf(writes) + ExitFrame(code)
    requires (forall i :: output(i) == Accepted) && events == Delivery(session, |writes|) + [RemoteEnd]
    requires Possible([], events, output) && WritesOf([], events, output) == writes
    requires Received([], events) == Received([], Delivery(session, |writes|))
    ensures var s := Run([], events, output); !s.ending.trouble && s.ending.exits == [code as nat]
  {
    forall e | e in events ensures Benign(e) { DeliveryIs(session, |writes|, e); }
    NoTroubleWithoutCause([], events, output);
    DeliveryReceived(session, |writes|);
    CompletedIsSettled(writes, session, events, output);
    SettledRun([], events, output);
    ParseSession(writes, code, []);
    assert session + [] == session;
  }

  lemma CompletedIsSettled(writes: seq<Write>, session: seq<byte>, events: seq<Event>, output: Output)
    requires forall i :: output(i) == Accepted
    requires events == Delivery(session, |writes|) + [RemoteEnd]
    requires |WritesOf([], events, output)| <= |writes|
    ensures Settled([], events, output)
  {
    forall i: nat | i < |writes| ensures WriteDone(i, true) in events {
      DeliveryIs(session, |writes|, WriteDone(i, true));
    }
    assert RemoteEnd in events;
  }

  predicate Benign(e: Event) {
    e.Readable? || e.Drained? || e.RemoteEnd? || (e.WriteDone? && e.ok)
  }

  lemma {:induction false} PumpTroubleFree(s: Proxy, output: Output)
    requires s.input.parser.phase.Valid() && !s.ending.trouble
    requires forall n :: !output(n).Threw?
    ensures !Pump(s, output).ending.trouble
  {
    PumpLoopTroubleFree(s, output);
  }

  lemma {:induction false} PumpLoopTroubleFree(s: Proxy, output: Output)
    requires s.input.parser.phase.Valid() && !s.ending.trouble
    requires forall n :: !output(n).Threw?
    ensures !PumpLoop(s, output).ending.trouble
    decreases |s.input.Unread()|
  {
    if Reading(s) {
      PumpLoopTroubleFree(TakeByte(s, output), output);
    }
  }

  /** `trouble` means what it says: no write error or throw, no stream failure, no timer, none of it. */
  lemma {:induction false} NoTroubleWithoutCause(leftover: seq<byte>, events: seq<Event>, output: Output)
    requires forall n :: !output(n).Threw?
    requires forall k :: 0 <= k < |events| ==> Benign(events[k])
    ensures !Run(leftover, events, output).ending.trouble
    decreases |events|
  {
    if events == [] {
      PumpTroubleFree(Start(leftover), output);
    } else {
      var n := |events| - 1;
      NoTroubleWithoutCause(leftover, events[..n], output);
      StepTroubleFree(Run(leftover, events[..n], output), events[n], output);
    }
  }

  lemma StepTroubleFree(s: Proxy, e: Event, output: Output)
    requires s.input.parser.phase.Valid() && !s.ending.trouble
    requires Benign(e) && forall n :: !output(n).Threw?
    ensures !Step(s, e, output).ending.trouble
  {
    match e
    case Readable(chunk) => PumpTroubleFree(s.(input := s.input.(readable := s.input.readable + chunk)), output);
    case Drained(channel) =>
      var w := s.writes.(blocked := s.writes.blocked - {channel});
      PumpTroubleFree(s.(writes := w, ending := UpdateStall(s.ending, w)), output);
    case RemoteEnd => PumpTroubleFree(s.(input := s.input.(remoteEnded := true)), output);
    case _ =>
  }

  // ---------- No false success ----------

  /** The proxy exits 0 only when all that was delivered is data frames, one exit frame with code 0,
      and the end, and each write was acknowledged without an error. */
  lemma NoFalseSuccess(leftover: seq<byte>, events: seq<Event>, output: Output)
    requires Possible(leftover, events, output)
    requires 0 in Run(leftover, events, output).ending.exits
    ensures var s := Run(leftover, events, output);
            && s.ending.exits == [0]
            && s.input.remoteEnded
            && IsSession(Received(leftover, events), s.input.parser.writes, 0)
            && (forall i: nat :: i in s.writes.acked <==> i < |s.input.parser.writes|)
            && RemoteEnd in events
            && (forall i: nat :: i < |s.input.parser.writes| ==> WriteDone(i, true) in events)
  {
    RunKeeps(leftover, events, output);
    EventsTell(leftover, events, output);
    DecidedByStream(leftover, events, output);
    var s := Run(leftover, events, output);
    var stream := Received(leftover, events);
    assert Parse(stream).verdict == Exited(0);
    ParseExact(stream, s.input.parser.writes, 0);
  }

  /** So a stream that is a strict prefix or a strict extension of a session never gives exit 0. */
  lemma CutOrPaddedSessionFails(leftover: seq<byte>, events: seq<Event>, output: Output,
                                writes: seq<Write>, code: byte, tail: seq<byte>)
    requires Possible(leftover, events, output)
    requires ValidWrites(writes)
    requires var session := FramesOf(writes) + ExitFrame(code);
             Received(leftover, events) < session || (tail != [] && Received(leftover, events) == session + tail)
    ensures 0 !in Run(leftover, events, output).ending.exits
  {
    var stream := Received(leftover, events);
    if stream < FramesOf(writes) + ExitFrame(code) {
      StrictPrefixIncomplete(writes, code, stream);
    } else {
      ParseSession(writes, code, tail);
    }
    var s := Run(leftover, events, output);
    if 0 in s.ending.exits {
      NoFalseSuccess(leftover, events, output);
      ParseExact(stream, s.input.parser.writes, 0);
    }
  }

  // ---------- The exit state machine ----------

  /** The exit function is called at most once, the pending count is the outstanding callbacks until
      then and never negative, whatever order the events come in. */
  lemma ExitOnce(leftover: seq<byte>, events: seq<Event>, output: Output)
    requires Possible(leftover, events, output)
    ensures var s := Run(leftover, events, output);
            && |s.ending.exits| <= 1
            && s.writes.pending >= 0
            && (s.ending.exits == [] ==> s.writes.pending == |s.writes.outstanding|)
  {
    RunKeeps(leftover, events, output);
  }

  lemma PumpHistory(s: Proxy, output: Output)
    requires Inv(s)
    ensures s.ending.exits <= Pump(s, output).ending.exits
    ensures s.ending.finishing.Some? ==> Pump(s, output) == s
  {
    if s.ending.finishing.None? {
      assert s.ending.exits == [];
    }
  }

  /** A decided failure stays one: a non-zero code never becomes zero again, and no exit is undone. */
  lemma FailureIsSticky(s: Proxy, e: Event, output: Output)
    requires Inv(s) && Quiescent(s) && Enabled(s, e)
    ensures var t := Step(s, e, output);
            && s.ending.exits <= t.ending.exits
            && (s.ending.finishing.Some? ==> t.ending.finishing.Some?)
            && (s.ending.finishing.Some? && s.ending.finishing.value != 0 ==> t.ending.finishing.value != 0)
  {
    match e
    case Readable(chunk) => PumpHistory(s.(input := s.input.(readable := s.input.readable + chunk)), output);
    case Drained(channel) =>
      if !s.ending.exited {
        var w := s.writes.(blocked := s.writes.blocked - {channel});
        PumpHistory(s.(writes := w, ending := UpdateStall(s.ending, w)), output);
      }
    case RemoteEnd => PumpHistory(s.(input := s.input.(remoteEnded := true)), output);
    case _ =>
  }

  /** The proxy never waits on its own outputs, or for the end after an exit frame, without a timer:
      when no timer is armed and it has not exited, it is waiting for the peer's next bytes. */
  lemma EveryWaitIsBounded(leftover: seq<byte>, events: seq<Event>, output: Output)
    requires Possible(leftover, events, output)
    ensures var s := Run(leftover, events, output);
            s.ending.exited || s.ending.stall || s.ending.deadline
            || (&& s.ending.finishing.None? && s.writes.Idle() && s.input.Unread() == []
                && !s.input.remoteEnded && !s.input.parser.phase.Done?)
  {
    RunKeeps(leftover, events, output);
  }

  /** Which timers are armed before the exit: the stall timer exactly while a write waits for its callback or a
      channel for its drain, the deadline exactly once the exit frame was read or a code is decided; and after the
      exit none. So no timer can end a session that owes no output and waits for its peer. */
  lemma TimersExactly(leftover: seq<byte>, events: seq<Event>, output: Output)
    requires Possible(leftover, events, output)
    ensures var s := Run(leftover, events, output);
            && (s.ending.exited ==> !s.ending.stall && !s.ending.deadline)
            && (!s.ending.exited ==>
                  (s.ending.stall <==>
                     (exists i :: Waits(leftover, events, output, i))
                     || (exists channel :: Owed(leftover, events, output, channel))))
            && (!s.ending.exited ==>
                  (s.ending.deadline <==> s.ending.finishing.Some? || s.input.parser.phase.Done?))
  {
    RunKeeps(leftover, events, output);
    EventsTell(leftover, events, output);
    var s := Run(leftover, events, output);
    if !s.ending.exited {
      forall channel: byte
        ensures channel in s.writes.blocked <==> Owed(leftover, events, output, channel)
      {
        BlockedMeansOwed(leftover, events, output, channel);
      }
      forall i: nat ensures i in s.writes.outstanding <==> Waits(leftover, events, output, i) {}
      if s.writes.outstanding != {} { var i :| i in s.writes.outstanding; assert Waits(leftover, events, output, i); }
      if s.writes.blocked != {} {
        var channel :| channel in s.writes.blocked;
        assert Owed(leftover, events, output, channel);
      }
    }
  }

  /** Write `i` was accepted by its stream, and its callback has not come. */
  ghost predicate Waits(leftover: seq<byte>, events: seq<Event>, output: Output, i: nat) {
    i < |WritesOf(leftover, events, output)| && !output(i).Threw? && !CalledBack(events, i)
  }

  /** The socket is destroyed exactly when a code is decided, and the input is stopped then or from the exit frame
      on. */
  lemma InputStops(leftover: seq<byte>, events: seq<Event>, output: Output)
    requires Possible(leftover, events, output)
    ensures var s := Run(leftover, events, output);
            && (s.ending.destroyed <==> s.ending.finishing.Some?)
            && (s.ending.inputStopped <==> s.ending.finishing.Some? || s.input.parser.phase.Done?)
  {
    RunKeeps(leftover, events, output);
  }

  /** What decides a failure before the exit: an error or close of a stream, and an error of a write, always; the close
      of the socket exactly when no code was decided and the peer had not ended. */
  lemma FailuresDecide(leftover: seq<byte>, events: seq<Event>, e: Event, output: Output)
    requires Possible(leftover, events, output) && !Run(leftover, events, output).ending.exited
    ensures e.StreamFailed? || e.SocketClosed? || e.Drained? ==> Enabled(Run(leftover, events, output), e)
    ensures var s := Run(leftover, events, output);
            var t := Step(s, e, output);
            Enabled(s, e) ==>
            && (e.StreamFailed? || (e.WriteDone? && !e.ok) ==> t.ending.finishing == Some(1))
            && (e.SocketClosed? && s.ending.finishing.None? && RemoteEnd !in events ==> t.ending.finishing == Some(1))
            && (e.SocketClosed? && (s.ending.finishing.Some? || RemoteEnd in events) ==> t == s)
  {
    RunKeeps(leftover, events, output);
    EventsTell(leftover, events, output);
  }

  /** A timer that is armed can fire, and then the session has exited with 1 at once. */
  lemma TimersEnd(leftover: seq<byte>, events: seq<Event>, output: Output)
    requires Possible(leftover, events, output)
    ensures var s := Run(leftover, events, output);
            && (s.ending.stall && !s.ending.exited ==>
                  Enabled(s, OutputStalled) && Step(s, OutputStalled, output).ending.exits == [1])
            && (s.ending.deadline && !s.ending.exited ==>
                  Enabled(s, DeadlinePassed) && Step(s, DeadlinePassed, output).ending.exits == [1])
  {
    RunKeeps(leftover, events, output);
  }

  /** A stream that failed, or a write whose callback reported an error, before the exit. */
  ghost predicate Failed(events: seq<Event>) {
    StreamFailed in events || exists i :: WriteDone(i, false) in events
  }

  lemma {:induction false} FailedIsMarked(leftover: seq<byte>, events: seq<Event>, output: Output)
    requires Failed(events) && !Run(leftover, events, output).ending.exited
    ensures Run(leftover, events, output).ending.failing
    decreases |events|
  {
    var n := |events| - 1;
    var s := Run(leftover, events[..n], output);
    assert events == events[..n] + [events[n]];
    if s.ending.exited { ExitedStays(s, events[n], output); }
    if Failed(events[..n]) {
      FailedIsMarked(leftover, events[..n], output);
      MarkStays(s, events[n], output);
    }
  }

  lemma {:induction false} PumpMarks(s: Proxy, output: Output)
    requires s.input.parser.phase.Valid() && s.ending.failing
    ensures Pump(s, output).ending.failing
  {
    PumpLoopMarks(s, output);
  }

  lemma {:induction false} PumpLoopMarks(s: Proxy, output: Output)
    requires s.input.parser.phase.Valid() && s.ending.failing
    ensures PumpLoop(s, output).ending.failing
    decreases |s.input.Unread()|
  {
    if Reading(s) { PumpLoopMarks(TakeByte(s, output), output); }
  }

  lemma MarkStays(s: Proxy, e: Event, output: Output)
    requires s.input.parser.phase.Valid() && s.ending.failing
    ensures Step(s, e, output).ending.failing
  {
    match e
    case Readable(chunk) => PumpMarks(s.(input := s.input.(readable := s.input.readable + chunk)), output);
    case Drained(c) =>
      var w := s.writes.(blocked := s.writes.blocked - {c});
      PumpMarks(s.(writes := w, ending := UpdateStall(s.ending, w)), output);
    case RemoteEnd => PumpMarks(s.(input := s.input.(remoteEnded := true)), output);
    case _ =>
  }

  /** The one slow way out: when the last callback reports an error after the session already failed,
      nothing is pending but `exit` is not called; the deadline has to end the process, with 1. */
  lemma LastErrorAfterFailure(leftover: seq<byte>, events: seq<Event>, i: nat, output: Output)
    requires Possible(leftover, events, output) && Failed(events)
    requires var s := Run(leftover, events, output); !s.ending.exited && s.writes.outstanding == {i}
    ensures var s := Run(leftover, events, output);
            var t := Step(s, WriteDone(i, false), output);
            && t.writes.pending == 0 && !t.ending.exited && Enabled(t, DeadlinePassed)
            && Step(t, DeadlinePassed, output).ending.exits == [1]
            && Step(s, WriteDone(i, true), output).ending.exits == [1]
  {
    RunKeeps(leftover, events, output);
    FailedIsMarked(leftover, events, output);
    LastCallbackErrorWaitsForDeadline(Run(leftover, events, output), i, output);
  }

  /** The same for any state that a failed session can be in. */
  lemma LastCallbackErrorWaitsForDeadline(s: Proxy, i: nat, output: Output)
    requires Inv(s) && s.ending.failing && !s.ending.exited && s.writes.outstanding == {i}
    ensures var t := Step(s, WriteDone(i, false), output);
            && t.writes.pending == 0 && !t.ending.exited && Enabled(t, DeadlinePassed)
            && Step(t, DeadlinePassed, output).ending.exits == [1]
    ensures Step(s, WriteDone(i, true), output).ending.exits == [1]
  {
    assert s.writes.outstanding - {i} == {};
  }

  // ---------- Backpressure ----------

  /** While an output is blocked, nothing that arrives is read; and what is held back between reads is
      a partial header or a single payload of at most 65,536 bytes. */
  lemma BlockedOutputStopsReading(leftover: seq<byte>, events: seq<Event>, e: Event, output: Output)
    ensures var s := Run(leftover, events, output);
            && (s.writes.blocked != {} && !e.Drained? ==> Step(s, e, output).input.consumed == s.input.consumed)
            && match s.input.parser.phase {
                 case Header(got) => |got| < HEADER_BYTES
                 case Body(_, length, got) => |got| < length <= 65536
                 case _ => true
               }
  {}
}
