/** The broker's half and the proxy's half together: what the child wrote is what comes out, and its
    code is the exit code, or the session visibly fails. */
module EndToEnd {
  import opened Wire
  import opened ProxySpec
  import opened ProxyTheorems
  import ProxyRuns
  import Handshake
  import BrokerRelay

  /** The bytes after the answer line reach the relay whole: those that came with the line as leftover,
      those that came later as chunks. `shake` is what the client saw until its promise settled. */
  ghost predicate Delivers(shake: seq<Handshake.Event>, parse: seq<byte> -> Handshake.Json,
                           leftover: seq<byte>, events: seq<Event>, ready: seq<byte>, wire: seq<byte>) {
    var client := Handshake.Run(shake, parse);
    && client.settlements != [] && client.settlements[0].Resolved?
    && client.later == [] && client.settlements[0].leftover == leftover
    && Handshake.NEWLINE !in ready
    && Handshake.Arrived(shake) + Chunks(events) <= ready + [Handshake.NEWLINE] + wire
  }

  function Chunks(events: seq<Event>): seq<byte> {
    Received([], events)
  }

  lemma {:induction false} ReceivedSplits(leftover: seq<byte>, events: seq<Event>)
    ensures Received(leftover, events) == leftover + Chunks(events)
    decreases |events|
  {
    if events == [] {
      assert leftover + [] == leftover;
    } else {
      ReceivedSplits(leftover, events[..|events| - 1]);
    }
  }

  /** Wherever the chunks are cut, the relay is given a prefix of the wire, starting at its first byte;
      and the whole of it when all of it was delivered. */
  lemma HandshakeLosesNothing(shake: seq<Handshake.Event>, parse: seq<byte> -> Handshake.Json,
                              leftover: seq<byte>, events: seq<Event>, ready: seq<byte>, wire: seq<byte>)
    requires Delivers(shake, parse, leftover, events, ready, wire)
    ensures Received(leftover, events) <= wire
    ensures Handshake.Arrived(shake) + Chunks(events) == ready + [Handshake.NEWLINE] + wire
            ==> Received(leftover, events) == wire
  {
    Handshake.AnswerIsFirstLine(shake, parse);
    ReceivedSplits(leftover, events);
    assert leftover + [] == leftover;
    SplitAtLine(Handshake.Arrived(shake), leftover, Chunks(events), ready, wire);
  }

  lemma SplitAtLine(arrived: seq<byte>, leftover: seq<byte>, later: seq<byte>, ready: seq<byte>, wire: seq<byte>)
    requires Handshake.NEWLINE !in ready
    requires var i := Handshake.LineEnd(arrived); i < |arrived| && leftover == arrived[i + 1..]
    requires arrived + later <= ready + [Handshake.NEWLINE] + wire
    ensures leftover + later <= wire
    ensures arrived + later == ready + [Handshake.NEWLINE] + wire ==> leftover + later == wire
  {
    SameLineEnd(arrived, later, ready, wire);
    Tail(arrived, later, |ready| + 1);
    Tail(ready + [Handshake.NEWLINE], wire, |ready| + 1);
    PrefixTails(arrived + later, ready + [Handshake.NEWLINE] + wire, |ready| + 1);
  }

  lemma SameLineEnd(arrived: seq<byte>, later: seq<byte>, ready: seq<byte>, wire: seq<byte>)
    requires Handshake.NEWLINE !in ready && Handshake.LineEnd(arrived) < |arrived|
    requires arrived + later <= ready + [Handshake.NEWLINE] + wire
    ensures Handshake.LineEnd(arrived) == |ready|
  {
    Handshake.LineThenMore(ready, wire);
    LineEndOfPrefix(arrived, later, ready + [Handshake.NEWLINE] + wire);
  }

  lemma LineEndOfPrefix(arrived: seq<byte>, later: seq<byte>, whole: seq<byte>)
    requires arrived + later <= whole && Handshake.LineEnd(arrived) < |arrived|
    ensures Handshake.LineEnd(whole) == Handshake.LineEnd(arrived)
  {
    var i := Handshake.LineEnd(arrived);
    SamePart(arrived, later, whole, i);
    Handshake.LineEndUnique(whole, i);
  }

  lemma SamePart(arrived: seq<byte>, later: seq<byte>, whole: seq<byte>, i: nat)
    requires arrived + later <= whole && i < |arrived|
    ensures i < |whole| && whole[i] == arrived[i] && whole[..i] == arrived[..i]
  {
    assert arrived <= arrived + later;
    assert arrived <= whole;
  }

  lemma Tail(s: seq<byte>, t: seq<byte>, n: nat)
    requires n <= |s|
    ensures (s + t)[n..] == s[n..] + t
    ensures n == |s| ==> (s + t)[n..] == t
  {}

  lemma PrefixTails(s: seq<byte>, t: seq<byte>, n: nat)
    requires s <= t && n <= |s|
    ensures s[n..] <= t[n..]
    ensures s == t ==> s[n..] == t[n..]
  {}

  /** The code of a verdict, as the proxy exits with it. */
  lemma CodeComesOut(child: BrokerRelay.Child, turns: seq<BrokerRelay.Turn>)
    requires BrokerRelay.Run(child, turns).status.Finished?
    ensures var code := ProxyRuns.CodeOf(Parse(BrokerRelay.Run(child, turns).wire).verdict);
            && (child.exit.ExitedWith? ==> code == child.exit.status % 256)
            && (child.exit.ExitedWith? && 0 <= child.exit.status < 256 ==> code == child.exit.status)
            && (child.exit.Signalled? ==> code == if child.exit.signal < 127 then 128 + child.exit.signal else 255)
  {
    BrokerRelay.RelayIsFaithful(child, turns);
    CodeOfExit(child.exit, Parse(BrokerRelay.Run(child, turns).wire).verdict);
  }

  lemma CodeOfExit(e: BrokerRelay.ChildExit, v: Verdict)
    requires v == Exited(BrokerRelay.ExitCode(e))
    ensures e.ExitedWith? ==> ProxyRuns.CodeOf(v) == e.status % 256
    ensures e.ExitedWith? && 0 <= e.status < 256 ==> ProxyRuns.CodeOf(v) == e.status
    ensures e.Signalled? ==> ProxyRuns.CodeOf(v) == if e.signal < 127 then 128 + e.signal else 255
  {}

  /** The round trip: a relay that sent its terminal frame, all of it delivered, and a proxy that ran
      into no trouble and settled, give the child's bytes in order on each stream and the child's code,
      for every schedule of reads, sends, chunks, drains and callbacks. */
  lemma RoundTrip(child: BrokerRelay.Child, turns: seq<BrokerRelay.Turn>,
                  shake: seq<Handshake.Event>, parse: seq<byte> -> Handshake.Json, ready: seq<byte>,
                  leftover: seq<byte>, events: seq<Event>, output: Output)
    requires var relay := BrokerRelay.Run(child, turns);
             && relay.status.Finished?
             && Delivers(shake, parse, leftover, events, ready, relay.wire)
             && Handshake.Arrived(shake) + Chunks(events) == ready + [Handshake.NEWLINE] + relay.wire
    requires Possible(leftover, events, output) && Settled(leftover, events, output)
    requires !Run(leftover, events, output).ending.trouble
    ensures var s := Run(leftover, events, output);
            && |s.ending.exits| == 1
            && (child.exit.ExitedWith? ==> s.ending.exits[0] == child.exit.status % 256)
            && (child.exit.ExitedWith? && 0 <= child.exit.status < 256 ==> s.ending.exits[0] == child.exit.status)
            && (child.exit.Signalled? ==>
                  s.ending.exits[0] == if child.exit.signal < 127 then 128 + child.exit.signal else 255)
            && Payload(s.input.parser.writes, STDOUT) == child.stdout
            && Payload(s.input.parser.writes, STDERR) == child.stderr
  {
    var relay := BrokerRelay.Run(child, turns);
    BrokerRelay.RelayIsFaithful(child, turns);
    HandshakeLosesNothing(shake, parse, leftover, events, ready, relay.wire);
    SettledRun(leftover, events, output);
    CodeComesOut(child, turns);
  }

  /** Whatever goes wrong on either side or between them, exit 0 means that the child exited 0 and that
      each of its bytes was written and acknowledged. */
  lemma ExitZeroIsTrue(child: BrokerRelay.Child, turns: seq<BrokerRelay.Turn>,
                       shake: seq<Handshake.Event>, parse: seq<byte> -> Handshake.Json, ready: seq<byte>,
                       leftover: seq<byte>, events: seq<Event>, output: Output)
    requires Delivers(shake, parse, leftover, events, ready, BrokerRelay.Run(child, turns).wire)
    requires Possible(leftover, events, output)
    requires 0 in Run(leftover, events, output).ending.exits
    ensures var s := Run(leftover, events, output);
            && BrokerRelay.Run(child, turns).status.Finished?
            && child.exit.ExitedWith? && child.exit.status % 256 == 0
            && Payload(s.input.parser.writes, STDOUT) == child.stdout
            && Payload(s.input.parser.writes, STDERR) == child.stderr
            && forall i: nat :: i < |s.input.parser.writes| ==> WriteDone(i, true) in events
  {
    HandshakeLosesNothing(shake, parse, leftover, events, ready, BrokerRelay.Run(child, turns).wire);
    NoFalseSuccess(leftover, events, output);
    WholeSession(child, turns, Received(leftover, events), Run(leftover, events, output).input.parser.writes);
  }

  /** A prefix of what a relay sent that is a session with code 0 is the whole of a child's that exited so. */
  lemma WholeSession(child: BrokerRelay.Child, turns: seq<BrokerRelay.Turn>, stream: seq<byte>, writes: seq<Write>)
    requires stream <= BrokerRelay.Run(child, turns).wire && IsSession(stream, writes, 0)
    ensures BrokerRelay.Run(child, turns).status.Finished?
    ensures child.exit.ExitedWith? && child.exit.status % 256 == 0
    ensures Payload(writes, STDOUT) == child.stdout && Payload(writes, STDERR) == child.stderr
  {
    ParseExact(stream, writes, 0);
    assert Parse(stream).verdict == Exited(0);
    WirePrefix(child, turns, stream);
    FinishedWithZero(child, turns, writes);
  }

  lemma FinishedWithZero(child: BrokerRelay.Child, turns: seq<BrokerRelay.Turn>, writes: seq<Write>)
    requires BrokerRelay.Run(child, turns).status.Finished?
    requires Parse(BrokerRelay.Run(child, turns).wire) == Parsed(writes, Exited(0))
    ensures child.exit.ExitedWith? && child.exit.status % 256 == 0
    ensures Payload(writes, STDOUT) == child.stdout && Payload(writes, STDERR) == child.stderr
  {
    BrokerRelay.RelayIsFaithful(child, turns);
    OnlyZero(child.exit, Parse(BrokerRelay.Run(child, turns).wire).verdict);
  }

  lemma OnlyZero(e: BrokerRelay.ChildExit, v: Verdict)
    requires v == Exited(BrokerRelay.ExitCode(e)) && v == Exited(0)
    ensures e.ExitedWith? && e.status % 256 == 0
  {}

  /** A prefix of what a relay sent either is all of a finished session or parses as incomplete. */
  lemma WirePrefix(child: BrokerRelay.Child, turns: seq<BrokerRelay.Turn>, stream: seq<byte>)
    requires stream <= BrokerRelay.Run(child, turns).wire
    ensures var relay := BrokerRelay.Run(child, turns);
            && Parse(stream).writes <= relay.frames
            && (Parse(stream).verdict == Incomplete || (relay.status.Finished? && stream == relay.wire))
  {
    var relay := BrokerRelay.Run(child, turns);
    var code := BrokerRelay.ExitCode(child.exit);
    BrokerRelay.RunKeeps(child, turns);
    if relay.status.Finished? {
      BrokerRelay.RelayIsFaithful(child, turns);
      BrokerRelay.FinishedIsWhole(relay, code);
      if stream == relay.wire {
        assert Parse(stream).writes == relay.frames;
      } else {
        assert stream < relay.wire;
        StrictPrefixIncomplete(relay.frames, code, stream);
      }
    } else {
      BrokerRelay.UnfinishedIsCut(relay, code);
      StrictPrefixIncomplete(relay.frames, code, stream);
    }
  }

  /** At every moment, in every run, each stream was given a prefix of what the child wrote to it. */
  lemma OnlyTheChildsBytes(child: BrokerRelay.Child, turns: seq<BrokerRelay.Turn>,
                           shake: seq<Handshake.Event>, parse: seq<byte> -> Handshake.Json, ready: seq<byte>,
                           leftover: seq<byte>, events: seq<Event>, output: Output)
    requires Delivers(shake, parse, leftover, events, ready, BrokerRelay.Run(child, turns).wire)
    requires Possible(leftover, events, output)
    ensures var writes := Run(leftover, events, output).input.parser.writes;
            && Payload(writes, STDOUT) <= child.stdout
            && Payload(writes, STDERR) <= child.stderr
  {
    var relay := BrokerRelay.Run(child, turns);
    var i := Run(leftover, events, output).input;
    HandshakeLosesNothing(shake, parse, leftover, events, ready, relay.wire);
    ReadSoFar(leftover, events, output);
    WirePrefix(child, turns, i.consumed);
    BrokerRelay.RunKeeps(child, turns);
    BrokerRelay.PayloadPrefix(i.parser.writes, relay.frames, STDOUT);
    BrokerRelay.PayloadPrefix(i.parser.writes, relay.frames, STDERR);
  }
}
