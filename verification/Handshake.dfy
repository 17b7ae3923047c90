/** The line handshake in front of a session. The client assembles one answer line from whatever
    chunks arrive and passes the rest on; the broker reads its request line a byte at a time, so that
    it takes nothing past the newline. */
module Handshake {
  import opened Wire
  import opened Wrappers

  const NEWLINE: byte := 0x0A
  const MAX_ANSWER_BYTES := 65536
  const MAX_REQUEST_BYTES := 65536

  /** The index of the first newline, or the length when there is none. */
  function LineEnd(s: seq<byte>): (i: nat)
    ensures i <= |s| && NEWLINE !in s[..i] && (i < |s| ==> s[i] == NEWLINE)
  {
    if s == [] || s[0] == NEWLINE then 0
    else
      var i := 1 + LineEnd(s[1..]);
      assert s[..i] == [s[0]] + s[1..][..i - 1];
      i
  }

  lemma LineEndUnique(s: seq<byte>, i: nat)
    requires i < |s| && NEWLINE !in s[..i] && s[i] == NEWLINE
    ensures LineEnd(s) == i
  {
    var j := LineEnd(s);
    forall k | 0 <= k < i ensures s[k] != NEWLINE { assert s[..i][k] == s[k]; }
    forall k | 0 <= k < j ensures s[k] != NEWLINE { assert s[..j][k] == s[k]; }
  }

  // ---------- The client ----------

  /** What the answer line is once it is complete; JSON itself is not part of this model. */
  datatype Json = NotJson | NotObject | Object

  datatype Failure = TimedOut | SocketError | Closed | BadAnswer

  datatype Settlement = Resolved(line: seq<byte>, leftover: seq<byte>) | Refused(failure: Failure)

  datatype Event = Data(chunk: seq<byte>) | Timeout | Error | End | Close

  datatype Client = Client(
    line: seq<byte>,
    settlements: seq<Settlement>,    // history: calls of resolve and reject
    destroyed: bool,
    later: seq<byte>)                // history: what arrived after the promise was settled

  const FRESH := Client([], [], false, [])

  function Refuse(s: Client, failure: Failure): Client {
    if s.settlements != [] then s
    else s.(settlements := s.settlements + [Refused(failure)], destroyed := true)
  }

  function Receive(s: Client, chunk: seq<byte>, parse: seq<byte> -> Json): Client {
    if s.settlements != [] then s.(later := s.later + chunk)
    else
      var newline := LineEnd(chunk);
      if |s.line| + newline > MAX_ANSWER_BYTES then Refuse(s, BadAnswer)
      else
        var t := s.(line := s.line + chunk[..newline]);
        if newline == |chunk| then t
        else if parse(t.line) != Object then Refuse(t, BadAnswer)
        else t.(settlements := t.settlements + [Resolved(t.line, chunk[newline + 1..])])
  }

  function Step(s: Client, e: Event, parse: seq<byte> -> Json): Client {
    match e
    case Data(chunk) => Receive(s, chunk, parse)
    case Timeout => Refuse(s, TimedOut)
    case Error => Refuse(s, SocketError)
    case End => Refuse(s, Closed)
    case Close => Refuse(s, Closed)
  }

  function Run(events: seq<Event>, parse: seq<byte> -> Json): Client
    decreases |events|
  {
    if events == [] then FRESH
    else Step(Run(events[..|events| - 1], parse), events[|events| - 1], parse)
  }

  /** All bytes that arrived. */
  function Arrived(events: seq<Event>): seq<byte>
    decreases |events|
  {
    if events == [] then []
    else
      var n := |events| - 1;
      Arrived(events[..n]) + if events[n].Data? then events[n].chunk else []
  }

  /** Until it is settled the client holds exactly what arrived, and none of it is a newline. A resolved
      answer is exactly the first line, at most 65,536 bytes long, and the leftover with what comes
      later is exactly the rest. */
  ghost predicate Inv(s: Client, arrived: seq<byte>) {
    && |s.settlements| <= 1
    && (s.settlements == [] ==>
          s.line == arrived && NEWLINE !in s.line && |s.line| <= MAX_ANSWER_BYTES && s.later == [])
    && (s.settlements != [] && s.settlements[0].Resolved? ==>
          var r := s.settlements[0];
          && |r.line| <= MAX_ANSWER_BYTES
          && |r.line| == LineEnd(arrived)
          && arrived == r.line + [NEWLINE] + r.leftover + s.later)
  }

  lemma LineThenMore(line: seq<byte>, rest: seq<byte>)
    requires NEWLINE !in line
    ensures LineEnd(line + [NEWLINE] + rest) == |line|
  {
    var s := line + [NEWLINE] + rest;
    assert s[..|line|] == line;
    LineEndUnique(s, |line|);
  }

  lemma ReceiveKeeps(s: Client, arrived: seq<byte>, chunk: seq<byte>, parse: seq<byte> -> Json)
    requires Inv(s, arrived)
    ensures Inv(Receive(s, chunk, parse), arrived + chunk)
  {
    if s.settlements == [] {
      var n := LineEnd(chunk);
      var line := s.line + chunk[..n];
      if n == |chunk| {
        assert chunk[..n] == chunk;
      } else {
        assert chunk == chunk[..n] + [NEWLINE] + chunk[n + 1..];
        assert arrived + chunk == line + [NEWLINE] + chunk[n + 1..] + [];
        assert line + [NEWLINE] + chunk[n + 1..] == line + [NEWLINE] + chunk[n + 1..] + [];
        LineThenMore(line, chunk[n + 1..]);
      }
    } else if s.settlements[0].Resolved? {
      var r := s.settlements[0];
      assert arrived + chunk == r.line + [NEWLINE] + (r.leftover + s.later + chunk);
      assert r.line + [NEWLINE] + r.leftover + (s.later + chunk) == arrived + chunk;
      assert arrived == r.line + [NEWLINE] + (r.leftover + s.later);
      assert NEWLINE !in r.line by { assert arrived[..LineEnd(arrived)] == r.line; }
      LineThenMore(r.line, r.leftover + s.later + chunk);
    }
  }

  lemma {:induction false} RunKeeps(events: seq<Event>, parse: seq<byte> -> Json)
    ensures Inv(Run(events, parse), Arrived(events))
    decreases |events|
  {
    if events != [] {
      var n := |events| - 1;
      RunKeeps(events[..n], parse);
      var s := Run(events[..n], parse);
      if events[n].Data? {
        ReceiveKeeps(s, Arrived(events[..n]), events[n].chunk, parse);
      } else {
        assert Arrived(events[..n]) + [] == Arrived(events[..n]);
      }
    }
  }

  /** Under any order of data, timer, error, end and close the promise settles at most once; and when
      it resolves, the bytes are split at the first newline and nowhere else. */
  lemma AnswerIsFirstLine(events: seq<Event>, parse: seq<byte> -> Json)
    ensures var s := Run(events, parse);
            && |s.settlements| <= 1
            && (s.settlements != [] && s.settlements[0].Resolved? ==>
                  var r := s.settlements[0];
                  var i := LineEnd(Arrived(events));
                  && i < |Arrived(events)| && i <= MAX_ANSWER_BYTES
                  && r.line == Arrived(events)[..i]
                  && r.leftover + s.later == Arrived(events)[i + 1..])
  {
    RunKeeps(events, parse);
    var s := Run(events, parse);
    if s.settlements != [] && s.settlements[0].Resolved? {
      var r := s.settlements[0];
      SplitAtNewline(Arrived(events), r.line, r.leftover, s.later);
    }
  }

  lemma SplitAtNewline(arrived: seq<byte>, line: seq<byte>, leftover: seq<byte>, later: seq<byte>)
    requires arrived == line + [NEWLINE] + leftover + later
    ensures |line| < |arrived| && line == arrived[..|line|] && leftover + later == arrived[|line| + 1..]
  {}

  lemma SettledStays(s: Client, e: Event, parse: seq<byte> -> Json)
    requires s.settlements != []
    ensures Step(s, e, parse).settlements == s.settlements
  {}

  /** What an unsettled promise comes to when the timer fires, the socket fails, or the peer ends or closes. */
  lemma FailuresSettle(events: seq<Event>, e: Event, parse: seq<byte> -> Json)
    requires Run(events, parse).settlements == []
    ensures var s := Run(events + [e], parse);
            && (e.Timeout? ==> s.settlements == [Refused(TimedOut)])
            && (e.Error? ==> s.settlements == [Refused(SocketError)])
            && (e.End? || e.Close? ==> s.settlements == [Refused(Closed)])
            && (!e.Data? ==> s.destroyed)
            && (s.destroyed <==> s.settlements != [] && s.settlements[0].Refused?)
  {
    assert (events + [e])[..|events|] == events;
    DestroyedExactly(events, parse);
  }

  /** The socket is destroyed exactly when the promise was refused; a resolved answer hands it on. */
  lemma {:induction false} DestroyedExactly(events: seq<Event>, parse: seq<byte> -> Json)
    ensures var s := Run(events, parse); s.destroyed <==> s.settlements != [] && s.settlements[0].Refused?
    decreases |events|
  {
    if events != [] { DestroyedExactly(events[..|events| - 1], parse); }
  }

  /** The promise is open exactly while nothing but data came, less than a line of it, and at most 65,536 bytes. */
  lemma {:induction false} OpenExactly(events: seq<Event>, parse: seq<byte> -> Json)
    ensures Run(events, parse).settlements == []
       <==> (forall k :: 0 <= k < |events| ==> events[k].Data?)
            && 10 !in Arrived(events) && |Arrived(events)| <= 65536
    decreases |events|
  {
    if forall k :: 0 <= k < |events| ==> events[k].Data? {
      DataDecides(events, parse);
      var arrived := Arrived(events);
      assert arrived[..|arrived|] == arrived;
      if LineEnd(arrived) < |arrived| { assert arrived[LineEnd(arrived)] in arrived; }
    } else {
      var n := |events| - 1;
      if Run(events[..n], parse).settlements == [] {
        OpenExactly(events[..n], parse);
        assert events[..n] + [events[n]] == events;
        FailuresSettle(events[..n], events[n], parse);
      }
    }
  }

  /** Once settled, no later event, in any number and order, settles the promise again or changes how. */
  lemma {:induction false} SettledForGood(events: seq<Event>, more: seq<Event>, parse: seq<byte> -> Json)
    requires Run(events, parse).settlements != []
    ensures Run(events + more, parse).settlements == Run(events, parse).settlements
    decreases |more|
  {
    if more == [] {
      assert events + more == events;
    } else {
      var n := |more| - 1;
      SettledForGood(events, more[..n], parse);
      assert (events + more)[..|events| + n] == events + more[..n];
      SettledStays(Run(events + more[..n], parse), more[n], parse);
    }
  }

  /** With nothing but data, the outcome is a matter of the stream alone, however it is cut up: it
      resolves exactly when the first newline is at index 65,536 or before and the line is an object,
      and is refused exactly when a longer line is under way or the line is no object. */
  lemma {:induction false} DataDecides(events: seq<Event>, parse: seq<byte> -> Json)
    requires forall k :: 0 <= k < |events| ==> events[k].Data?
    ensures var s := Run(events, parse);
            var arrived := Arrived(events);
            var i := LineEnd(arrived);
            if i > MAX_ANSWER_BYTES then s.settlements == [Refused(BadAnswer)]
            else if i == |arrived| then s.settlements == []
            else if parse(arrived[..i]) != Object then s.settlements == [Refused(BadAnswer)]
            else |s.settlements| == 1 && s.settlements[0].Resolved? && s.settlements[0].line == arrived[..i]
    decreases |events|
  {
    RunKeeps(events, parse);
    if events != [] {
      var n := |events| - 1;
      var before, chunk := Arrived(events[..n]), events[n].chunk;
      DataDecides(events[..n], parse);
      RunKeeps(events[..n], parse);
      LineEndExtends(before, chunk);
      var i := LineEnd(before);
      if i < |before| {
        assert (before + chunk)[..i] == before[..i];
      } else {
        assert before[..i] == before;
      }
    }
  }

  lemma LineEndExtends(s: seq<byte>, t: seq<byte>)
    ensures LineEnd(s) < |s| ==> LineEnd(s + t) == LineEnd(s)
    ensures LineEnd(s) == |s| ==> LineEnd(s + t) == |s| + LineEnd(t)
    ensures LineEnd(s) == |s| ==> (s + t)[..LineEnd(s + t)] == s + t[..LineEnd(t)]
  {
    var i := LineEnd(s);
    if i < |s| {
      assert (s + t)[..i] == s[..i];
      LineEndUnique(s + t, i);
    } else {
      var j := |s| + LineEnd(t);
      assert s[..|s|] == s;
      assert (s + t)[..j] == s + t[..LineEnd(t)];
      if j < |s + t| {
        LineEndUnique(s + t, j);
      } else {
        assert (s + t)[..j] == s + t;
        assert NEWLINE !in s + t;
      }
    }
  }

  // ---------- The client in its own form ----------

  class RequestBroker {
    const parse: seq<byte> -> Json
    const buffered: array<byte>
    var bufferedBytes: nat
    var settled: bool
    var destroyed: bool
    ghost var settlements: seq<Settlement>
    ghost var later: seq<byte>

    ghost predicate Valid()
      reads this
    {
      buffered.Length == MAX_ANSWER_BYTES && bufferedBytes <= MAX_ANSWER_BYTES && (settled <==> settlements != [])
    }

    ghost function View(): Client
      reads this, buffered
      requires Valid()
    {
      Client(buffered[..bufferedBytes], settlements, destroyed, later)
    }

    constructor (parse: seq<byte> -> Json)
      ensures Valid() && fresh(buffered) && View() == FRESH && this.parse == parse
    {
      this.parse := parse;
      buffered := new byte[MAX_ANSWER_BYTES];
      bufferedBytes, settled, destroyed, settlements, later := 0, false, false, [], [];
    }

    method Fail(failure: Failure)
      requires Valid()
      modifies this
      ensures Valid() && View() == Refuse(old(View()), failure)
      ensures bufferedBytes == old(bufferedBytes)
    {
      if settled { return; }
      settled, destroyed := true, true;
      settlements := settlements + [Refused(failure)];
    }

    /** Copies the chunk up to its newline behind what is buffered; resolves with the rest of it. */
    method OnData(chunk: seq<byte>)
      requires Valid()
      modifies this, buffered
      ensures Valid() && View() == Step(old(View()), Data(chunk), parse)
    {
      if settled {
        later := later + chunk;
        return;
      }
      var answerBytes := LineEnd(chunk);
      if bufferedBytes + answerBytes > MAX_ANSWER_BYTES {
        Fail(BadAnswer);
        return;
      }
      forall k | 0 <= k < answerBytes { buffered[bufferedBytes + k] := chunk[k]; }
      assert buffered[..bufferedBytes + answerBytes] == old(buffered[..bufferedBytes]) + chunk[..answerBytes];
      bufferedBytes := bufferedBytes + answerBytes;
      if answerBytes == |chunk| { return; }
      var line := buffered[..bufferedBytes];
      if parse(line) != Object {
        Fail(BadAnswer);
        return;
      }
      settled := true;
      settlements := settlements + [Resolved(line, chunk[answerBytes + 1..])];
    }

    /** The listeners of the socket, and the timer. */
    method Handle(e: Event)
      requires Valid()
      modifies this, buffered
      ensures Valid() && View() == Step(old(View()), e, parse)
    {
      match e
      case Data(chunk) => OnData(chunk);
      case Timeout => Fail(TimedOut);
      case Error => Fail(SocketError);
      case End => Fail(Closed);
      case Close => Fail(Closed);
    }
  }

  /** Any events, in any order, drive the object through exactly the states of `Run`. */
  method Answered(events: seq<Event>, parse: seq<byte> -> Json) returns (client: RequestBroker)
    ensures fresh(client) && client.Valid() && client.View() == Run(events, parse)
  {
    client := new RequestBroker(parse);
    assert events[..0] == [];
    for k := 0 to |events|
      invariant fresh(client) && fresh(client.buffered) && client.parse == parse
      invariant client.Valid() && client.View() == Run(events[..k], parse)
    {
      assert events[..k + 1][..k] == events[..k];
      client.Handle(events[k]);
    }
    assert events[..|events|] == events;
  }

  // ---------- The broker ----------

  /** What one call of `read` for a single byte answers. */
  datatype ByteRead = Got | Interrupted | Ended

  /** How many bytes these answers deliver before the first end or error. */
  function Delivered(answers: seq<ByteRead>): nat {
    if answers == [] || answers[0].Ended? then 0
    else (if answers[0].Got? then 1 else 0) + Delivered(answers[1..])
  }

  /** The bytes that come before an end are as many as the answers that gave one. */
  lemma {:induction false} DeliveredUntilEnd(before: seq<ByteRead>, rest: seq<ByteRead>)
    requires Ended !in before
    ensures Delivered(before + [Ended] + rest) == multiset(before)[Got]
    decreases |before|
  {
    var all := before + [Ended] + rest;
    if before != [] {
      assert all[1..] == before[1..] + [Ended] + rest;
      assert before == [before[0]] + before[1..];
      DeliveredUntilEnd(before[1..], rest);
    }
  }

  /** The line that is read: its newline is at index 65,535 or before and is delivered. */
  function LineRead(incoming: seq<byte>, delivered: nat): Option<seq<byte>> {
    var i := LineEnd(incoming);
    if i < |incoming| && i < MAX_REQUEST_BYTES && i < delivered then Some(incoming[..i]) else None
  }

  /** `incoming` is what the peer sends; running out of it, or of answers, is an end or a timeout. The
      line is read exactly when its newline comes at index 65,535 or before and is delivered, and then
      exactly the line and its newline are consumed. */
  method ReadRequestLine(incoming: seq<byte>, answers: seq<ByteRead>)
    returns (line: Option<seq<byte>>, consumed: nat)
    ensures consumed <= |incoming| && consumed <= MAX_REQUEST_BYTES
    ensures line == LineRead(incoming, Delivered(answers))
    ensures line.Some? ==> consumed == |line.value| + 1 && |line.value| < 65536
    ensures line.Some? ==> incoming[..consumed] == line.value + [10] && 10 !in line.value
  {
    var read := [];
    consumed := 0;
    var k := 0;
    assert answers[0..] == answers;
    while |read| < MAX_REQUEST_BYTES
      invariant 0 <= k <= |answers| && consumed <= |incoming| && consumed <= MAX_REQUEST_BYTES
      invariant read == incoming[..consumed] && NEWLINE !in read
      invariant Delivered(answers) == consumed + Delivered(answers[k..])
      decreases |answers| - k
    {
      if consumed == |incoming| || k == |answers| { return None, consumed; }
      var answer := answers[k];
      k := k + 1;
      assert answers[k - 1..][1..] == answers[k..];
      if answer.Interrupted? { continue; }
      if answer.Ended? { return None, consumed; }
      var b := incoming[consumed];
      if b == NEWLINE {
        LineEndUnique(incoming, consumed);
        return Some(read), consumed + 1;
      }
      consumed := consumed + 1;
      read := read + [b];
      assert read == incoming[..consumed];
    }
    return None, consumed;
  }

  /** What one call of `write` answers. */
  datatype ByteWrite = Wrote(n: nat) | WriteInterrupted | WriteFailed

  /** Short writes and interruptions never lose, repeat or reorder a byte; false means part was sent. */
  method WriteAll(data: seq<byte>, answers: seq<ByteWrite>) returns (ok: bool, wire: seq<byte>)
    ensures wire <= data
    ensures ok <==> wire == data
  {
    wire := [];
    var remaining := |data|;
    var k := 0;
    while remaining > 0
      invariant 0 <= k <= |answers| && 0 <= remaining <= |data| && wire == data[..|data| - remaining]
      decreases |answers| - k
    {
      if k == |answers| { return false, wire; }
      match answers[k] {
        case WriteInterrupted =>
        case WriteFailed => return false, wire;
        case Wrote(n) =>
          var written := if n < remaining then n else remaining;
          wire := wire + data[|data| - remaining..|data| - remaining + written];
          remaining := remaining - written;
      }
      k := k + 1;
    }
    return true, wire;
  }
}
