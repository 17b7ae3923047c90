/** The broker's half of a session: `relay` answers a child's two pipes and sends frames, one in flight.

    `Turn` is one iteration of its loop: what every system call of that iteration answers. A child is
    its two output streams and how it exits; a pipe reports its end only once all of it was read. */
module BrokerRelay {
  import opened Wire
  import opened Wrappers

  datatype ChildExit = ExitedWith(status: int) | Signalled(signal: nat)

  function ExitCode(e: ChildExit): byte {
    match e
    case ExitedWith(status) => status % 256
    case Signalled(signal) => if 128 + signal < 255 then 128 + signal else 255
  }

  datatype Child = Child(stdout: seq<byte>, stderr: seq<byte>, exit: ChildExit)

  datatype Wait = WaitInterrupted | WaitFailed | StillRunning | Reported
  datatype Poll = PollInterrupted | PollFailed | Polled(socketGone: bool, writable: bool, ready: (bool, bool))
  datatype Send = Took(n: nat) | SendRetry | SendFailed
  datatype PipeRead = Bytes(n: nat) | Eof | ReadRetry | ReadFailed

  datatype Turn = Turn(
    stopping: bool,
    peerGone: bool,
    wait: Wait,
    drainExpired: bool,
    stalled: bool,
    poll: Poll,
    send: Send,
    answers: (PipeRead, PipeRead))

  type Pipe = i: int | 0 <= i < 2

  function Pick<T>(p: (T, T), i: Pipe): T {
    if i == 0 then p.0 else p.1
  }

  function Put<T>(p: (T, T), i: Pipe, v: T): (T, T) {
    if i == 0 then (v, p.1) else (p.0, v)
  }

  function ChannelOf(i: Pipe): byte {
    i + 1
  }

  /** What `read` gives: never more than is there or than the buffer holds, and no end before the end. */
  function Answer(unread: seq<byte>, r: PipeRead): PipeRead {
    match r
    case Bytes(n) =>
      if unread == [] then ReadRetry
      else
        var most := if |unread| < MAX_FRAME_BYTES then |unread| else MAX_FRAME_BYTES;
        Bytes(if n == 0 then 1 else if n < most then n else most)
    case Eof => if unread == [] then Eof else ReadRetry
    case _ => r
  }

  datatype Status = Running | Finished | Aborted

  datatype Relay = Relay(
    unread: (seq<byte>, seq<byte>),   // of the child's pipes
    open: (bool, bool),
    nextPipe: Pipe,
    pending: seq<byte>,
    sent: nat,
    terminal: bool,
    exitCode: Option<byte>,
    wire: seq<byte>,                  // history: all that was sent
    frames: seq<Write>,               // history: the data frames begun
    status: Status)

  function Start(child: Child): Relay {
    Relay((child.stdout, child.stderr), (true, true), 0, [], 0, false, None, [], [], Running)
  }

  function Abort(s: Relay): Relay {
    s.(status := Aborted)
  }

  /** One iteration, in the source's order: stop, peer, child, timeouts, exit frame, poll. */
  function Step(s: Relay, t: Turn, child: Child): Relay {
    if !s.status.Running? then s
    else if t.stopping || t.peerGone then Abort(s)
    else if s.exitCode.None? && t.wait.WaitInterrupted? then s
    else if s.exitCode.None? && t.wait.WaitFailed? then Abort(s)
    else
      var seen := Observe(s, t.wait, child);
      if seen.exitCode.Some? && t.drainExpired then Abort(seen)
      else if seen.pending != [] && t.stalled then Abort(seen)
      else Transfer(Terminate(seen), t)
  }

  function Observe(s: Relay, wait: Wait, child: Child): Relay {
    if s.exitCode.None? && wait.Reported? then s.(exitCode := Some(ExitCode(child.exit))) else s
  }

  function Terminate(s: Relay): Relay {
    if s.pending == [] && !s.open.0 && !s.open.1 && s.exitCode.Some? then
      s.(pending := ExitFrame(s.exitCode.value), terminal := true)
    else s
  }

  function Transfer(s: Relay, t: Turn): Relay {
    match t.poll
    case PollInterrupted => s
    case PollFailed => Abort(s)
    case Polled(gone, writable, ready) =>
      if gone then Abort(s)
      else if s.pending == [] then ReadPipes(s, ready, t.answers)
      else if writable then SendPending(s, t.send)
      else s
  }

  function SendPending(s: Relay, r: Send): Relay {
    match r
    case SendRetry => s
    case SendFailed => Abort(s)
    case Took(n) =>
      if n == 0 then Abort(s)
      else if s.sent + n < |s.pending| then
        s.(wire := s.wire + s.pending[s.sent..s.sent + n], sent := s.sent + n)
      else
        s.(wire := s.wire + if s.sent <= |s.pending| then s.pending[s.sent..] else [],
           sent := 0, pending := [], status := if s.terminal then Finished else Running)
  }

  /** Alternate between the pipes; the second is tried only when the first gave no frame. */
  function ReadPipes(s: Relay, ready: (bool, bool), answers: (PipeRead, PipeRead)): Relay {
    var (t, again) := ReadPipe(s, s.nextPipe, Pick(ready, s.nextPipe), Pick(answers, s.nextPipe));
    var other: Pipe := 1 - s.nextPipe;
    if again then ReadPipe(t, other, Pick(ready, other), Pick(answers, other)).0 else t
  }

  function ReadPipe(s: Relay, i: Pipe, ready: bool, answer: PipeRead): (Relay, bool) {
    if !Pick(s.open, i) || !ready then (s, true)
    else
      match Answer(Pick(s.unread, i), answer)
      case Bytes(n) => (BeginFrame(s, i, n), false)
      case Eof => (s.(open := Put(s.open, i, false)), true)
      case ReadRetry => (s, true)
      case ReadFailed => (Abort(s), false)
  }

  function BeginFrame(s: Relay, i: Pipe, n: nat): Relay
    requires 0 < n <= |Pick(s.unread, i)| && n <= MAX_FRAME_BYTES
  {
    var w := Write(ChannelOf(i), Pick(s.unread, i)[..n]);
    s.(pending := Frame(w.channel, w.bytes),
       frames := s.frames + [w],
       unread := Put(s.unread, i, Pick(s.unread, i)[n..]),
       nextPipe := 1 - i)
  }

  function Run(child: Child, turns: seq<Turn>): Relay
    decreases |turns|
  {
    if turns == [] then Start(child)
    else Step(Run(child, turns[..|turns| - 1]), turns[|turns| - 1], child)
  }

  // ---------- What every turn keeps ----------

  /** No byte of a channel is lost, duplicated or reordered between the child and the frames. */
  ghost predicate ChannelInv(frames: seq<Write>, i: Pipe, unread: seq<byte>, open: bool, output: seq<byte>) {
    && Payload(frames, ChannelOf(i)) + unread == output
    && (!open ==> unread == [])
  }

  ghost predicate PipesInv(s: Relay, child: Child) {
    && ValidWrites(s.frames)
    && ChannelInv(s.frames, 0, s.unread.0, s.open.0, child.stdout)
    && ChannelInv(s.frames, 1, s.unread.1, s.open.1, child.stderr)
  }

  /** What was sent and what is pending are the frames begun, then the exit frame if it was begun. */
  ghost predicate WireInv(s: Relay, code: byte) {
    && ValidWrites(s.frames)
    && (if s.pending == [] then s.sent == 0 else s.sent < |s.pending|)
    && |s.pending| <= HEADER_BYTES + MAX_FRAME_BYTES
    && s.wire + s.pending[s.sent..] == FramesOf(s.frames) + if s.terminal then ExitFrame(code) else []
  }

  ghost predicate EndInv(s: Relay, code: byte) {
    && (s.exitCode.Some? ==> s.exitCode.value == code)
    && (s.terminal ==> !s.open.0 && !s.open.1 && s.exitCode.Some?)
    && (s.terminal && s.pending == [] <==> s.status.Finished?)
  }

  ghost predicate Inv(s: Relay, child: Child) {
    PipesInv(s, child) && WireInv(s, ExitCode(child.exit)) && EndInv(s, ExitCode(child.exit))
  }

  lemma PayloadSnoc(writes: seq<Write>, w: Write, channel: byte)
    ensures Payload(writes + [w], channel)
         == Payload(writes, channel) + if w.channel == channel then w.bytes else []
  {
    assert (writes + [w])[..|writes|] == writes;
  }

  lemma Associates<T>(x: seq<T>, y: seq<T>, z: seq<T>)
    ensures x + (y + z) == (x + y) + z
  {}

  lemma ChannelTakes(frames: seq<Write>, i: Pipe, unread: seq<byte>, n: nat, output: seq<byte>)
    requires ChannelInv(frames, i, unread, true, output) && n <= |unread|
    ensures ChannelInv(frames + [Write(ChannelOf(i), unread[..n])], i, unread[n..], true, output)
  {
    PayloadSnoc(frames, Write(ChannelOf(i), unread[..n]), ChannelOf(i));
    assert unread == unread[..n] + unread[n..];
    Associates(Payload(frames, ChannelOf(i)), unread[..n], unread[n..]);
  }

  lemma BeginFrameKeeps(s: Relay, child: Child, i: Pipe, n: nat)
    requires Inv(s, child) && s.pending == [] && !s.terminal && Pick(s.open, i)
    requires 0 < n <= |Pick(s.unread, i)| && n <= MAX_FRAME_BYTES
    ensures Inv(BeginFrame(s, i, n), child)
  {
    BeginFrameKeepsPipes(s, child, i, n);
    BeginFrameKeepsWire(s, ExitCode(child.exit), i, n);
  }

  lemma BeginFrameKeepsPipes(s: Relay, child: Child, i: Pipe, n: nat)
    requires PipesInv(s, child) && Pick(s.open, i) && 0 < n <= |Pick(s.unread, i)| && n <= MAX_FRAME_BYTES
    ensures PipesInv(BeginFrame(s, i, n), child)
  {
    var u := Pick(s.unread, i);
    var w := Write(ChannelOf(i), u[..n]);
    assert w.Valid() && ValidWrites(s.frames + [w]);
    if i == 0 {
      ChannelTakes(s.frames, 0, u, n, child.stdout);
      OtherChannel(s.frames, w, 1, s.unread.1, s.open.1, child.stderr);
    } else {
      ChannelTakes(s.frames, 1, u, n, child.stderr);
      OtherChannel(s.frames, w, 0, s.unread.0, s.open.0, child.stdout);
    }
  }

  lemma OtherChannel(frames: seq<Write>, w: Write, i: Pipe, unread: seq<byte>, open: bool, output: seq<byte>)
    requires ChannelInv(frames, i, unread, open, output) && w.channel != ChannelOf(i)
    ensures ChannelInv(frames + [w], i, unread, open, output)
  {
    PayloadSnoc(frames, w, ChannelOf(i));
    assert Payload(frames, ChannelOf(i)) + [] == Payload(frames, ChannelOf(i));
  }

  lemma BeginFrameKeepsWire(s: Relay, code: byte, i: Pipe, n: nat)
    requires WireInv(s, code) && EndInv(s, code) && s.pending == [] && !s.terminal
    requires 0 < n <= |Pick(s.unread, i)| && n <= MAX_FRAME_BYTES
    ensures WireInv(BeginFrame(s, i, n), code) && EndInv(BeginFrame(s, i, n), code)
  {
    var w := Write(ChannelOf(i), Pick(s.unread, i)[..n]);
    FramesOfSnoc(s.frames, w);
    BeginFrameWire(s, w);
  }

  lemma BeginFrameWire(s: Relay, w: Write)
    requires ValidWrites(s.frames) && w.Valid() && s.pending == [] && s.sent == 0
    requires s.wire + s.pending[s.sent..] == FramesOf(s.frames) + []
    ensures s.wire + Frame(w.channel, w.bytes)[0..] == FramesOf(s.frames) + Frame(w.channel, w.bytes)
    ensures 0 < |Frame(w.channel, w.bytes)| <= HEADER_BYTES + MAX_FRAME_BYTES
  {
    assert s.wire + [] == s.wire && FramesOf(s.frames) + [] == FramesOf(s.frames);
  }

  lemma ReadPipeKeeps(s: Relay, child: Child, i: Pipe, ready: bool, answer: PipeRead)
    requires Inv(s, child) && s.pending == [] && !s.terminal
    ensures var (t, again) := ReadPipe(s, i, ready, answer);
            Inv(t, child) && (again ==> t.pending == [] && !t.terminal)
  {
    var answered := Answer(Pick(s.unread, i), answer);
    if Pick(s.open, i) && ready && answered.Bytes? {
      BeginFrameKeeps(s, child, i, answered.n);
    }
  }

  lemma ReadPipesKeeps(s: Relay, child: Child, ready: (bool, bool), answers: (PipeRead, PipeRead))
    requires Inv(s, child) && s.pending == [] && !s.terminal
    ensures Inv(ReadPipes(s, ready, answers), child)
  {
    var (t, again) := ReadPipe(s, s.nextPipe, Pick(ready, s.nextPipe), Pick(answers, s.nextPipe));
    ReadPipeKeeps(s, child, s.nextPipe, Pick(ready, s.nextPipe), Pick(answers, s.nextPipe));
    if again {
      var other: Pipe := 1 - s.nextPipe;
      ReadPipeKeeps(t, child, other, Pick(ready, other), Pick(answers, other));
    }
  }

  lemma SplitsAt<T>(s: seq<T>, i: nat, j: nat)
    requires i <= j <= |s|
    ensures s[i..] == s[i..j] + s[j..]
  {}

  lemma SendPendingKeeps(s: Relay, code: byte, r: Send)
    requires WireInv(s, code) && EndInv(s, code) && s.status.Running? && s.pending != []
    ensures WireInv(SendPending(s, r), code) && EndInv(SendPending(s, r), code)
  {
    if r.Took? && r.n > 0 {
      var t := SendPending(s, r);
      var rest := s.pending[s.sent..];
      if s.sent + r.n < |s.pending| {
        SplitsAt(s.pending, s.sent, s.sent + r.n);
        Associates(s.wire, s.pending[s.sent..s.sent + r.n], s.pending[s.sent + r.n..]);
      } else {
        assert (s.wire + rest) + [] == s.wire + rest;
      }
      assert t.wire + t.pending[t.sent..] == s.wire + rest;
    }
  }

  lemma TerminateKeeps(s: Relay, child: Child)
    requires Inv(s, child) && s.status.Running?
    ensures Inv(Terminate(s), child)
    ensures Terminate(s).pending == [] ==> !Terminate(s).terminal
  {
    var code := ExitCode(child.exit);
    if Terminate(s) != s {
      assert s.wire + s.pending[s.sent..] == s.wire;
      assert FramesOf(s.frames) + [] == FramesOf(s.frames);
      assert ExitFrame(code)[0..] == ExitFrame(code);
    }
  }

  lemma TransferKeeps(s: Relay, t: Turn, child: Child)
    requires Inv(s, child) && s.status.Running? && (s.pending == [] ==> !s.terminal)
    ensures Inv(Transfer(s, t), child)
  {
    AbortKeeps(s, child);
    if t.poll.Polled? && !t.poll.socketGone {
      if s.pending == [] {
        ReadPipesKeeps(s, child, t.poll.ready, t.answers);
      } else {
        SendPendingKeeps(s, ExitCode(child.exit), t.send);
        assert PipesInv(SendPending(s, t.send), child);
      }
    }
  }

  lemma AbortKeeps(s: Relay, child: Child)
    requires Inv(s, child) && !s.status.Finished?
    ensures Inv(Abort(s), child)
  {}

  lemma ObserveKeeps(s: Relay, wait: Wait, child: Child)
    requires Inv(s, child)
    ensures Inv(Observe(s, wait, child), child)
  {}

  lemma StepKeeps(s: Relay, t: Turn, child: Child)
    requires Inv(s, child)
    ensures Inv(Step(s, t, child), child)
  {
    if s.status.Running? {
      var seen := Observe(s, t.wait, child);
      ObserveKeeps(s, t.wait, child);
      AbortKeeps(s, child);
      AbortKeeps(seen, child);
      TerminateKeeps(seen, child);
      TransferKeeps(Terminate(seen), t, child);
    }
  }

  lemma {:induction false} RunKeeps(child: Child, turns: seq<Turn>)
    ensures Inv(Run(child, turns), child)
    decreases |turns|
  {
    if turns == [] {
      assert Payload([], STDOUT) + child.stdout == child.stdout;
      assert Payload([], STDERR) + child.stderr == child.stderr;
    } else {
      RunKeeps(child, turns[..|turns| - 1]);
      StepKeeps(Run(child, turns[..|turns| - 1]), turns[|turns| - 1], child);
    }
  }

  // ---------- What the wire means ----------

  lemma {:induction false} PayloadPrefix(a: seq<Write>, b: seq<Write>, channel: byte)
    requires a <= b
    ensures Payload(a, channel) <= Payload(b, channel)
    decreases |b|
  {
    if a != b {
      PayloadPrefix(a, b[..|b| - 1], channel);
    } else {
      assert Payload(a, channel) == Payload(b, channel);
    }
  }

  lemma UnfinishedIsCut(s: Relay, code: byte)
    requires WireInv(s, code) && EndInv(s, code) && !s.status.Finished?
    ensures s.wire < FramesOf(s.frames) + ExitFrame(code)
  {
    var whole := FramesOf(s.frames) + if s.terminal then ExitFrame(code) else [];
    assert s.wire <= whole;
    if s.terminal {
      assert |s.wire| < |whole|;
    } else {
      assert whole < FramesOf(s.frames) + ExitFrame(code);
    }
  }

  lemma FinishedIsWhole(s: Relay, code: byte)
    requires WireInv(s, code) && EndInv(s, code) && s.status.Finished?
    ensures s.wire == FramesOf(s.frames) + ExitFrame(code)
  {
    assert s.wire + [] == s.wire;
  }

  /** A relay that sent its terminal frame sent a whole session: one that parses to the child's own
      bytes on each channel, and its code. Cut off anywhere else, what it sent parses as incomplete,
      and gives no byte that the child did not write. */
  lemma RelayIsFaithful(child: Child, turns: seq<Turn>)
    ensures var s := Run(child, turns);
            var parsed := Parse(s.wire);
            if s.status.Finished? then
              && parsed == Parsed(s.frames, Exited(ExitCode(child.exit)))
              && (child.exit.ExitedWith? ==> parsed.verdict.code == child.exit.status % 256)
              && (child.exit.Signalled? ==>
                    parsed.verdict.code == if child.exit.signal < 127 then 128 + child.exit.signal else 255)
              && Payload(s.frames, STDOUT) == child.stdout
              && Payload(s.frames, STDERR) == child.stderr
            else
              && parsed.verdict == Incomplete
              && Payload(parsed.writes, STDOUT) <= child.stdout
              && Payload(parsed.writes, STDERR) <= child.stderr
  {
    RunKeeps(child, turns);
    var s := Run(child, turns);
    var code := ExitCode(child.exit);
    if s.status.Finished? {
      FinishedIsWhole(s, code);
      ParseExact(s.wire, s.frames, code);
    } else {
      UnfinishedIsCut(s, code);
      StrictPrefixIncomplete(s.frames, code, s.wire);
      var writes := Parse(s.wire).writes;
      PayloadPrefix(writes, s.frames, STDOUT);
      PayloadPrefix(writes, s.frames, STDERR);
    }
  }

  // ---------- When a relay gives up ----------

  /** In a turn that gets as far as its poll, something fails there: the poll, the socket, the send of what is pending,
      or the read of a pipe that is tried. */
  predicate TransferFails(s: Relay, t: Turn) {
    t.poll.PollFailed?
    || (t.poll.Polled? &&
          (t.poll.socketGone
           || (s.pending != [] && t.poll.writable && (t.send.SendFailed? || t.send == Took(0)))
           || (s.pending == [] && ReadFails(s, t.poll.ready, t.answers))))
  }

  predicate Tried(s: Relay, p: Pipe, ready: (bool, bool)) {
    Pick(s.open, p) && Pick(ready, p)
  }

  /** The second pipe is tried only when the first gave no frame. */
  predicate ReadFails(s: Relay, ready: (bool, bool), answers: (PipeRead, PipeRead)) {
    var first, second: Pipe := s.nextPipe, 1 - s.nextPipe;
    || (Tried(s, first, ready) && Pick(answers, first).ReadFailed?)
    || (Tried(s, second, ready) && Pick(answers, second).ReadFailed?
        && (Tried(s, first, ready) ==> !Answer(Pick(s.unread, first), Pick(answers, first)).Bytes?))
  }

  /** A turn of a running relay gives up exactly when the broker is stopping or the peer is gone, the child cannot be
      observed, its final output did not drain or the client did not read in time, or something fails in the
      transfer; an interrupted call only ends the turn. */
  lemma GivesUpExactly(s: Relay, t: Turn, child: Child)
    requires s.status.Running?
    ensures var exited := s.exitCode.Some? || t.wait.Reported?;
            var interrupted := s.exitCode.None? && t.wait.WaitInterrupted?;
            Step(s, t, child).status.Aborted?
            <==> t.stopping || t.peerGone
                 || (!interrupted &&
                       ((s.exitCode.None? && t.wait.WaitFailed?)
                        || (exited && t.drainExpired)
                        || (s.pending != [] && t.stalled)
                        || TransferFails(Terminate(Observe(s, t.wait, child)), t)))
    ensures Step(s, t, child).status.Aborted? ==>
              Step(s, t, child).wire == s.wire && Step(s, t, child).frames == s.frames
  {
    var seen := Terminate(Observe(s, t.wait, child));
    TransferGivesUp(seen, t);
  }

  lemma TransferGivesUp(s: Relay, t: Turn)
    requires s.status.Running?
    ensures Transfer(s, t).status.Aborted? <==> TransferFails(s, t)
    ensures Transfer(s, t).status.Aborted? ==> Transfer(s, t).wire == s.wire && Transfer(s, t).frames == s.frames
  {
    if t.poll.Polled? && !t.poll.socketGone && s.pending == [] {
      ReadGivesUp(s, t.poll.ready, t.answers);
    }
  }

  lemma ReadGivesUp(s: Relay, ready: (bool, bool), answers: (PipeRead, PipeRead))
    requires s.status.Running?
    ensures ReadPipes(s, ready, answers).status.Aborted? <==> ReadFails(s, ready, answers)
    ensures ReadPipes(s, ready, answers).status.Aborted? ==>
              ReadPipes(s, ready, answers).wire == s.wire && ReadPipes(s, ready, answers).frames == s.frames
  {}

  // ---------- A relay can always finish ----------

  /** A turn in which the child has exited, the client reads all that is sent, and each open pipe gives what it has,
      or its end. */
  function GoodTurn(s: Relay): Turn {
    Turn(false, false, Reported, false, false, Polled(false, true, (true, true)), Took(|s.pending| + 9),
         (if s.unread.0 == [] then Eof else Bytes(|s.unread.0|), if s.unread.1 == [] then Eof else Bytes(|s.unread.1|)))
  }

  /** What is still to be done: bytes to frame, pipes to close, a frame to send. */
  function Work(s: Relay): nat {
    2 * (|s.unread.0| + |s.unread.1|) + (if s.open.0 then 1 else 0) + (if s.open.1 then 1 else 0)
    + (if s.pending == [] then 0 else 1)
  }

  lemma GoodTurnWorks(s: Relay, child: Child)
    requires Inv(s, child) && s.status.Running?
    ensures var t := Step(s, GoodTurn(s), child);
            t.status.Finished? || (t.status.Running? && Work(t) < Work(s))
  {
    var t, seen := GoodTurn(s), Terminate(Observe(s, Reported, child));
    assert Step(s, t, child) == Transfer(seen, t);
    if seen.pending != [] {
      assert Step(s, t, child) == SendPending(seen, t.send);
    } else {
      GoodReadWorks(seen, t.answers);
    }
  }

  /** With nothing to send, one pipe gives a frame, or all that are open close. */
  lemma GoodReadWorks(s: Relay, answers: (PipeRead, PipeRead))
    requires s.status.Running? && s.pending == [] && (s.open.0 || s.open.1)
    requires (!s.open.0 ==> s.unread.0 == []) && (!s.open.1 ==> s.unread.1 == [])
    requires answers.0 == if s.unread.0 == [] then Eof else Bytes(|s.unread.0|)
    requires answers.1 == if s.unread.1 == [] then Eof else Bytes(|s.unread.1|)
    ensures var t := ReadPipes(s, (true, true), answers); t.status.Running? && Work(t) < Work(s)
  {
    var (u, again) := ReadPipe(s, s.nextPipe, true, Pick(answers, s.nextPipe));
    GoodPipeWorks(s, s.nextPipe, Pick(answers, s.nextPipe));
    if again { GoodPipeWorks(u, 1 - s.nextPipe, Pick(answers, 1 - s.nextPipe)); }
  }

  lemma GoodPipeWorks(s: Relay, p: Pipe, answer: PipeRead)
    requires s.status.Running? && s.pending == [] && (!Pick(s.open, p) ==> Pick(s.unread, p) == [])
    requires answer == if Pick(s.unread, p) == [] then Eof else Bytes(|Pick(s.unread, p)|)
    ensures var (t, again) := ReadPipe(s, p, true, answer);
            && t.status.Running? && (if Pick(s.open, p) then Work(t) < Work(s) else t == s)
            && (again ==> t.pending == [] && t.unread == s.unread && Pick(t.open, 1 - p) == Pick(s.open, 1 - p)
                          && t.nextPipe == s.nextPipe)
  {}

  /** From every state that a running relay can be in, some further turns finish it: no order of reads, sends,
      interruptions and waits so far is a dead end. */
  lemma {:induction false} CanFinish(child: Child, turns: seq<Turn>) returns (more: seq<Turn>)
    requires Run(child, turns).status.Running?
    ensures Run(child, turns + more).status.Finished?
    decreases Work(Run(child, turns))
  {
    RunKeeps(child, turns);
    var s := Run(child, turns);
    var t := GoodTurn(s);
    GoodTurnWorks(s, child);
    assert (turns + [t])[..|turns|] == turns;
    assert Run(child, turns + [t]) == Step(s, t, child);
    more := [t];
    if !Step(s, t, child).status.Finished? {
      var rest := CanFinish(child, turns + [t]);
      more := [t] + rest;
      assert turns + more == turns + [t] + rest;
    }
  }

  /** Pipe `p` has data, and if this turn polls the pipes at all, its poll and its read say so. The pipes are
      polled only while no frame is in flight. */
  ghost predicate Offers(s: Relay, t: Turn, child: Child, p: Pipe) {
    && Pick(s.unread, p) != []
    && (t.poll.Polled? && Terminate(Observe(s, t.wait, child)).pending == [] ==>
          Pick(t.poll.ready, p) && Pick(t.answers, p).Bytes?)
  }

  /** Of any two frames in a row one is of this channel. */
  ghost predicate NoTwoOthers(frames: seq<Write>, channel: byte) {
    forall i :: 0 <= i < |frames| - 1 ==> frames[i].channel == channel || frames[i + 1].channel == channel
  }

  ghost predicate OffersAt(child: Child, turns: seq<Turn>, m: nat, p: Pipe)
    requires m < |turns|
  {
    Offers(Run(child, turns[..m]), turns[m], child, p)
  }

  /** Since the frames `before`, the relay has begun no two frames in a row of the other pipe, and after one of
      the other pipe it is this pipe's turn. */
  ghost predicate Fair(before: seq<Write>, s: Relay, p: Pipe) {
    && before <= s.frames
    && NoTwoOthers(s.frames[|before|..], ChannelOf(p))
    && (|s.frames| > |before| && s.frames[|s.frames| - 1].channel != ChannelOf(p) ==> s.nextPipe == p)
  }

  /** Neither pipe starves the other: as long as a pipe has data to give, at most one more frame of the other
      pipe is begun before one of its own, however the turns go. */
  lemma {:induction false} NoPipeStarves(child: Child, turns: seq<Turn>, k: nat, p: Pipe)
    requires k <= |turns| && forall m :: k <= m < |turns| ==> OffersAt(child, turns, m, p)
    ensures Fair(Run(child, turns[..k]).frames, Run(child, turns), p)
    decreases |turns|
  {
    if k == |turns| {
      assert turns[..k] == turns;
    } else {
      var n := |turns| - 1;
      var earlier := turns[..n];
      assert earlier[..k] == turns[..k];
      forall m | k <= m < n ensures OffersAt(child, earlier, m, p) { OffersEarlier(child, turns, n, m, p); }
      NoPipeStarves(child, earlier, k, p);
      RunKeeps(child, earlier);
      assert OffersAt(child, turns, n, p);
      StaysFair(Run(child, turns[..k]).frames, Run(child, earlier), turns[n], child, p);
    }
  }

  lemma OffersEarlier(child: Child, turns: seq<Turn>, n: nat, m: nat, p: Pipe)
    requires m < n <= |turns|
    ensures OffersAt(child, turns[..n], m, p) == OffersAt(child, turns, m, p)
  {
    assert turns[..n][..m] == turns[..m];
  }

  lemma StaysFair(before: seq<Write>, s: Relay, t: Turn, child: Child, p: Pipe)
    requires Inv(s, child) && Offers(s, t, child, p) && Fair(before, s, p)
    ensures Fair(before, Step(s, t, child), p)
  {
    TurnOfOffered(s, t, child, p);
    var n := Step(s, t, child);
    if |n.frames| > |s.frames| { OneMoreFrame(before, s.frames, n.frames, ChannelOf(p)); }
  }

  /** One turn begins at most one frame, and none of the other pipe when it is the offered one's turn. */
  lemma TurnOfOffered(s: Relay, t: Turn, child: Child, p: Pipe)
    requires Inv(s, child) && Offers(s, t, child, p)
    ensures var n := Step(s, t, child);
            if |n.frames| > |s.frames| then
              && n.frames[..|s.frames|] == s.frames && |n.frames| == |s.frames| + 1
              && (s.nextPipe == p ==> n.frames[|s.frames|].channel == ChannelOf(p))
              && (n.frames[|s.frames|].channel != ChannelOf(p) ==> n.nextPipe == p)
            else n.frames == s.frames && n.nextPipe == s.nextPipe
  {
    assert Pick(s.open, p);
    if s.status.Running? {
      var seen := Terminate(Observe(s, t.wait, child));
      if t.poll.Polled? && seen.pending == [] { ReadOffered(seen, t.poll.ready, t.answers, p); }
    }
  }

  lemma ReadOffered(s: Relay, ready: (bool, bool), answers: (PipeRead, PipeRead), p: Pipe)
    requires Pick(s.unread, p) != [] && Pick(s.open, p) && Pick(ready, p) && Pick(answers, p).Bytes?
    ensures var n := ReadPipes(s, ready, answers);
            if |n.frames| > |s.frames| then
              && n.frames[..|s.frames|] == s.frames && |n.frames| == |s.frames| + 1
              && (s.nextPipe == p ==> n.frames[|s.frames|].channel == ChannelOf(p))
              && (n.frames[|s.frames|].channel != ChannelOf(p) ==> n.nextPipe == p)
            else n.frames == s.frames && n.nextPipe == s.nextPipe
  {}

  lemma OneMoreFrame(before: seq<Write>, some: seq<Write>, more: seq<Write>, channel: byte)
    requires before <= some <= more && |more| <= |some| + 1 && NoTwoOthers(some[|before|..], channel)
    requires |some| > |before| && |more| > |some| && some[|some| - 1].channel != channel
             ==> more[|some|].channel == channel
    ensures before <= more && NoTwoOthers(more[|before|..], channel)
  {
    var a, b := some[|before|..], more[|before|..];
    forall i | 0 <= i < |b| - 1 ensures b[i].channel == channel || b[i + 1].channel == channel {
      if i + 1 < |a| { assert a[i] == b[i] && a[i + 1] == b[i + 1]; }
    }
  }

  // ---------- The loop itself ----------

  lemma SentLessThanPending(child: Child, turns: seq<Turn>)
    ensures var s := Run(child, turns); s.pending == [] || s.sent < |s.pending|
    ensures Run(child, turns).pending == [] ==> Run(child, turns).sent == 0
  {
    RunKeeps(child, turns);
  }

  lemma OneTurn(child: Child, turns: seq<Turn>, k: nat)
    requires k < |turns|
    ensures Run(child, turns[..k + 1]) == Step(Run(child, turns[..k]), turns[k], child)
  {
    assert turns[..k + 1][..k] == turns[..k];
  }

  /** The source's loop over its local variables. Each turn does to them what `Step` says. */
  method RelayLoop(child: Child, turns: seq<Turn>) returns (s: Relay)
    ensures s == Run(child, turns)
  {
    var unread, open, nextPipe: Pipe := (child.stdout, child.stderr), (true, true), 0;
    var pending, sent, terminal, exitCode: Option<byte> := [], 0, false, None;
    var wire, frames, status := [], [], Running;
    var k := 0;
    assert turns[..0] == [];
    while k < |turns| && status.Running?
      invariant 0 <= k <= |turns|
      invariant Relay(unread, open, nextPipe, pending, sent, terminal, exitCode, wire, frames, status)
             == Run(child, turns[..k])
      decreases |turns| - k
    {
      var t := turns[k];
      OneTurn(child, turns, k);
      SentLessThanPending(child, turns[..k]);
      k := k + 1;
      if t.stopping || t.peerGone { status := Aborted; break; }
      if exitCode.None? {
        if t.wait.WaitInterrupted? { continue; }
        if t.wait.WaitFailed? { status := Aborted; break; }
        if t.wait.Reported? { exitCode := Some(ExitCode(child.exit)); }
      }
      if exitCode.Some? && t.drainExpired { status := Aborted; break; }
      if pending != [] && t.stalled { status := Aborted; break; }
      if pending == [] && !open.0 && !open.1 && exitCode.Some? {
        pending, terminal := ExitFrame(exitCode.value), true;
      }
      ghost var now := Relay(unread, open, nextPipe, pending, sent, terminal, exitCode, wire, frames, status);
      assert Run(child, turns[..k]) == Transfer(now, t) && now.status.Running?;
      unread, open, nextPipe, pending, sent, wire, frames, status :=
        TransferOnce(unread, open, nextPipe, pending, sent, terminal, wire, frames, t, now);
    }
    s := Relay(unread, open, nextPipe, pending, sent, terminal, exitCode, wire, frames, status);
    EndedStays(child, turns, k);
    assert turns[..|turns|] == turns;
  }

  lemma {:induction false} EndedStays(child: Child, turns: seq<Turn>, k: nat)
    requires k <= |turns| && (k < |turns| ==> !Run(child, turns[..k]).status.Running?)
    ensures Run(child, turns) == Run(child, turns[..k])
    decreases |turns|
  {
    if k < |turns| {
      var n := |turns| - 1;
      assert turns[..n][..k] == turns[..k];
      EndedStays(child, turns[..n], k);
    } else {
      assert turns[..k] == turns;
    }
  }

  /** The rest of an iteration: poll, then send what is pending, or read a pipe. */
  method TransferOnce(unread: (seq<byte>, seq<byte>), open: (bool, bool), nextPipe: Pipe, pending: seq<byte>,
                      sent: nat, terminal: bool, wire: seq<byte>, frames: seq<Write>, t: Turn, ghost s: Relay)
    returns (unread': (seq<byte>, seq<byte>), open': (bool, bool), nextPipe': Pipe, pending': seq<byte>,
             sent': nat, wire': seq<byte>, frames': seq<Write>, status: Status)
    requires s.status == Running && (pending == [] || sent < |pending|)
    requires s == Relay(unread, open, nextPipe, pending, sent, terminal, s.exitCode, wire, frames, Running)
    ensures Transfer(s, t)
         == Relay(unread', open', nextPipe', pending', sent', terminal, s.exitCode, wire', frames', status)
  {
    unread', open', nextPipe', pending', sent' := unread, open, nextPipe, pending, sent;
    wire', frames', status := wire, frames, Running;
    if t.poll.PollInterrupted? { return; }
    if t.poll.PollFailed? || t.poll.socketGone { status := Aborted; return; }
    if pending != [] {
      if t.poll.writable {
        pending', sent', wire', status := SendOnce(pending, sent, wire, terminal, t.send, s);
      }
    } else {
      unread', open', nextPipe', pending', frames', status :=
        ReadOnce(unread, open, nextPipe, frames, t.poll.ready, t.answers, s);
    }
  }

  method SendOnce(pending: seq<byte>, sent: nat, wire: seq<byte>, terminal: bool, answer: Send,
                  ghost s: Relay)
    returns (pending': seq<byte>, sent': nat, wire': seq<byte>, status: Status)
    requires sent < |pending| && s.pending == pending && s.sent == sent && s.wire == wire
    requires s.terminal == terminal && s.status == Running
    ensures SendPending(s, answer) == s.(pending := pending', sent := sent', wire := wire', status := status)
  {
    pending', sent', wire', status := pending, sent, wire, Running;
    match answer
    case SendRetry =>
    case SendFailed => status := Aborted;
    case Took(n) =>
      if n == 0 {
        status := Aborted;
      } else {
        var count := if n < |pending| - sent then n else |pending| - sent;
        wire' := wire + pending[sent..sent + count];
        sent' := sent + count;
        assert pending[sent..|pending|] == pending[sent..];
        if sent' == |pending| {
          pending', sent' := [], 0;
          if terminal { status := Finished; }
        }
      }
  }

  method ReadOnce(unread: (seq<byte>, seq<byte>), open: (bool, bool), nextPipe: Pipe, frames: seq<Write>,
                  ready: (bool, bool), answers: (PipeRead, PipeRead), ghost s: Relay)
    returns (unread': (seq<byte>, seq<byte>), open': (bool, bool), nextPipe': Pipe,
             pending: seq<byte>, frames': seq<Write>, status: Status)
    requires s.unread == unread && s.open == open && s.nextPipe == nextPipe
    requires s.pending == [] && s.frames == frames && s.status == Running
    ensures ReadPipes(s, ready, answers)
         == s.(unread := unread', open := open', nextPipe := nextPipe', pending := pending,
               frames := frames', status := status)
  {
    unread', open', nextPipe', pending, frames', status := unread, open, nextPipe, [], frames, Running;
    var offset := 0;
    while offset < 2
      invariant 0 <= offset <= 2 && unread' == unread && nextPipe' == nextPipe && pending == []
      invariant frames' == frames && status == Running
      invariant offset == 0 ==> open' == open
      invariant offset >= 1 ==>
                  var (u, again) := ReadPipe(s, nextPipe, Pick(ready, nextPipe), Pick(answers, nextPipe));
                  again && (if offset == 1 then u == s.(open := open')
                            else ReadPipes(s, ready, answers) == s.(open := open'))
    {
      var i: Pipe := (nextPipe + offset) % 2;
      offset := offset + 1;
      if !Pick(open', i) || !Pick(ready, i) { continue; }
      match Answer(Pick(unread, i), Pick(answers, i)) {
        case Bytes(n) =>
          var bytes := Pick(unread, i)[..n];
          pending := Frame(ChannelOf(i), bytes);
          frames' := frames + [Write(ChannelOf(i), bytes)];
          unread' := Put(unread, i, Pick(unread, i)[n..]);
          nextPipe' := 1 - i;
          break;
        case Eof => open' := Put(open', i, false);
        case ReadRetry =>
        case ReadFailed => status := Aborted; break;
      }
    }
  }
}
