/** The proxy's session as a transition function over its events.
    `BrokerProxy.RelayBroker` is proved to change its fields exactly as `Step` says, and
    `ProxyRuns` proves what every run of `Step` keeps and where it ends.

    The two output streams are an oracle: `output(n)` says what the n-th write returns. Every timer is
    a step that may come at any point while the timer is armed. */
module ProxySpec {
  import opened Wire
  import opened Wrappers

  /** `stream.write` returned true, returned false, or threw. */
  datatype WriteResult = Accepted | Full | Threw

  type Output = nat -> WriteResult

  /** What was read, and what is still to be read. */
  datatype Input = Input(
    parser: Parser,
    initial: seq<byte>,        // leftover of the handshake, not yet read
    readable: seq<byte>,       // what the socket holds, not yet read
    consumed: seq<byte>,       // history: every byte read so far
    remoteEnded: bool)
  {
    function Unread(): seq<byte> {
      initial + readable
    }
  }

  datatype Writes = Writes(
    outstanding: set<nat>,     // writes whose callback has not come
    acked: set<nat>,           // history: writes whose callback came without an error
    pending: int,              // the source's pendingWrites
    blocked: set<byte>)
  {
    predicate Idle() {
      pending == 0 && blocked == {}
    }
  }

  datatype Ending = Ending(
    finishing: Option<nat>,    // the source's finishingCode
    exited: bool,
    failing: bool,
    trouble: bool,             // history: a stream, the socket or a timer failed before the exit
    inputStopped: bool,
    destroyed: bool,
    deadline: bool,
    stall: bool,
    exits: seq<nat>)           // history: calls of the exit function

  datatype Proxy = Proxy(input: Input, writes: Writes, ending: Ending)

  function Start(leftover: seq<byte>): Proxy {
    Proxy(Input(START, leftover, [], [], false),
          Writes({}, {}, 0, {}),
          Ending(None, false, false, false, false, false, false, false, []))
  }

  // ---------- Ending ----------

  function Exit(e: Ending, pending: int): Ending {
    if e.exited || e.finishing.None? || pending > 0 then e
    else e.(exited := true, deadline := false, stall := false, exits := e.exits + [e.finishing.value])
  }

  function Finish(e: Ending, pending: int, code: nat): Ending {
    if e.exited then e
    else
      var finishing := if e.finishing.None? || code != 0 then Some(code) else e.finishing;
      Exit(e.(finishing := finishing, inputStopped := true, destroyed := true, deadline := true), pending)
  }

  function Fail(e: Ending, pending: int): Ending {
    if e.exited || e.failing then e else Finish(e.(failing := true), pending, 1)
  }

  function Trouble(e: Ending): Ending {
    e.(trouble := e.trouble || !e.exited)
  }

  /** Clearing and re-arming the stall timer leaves it armed exactly while output is owed. */
  function UpdateStall(e: Ending, w: Writes): Ending {
    e.(stall := !e.exited && !w.Idle())
  }

  // ---------- Writing ----------

  /** Write number `i` goes to its stream, which answers `result`. */
  function IssueWrite(w: Writes, e: Ending, i: nat, channel: byte, result: WriteResult): (Writes, Ending) {
    var issued := w.(pending := w.pending + 1, outstanding := w.outstanding + {i});
    match result
    case Accepted => (issued, UpdateStall(e, issued))
    case Full =>
      var full := issued.(blocked := issued.blocked + {channel});
      (full, UpdateStall(e, full))
    case Threw => (w, Fail(Trouble(e), w.pending))
  }

  // ---------- Reading ----------

  function Take(i: Input): (j: Input)
    requires i.Unread() != [] && i.parser.phase.Valid()
    ensures |j.Unread()| == |i.Unread()| - 1 && j.parser.phase.Valid()
  {
    var b := i.Unread()[0];
    var rest := if i.initial != [] then i.(initial := i.initial[1..]) else i.(readable := i.readable[1..]);
    rest.(consumed := i.consumed + [b], parser := Feed(i.parser, b))
  }

  /** What completing a header, a payload or a status calls for; `before` writes were known already,
      and a new one is issued under its position among all writes. */
  function Effect(before: nat, p: Parser, w: Writes, e: Ending, output: Output): (Writes, Ending) {
    if |p.writes| > before then
      var i := |p.writes| - 1;
      IssueWrite(w, e, i, p.writes[i].channel, output(i))
    else if p.phase.Rejected? then (w, Fail(e, w.pending))
    else if p.phase.Done? then (w, e.(inputStopped := true, deadline := true))
    else (w, e)
  }

  function AfterByte(before: nat, s: Proxy, output: Output): Proxy {
    var (w, e) := Effect(before, s.input.parser, s.writes, s.ending, output);
    Proxy(s.input, w, e)
  }

  function TakeByte(s: Proxy, output: Output): (t: Proxy)
    requires s.input.Unread() != [] && s.input.parser.phase.Valid()
    ensures t.input == Take(s.input)
  {
    AfterByte(|s.input.parser.writes|, s.(input := Take(s.input)), output)
  }

  /** The source's loop guard. */
  predicate MayRead(s: Proxy) {
    s.writes.blocked == {} && s.ending.finishing.None?
  }

  predicate Reading(s: Proxy) {
    MayRead(s) && s.input.Unread() != []
  }

  function PumpLoop(s: Proxy, output: Output): (t: Proxy)
    requires s.input.parser.phase.Valid()
    ensures t.input.parser.phase.Valid() && !Reading(t)
    decreases |s.input.Unread()|
  {
    if Reading(s) then PumpLoop(TakeByte(s, output), output) else s
  }

  function AtEnd(s: Proxy): (t: Proxy)
    ensures t.input == s.input
  {
    if s.input.remoteEnded && s.writes.blocked == {} && s.ending.finishing.None? then
      var phase := s.input.parser.phase;
      s.(ending := if phase.Done? then Finish(s.ending, s.writes.pending, phase.code)
                   else Fail(s.ending, s.writes.pending))
    else s
  }

  function Pump(s: Proxy, output: Output): (t: Proxy)
    requires s.input.parser.phase.Valid()
    ensures t.input.parser.phase.Valid()
  {
    if s.ending.finishing.Some? || s.ending.exited then s else AtEnd(PumpLoop(s, output))
  }

  // ---------- Events ----------

  datatype Event =
    | Readable(chunk: seq<byte>)
    | Drained(channel: byte)
    | WriteDone(write: nat, ok: bool)
    | StreamFailed       // error on stdin, stdout, stderr or the socket; close of stdout or stderr
    | RemoteEnd
    | SocketClosed
    | DeadlinePassed
    | OutputStalled

  predicate Enabled(s: Proxy, e: Event) {
    match e
    case Readable(_) => !s.input.remoteEnded
    case WriteDone(i, _) => i in s.writes.outstanding
    case RemoteEnd => !s.input.remoteEnded && s.input.readable == []
    case DeadlinePassed => s.ending.deadline
    case OutputStalled => s.ending.stall
    case _ => true
  }

  function Step(s: Proxy, e: Event, output: Output): (t: Proxy)
    requires s.input.parser.phase.Valid()
    ensures t.input.parser.phase.Valid()
  {
    match e
    case Readable(chunk) =>
      Pump(s.(input := s.input.(readable := s.input.readable + chunk)), output)
    case Drained(channel) =>
      if s.ending.exited then s
      else
        var w := s.writes.(blocked := s.writes.blocked - {channel});
        Pump(s.(writes := w, ending := UpdateStall(s.ending, w)), output)
    case WriteDone(i, ok) => WriteCallback(s, i, ok)
    case StreamFailed => s.(ending := Fail(Trouble(s.ending), s.writes.pending))
    case RemoteEnd => Pump(s.(input := s.input.(remoteEnded := true)), output)
    case SocketClosed =>
      if s.ending.finishing.None? && !s.input.remoteEnded then
        s.(ending := Fail(Trouble(s.ending), s.writes.pending))
      else s
    case DeadlinePassed =>
      if s.ending.exited then s
      else
        var e := Trouble(s.ending).(finishing := Some(1), inputStopped := true, destroyed := true);
        s.(writes := s.writes.(pending := 0), ending := Exit(e, 0))
    case OutputStalled =>
      if s.ending.exited then s
      else s.(writes := s.writes.(pending := 0), ending := Finish(Trouble(s.ending), 0, 1))
  }

  function WriteCallback(s: Proxy, i: nat, ok: bool): (t: Proxy)
    ensures t.input == s.input
  {
    var w := s.writes.(outstanding := s.writes.outstanding - {i});
    var (w', e') := if s.ending.exited then (w, s.ending) else CallbackEffect(w, s.ending, i, ok);
    Proxy(s.input, w', e')
  }

  function CallbackEffect(w: Writes, e: Ending, i: nat, ok: bool): (Writes, Ending) {
    var fewer := w.(pending := w.pending - 1);
    var stalled := UpdateStall(e, fewer);
    if ok then (fewer.(acked := fewer.acked + {i}), Exit(stalled, fewer.pending))
    else (fewer, Fail(Trouble(stalled), fewer.pending))
  }

  /** The state after the handshake's leftover was pumped and then these events, in order, came. */
  function Run(leftover: seq<byte>, events: seq<Event>, output: Output): (s: Proxy)
    ensures s.input.parser.phase.Valid()
    decreases |events|
  {
    if events == [] then Pump(Start(leftover), output)
    else Step(Run(leftover, events[..|events| - 1], output), events[|events| - 1], output)
  }

  /** Each event was one that can come in the state it came in. */
  ghost predicate Possible(leftover: seq<byte>, events: seq<Event>, output: Output) {
    forall k :: 0 <= k < |events| ==> Enabled(Run(leftover, events[..k], output), events[k])
  }
}
