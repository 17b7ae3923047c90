/** `relayBroker` in the source's own form: one object whose handlers update its fields, a fixed header
    buffer, and one payload buffer at a time. Every handler is proved to do what `ProxySpec.Step`
    says, so the theorems of `ProxyTheorems` are about these handlers in any order. */
module BrokerProxy {
  import opened Wire
  import opened Wrappers
  import opened ProxySpec
  import opened PumpChunks

  /** How one read went: no bytes, some but not enough, all of them, or bytes that end the session. */
  datatype Progress = Starved | Partial | Complete | Refused

  /** A read took `bytes` off the leftover while there was one, and off the socket after that. */
  ghost predicate Taken(bytes: seq<byte>, leftover: seq<byte>, readable: seq<byte>,
                        leftover': seq<byte>, readable': seq<byte>) {
    if leftover != [] then
      bytes <= leftover && leftover' == leftover[|bytes|..] && readable' == readable
    else
      leftover' == [] && bytes <= readable && readable' == readable[|bytes|..]
  }

  lemma MovedBy(i: Input, bytes: seq<byte>, leftover: seq<byte>, readable: seq<byte>, p: Parser)
    requires Taken(bytes, i.initial, i.readable, leftover, readable) && bytes != []
    ensures bytes <= Source(i)
    ensures Moved(i, bytes, p) == Input(p, leftover, readable, i.consumed + bytes, i.remoteEnded)
  {}

  lemma TrailingByte(p: Parser, chunk: seq<byte>)
    requires p.phase.Done? && p.phase.Valid() && |chunk| == 1
    ensures OneStep(p, chunk) && FeedAll(p, chunk) == p.(phase := Rejected(TrailingBytes))
  {
    assert FeedAll(p, chunk) == Feed(p, chunk[0]) by { FeedOne(p, chunk[0]); assert chunk == [chunk[0]]; }
  }

  /** A callback leaves no failure and no exit without a code. */
  lemma CallbackDecides(s: Proxy, i: nat, ok: bool)
    requires s.ending.exited || s.ending.failing ==> s.ending.finishing.Some?
    ensures var after := WriteCallback(s, i, ok).ending;
            (after.exited || after.failing || s.ending.finishing.Some?) ==> after.finishing.Some?
  {}

  class RelayBroker {
    const output: Output

    // The parser's buffers.
    const header: array<byte>
    var headerBytes: nat
    var payload: array?<byte>
    var payloadBytes: nat
    var channel: byte
    var exitCode: Option<byte>

    // The two sources of bytes: the handshake's leftover, then the socket.
    var initialBytes: seq<byte>
    var initialOffset: nat
    var readable: seq<byte>
    var remoteEnded: bool

    // Output and ending.
    var pendingWrites: int
    var issued: nat
    var blocked: set<byte>
    var ending: Ending

    // What the streams and the reader of this model remember.
    ghost var writes: seq<Write>
    ghost var consumed: seq<byte>
    ghost var rejected: Option<Verdict>
    ghost var outstanding: set<nat>
    ghost var acked: set<nat>

    ghost predicate Valid()
      reads this, header, payload
    {
      && issued == |writes|
      && header.Length == HEADER_BYTES && headerBytes <= HEADER_BYTES && initialOffset <= |initialBytes|
      && (payload != null ==> payload != header && payloadBytes <= payload.Length)
      && (rejected.None? && exitCode.None? ==>
            if payload == null then headerBytes < HEADER_BYTES
            else
              && headerBytes == HEADER_BYTES && channel == header[0]
              && payload.Length == ReadUint32(header[1..5])
              && !BadHeader(channel, payload.Length) && payloadBytes < payload.Length)
      && (exitCode.Some? ==> payload == null && headerBytes == 0)
      && (ending.exited || ending.failing || rejected.Some? ==> ending.finishing.Some?)
      && Phase().Valid()
    }

    ghost function Phase(): Phase
      reads this, header, payload
      requires header.Length == HEADER_BYTES && headerBytes <= HEADER_BYTES
      requires payload != null ==> payloadBytes <= payload.Length
    {
      if rejected.Some? then Rejected(rejected.value)
      else if exitCode.Some? then Done(exitCode.value)
      else if payload == null then Header(header[..headerBytes])
      else Body(channel, payload.Length, payload[..payloadBytes])
    }

    /** The phase while both buffers are empty. */
    ghost function EmptyPhase(): Phase
      reads this
    {
      if rejected.Some? then Rejected(rejected.value)
      else if exitCode.Some? then Done(exitCode.value)
      else Header([])
    }

    ghost function In(): Input
      reads this, header, payload
      requires Valid()
    {
      Input(Parser(writes, Phase()), Leftover(), readable, consumed, remoteEnded)
    }

    ghost function Out(): Writes
      reads this
    {
      Writes(outstanding, acked, pendingWrites, blocked)
    }

    ghost function View(): Proxy
      reads this, header, payload
      requires Valid()
    {
      Proxy(In(), Out(), ending)
    }

    /** The handlers are attached and the leftover is pumped. */
    constructor (leftover: seq<byte>, output: Output)
      ensures Valid() && fresh(header) && (payload == null || fresh(payload)) && this.output == output
      ensures View() == Run(leftover, [], output)
    {
      this.output := output;
      header := new byte[HEADER_BYTES];
      headerBytes, payload, payloadBytes, channel, exitCode := 0, null, 0, 0, None;
      initialBytes, initialOffset, readable, remoteEnded := leftover, 0, [], false;
      pendingWrites, issued, blocked := 0, 0, {};
      ending := Ending(None, false, false, false, false, false, false, false, []);
      writes, consumed, rejected, outstanding, acked := [], [], None, {}, {};
      new;
      assert View() == Start(leftover);
      Pump();
    }

    // ---------- exit, finish, fail ----------

    method ExitNow()
      modifies this`ending
      ensures ending == ProxySpec.Exit(old(ending), pendingWrites)
    {
      if ending.exited || ending.finishing.None? || pendingWrites > 0 { return; }
      ending := ending.(exited := true, deadline := false, stall := false);
      ending := ending.(exits := ending.exits + [ending.finishing.value]);
    }

    method Finish(code: nat)
      modifies this`ending
      ensures ending == ProxySpec.Finish(old(ending), pendingWrites, code)
    {
      if ending.exited { return; }
      if ending.finishing.None? || code != 0 { ending := ending.(finishing := Some(code)); }
      ending := ending.(inputStopped := true, destroyed := true);
      if !ending.deadline { ending := ending.(deadline := true); }
      ExitNow();
    }

    method Fail()
      modifies this`ending
      ensures ending == ProxySpec.Fail(old(ending), pendingWrites)
    {
      if ending.exited || ending.failing { return; }
      ending := ending.(failing := true);
      Finish(1);
    }

    method UpdateStallDeadline(progress: bool)
      requires !ending.exited
      modifies this`ending
      ensures ending == ProxySpec.UpdateStall(old(ending), Writes(outstanding, acked, pendingWrites, blocked))
    {
      if progress || (pendingWrites == 0 && blocked == {}) { ending := ending.(stall := false); }
      if ending.exited || ending.stall || (pendingWrites == 0 && blocked == {}) { return; }
      ending := ending.(stall := true);
    }

    // ---------- Reading and writing ----------

    ghost function Leftover(): seq<byte>
      reads this
      requires initialOffset <= |initialBytes|
    {
      initialBytes[initialOffset..]
    }

    /** Bytes of the leftover first, then of the socket; None when neither holds any. */
    method Read(length: nat) returns (bytes: Option<seq<byte>>)
      requires initialOffset <= |initialBytes| && length > 0
      modifies this`initialBytes, this`initialOffset, this`readable
      ensures initialOffset <= |initialBytes|
      ensures bytes.None? ==> Leftover() == old(Leftover()) == [] && readable == old(readable) == []
      ensures bytes.Some? ==>
                var n := |bytes.value|;
                && 0 < n <= length
                && Taken(bytes.value, old(Leftover()), old(readable), Leftover(), readable)
    {
      if initialOffset < |initialBytes| {
        var end := if |initialBytes| < initialOffset + length then |initialBytes| else initialOffset + length;
        bytes := Some(initialBytes[initialOffset..end]);
        initialOffset := end;
        if initialOffset == |initialBytes| { initialBytes, initialOffset := [], 0; }
      } else {
        var n := if length < |readable| then length else |readable|;
        if n == 0 { return None; }
        bytes := Some(readable[..n]);
        readable := readable[n..];
      }
    }

    method WriteOutput(bytes: seq<byte>)
      requires issued == |writes| && !ending.exited
      modifies this`pendingWrites, this`blocked, this`ending, this`issued,
               this`writes, this`outstanding
      ensures issued == |writes| && writes == old(writes) + [Write(channel, bytes)]
      ensures (Out(), ending) == IssueWrite(old(Out()), old(ending), |old(writes)|, channel, output(|old(writes)|))
    {
      ghost var i := |writes|;
      writes := writes + [Write(channel, bytes)];
      var result := output(issued);
      issued := issued + 1;
      pendingWrites := pendingWrites + 1;
      if result.Threw? {
        pendingWrites := pendingWrites - 1;
        ending := Trouble(ending);
        Fail();
      } else {
        outstanding := outstanding + {i};
        if result.Full? { blocked := blocked + {channel}; }
        UpdateStallDeadline(false);
      }
    }

    // ---------- pump ----------

    /** One read, copied behind the header bytes already there. */
    method ReadHeader() returns (bytes: Option<seq<byte>>)
      requires header.Length == HEADER_BYTES && headerBytes < HEADER_BYTES && initialOffset <= |initialBytes|
      modifies this`initialBytes, this`initialOffset, this`readable, this`headerBytes, this`consumed, header
      ensures initialOffset <= |initialBytes|
      ensures bytes.None? ==> header[..] == old(header[..]) && headerBytes == old(headerBytes)
      ensures bytes.None? ==> Leftover() == old(Leftover()) == [] && readable == old(readable) == []
      ensures bytes.None? ==> consumed == old(consumed)
      ensures bytes.Some? ==>
                var n := |bytes.value|;
                && 0 < n && headerBytes == old(headerBytes) + n <= HEADER_BYTES
                && header[..headerBytes] == old(header[..headerBytes]) + bytes.value
                && consumed == old(consumed) + bytes.value
                && Taken(bytes.value, old(Leftover()), old(readable), Leftover(), readable)
    {
      bytes := Read(HEADER_BYTES - headerBytes);
      if bytes.Some? {
        forall k | 0 <= k < |bytes.value| { header[headerBytes + k] := bytes.value[k]; }
        headerBytes := headerBytes + |bytes.value|;
        consumed := consumed + bytes.value;
      }
    }

    method ReadPayload() returns (bytes: Option<seq<byte>>)
      requires payload != null && payloadBytes < payload.Length && initialOffset <= |initialBytes|
      requires payload != header
      modifies this`initialBytes, this`initialOffset, this`readable, this`payloadBytes, this`consumed, payload
      ensures initialOffset <= |initialBytes|
      ensures bytes.None? ==> payload[..] == old(payload[..]) && payloadBytes == old(payloadBytes)
      ensures bytes.None? ==> Leftover() == old(Leftover()) == [] && readable == old(readable) == []
      ensures bytes.None? ==> consumed == old(consumed)
      ensures bytes.Some? ==>
                var n := |bytes.value|;
                && 0 < n && payloadBytes == old(payloadBytes) + n <= payload.Length
                && payload[..payloadBytes] == old(payload[..payloadBytes]) + bytes.value
                && consumed == old(consumed) + bytes.value
                && Taken(bytes.value, old(Leftover()), old(readable), Leftover(), readable)
    {
      bytes := Read(payload.Length - payloadBytes);
      if bytes.Some? {
        forall k | 0 <= k < |bytes.value| { payload[payloadBytes + k] := bytes.value[k]; }
        payloadBytes := payloadBytes + |bytes.value|;
        consumed := consumed + bytes.value;
      }
    }

    /** A complete header is refused, or gets its payload buffer. */
    method CheckHeader()
      requires header.Length == HEADER_BYTES && payload == null && rejected.None?
      modifies this`payload, this`payloadBytes, this`channel, this`rejected, this`ending
      ensures var length := ReadUint32(header[1..5]);
              if BadHeader(header[0], length) then
                && payload == null && rejected == Some(InvalidFrame)
                && ending == ProxySpec.Fail(old(ending), pendingWrites)
              else
                && payload != null && fresh(payload) && payload.Length == length && payloadBytes == 0
                && channel == header[0] && rejected.None? && ending == old(ending)
    {
      channel := header[0];
      var length := ReadUint32(header[1..5]);
      if BadHeader(channel, length) {
        rejected := Some(InvalidFrame);
        Fail();
      } else {
        payload := new byte[length];
        payloadBytes := 0;
      }
    }

    /** The header part of one turn of the loop: read, and check a complete header. */
    method PumpHeader() returns (progress: Progress, ghost chunk: seq<byte>)
      requires Valid() && payload == null && exitCode.None? && ending.finishing.None?
      modifies this`initialBytes, this`initialOffset, this`readable, this`headerBytes, this`consumed,
               this`payload, this`payloadBytes, this`channel, this`rejected, this`ending, header
      ensures Valid() && (payload == null || fresh(payload))
      ensures progress.Starved? ==> In() == old(In()) && In().Unread() == []
      ensures !progress.Starved? ==>
                var i := old(In());
                && chunk != [] && chunk <= Source(i) && |i.parser.phase.got| + |chunk| <= HEADER_BYTES
                && In() == Moved(i, chunk, AfterHeaderRead(i.parser, i.parser.phase.got + chunk))
      ensures ending == if rejected.Some? then ProxySpec.Fail(old(ending), pendingWrites) else old(ending)
      ensures progress.Refused? <==> rejected.Some?
      ensures progress.Complete? <==> payload != null
    {
      ghost var i := In();
      var bytes := ReadHeader();
      if bytes.None? {
        assert header[..headerBytes] == header[..][..headerBytes];
        return Starved, [];
      }
      chunk := bytes.value;
      assert header[..headerBytes] == i.parser.phase.got + chunk;
      MovedBy(i, chunk, Leftover(), readable, AfterHeaderRead(i.parser, i.parser.phase.got + chunk));
      progress := FinishHeader();
    }

    /** A complete header is checked; otherwise there is nothing to do yet. */
    method FinishHeader() returns (progress: Progress)
      requires issued == |writes| && initialOffset <= |initialBytes|
      requires header.Length == HEADER_BYTES && headerBytes <= HEADER_BYTES && payload == null
      requires rejected.None? && exitCode.None? && ending.finishing.None? && !ending.exited && !ending.failing
      modifies this`payload, this`payloadBytes, this`channel, this`rejected, this`ending
      ensures Valid() && (payload == null || fresh(payload))
      ensures In().parser == AfterHeaderRead(Parser(writes, EmptyPhase()), header[..headerBytes])
      ensures ending == if rejected.Some? then ProxySpec.Fail(old(ending), pendingWrites) else old(ending)
      ensures progress.Refused? <==> rejected.Some?
      ensures progress.Complete? <==> payload != null
      ensures !progress.Starved?
    {
      progress := Partial;
      if headerBytes == HEADER_BYTES {
        ghost var h := header[..headerBytes];
        assert header[1..5] == h[1..5];
        CheckHeader();
        progress := if payload == null then Refused else Complete;
        assert payload != null ==> payload[..0] == [];
      }
    }

    /** A complete payload is written to its stream, or is the exit status. */
    method CompleteFrame() returns (refused: bool)
      requires payload != null && exitCode.None? && rejected.None? && issued == |writes|
      requires !BadHeader(channel, payload.Length) && !ending.exited
      modifies this`payload, this`headerBytes, this`exitCode, this`rejected, this`ending,
               this`pendingWrites, this`blocked, this`issued, this`writes, this`outstanding
      ensures payload == null && headerBytes == 0 && issued == |writes|
      ensures refused <==> rejected.Some?
      ensures Parser(writes, EmptyPhase())
           == AfterPayload(Parser(old(writes), EmptyPhase()), channel, old(payload[..]))
      ensures (Out(), ending)
           == Effect(|old(writes)|, Parser(writes, EmptyPhase()), old(Out()), old(ending), output)
    {
      var complete := payload[..];
      payload, headerBytes, refused := null, 0, false;
      if channel == EXIT {
        var code := ReadUint32(complete);
        if code > 255 {
          rejected, refused := Some(InvalidStatus), true;
          Fail();
        } else {
          exitCode := Some(code);
          ending := ending.(inputStopped := true);
          if !ending.deadline { ending := ending.(deadline := true); }
        }
      } else {
        WriteOutput(complete);
      }
    }

    /** The payload part of one turn of the loop. */
    method PumpPayload() returns (progress: Progress, ghost chunk: seq<byte>)
      requires Valid() && payload != null && exitCode.None? && ending.finishing.None?
      modifies this`initialBytes, this`initialOffset, this`readable, this`payloadBytes, this`consumed, payload,
               this`payload, this`headerBytes, this`exitCode, this`rejected, this`ending,
               this`pendingWrites, this`blocked, this`issued, this`writes, this`outstanding
      ensures Valid() && (payload == null || payload == old(payload))
      ensures progress.Starved? ==> View() == old(View()) && In().Unread() == []
      ensures !progress.Starved? ==> chunk != [] && chunk <= Source(old(In()))
      ensures progress.Partial? ==>
                var i := old(In());
                var body := i.parser.phase.got + chunk;
                && |body| < i.parser.phase.length && Out() == old(Out()) && ending == old(ending)
                && In() == Moved(i, chunk, i.parser.(phase := i.parser.phase.(got := body)))
      ensures progress.Complete? || progress.Refused? ==>
                var i := old(In());
                var body := i.parser.phase.got + chunk;
                && |body| == i.parser.phase.length
                && In() == Moved(i, chunk, AfterPayload(i.parser, i.parser.phase.channel, body))
                && (Out(), ending) == Effect(|old(writes)|, In().parser, old(Out()), old(ending), output)
      ensures progress.Refused? <==> rejected.Some?
    {
      ghost var i := In();
      var bytes := GatherPayload();
      if bytes.None? { return Starved, []; }
      chunk := bytes.value;
      if payloadBytes < payload.Length { return Partial, chunk; }
      assert payload[..] == payload[..payloadBytes];
      progress := FullPayload(i, chunk);
    }

    /** With the last bytes of a payload in its buffer. */
    method FullPayload(ghost i: Input, ghost chunk: seq<byte>) returns (progress: Progress)
      requires header.Length == HEADER_BYTES && initialOffset <= |initialBytes| && issued == |writes|
      requires payload != null && exitCode.None? && rejected.None? && !BadHeader(channel, payload.Length)
      requires ending.finishing.None? && !ending.exited && !ending.failing
      requires i.parser.phase.Body? && i.parser.writes == writes && i.parser.phase.channel == channel && chunk != []
      requires payload[..] == i.parser.phase.got + chunk && consumed == i.consumed + chunk
      requires Taken(chunk, i.initial, i.readable, Leftover(), readable) && remoteEnded == i.remoteEnded
      modifies this`payload, this`headerBytes, this`exitCode, this`rejected, this`ending,
               this`pendingWrites, this`blocked, this`issued, this`writes, this`outstanding
      ensures Valid() && payload == null && chunk <= Source(i)
      ensures In() == Moved(i, chunk, AfterPayload(i.parser, i.parser.phase.channel, old(payload[..])))
      ensures (Out(), ending) == Effect(|old(writes)|, In().parser, old(Out()), old(ending), output)
      ensures progress == if rejected.Some? then Refused else Complete
    {
      ghost var after := AfterPayload(i.parser, i.parser.phase.channel, payload[..]);
      MovedBy(i, chunk, Leftover(), readable, after);
      progress := FinishPayload(i.parser, after);
    }

    /** A read into the payload buffer that leaves it short is a state of its own. */
    method GatherPayload() returns (bytes: Option<seq<byte>>)
      requires Valid() && payload != null && exitCode.None? && ending.finishing.None?
      modifies this`initialBytes, this`initialOffset, this`readable, this`payloadBytes, this`consumed, payload
      ensures initialOffset <= |initialBytes| && payloadBytes <= payload.Length && header.Length == HEADER_BYTES
      ensures rejected.None? && issued == |writes| && !BadHeader(channel, payload.Length)
      ensures ending.finishing.None? && !ending.exited && !ending.failing && writes == old(In()).parser.writes
      ensures channel == old(In()).parser.phase.channel && payload.Length == old(In()).parser.phase.length
      ensures Out() == old(Out()) && ending == old(ending)
      ensures bytes.None? ==> Valid() && View() == old(View()) && In().Unread() == []
      ensures bytes.Some? ==>
                && bytes.value != []
                && payload[..payloadBytes] == old(In()).parser.phase.got + bytes.value
                && consumed == old(consumed) + bytes.value
                && Taken(bytes.value, old(Leftover()), old(readable), Leftover(), readable)
      ensures bytes.Some? && payloadBytes < payload.Length ==>
                && Valid() && bytes.value <= Source(old(In()))
                && In() == Moved(old(In()), bytes.value, old(In()).parser.(phase := Phase()))
    {
      ghost var i := In();
      bytes := ReadPayload();
      if bytes.None? {
        assert payload[..payloadBytes] == payload[..][..payloadBytes];
      } else {
        assert payload[..payloadBytes] == i.parser.phase.got + bytes.value;
        MovedBy(i, bytes.value, Leftover(), readable, i.parser.(phase := Phase()));
      }
    }

    /** The buffer is full: its frame is complete, and the parser is between frames again. */
    method FinishPayload(ghost p: Parser, ghost after: Parser) returns (progress: Progress)
      requires p.writes == writes
      requires payload != null && exitCode.None? && rejected.None? && issued == |writes|
      requires header.Length == HEADER_BYTES && initialOffset <= |initialBytes|
      requires !BadHeader(channel, payload.Length) && ending.finishing.None? && !ending.exited && !ending.failing
      requires after == AfterPayload(p, channel, payload[..])
      modifies this`payload, this`headerBytes, this`exitCode, this`rejected, this`ending,
               this`pendingWrites, this`blocked, this`issued, this`writes, this`outstanding
      ensures Valid() && payload == null
      ensures In() == Input(after, old(Leftover()), readable, consumed, remoteEnded)
      ensures (Out(), ending) == Effect(|old(writes)|, after, old(Out()), old(ending), output)
      ensures progress == if rejected.Some? then Refused else Complete
    {
      var refused := CompleteFrame();
      progress := if refused then Refused else Complete;
      assert header[..0] == [] && Phase() == EmptyPhase();
    }

    /** After the exit frame: any further byte is one too many. */
    method PumpTrailing() returns (ghost chunk: seq<byte>)
      requires Valid() && exitCode.Some? && ending.finishing.None?
      modifies this`initialBytes, this`initialOffset, this`readable, this`consumed, this`rejected, this`ending
      ensures Valid()
      ensures chunk == [] ==> View() == old(View()) && In().Unread() == []
      ensures chunk != [] ==>
                && |chunk| == 1 && chunk <= Source(old(In()))
                && In() == Moved(old(In()), chunk, old(In()).parser.(phase := Rejected(TrailingBytes)))
                && rejected.Some? && ending == ProxySpec.Fail(old(ending), pendingWrites)
    {
      ghost var i := In();
      var bytes := Read(1);
      if bytes.None? {
        assert In() == i;
        return [];
      }
      chunk := bytes.value;
      MovedBy(i, chunk, Leftover(), readable, i.parser.(phase := Rejected(TrailingBytes)));
      consumed := consumed + chunk;
      rejected := Some(TrailingBytes);
      Fail();
    }

    /** One turn of the loop; `stop` is its break. */
    method Turn() returns (stop: bool)
      requires Valid() && MayRead(View())
      modifies this, header, payload
      ensures Valid() && (payload == null || payload == old(payload) || fresh(payload))
      ensures PumpLoop(View(), output) == PumpLoop(old(View()), output)
      ensures stop ==> !Reading(View())
      ensures !stop ==> |In().Unread()| < |old(In().Unread())|
    {
      if exitCode.Some? {
        TurnTrailing();
        return true;
      }
      if payload == null {
        var progress := TurnHeader();
        if !progress.Complete? { return !progress.Partial?; }
      }
      stop := TurnPayload();
    }

    method TurnTrailing()
      requires Valid() && MayRead(View()) && exitCode.Some?
      modifies this`initialBytes, this`initialOffset, this`readable, this`consumed, this`rejected, this`ending
      ensures Valid() && PumpLoop(View(), output) == PumpLoop(old(View()), output) && !Reading(View())
    {
      ghost var s := View();
      ghost var chunk := PumpTrailing();
      if chunk != [] {
        TrailingByte(s.input.parser, chunk);
        OneReadOnTheWay(s, View(), chunk, output);
      }
    }

    method TurnHeader() returns (progress: Progress)
      requires Valid() && MayRead(View()) && payload == null && exitCode.None?
      modifies this`initialBytes, this`initialOffset, this`readable, this`headerBytes, this`consumed,
               this`payload, this`payloadBytes, this`channel, this`rejected, this`ending, header
      ensures Valid() && (payload == null || fresh(payload))
      ensures PumpLoop(View(), output) == PumpLoop(old(View()), output)
      ensures progress.Starved? || progress.Refused? ==> !Reading(View())
      ensures !progress.Starved? ==> |In().Unread()| < |old(In().Unread())|
      ensures progress.Complete? ==> payload != null && MayRead(View())
    {
      ghost var s := View();
      ghost var chunk;
      progress, chunk := PumpHeader();
      if !progress.Starved? { HeaderChunk(s.input.parser, chunk); OneReadOnTheWay(s, View(), chunk, output); }
    }

    method TurnPayload() returns (stop: bool)
      requires Valid() && MayRead(View()) && payload != null && exitCode.None?
      modifies this, payload
      ensures Valid() && (payload == null || payload == old(payload))
      ensures PumpLoop(View(), output) == PumpLoop(old(View()), output)
      ensures stop ==> !Reading(View())
      ensures !stop ==> |In().Unread()| < |old(In().Unread())|
    {
      ghost var s := View();
      var progress, chunk := PumpPayload();
      if !progress.Starved? { BodyChunk(s.input.parser, chunk); OneReadOnTheWay(s, View(), chunk, output); }
      stop := progress.Starved? || progress.Refused?;
    }

    /** Read what can be read; at the peer's end, decide the session. */
    method Pump()
      requires Valid()
      modifies this, header, payload
      ensures Valid() && (payload == null || payload == old(payload) || fresh(payload))
      ensures View() == ProxySpec.Pump(old(View()), output)
    {
      if ending.finishing.Some? || ending.exited { return; }
      ghost var s := View();
      while blocked == {} && ending.finishing.None?
        invariant Valid() && (payload == null || payload == old(payload) || fresh(payload))
        invariant PumpLoop(View(), output) == PumpLoop(s, output)
        decreases |In().Unread()|
      {
        var stop := Turn();
        if stop { break; }
      }
      assert View() == PumpLoop(s, output);
      if remoteEnded && blocked == {} && ending.finishing.None? { DecideAtEnd(); }
    }

    method DecideAtEnd()
      requires Valid() && remoteEnded && MayRead(View())
      modifies this`ending
      ensures Valid() && View() == AtEnd(old(View()))
    {
      if exitCode.None? || headerBytes != 0 || payload != null {
        Fail();
      } else {
        Finish(exitCode.value);
      }
    }

    // ---------- Handlers, one for each event ----------

    method OnReadable(chunk: seq<byte>)
      requires Valid()
      modifies this, header, payload
      ensures Valid() && (payload == null || payload == old(payload) || fresh(payload))
      ensures View() == Step(old(View()), Readable(chunk), output)
    {
      readable := readable + chunk;
      Pump();
    }

    method OnDrain(stream: byte)
      requires Valid()
      modifies this, header, payload
      ensures Valid() && (payload == null || payload == old(payload) || fresh(payload))
      ensures View() == Step(old(View()), Drained(stream), output)
    {
      if ending.exited { return; } // the listener is gone
      blocked := blocked - {stream};
      UpdateStallDeadline(true);
      Pump();
    }

    method OnWriteDone(write: nat, ok: bool)
      requires Valid()
      modifies this`outstanding, this`acked, this`pendingWrites, this`ending
      ensures Valid() && View() == Step(old(View()), WriteDone(write, ok), output)
    {
      CallbackDecides(View(), write, ok);
      outstanding := outstanding - {write};
      if !ending.exited { Callback(write, ok); }
    }

    method Callback(write: nat, ok: bool)
      requires !ending.exited
      modifies this`acked, this`pendingWrites, this`ending
      ensures (Out(), ending) == CallbackEffect(old(Out()), old(ending), write, ok)
    {
      pendingWrites := pendingWrites - 1;
      UpdateStallDeadline(true);
      if ok {
        acked := acked + {write};
        ExitNow();
      } else {
        ending := Trouble(ending);
        Fail();
      }
    }

    method OnStreamFailed()
      requires Valid()
      modifies this`ending
      ensures Valid() && View() == Step(old(View()), StreamFailed, output)
    {
      ending := Trouble(ending);
      Fail();
    }

    method OnEnd()
      requires Valid()
      modifies this, header, payload
      ensures Valid() && (payload == null || payload == old(payload) || fresh(payload))
      ensures View() == Step(old(View()), RemoteEnd, output)
    {
      remoteEnded := true;
      Pump();
    }

    method OnSocketClose()
      requires Valid()
      modifies this`ending
      ensures Valid() && View() == Step(old(View()), SocketClosed, output)
    {
      if ending.finishing.None? && !remoteEnded {
        ending := Trouble(ending);
        Fail();
      }
    }

    method OnDeadline()
      requires Valid()
      modifies this`pendingWrites, this`ending
      ensures Valid() && View() == Step(old(View()), DeadlinePassed, output)
    {
      ghost var s := View();
      if ending.exited { return; }
      ending := Trouble(ending).(finishing := Some(1));
      pendingWrites := 0;
      ending := ending.(inputStopped := true, destroyed := true);
      ExitNow();
    }

    method OnStall()
      requires Valid()
      modifies this`pendingWrites, this`ending
      ensures Valid() && View() == Step(old(View()), OutputStalled, output)
    {
      if ending.exited { return; }
      ending := Trouble(ending);
      pendingWrites := 0;
      Finish(1);
    }

    method Handle(e: Event)
      requires Valid()
      modifies this, header, payload
      ensures Valid() && (payload == null || payload == old(payload) || fresh(payload))
      ensures View() == Step(old(View()), e, output)
    {
      match e
      case Readable(chunk) => OnReadable(chunk);
      case Drained(stream) => OnDrain(stream);
      case WriteDone(write, ok) => OnWriteDone(write, ok);
      case StreamFailed => OnStreamFailed();
      case RemoteEnd => OnEnd();
      case SocketClosed => OnSocketClose();
      case DeadlinePassed => OnDeadline();
      case OutputStalled => OnStall();
    }
  }

  /** Any events, in any order, drive the object through exactly the states of `ProxySpec.Run`. */
  method Session(leftover: seq<byte>, events: seq<Event>, output: Output) returns (relay: RelayBroker)
    ensures fresh(relay) && relay.Valid() && relay.View() == Run(leftover, events, output)
  {
    relay := new RelayBroker(leftover, output);
    assert events[..0] == [];
    for k := 0 to |events|
      invariant fresh(relay) && fresh(relay.header) && (relay.payload == null || fresh(relay.payload))
      invariant relay.Valid() && relay.output == output && relay.View() == Run(leftover, events[..k], output)
    {
      assert events[..k + 1][..k] == events[..k];
      relay.Handle(events[k]);
    }
    assert events[..|events|] == events;
  }
}
