/** The broker's wire format, protocol 3: a channel byte, a big-endian uint32 length and a bounded
    payload. The broker builds frames; the proxy takes them apart. Both halves are judged here
    against one reference, `IsSession`: data frames, then exactly one exit frame. */
module Wire {
  type byte = b: int | 0 <= b < 256

  const MAX_FRAME_BYTES := 65536
  const HEADER_BYTES := 5
  const STDOUT: byte := 1
  const STDERR: byte := 2
  const EXIT: byte := 3

  /** One data frame's worth of output: what the proxy hands to one of its own streams. */
  datatype Write = Write(channel: byte, bytes: seq<byte>) {
    predicate Valid() {
      (channel == STDOUT || channel == STDERR) && 0 < |bytes| <= MAX_FRAME_BYTES
    }
  }

  ghost predicate ValidWrites(writes: seq<Write>) {
    forall i :: 0 <= i < |writes| ==> writes[i].Valid()
  }

  /** How a session ends for the side that reads it. */
  datatype Verdict =
    | Exited(code: byte)
    | Incomplete
    | InvalidFrame
    | InvalidStatus
    | TrailingBytes

  datatype Parsed = Parsed(writes: seq<Write>, verdict: Verdict)

  // ---------- Building frames ----------

  function Uint32(n: nat): (b: seq<byte>)
    requires n < 0x1_0000_0000
    ensures |b| == 4
  {
    [n / 0x100_0000, n / 0x1_0000 % 256, n / 256 % 256, n % 256]
  }

  function ReadUint32(b: seq<byte>): nat
    requires |b| == 4
  {
    b[0] as int * 0x100_0000 + b[1] as int * 0x1_0000 + b[2] as int * 256 + b[3] as int
  }

  lemma Uint32RoundTrip(n: nat)
    requires n < 0x1_0000_0000
    ensures ReadUint32(Uint32(n)) == n
  {
    assert n / 256 == n / 0x1_0000 * 256 + n / 256 % 256;
    assert n / 0x1_0000 == n / 0x100_0000 * 256 + n / 0x1_0000 % 256;
  }

  function Frame(channel: byte, payload: seq<byte>): seq<byte>
    requires |payload| < 0x1_0000_0000
  {
    [channel] + Uint32(|payload|) + payload
  }

  function ExitFrame(code: byte): seq<byte> {
    Frame(EXIT, [0, 0, 0, code])
  }

  ghost function FramesOf(writes: seq<Write>): seq<byte>
    requires ValidWrites(writes)
  {
    if writes == [] then [] else Frame(writes[0].channel, writes[0].bytes) + FramesOf(writes[1..])
  }

  /** The layout in bytes: the channel, the length in four bytes with the most significant first, the payload; and
      the exit frame is on channel 3, with the code in the last of four bytes. */
  lemma Layout(channel: byte, payload: seq<byte>, code: byte)
    requires |payload| < 0x1_0000_0000
    ensures var n := |payload|;
            Frame(channel, payload) == [channel, n / 16777216, n / 65536 % 256, n / 256 % 256, n % 256] + payload
    ensures ExitFrame(code) == [3, 0, 0, 0, 4, 0, 0, 0, code]
    ensures STDOUT == 1 && STDERR == 2
  {}

  /** The reference: `s` is exactly these data frames, then one exit frame, and nothing else. */
  ghost predicate IsSession(s: seq<byte>, writes: seq<Write>, code: byte) {
    ValidWrites(writes) && s == FramesOf(writes) + ExitFrame(code)
  }

  /** The payload bytes of one channel, in order. */
  function Payload(writes: seq<Write>, channel: byte): seq<byte> {
    if writes == [] then []
    else Payload(writes[..|writes| - 1], channel)
         + if writes[|writes| - 1].channel == channel then writes[|writes| - 1].bytes else []
  }

  lemma {:induction false} FramesOfSnoc(writes: seq<Write>, w: Write)
    requires ValidWrites(writes) && w.Valid()
    ensures ValidWrites(writes + [w])
    ensures FramesOf(writes + [w]) == FramesOf(writes) + Frame(w.channel, w.bytes)
    decreases |writes|
  {
    var all := writes + [w];
    var frame := Frame(w.channel, w.bytes);
    if writes == [] {
      assert all == [w] && all[1..] == [];
      assert FramesOf(all) == frame + [];
    } else {
      var first := Frame(writes[0].channel, writes[0].bytes);
      assert all[1..] == writes[1..] + [w];
      FramesOfSnoc(writes[1..], w);
      assert first + (FramesOf(writes[1..]) + frame) == (first + FramesOf(writes[1..])) + frame;
    }
  }

  // ---------- One-shot parsing ----------

  predicate BadHeader(channel: byte, length: nat) {
    || (channel != STDOUT && channel != STDERR && channel != EXIT)
    || length == 0
    || length > MAX_FRAME_BYTES
    || (channel == EXIT && length != 4)
  }

  /** Parse a whole stream that has ended. */
  function Parse(s: seq<byte>): Parsed
    decreases |s|
  {
    if |s| < HEADER_BYTES then Parsed([], Incomplete)
    else ParseBody(s[0], ReadUint32(s[1..5]), s[5..])
  }

  function ParseBody(channel: byte, length: nat, s: seq<byte>): Parsed
    decreases |s|
  {
    if BadHeader(channel, length) then Parsed([], InvalidFrame)
    else if |s| < length then Parsed([], Incomplete)
    else if channel == EXIT then Parsed([], ExitVerdict(s[..4], |s| > 4))
    else
      var rest := Parse(s[length..]);
      Parsed([Write(channel, s[..length])] + rest.writes, rest.verdict)
  }

  function ExitVerdict(status: seq<byte>, more: bool): Verdict
    requires |status| == 4
  {
    var code := ReadUint32(status);
    if code > 255 then InvalidStatus else if more then TrailingBytes else Exited(code)
  }

  /** What parsing sees of a stream that begins with the header of a frame. */
  lemma ParseAfterHeader(channel: byte, length: nat, s: seq<byte>)
    requires length < 0x1_0000_0000
    ensures Parse([channel] + Uint32(length) + s) == ParseBody(channel, length, s)
  {
    var t := [channel] + Uint32(length) + s;
    Uint32RoundTrip(length);
    assert t[1..5] == Uint32(length);
    assert t[5..] == s;
  }

  /** Which headers end a session: an unknown channel, an empty payload, one of more than 65,536 bytes, and an exit
      frame that has not four. */
  lemma RefusedHeaders(channel: byte, length: nat, s: seq<byte>)
    requires length < 0x1_0000_0000
    ensures (channel !in {1, 2, 3} || length == 0 || length > 65536 || (channel == 3 && length != 4))
            ==> Parse([channel] + Uint32(length) + s) == Parsed([], InvalidFrame)
    ensures (channel == 3 && length == 4) || (channel in {1, 2} && 1 <= length <= 65536)
            ==> (|s| < length <==> Parse([channel] + Uint32(length) + s) == Parsed([], Incomplete))
  {
    ParseAfterHeader(channel, length, s);
    RefusedBodies(channel, length, s);
  }

  lemma RefusedBodies(channel: byte, length: nat, s: seq<byte>)
    ensures BadHeader(channel, length)
       <==> channel !in {1, 2, 3} || length == 0 || length > 65536 || (channel == 3 && length != 4)
    ensures !BadHeader(channel, length) ==> (|s| < length <==> ParseBody(channel, length, s) == Parsed([], Incomplete))
    ensures BadHeader(channel, length) ==> ParseBody(channel, length, s) == Parsed([], InvalidFrame)
  {}

  lemma ParseFrame(w: Write, rest: seq<byte>)
    requires w.Valid()
    ensures Parse(Frame(w.channel, w.bytes) + rest)
         == Parsed([w] + Parse(rest).writes, Parse(rest).verdict)
  {
    var s := w.bytes + rest;
    ParseAfterHeader(w.channel, |w.bytes|, s);
    assert Frame(w.channel, w.bytes) + rest == [w.channel] + Uint32(|w.bytes|) + s;
    assert s[..|w.bytes|] == w.bytes && s[|w.bytes|..] == rest;
  }

  lemma ParseExitFrame(code: byte, extra: seq<byte>)
    ensures Parse(ExitFrame(code) + extra)
         == Parsed([], if extra == [] then Exited(code) else TrailingBytes)
  {
    var s := [0, 0, 0, code] + extra;
    ParseAfterHeader(EXIT, 4, s);
    assert ExitFrame(code) + extra == [EXIT] + Uint32(4) + s;
    assert s[..4] == [0, 0, 0, code];
  }

  /** Parsing undoes framing: the frames a sender concatenates come back, with its exit code. */
  lemma {:induction false} ParseSession(writes: seq<Write>, code: byte, extra: seq<byte>)
    requires ValidWrites(writes)
    ensures Parse(FramesOf(writes) + ExitFrame(code) + extra)
         == Parsed(writes, if extra == [] then Exited(code) else TrailingBytes)
    decreases |writes|
  {
    if writes == [] {
      assert [] + ExitFrame(code) == ExitFrame(code);
      ParseExitFrame(code, extra);
    } else {
      var first := Frame(writes[0].channel, writes[0].bytes);
      var rest := FramesOf(writes[1..]) + ExitFrame(code) + extra;
      assert FramesOf(writes) + ExitFrame(code) + extra == first + rest;
      ParseFrame(writes[0], rest);
      ParseSession(writes[1..], code, extra);
    }
  }

  /** And nothing else parses to an exit code: both directions against the reference. */
  lemma {:induction false} ParseExact(s: seq<byte>, writes: seq<Write>, code: byte)
    ensures Parse(s) == Parsed(writes, Exited(code)) <==> IsSession(s, writes, code)
  {
    if IsSession(s, writes, code) {
      ParseSession(writes, code, []);
      assert s + [] == s;
    }
    if Parse(s).verdict.Exited? {
      ParseSound(s);
    }
  }

  lemma HeaderFirst(s: seq<byte>)
    requires |s| >= HEADER_BYTES
    ensures s == [s[0]] + Uint32(ReadUint32(s[1..5])) + s[5..]
  {
    ReadUint32Injective(s[1..5]);
  }

  lemma ExitIsSession(s: seq<byte>, t: seq<byte>)
    requires s == [EXIT] + Uint32(4) + t && |t| == 4 && ReadUint32(t) <= 255
    ensures IsSession(s, [], ReadUint32(t))
  {
    ExitStatusBytes(t);
    assert FramesOf([]) + s == s;
  }

  lemma SplitsAfterFrame(s: seq<byte>, channel: byte, length: nat, t: seq<byte>)
    requires length <= |t| && length < 0x1_0000_0000 && s == [channel] + Uint32(length) + t
    ensures s == Frame(channel, t[..length]) + t[length..]
  {
    assert t == t[..length] + t[length..];
  }

  lemma {:induction false} ParseSound(s: seq<byte>)
    requires Parse(s).verdict.Exited?
    ensures IsSession(s, Parse(s).writes, Parse(s).verdict.code)
    decreases |s|
  {
    var channel, length, t := s[0], ReadUint32(s[1..5]), s[5..];
    HeaderFirst(s);
    assert Parse(s) == ParseBody(channel, length, t);
    if channel == EXIT {
      ExitIsSession(s, t);
    } else {
      var w, rest := Write(channel, t[..length]), t[length..];
      ParseSound(rest);
      SplitsAfterFrame(s, channel, length, t);
      SessionCons(w, rest, Parse(rest).writes, Parse(rest).verdict.code);
    }
  }

  lemma SessionCons(w: Write, s: seq<byte>, writes: seq<Write>, code: byte)
    requires w.Valid() && IsSession(s, writes, code)
    ensures IsSession(Frame(w.channel, w.bytes) + s, [w] + writes, code)
  {
    assert ([w] + writes)[1..] == writes;
    assert Frame(w.channel, w.bytes) + s
        == (Frame(w.channel, w.bytes) + FramesOf(writes)) + ExitFrame(code);
  }

  lemma ReadUint32Injective(b: seq<byte>)
    requires |b| == 4
    ensures ReadUint32(b) < 0x1_0000_0000
    ensures Uint32(ReadUint32(b)) == b
  {
    var n := ReadUint32(b);
    assert n / 256 == b[0] as int * 0x1_0000 + b[1] as int * 256 + b[2] as int;
    assert n / 0x1_0000 == b[0] as int * 256 + b[1] as int;
    assert n / 0x100_0000 == b[0];
  }

  lemma ExitStatusBytes(status: seq<byte>)
    requires |status| == 4 && ReadUint32(status) <= 255
    ensures status == [0, 0, 0, ReadUint32(status)]
  {}

  // ---------- Byte-at-a-time parsing ----------

  /** Where an incremental reader stands between two bytes. */
  datatype Phase =
    | Header(got: seq<byte>)
    | Body(channel: byte, length: nat, got: seq<byte>)
    | Done(code: byte)
    | Rejected(reason: Verdict)
  {
    /** A partial header or one partly filled payload: all an incremental reader may hold. */
    ghost predicate Valid() {
      match this
      case Header(got) => |got| < HEADER_BYTES
      case Body(channel, length, got) => !BadHeader(channel, length) && |got| < length
      case Done(_) => true
      case Rejected(reason) => reason.InvalidFrame? || reason.InvalidStatus? || reason.TrailingBytes?
    }

    /** The verdict if the stream ends here. */
    function AtEnd(): Verdict {
      match this
      case Done(code) => Exited(code)
      case Rejected(reason) => reason
      case _ => Incomplete
    }
  }

  datatype Parser = Parser(writes: seq<Write>, phase: Phase)

  const START := Parser([], Header([]))

  function Feed(p: Parser, b: byte): (q: Parser)
    requires p.phase.Valid()
    ensures q.phase.Valid()
    ensures p.writes <= q.writes
  {
    match p.phase
    case Header(got) =>
      if |got| < 4 then p.(phase := Header(got + [b]))
      else
        var h := got + [b];
        var length := ReadUint32(h[1..5]);
        if BadHeader(h[0], length) then p.(phase := Rejected(InvalidFrame))
        else p.(phase := Body(h[0], length, []))
    case Body(channel, length, got) =>
      if |got| + 1 < length then p.(phase := Body(channel, length, got + [b]))
      else if channel == EXIT then
        var code := ReadUint32(got + [b]);
        p.(phase := if code > 255 then Rejected(InvalidStatus) else Done(code))
      else Parser(p.writes + [Write(channel, got + [b])], Header([]))
    case Done(_) => p.(phase := Rejected(TrailingBytes))
    case Rejected(_) => p
  }

  function FeedAll(p: Parser, s: seq<byte>): (q: Parser)
    requires p.phase.Valid()
    ensures q.phase.Valid()
    ensures p.writes <= q.writes
    decreases |s|
  {
    if s == [] then p else FeedAll(Feed(p, s[0]), s[1..])
  }

  lemma {:induction false} FeedAllConcat(p: Parser, s: seq<byte>, t: seq<byte>)
    requires p.phase.Valid()
    ensures FeedAll(p, s + t) == FeedAll(FeedAll(p, s), t)
    decreases |s|
  {
    if s == [] {
      assert s + t == t;
    } else {
      assert (s + t)[1..] == s[1..] + t;
      FeedAllConcat(Feed(p, s[0]), s[1..], t);
    }
  }

  /** A whole chunk that ends before the header does is simply kept. */
  lemma {:induction false} FeedPartialHeader(p: Parser, s: seq<byte>)
    requires p.phase.Valid() && p.phase.Header? && |p.phase.got| + |s| < HEADER_BYTES
    ensures FeedAll(p, s) == p.(phase := Header(p.phase.got + s))
    decreases |s|
  {
    if s == [] {
      assert p.phase.got + s == p.phase.got;
    } else {
      assert p.phase.got + s == p.phase.got + [s[0]] + s[1..];
      FeedPartialHeader(Feed(p, s[0]), s[1..]);
    }
  }

  lemma {:induction false} FeedPartialBody(p: Parser, s: seq<byte>)
    requires p.phase.Valid() && p.phase.Body? && |p.phase.got| + |s| < p.phase.length
    ensures FeedAll(p, s) == p.(phase := p.phase.(got := p.phase.got + s))
    decreases |s|
  {
    if s == [] {
      assert p.phase.got + s == p.phase.got;
    } else {
      assert p.phase.got + s == p.phase.got + [s[0]] + s[1..];
      FeedPartialBody(Feed(p, s[0]), s[1..]);
    }
  }

  lemma {:induction false} FeedRejected(p: Parser, s: seq<byte>)
    requires p.phase.Valid() && p.phase.Rejected?
    ensures FeedAll(p, s) == p
    decreases |s|
  {
    if s != [] {
      FeedRejected(p, s[1..]);
    }
  }

  /** Reading byte by byte reaches the writes and the verdict that one-shot parsing gives. */
  lemma {:induction false} FeedAllRefinesParse(writes: seq<Write>, s: seq<byte>)
    ensures FeedAll(Parser(writes, Header([])), s).writes == writes + Parse(s).writes
    ensures FeedAll(Parser(writes, Header([])), s).phase.AtEnd() == Parse(s).verdict
    decreases |s|
  {
    var p := Parser(writes, Header([]));
    assert writes + [] == writes;
    if |s| < HEADER_BYTES {
      FeedPartialHeader(p, s);
    } else {
      var afterHeader := FeedHeader(p, s[..5]);
      assert s == s[..5] + s[5..];
      FeedAllConcat(p, s[..5], s[5..]);
      assert s[..5][1..5] == s[1..5];
      var length := ReadUint32(s[1..5]);
      if BadHeader(s[0], length) {
        FeedRejected(afterHeader, s[5..]);
      } else if |s| < 5 + length {
        FeedPartialBody(afterHeader, s[5..]);
      } else {
        var afterBody := FeedFrame(afterHeader, s[5..]);
        if s[0] != EXIT {
          FeedAllRefinesParse(afterBody.writes, s[5..][length..]);
          assert afterBody.writes + Parse(s[5..][length..]).writes == writes + Parse(s).writes;
        }
      }
    }
  }

  /** The rest of a stream, from just after a good header whose payload is all there. */
  lemma FeedFrame(p: Parser, s: seq<byte>) returns (q: Parser)
    requires p.phase.Valid() && p.phase.Body? && p.phase.got == [] && |s| >= p.phase.length
    ensures p.phase.channel != EXIT ==>
              && q == Parser(p.writes + [Write(p.phase.channel, s[..p.phase.length])], Header([]))
              && FeedAll(p, s) == FeedAll(q, s[p.phase.length..])
    ensures p.phase.channel == EXIT ==>
              FeedAll(p, s) == p.(phase := FeedAll(p, s).phase)
              && FeedAll(p, s).phase.AtEnd() == ExitVerdict(s[..4], |s| > 4)
  {
    var n := p.phase.length;
    q := FeedBody(p, s[..n]);
    assert s == s[..n] + s[n..];
    FeedAllConcat(p, s[..n], s[n..]);
    if p.phase.channel == EXIT && s[n..] != [] {
      FeedRejected(Feed(q, s[n]), s[n..][1..]);
    }
  }

  lemma FeedHeader(p: Parser, h: seq<byte>) returns (q: Parser)
    requires p.phase == Header([]) && |h| == HEADER_BYTES
    ensures q == FeedAll(p, h)
    ensures q == p.(phase := if BadHeader(h[0], ReadUint32(h[1..5])) then Rejected(InvalidFrame)
                             else Body(h[0], ReadUint32(h[1..5]), []))
  {
    FeedPartialHeader(p, h[..4]);
    assert h == h[..4] + [h[4]];
    FeedAllConcat(p, h[..4], [h[4]]);
    q := FeedAll(p, h);
    assert FeedAll(FeedAll(p, h[..4]), [h[4]]) == Feed(FeedAll(p, h[..4]), h[4]);
    assert [] + h[..4] == h[..4];
  }

  lemma FeedBody(p: Parser, body: seq<byte>) returns (q: Parser)
    requires p.phase.Valid() && p.phase.Body? && p.phase.got == [] && |body| == p.phase.length
    ensures q == FeedAll(p, body)
    ensures q == if p.phase.channel != EXIT then Parser(p.writes + [Write(p.phase.channel, body)], Header([]))
                 else p.(phase := if ReadUint32(body) > 255 then Rejected(InvalidStatus)
                                  else Done(ReadUint32(body)))
  {
    var n := |body| - 1;
    FeedPartialBody(p, body[..n]);
    assert body == body[..n] + [body[n]];
    FeedAllConcat(p, body[..n], [body[n]]);
    q := FeedAll(p, body);
    var r := FeedAll(p, body[..n]);
    assert [] + body[..n] == body[..n];
    assert FeedAll(r, [body[n]]) == Feed(r, body[n]);
  }

  /** Every strict prefix of a session is incomplete, and gives a prefix of its writes. */
  lemma {:induction false} StrictPrefixIncomplete(writes: seq<Write>, code: byte, t: seq<byte>)
    requires ValidWrites(writes) && t < FramesOf(writes) + ExitFrame(code)
    ensures Parse(t).verdict == Incomplete && Parse(t).writes <= writes
    decreases |writes|
  {
    var s := FramesOf(writes) + ExitFrame(code);
    if |t| < HEADER_BYTES {
    } else if writes == [] {
      assert s == [EXIT] + Uint32(4) + [0, 0, 0, code];
      PrefixAfterHeader(EXIT, 4, [0, 0, 0, code], t);
    } else {
      var w, rest := writes[0], FramesOf(writes[1..]) + ExitFrame(code);
      var u := t[5..];
      assert s == [w.channel] + Uint32(|w.bytes|) + (w.bytes + rest);
      PrefixAfterHeader(w.channel, |w.bytes|, w.bytes + rest, t);
      if |u| >= |w.bytes| {
        assert u[..|w.bytes|] == w.bytes;
        assert u[|w.bytes|..] < rest;
        StrictPrefixIncomplete(writes[1..], code, u[|w.bytes|..]);
        assert writes == [w] + writes[1..];
      }
    }
  }

  lemma PrefixAfterHeader(channel: byte, length: nat, s: seq<byte>, t: seq<byte>)
    requires length < 0x1_0000_0000 && HEADER_BYTES <= |t| && t < [channel] + Uint32(length) + s
    ensures t[5..] < s
    ensures Parse(t) == ParseBody(channel, length, t[5..])
  {
    assert t == [channel] + Uint32(length) + t[5..];
    ParseAfterHeader(channel, length, t[5..]);
  }
}
