/** Reading a chunk at a time does what reading its bytes one by one does. */
module PumpChunks {
  import opened Wire
  import opened ProxySpec

  /** The buffer the next read comes from: the leftover until it is used up, then the socket. */
  function Source(i: Input): seq<byte> {
    if i.initial != [] then i.initial else i.readable
  }

  function Drop(i: Input, n: nat): Input
    requires n <= |Source(i)|
  {
    if i.initial != [] then i.(initial := i.initial[n..]) else i.(readable := i.readable[n..])
  }

  function Advance(i: Input, chunk: seq<byte>): Input
    requires chunk <= Source(i) && i.parser.phase.Valid()
  {
    Moved(i, chunk, FeedAll(i.parser, chunk))
  }

  function Moved(i: Input, chunk: seq<byte>, p: Parser): Input
    requires chunk <= Source(i)
  {
    Drop(i, |chunk|).(consumed := i.consumed + chunk, parser := p)
  }

  predicate InFrame(phase: Phase) {
    phase.Header? || phase.Body?
  }

  /** Only the last byte of the chunk may complete anything. */
  predicate OneStep(p: Parser, chunk: seq<byte>)
    requires p.phase.Valid()
  {
    && chunk != []
    && (|chunk| > 1 ==> var q := FeedAll(p, chunk[..|chunk| - 1]); q.writes == p.writes && InFrame(q.phase))
  }

  lemma {:induction false} FeedEnded(p: Parser, s: seq<byte>)
    requires p.phase.Valid() && !InFrame(p.phase)
    ensures !InFrame(FeedAll(p, s).phase)
    decreases |s|
  {
    if s != [] {
      FeedEnded(Feed(p, s[0]), s[1..]);
    }
  }

  lemma FirstByteSilent(p: Parser, chunk: seq<byte>)
    requires p.phase.Valid() && OneStep(p, chunk) && |chunk| > 1
    ensures Feed(p, chunk[0]).writes == p.writes && InFrame(Feed(p, chunk[0]).phase)
    ensures OneStep(Feed(p, chunk[0]), chunk[1..])
  {
    var n := |chunk| - 1;
    var p1 := Feed(p, chunk[0]);
    assert chunk[..n][1..] == chunk[1..][..n - 1];
    assert FeedAll(p, chunk[..n]) == FeedAll(p1, chunk[1..][..n - 1]);
    if !InFrame(p1.phase) {
      FeedEnded(p1, chunk[1..][..n - 1]);
    }
  }

  lemma {:induction false} ChunkStep(s: Proxy, chunk: seq<byte>, output: Output)
    requires Reading(s) && s.input.parser.phase.Valid() && chunk <= Source(s.input)
    requires OneStep(s.input.parser, chunk)
    ensures PumpLoop(s, output)
         == PumpLoop(AfterByte(|s.input.parser.writes|, s.(input := Advance(s.input, chunk)), output), output)
    decreases |chunk|
  {
    var i := s.input;
    var t := TakeByte(s, output);
    var p1 := Feed(i.parser, chunk[0]);
    assert i.Unread()[0] == chunk[0];
    if |chunk| == 1 {
      assert FeedAll(i.parser, chunk) == p1;
      assert i.consumed + [chunk[0]] == i.consumed + chunk;
      assert Take(i) == Advance(i, chunk);
    } else {
      FirstByteSilent(i.parser, chunk);
      assert t == s.(input := Take(i));
      assert chunk[1..] <= Source(t.input);
      ChunkStep(t, chunk[1..], output);
      AdvanceTake(i, chunk);
    }
  }

  lemma AdvanceTake(i: Input, chunk: seq<byte>)
    requires |chunk| > 1 && chunk <= Source(i) && i.parser.phase.Valid()
    ensures chunk[1..] <= Source(Take(i)) && Advance(Take(i), chunk[1..]) == Advance(i, chunk)
  {
    assert i.Unread()[0] == chunk[0];
    assert i.consumed + [chunk[0]] + chunk[1..] == i.consumed + chunk;
    assert Source(Take(i)) == Source(i)[1..];
    assert Source(i)[1..][|chunk| - 1..] == Source(i)[|chunk|..];
  }

  /** What a read into the header buffer makes of the parser. */
  function AfterHeaderRead(p: Parser, h: seq<byte>): Parser
    requires |h| <= HEADER_BYTES
  {
    p.(phase :=
      if |h| < HEADER_BYTES then Header(h)
      else if BadHeader(h[0], ReadUint32(h[1..5])) then Rejected(InvalidFrame)
      else Body(h[0], ReadUint32(h[1..5]), []))
  }

  /** What a whole payload makes of the parser. */
  function AfterPayload(p: Parser, channel: byte, body: seq<byte>): Parser
    requires channel == EXIT ==> |body| == 4
  {
    if channel == EXIT then
      p.(phase := if ReadUint32(body) > 255 then Rejected(InvalidStatus) else Done(ReadUint32(body)))
    else Parser(p.writes + [Write(channel, body)], Header([]))
  }

  /** A chunk no longer than the rest of the header is one step of the parser. */
  lemma HeaderChunk(p: Parser, chunk: seq<byte>)
    requires p.phase.Valid() && p.phase.Header? && chunk != [] && |p.phase.got| + |chunk| <= HEADER_BYTES
    ensures OneStep(p, chunk) && FeedAll(p, chunk) == AfterHeaderRead(p, p.phase.got + chunk)
  {
    var first, last := chunk[..|chunk| - 1], chunk[|chunk| - 1];
    FeedPartialHeader(p, first);
    FeedLast(p, chunk);
    var before := p.(phase := Header(p.phase.got + first));
    HeaderByte(before, last);
    assert chunk == first + [last];
    assert before.phase.got + [last] == p.phase.got + chunk;
  }

  lemma HeaderByte(p: Parser, b: byte)
    requires p.phase.Valid() && p.phase.Header?
    ensures Feed(p, b) == AfterHeaderRead(p, p.phase.got + [b])
  {}

  /** A chunk no longer than the rest of the payload is one step of the parser. */
  lemma BodyChunk(p: Parser, chunk: seq<byte>)
    requires p.phase.Valid() && p.phase.Body? && chunk != [] && |p.phase.got| + |chunk| <= p.phase.length
    ensures OneStep(p, chunk)
    ensures var body := p.phase.got + chunk;
            FeedAll(p, chunk) ==
              if |body| < p.phase.length then p.(phase := p.phase.(got := body))
              else AfterPayload(p, p.phase.channel, body)
  {
    var n := |chunk| - 1;
    FeedPartialBody(p, chunk[..n]);
    FeedLast(p, chunk);
    assert p.phase.got + chunk[..n] + [chunk[n]] == p.phase.got + chunk;
  }

  lemma FeedOne(p: Parser, b: byte)
    requires p.phase.Valid()
    ensures FeedAll(p, [b]) == Feed(p, b)
  {
    assert [b][1..] == [];
  }

  lemma {:induction false} FeedLast(p: Parser, chunk: seq<byte>)
    requires p.phase.Valid() && chunk != []
    ensures var n := |chunk| - 1; FeedAll(p, chunk) == Feed(FeedAll(p, chunk[..n]), chunk[n])
  {
    var n := |chunk| - 1;
    var last := [chunk[n]];
    assert chunk == chunk[..n] + last;
    FeedAllConcat(p, chunk[..n], last);
    FeedOne(FeedAll(p, chunk[..n]), chunk[n]);
  }

  /** `t` is `s` after one read of `chunk` and what that read completed. */
  ghost predicate OneRead(s: Proxy, t: Proxy, chunk: seq<byte>, output: Output)
    requires s.input.parser.phase.Valid()
  {
    && chunk <= Source(s.input) && OneStep(s.input.parser, chunk)
    && t.input == Advance(s.input, chunk)
    && (t.writes, t.ending) == Effect(|s.input.parser.writes|, t.input.parser, s.writes, s.ending, output)
  }

  lemma OneReadOnTheWay(s: Proxy, t: Proxy, chunk: seq<byte>, output: Output)
    requires s.input.parser.phase.Valid() && Reading(s) && OneRead(s, t, chunk, output)
    ensures PumpLoop(t, output) == PumpLoop(s, output)
    ensures |t.input.Unread()| < |s.input.Unread()|
  {
    ChunkStep(s, chunk, output);
    assert t == AfterByte(|s.input.parser.writes|, s.(input := Advance(s.input, chunk)), output);
  }
}
