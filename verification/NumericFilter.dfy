/** The numeric settings that may cross the socket are filtered twice, by two tests written in two
    languages: the proxy's goes through a double, the broker's through a 64-bit integer. They agree on
    every string. */
module NumericFilter {
  import opened Wrappers
  import Wire
  import Handshake

  const MAX_PASSED_VALUE := 2147483647
  const MAX_VARIABLE_BYTES := 8192
  const INT64_MAX := 0x7FFF_FFFF_FFFF_FFFF

  predicate IsDigit(c: char) {
    '0' <= c <= '9'
  }

  predicate AllDigits(s: string) {
    forall i :: 0 <= i < |s| ==> IsDigit(s[i])
  }

  function DigitValue(c: char): nat
    requires IsDigit(c)
  {
    c as int - '0' as int
  }

  /** The number that a run of digits means. */
  function Value(s: string): nat
    requires AllDigits(s)
  {
    if s == [] then 0 else 10 * Value(s[..|s| - 1]) + DigitValue(s[|s| - 1])
  }

  /** `length` of a JavaScript string. */
  function Utf16Length(s: string): nat {
    if s == [] then 0 else (if s[0] as int < 0x10000 then 1 else 2) + Utf16Length(s[1..])
  }

  /** `utf8.count` of a Swift string. */
  function Utf8Length(s: string): nat {
    if s == [] then 0
    else
      var c := s[0] as int;
      (if c < 0x80 then 1 else if c < 0x800 then 2 else if c < 0x10000 then 3 else 4) + Utf8Length(s[1..])
  }

  lemma {:induction false} DigitsAreOneUnitEach(s: string)
    requires AllDigits(s)
    ensures Utf16Length(s) == Utf8Length(s) == |s|
    decreases |s|
  {
    if s != [] {
      DigitsAreOneUnitEach(s[1..]);
    }
  }

  // ---------- The proxy's test ----------

  datatype Number = Finite(value: nat) | Infinity

  function Pow2(k: nat): (p: nat)
    ensures p > 0
  {
    if k == 0 then 1 else 2 * Pow2(k - 1)
  }

  /** How many low bits of a natural number do not fit a 53-bit significand. */
  function ExtraBits(n: nat): nat {
    if n < 0x20_0000_0000_0000 then 0 else 1 + ExtraBits(n / 2)
  }

  /** `Number(digits)`: the nearest double, ties to even, or Infinity past the largest one. */
  function ToDouble(n: nat): Number {
    var m := RoundTo(n, Pow2(ExtraBits(n)));
    if m >= Pow2(1024) then Infinity else Finite(m)
  }

  /** The nearest multiple of `unit`; between two, the even one. */
  function RoundTo(n: nat, unit: nat): nat
    requires unit > 0
  {
    var q, r := n / unit, n % unit;
    Times(if 2 * r > unit || (2 * r == unit && q % 2 == 1) then q + 1 else q, unit)
  }

  function Times(a: nat, b: nat): nat {
    a * b
  }

  /** Rounding gives a multiple of the unit, none is nearer, and between two it is the even one. */
  lemma RoundsToNearest(n: nat, unit: nat, k: nat)
    requires unit > 0
    ensures RoundTo(n, unit) % unit == 0
    ensures Distance(n, RoundTo(n, unit)) <= Distance(n, Times(k, unit))
    ensures 2 * Distance(n, RoundTo(n, unit)) == unit ==> (RoundTo(n, unit) / unit) % 2 == 0
  {
    var q, r := n / unit, n % unit;
    var down, up := Times(q, unit), Times(q + 1, unit);
    assert n == down + r && up == down + unit by { assert n == q * unit + r; }
    Quotient(q, unit);
    Quotient(q + 1, unit);
    EitherSide(q, k, unit);
    NearestOf(n, down, r, unit, Times(k, unit), RoundTo(n, unit), q);
  }

  lemma EitherSide(q: nat, k: nat, unit: nat)
    ensures Times(k, unit) <= Times(q, unit) || Times(k, unit) >= Times(q + 1, unit)
  {
    if k <= q { Monotone(unit, k, q); } else { Monotone(unit, q + 1, k); }
  }

  lemma NearestOf(n: nat, down: nat, r: nat, unit: nat, other: nat, nearest: nat, q: nat)
    requires n == down + r && r < unit && (other <= down || other >= down + unit)
    requires nearest == if 2 * r > unit || (2 * r == unit && q % 2 == 1) then down + unit else down
    ensures Distance(n, nearest) <= Distance(n, other)
    ensures 2 * Distance(n, nearest) == unit ==> (nearest == down + unit <==> q % 2 == 1)
  {}

  function Distance(a: nat, b: nat): nat {
    if a < b then b - a else a - b
  }

  lemma Quotient(a: nat, unit: nat)
    requires unit > 0
    ensures Times(a, unit) % unit == 0 && Times(a, unit) / unit == a
  {
    QuotientUnique(Times(a, unit), a, 0, unit);
  }

  lemma QuotientUnique(n: nat, a: nat, r: nat, unit: nat)
    requires unit > 0 && n == a * unit + r && r < unit
    ensures n % unit == r && n / unit == a
  {
    var q, s := n / unit, n % unit;
    assert n == q * unit + s;
    if q < a { Monotone(unit, q + 1, a); }
    if a < q { Monotone(unit, a + 1, q); }
  }

  predicate ProxyAccepts(s: string) {
    && Utf16Length(s) <= MAX_VARIABLE_BYTES
    && s != [] && AllDigits(s)
    && ToDouble(Value(s)).Finite?
    && 1 <= ToDouble(Value(s)).value <= MAX_PASSED_VALUE
  }

  // ---------- The broker's test ----------

  function DropZeros(s: string): string {
    if s != [] && s[0] == '0' then DropZeros(s[1..]) else s
  }

  /** `Int64(digits)`: nil for no digits at all, and when a multiplication or addition overflows. */
  function ParseInt64(s: string): Option<nat>
    requires AllDigits(s)
  {
    if s == [] then None
    else if |s| == 1 then Some(DigitValue(s[0]))
    else
      match ParseInt64(s[..|s| - 1])
      case None => None
      case Some(high) =>
        var n := 10 * high + DigitValue(s[|s| - 1]);
        if n > INT64_MAX then None else Some(n)
  }

  predicate BrokerAccepts(s: string) {
    && Utf8Length(s) <= MAX_VARIABLE_BYTES
    && s != [] && AllDigits(s)
    && AllDigits(DropZeros(s))
    && match ParseInt64(DropZeros(s))
       case None => false
       case Some(n) => 0 < n <= MAX_PASSED_VALUE
  }

  // ---------- Agreement ----------

  lemma {:induction false} ExtraBitsFit(n: nat)
    requires n >= 0x20_0000_0000_0000
    ensures Pow2(ExtraBits(n)) * 0x10_0000_0000_0000 <= n
    decreases n
  {
    if n / 2 >= 0x20_0000_0000_0000 {
      ExtraBitsFit(n / 2);
    } else {
      assert ExtraBits(n / 2) == 0;
      assert Pow2(1) == 2;
    }
  }

  /** Without the extra bits a number fits 53 bits, and with one fewer dropped it would not. */
  lemma {:induction false} ExtraBitsAreExact(n: nat)
    ensures n < Times(0x20_0000_0000_0000, Pow2(ExtraBits(n)))
    ensures ExtraBits(n) > 0 ==> n >= Times(0x20_0000_0000_0000, Pow2(ExtraBits(n) - 1))
    decreases n
  {
    if n >= 0x20_0000_0000_0000 {
      ExtraBitsAreExact(n / 2);
      var k := ExtraBits(n / 2);
      assert Pow2(k + 1) == 2 * Pow2(k);
      assert k > 0 ==> Pow2(k) == 2 * Pow2(k - 1);
      assert Pow2(0) == 1;
    } else {
      assert Pow2(0) == 1;
    }
  }

  lemma Pow2Eight(k: nat)
    ensures Pow2(k + 8) == 256 * Pow2(k)
  {
    assert Pow2(k + 8) == 2 * Pow2(k + 7) && Pow2(k + 7) == 2 * Pow2(k + 6);
    assert Pow2(k + 6) == 2 * Pow2(k + 5) && Pow2(k + 5) == 2 * Pow2(k + 4);
    assert Pow2(k + 4) == 2 * Pow2(k + 3) && Pow2(k + 3) == 2 * Pow2(k + 2);
    assert Pow2(k + 2) == 2 * Pow2(k + 1) && Pow2(k + 1) == 2 * Pow2(k);
  }

  lemma DoublesReachFar()
    ensures Pow2(1024) >= 0x100_0000_0000_0000
  {
    Pow2Eight(1016);
    Pow2Eight(1008);
    Pow2Eight(1000);
    Pow2Eight(992);
    Pow2Eight(984);
    Pow2Eight(976);
    Pow2Eight(968);
  }

  /** Rounding keeps small integers and cannot bring a large one down into range. */
  lemma DoubleKeepsRange(n: nat)
    ensures n <= MAX_PASSED_VALUE ==> ToDouble(n) == Finite(n)
    ensures n > MAX_PASSED_VALUE ==> ToDouble(n).Infinity? || ToDouble(n).value > MAX_PASSED_VALUE
  {
    DoublesReachFar();
    if n < 0x20_0000_0000_0000 {
      assert RoundTo(n, 1) == n;
    } else {
      ExtraBitsFit(n);
      RoundToAtLeast(n, Pow2(ExtraBits(n)), 0x10_0000_0000_0000);
    }
  }

  lemma RoundToAtLeast(n: nat, unit: nat, least: nat)
    requires unit > 0 && unit * least <= n
    ensures RoundTo(n, unit) >= least
  {
    var q := n / unit;
    assert n == unit * q + n % unit;
    assert unit * (q + 1) == unit * q + unit;
    if q < least { Monotone(unit, q + 1, least); }
    AtLeastFactor(q, unit);
    AtLeastFactor(q + 1, unit);
  }

  lemma Monotone(c: nat, a: nat, b: nat)
    requires a <= b
    ensures c * a <= c * b
  {}

  lemma AtLeastFactor(a: nat, unit: nat)
    requires unit > 0
    ensures Times(a, unit) >= a
  {
    Monotone(a, 1, unit);
  }

  lemma {:induction false} ZerosDoNotCount(s: string)
    requires AllDigits(s)
    ensures AllDigits(DropZeros(s)) && Value(DropZeros(s)) == Value(s)
    decreases |s|
  {
    if s != [] && s[0] == '0' {
      ZerosDoNotCount(s[1..]);
      LeadingZero(s);
    }
  }

  lemma {:induction false} LeadingZero(s: string)
    requires AllDigits(s) && s != [] && s[0] == '0'
    ensures Value(s) == Value(s[1..])
    decreases |s|
  {
    if |s| == 1 {
      assert s[..0] == [];
    } else {
      var n := |s| - 1;
      assert s[..n][1..] == s[1..][..n - 1];
      LeadingZero(s[..n]);
    }
  }

  lemma {:induction false} ParseInt64Exact(s: string)
    requires AllDigits(s)
    ensures ParseInt64(s) == if s == [] || Value(s) > INT64_MAX then None else Some(Value(s))
    decreases |s|
  {
    if |s| == 1 {
      assert s[..0] == [];
    } else if s != [] {
      ParseInt64Exact(s[..|s| - 1]);
    }
  }

  /** The two filters accept the same strings, all-zero, zero-padded and overflowing ones included;
      and what they accept are exactly the numerals, at most 8192 digits long, of 1 to 2147483647. */
  lemma FiltersAgree(s: string)
    ensures ProxyAccepts(s) <==> BrokerAccepts(s)
    ensures ProxyAccepts(s) <==> IsSetting(s)
  {
    ProxyIsExact(s);
    BrokerIsExact(s);
  }

  predicate IsSetting(s: string) {
    s != [] && |s| <= MAX_VARIABLE_BYTES && AllDigits(s) && 1 <= Value(s) <= MAX_PASSED_VALUE
  }

  lemma ProxyIsExact(s: string)
    ensures ProxyAccepts(s) <==> IsSetting(s)
  {
    if AllDigits(s) {
      DigitsAreOneUnitEach(s);
      DoubleKeepsRange(Value(s));
    }
  }

  lemma BrokerIsExact(s: string)
    ensures BrokerAccepts(s) <==> IsSetting(s)
  {
    if AllDigits(s) {
      DigitsAreOneUnitEach(s);
      ZerosDoNotCount(s);
      ParseInt64Exact(DropZeros(s));
    }
  }

  // ---------- The environment ----------

  predicate Has(passed: map<string, string>, key: string, value: string) {
    key in passed && passed[key] == value
  }

  /** A known setting of the environment with a value that may cross. */
  predicate MayCross(env: seq<(string, Option<string>)>, keys: set<string>, key: string, value: string) {
    key in keys && (key, Some(value)) in env && ProxyAccepts(value)
  }

  /** The proxy's loop over its environment's entries; a variable may be undefined. */
  method PassedEnvironment(env: seq<(string, Option<string>)>, keys: set<string>)
    returns (passed: map<string, string>)
    requires forall i, j :: 0 <= i < j < |env| ==> env[i].0 != env[j].0
    ensures forall key, value :: Has(passed, key, value) <==> MayCross(env, keys, key, value)
  {
    passed := map[];
    for i := 0 to |env|
      invariant forall key, value :: Has(passed, key, value) <==> MayCross(env[..i], keys, key, value)
    {
      ghost var before := passed;
      assert env[..i + 1] == env[..i] + [env[i]];
      var (key, value) := env[i];
      if key in keys && value.Some? && ProxyAccepts(value.value) { passed := passed[key := value.value]; }
      forall k, v ensures Has(passed, k, v) <==> MayCross(env[..i + 1], keys, k, v) {
        assert Has(before, k, v) <==> MayCross(env[..i], keys, k, v);
        assert (k, Some(v)) in env[..i + 1] <==> (k, Some(v)) in env[..i] || env[i] == (k, Some(v));
      }
    }
    assert env[..|env|] == env;
  }

  /** What the broker lets through of the settings a request carries. */
  function ChildSettings(passed: map<string, string>, keys: set<string>): map<string, string> {
    map key | key in keys && key in passed && BrokerAccepts(passed[key]) :: passed[key]
  }

  /** Whatever a request carries, a setting reaches the child exactly when it is a known one and its value is a
      numeral, at most 8192 digits long, of 1 to 2147483647; and then with that value. */
  lemma ChildGetsOnlySettings(received: map<string, string>, keys: set<string>, key: string, value: string)
    ensures Has(ChildSettings(received, keys), key, value)
       <==> key in keys && Has(received, key, value) && value != [] && |value| <= 8192 && AllDigits(value)
            && 1 <= Value(value) <= 2147483647
  {
    FiltersAgree(value);
  }

  /** Every setting that the proxy passes on passes the broker's filter, unchanged. */
  lemma FilterKeepsPassed(passed: map<string, string>, keys: set<string>)
    requires forall key :: key in passed ==> key in keys && ProxyAccepts(passed[key])
    ensures ChildSettings(passed, keys) == passed
  {
    forall key | key in passed ensures BrokerAccepts(passed[key]) {
      FiltersAgree(passed[key]);
    }
  }

  // ---------- Across the socket ----------

  /** How a request carries settings, and how the broker finds them in its line. */
  datatype Codec = Codec(encode: map<string, string> -> seq<Wire.byte>,
                         decode: seq<Wire.byte> -> Option<map<string, string>>)

  function Lengths(m: map<string, string>, keys: seq<string>): nat
    requires forall key :: key in keys ==> key in m
  {
    if keys == [] then 0 else |m[keys[0]]| + Lengths(m, keys[1..])
  }

  predicate Distinct(keys: seq<string>) {
    forall i, j :: 0 <= i < j < |keys| ==> keys[i] != keys[j]
  }

  /** A request is one line, holds every value whole, and gives back the settings that were put in. */
  ghost predicate Carries(c: Codec) {
    && (forall m :: Handshake.NEWLINE !in c.encode(m) && c.decode(c.encode(m)) == Some(m))
    && (forall m, keys :: Distinct(keys) && (forall key :: key in keys ==> key in m) ==>
          |c.encode(m)| >= Lengths(m, keys))
  }

  /** The settings that the child gets, if the broker can read the request at all; `delivered` bytes come before
      an end or a timeout. */
  function ChildGets(c: Codec, passed: map<string, string>, keys: set<string>, rest: seq<Wire.byte>, delivered: nat)
    : Option<map<string, string>>
  {
    match Handshake.LineRead(c.encode(passed) + [Handshake.NEWLINE] + rest, delivered)
    case None => None
    case Some(line) =>
      match c.decode(line)
      case None => None
      case Some(settings) => Some(ChildSettings(settings, keys))
  }

  /** All settings that the proxy passes reach the child, unchanged, exactly when the request is under 65,536
      bytes and its line is delivered; otherwise none does. */
  lemma SettingsArriveExactly(c: Codec, passed: map<string, string>, keys: set<string>, rest: seq<Wire.byte>,
                              delivered: nat)
    requires Carries(c) && forall key :: key in passed ==> key in keys && ProxyAccepts(passed[key])
    ensures ChildGets(c, passed, keys, rest, delivered) == Some(passed)
       <==> |c.encode(passed)| < 65536 && |c.encode(passed)| < delivered
    ensures ChildGets(c, passed, keys, rest, delivered) != Some(passed)
       ==> ChildGets(c, passed, keys, rest, delivered) == None
  {
    var line := c.encode(passed);
    Handshake.LineThenMore(line, rest);
    assert (line + [Handshake.NEWLINE] + rest)[..|line|] == line;
    FilterKeepsPassed(passed, keys);
  }

  // ---------- Settings that do not arrive ----------

  function Zeros(n: nat): string {
    if n == 0 then [] else Zeros(n - 1) + ['0']
  }

  function ZeroPadded(): string {
    Zeros(MAX_VARIABLE_BYTES - 1) + ['1']
  }

  lemma {:induction false} ZerosValue(n: nat)
    ensures |Zeros(n)| == n && AllDigits(Zeros(n)) && Value(Zeros(n)) == 0
    decreases n
  {
    if n > 0 {
      ZerosValue(n - 1);
      assert Zeros(n)[..n - 1] == Zeros(n - 1);
    }
  }

  /** The same value under each of these keys. */
  function Same(keys: seq<string>, value: string): map<string, string> {
    map key | key in keys :: value
  }

  /** Eight of the ten settings with an accepted value of 8192 digits each pass both filters, and none of them
      arrives, however the request is encoded: it is too long for the broker to read. */
  lemma LongSettingsDoNotArrive(c: Codec, keys: set<string>, eight: seq<string>, value: string,
                                rest: seq<Wire.byte>, delivered: nat)
    requires Carries(c) && |eight| == 8 && Distinct(eight) && forall key :: key in eight ==> key in keys
    requires ProxyAccepts(value) && |value| == MAX_VARIABLE_BYTES
    ensures ChildSettings(Same(eight, value), keys) == Same(eight, value)
    ensures ChildGets(c, Same(eight, value), keys, rest, delivered) == None
  {
    var passed := Same(eight, value);
    FilterKeepsPassed(passed, keys);
    LengthsOfEqual(passed, eight, MAX_VARIABLE_BYTES);
    SettingsArriveExactly(c, passed, keys, rest, delivered);
  }

  /** There is such a value: 8191 zeros and a one. */
  lemma PaddedSettingsDoNotArrive(c: Codec, keys: set<string>, eight: seq<string>, rest: seq<Wire.byte>,
                                  delivered: nat)
    requires Carries(c) && |eight| == 8 && Distinct(eight) && forall key :: key in eight ==> key in keys
    ensures ProxyAccepts(ZeroPadded()) && BrokerAccepts(ZeroPadded())
    ensures ChildGets(c, Same(eight, ZeroPadded()), keys, rest, delivered) == None
  {
    ZeroPaddedIsAccepted();
    LongSettingsDoNotArrive(c, keys, eight, ZeroPadded(), rest, delivered);
  }

  /** The settings that may cross. */
  const SETTINGS := ["APPLE_NOTES_MCP_BLOCKS_MAX_BYTES", "APPLE_NOTES_MCP_EXPORT_MAX_BYTES",
                     "APPLE_NOTES_MCP_MAX_ATTACHMENT_BYTES", "APPLE_NOTES_MCP_MAX_BUFFER",
                     "APPLE_NOTES_MCP_MAX_INLINE_IMAGE_BYTES", "APPLE_NOTES_MCP_MAX_RETRIES",
                     "APPLE_NOTES_MCP_PRIVATE_HELPER_TIMEOUT_MS", "APPLE_NOTES_MCP_PUBLIC_HELPER_TIMEOUT_MS",
                     "APPLE_NOTES_MCP_RETRY_DELAY_MS", "APPLE_NOTES_MCP_TIMEOUT_MS"]

  /** So for the first eight of the ten settings, each padded to 8192 digits: the proxy passes them all, and the child
      gets none. */
  lemma PaddedSettingsAreLost(c: Codec, keys: set<string>, rest: seq<Wire.byte>, delivered: nat)
    requires Carries(c) && keys == (set key | key in SETTINGS)
    ensures forall key :: key in SETTINGS[..8] ==> key in keys && ProxyAccepts(Same(SETTINGS[..8], ZeroPadded())[key])
    ensures ChildGets(c, Same(SETTINGS[..8], ZeroPadded()), keys, rest, delivered) == None
  {
    EightNames();
    ZeroPaddedIsAccepted();
    PaddedSettingsDoNotArrive(c, keys, SETTINGS[..8], rest, delivered);
  }

  lemma EightNames()
    ensures Distinct(SETTINGS[..8])
  {
    var s := SETTINGS;
    assert s[0][16] == 'B' && s[1][16] == 'E' && s[2][16] == 'M' && s[3][16] == 'M' && s[4][16] == 'M';
    assert s[5][16] == 'M' && s[6][16] == 'P' && s[7][16] == 'P' && s[6][17] == 'R' && s[7][17] == 'U';
    assert s[2][20] == 'A' && s[3][20] == 'B' && s[4][20] == 'I' && s[5][20] == 'R';
  }

  lemma {:induction false} LengthsOfEqual(m: map<string, string>, keys: seq<string>, n: nat)
    requires forall key :: key in keys ==> key in m && |m[key]| == n
    ensures Lengths(m, keys) == |keys| * n
    decreases |keys|
  {
    if keys != [] {
      LengthsOfEqual(m, keys[1..], n);
      assert |keys| * n == n + (|keys| - 1) * n;
    }
  }

  lemma ZeroPaddedIsAccepted()
    ensures |ZeroPadded()| == MAX_VARIABLE_BYTES && ProxyAccepts(ZeroPadded()) && BrokerAccepts(ZeroPadded())
  {
    var n := MAX_VARIABLE_BYTES - 1;
    ZerosValue(n);
    assert ZeroPadded()[..n] == Zeros(n);
    FiltersAgree(ZeroPadded());
  }
}
