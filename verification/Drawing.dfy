/** Decoding a drawing under a budget of entries and points: what comes out is the beginning of what an unlimited
    decode would give, and it says whether anything was left out. */
module Drawing {
  import opened Wrappers

  /** A point of a path: one of its control points, or one interpolated between them. */
  datatype Sample = Control(index: nat) | Interpolated(at: real)

  datatype Range = Range(lower: real, upper: real)

  /** A path of `count` control points. With a mask, only the given ranges of it render. */
  datatype Stroke = Stroke(count: nat, mask: Option<seq<Range>>, width: Sample -> real)

  datatype Entry = Entry(count: nat, width: real, points: Option<seq<Sample>>, masked: bool, cut: bool)

  /** The ranges that a mask reports lie within the path. */
  ghost predicate Valid(s: Stroke) {
    s.mask.Some? && s.count > 0 ==>
      forall r :: r in s.mask.value ==> 0.0 <= r.lower <= r.upper <= (s.count - 1) as real
  }

  predicate Hidden(s: Stroke) {
    s.mask.Some? && (s.mask.value == [] || s.count == 0)
  }

  // ---------- The samples of a range ----------

  function Ceiling(x: real): int {
    -((-x).Floor)
  }

  function Controls(first: int, last: int): seq<Sample>
    requires 0 <= first
    decreases last - first
  {
    if first > last then [] else [Control(first)] + Controls(first + 1, last)
  }

  /** A part of a stroke that makes an entry: a range of a masked stroke, or a whole unmasked stroke. */
  function SamplesOf(s: Stroke, part: Option<Range>): seq<Sample>
    requires part.Some? ==> 0.0 <= part.value.lower
  {
    match part
    case None => Controls(0, s.count - 1)
    case Some(r) =>
      [Interpolated(r.lower)] + Controls(r.lower.Floor + 1, Ceiling(r.upper) - 1) + [Interpolated(r.upper)]
  }

  lemma {:induction false} ControlsAt(first: int, last: int)
    requires 0 <= first
    ensures |Controls(first, last)| == if first <= last then last - first + 1 else 0
    ensures forall i :: 0 <= i < |Controls(first, last)| ==> Controls(first, last)[i] == Control(first + i)
    decreases last - first
  {
    if first <= last {
      ControlsAt(first + 1, last);
    }
  }

  /** A masked range is sampled at its ends and at exactly the control points strictly between them, in order. */
  lemma MaskedRangeSamples(s: Stroke, r: Range)
    requires 0.0 <= r.lower <= r.upper
    ensures var samples := SamplesOf(s, Some(r));
            && |samples| >= 2 && samples[0] == Interpolated(r.lower) && samples[|samples| - 1] == Interpolated(r.upper)
            && (forall k: nat :: Control(k) in samples <==> r.lower < k as real < r.upper)
            && (forall i :: 0 < i < |samples| - 1 ==> samples[i] == Control(r.lower.Floor + i))
  {
    var first, last := r.lower.Floor + 1, Ceiling(r.upper) - 1;
    var samples := SamplesOf(s, Some(r));
    ControlsAt(first, last);
    forall k: nat ensures Control(k) in samples <==> r.lower < k as real < r.upper {
      Between(r, k);
      if first <= k <= last {
        assert Controls(first, last)[k - first] == Control(k);
        assert samples[1 + k - first] == Control(k);
      }
    }
  }

  lemma Between(r: Range, k: int)
    ensures r.lower.Floor + 1 <= k <= Ceiling(r.upper) - 1 <==> r.lower < k as real < r.upper
  {}

  /** So no sample lies outside the path. */
  lemma SamplesInPath(s: Stroke, r: Range, k: nat)
    requires Valid(s) && s.mask.Some? && s.count > 0 && r in s.mask.value
    ensures Control(k) in SamplesOf(s, Some(r)) ==> k < s.count
  {
    MaskedRangeSamples(s, r);
  }

  // ---------- The unlimited decode ----------

  function WidthSum(s: Stroke, samples: seq<Sample>): real {
    if samples == [] then 0.0
    else WidthSum(s, samples[..|samples| - 1]) + s.width(samples[|samples| - 1])
  }

  /** Count and mean width are those of the samples kept. */
  function EntryOf(s: Stroke, samples: seq<Sample>, withPoints: bool, cut: bool): Entry {
    Entry(|samples|, if |samples| > 0 then WidthSum(s, samples) / |samples| as real else 0.0,
          if withPoints then Some(samples) else None, s.mask.Some?, cut)
  }

  function Parts(s: Stroke): seq<Option<Range>> {
    if Hidden(s) then []
    else if s.mask.None? then [None]
    else seq(|s.mask.value|, i requires 0 <= i < |s.mask.value| => Some(s.mask.value[i]))
  }

  function FullStroke(s: Stroke, parts: seq<Option<Range>>, withPoints: bool): seq<Entry>
    requires forall p :: p in parts ==> p.Some? ==> 0.0 <= p.value.lower
  {
    if parts == [] then []
    else
      var n := |parts| - 1;
      FullStroke(s, parts[..n], withPoints) + [EntryOf(s, SamplesOf(s, parts[n]), withPoints, false)]
  }

  ghost predicate AllValid(strokes: seq<Stroke>) {
    forall i :: 0 <= i < |strokes| ==> Valid(strokes[i])
  }

  lemma PartsAreValid(s: Stroke)
    requires Valid(s)
    ensures forall p :: p in Parts(s) ==> p.Some? ==> 0.0 <= p.value.lower
  {}

  ghost function Full(strokes: seq<Stroke>, withPoints: bool): seq<Entry>
    requires AllValid(strokes)
  {
    if strokes == [] then []
    else
      var n := |strokes| - 1;
      PartsAreValid(strokes[n]);
      Full(strokes[..n], withPoints) + FullStroke(strokes[n], Parts(strokes[n]), withPoints)
  }

  function HiddenCount(strokes: seq<Stroke>): nat {
    if strokes == [] then 0
    else
      var n := |strokes| - 1;
      HiddenCount(strokes[..n]) + if Hidden(strokes[n]) then 1 else 0
  }

  // ---------- The limits ----------

  function Points(entries: seq<Entry>): nat {
    if entries == [] then 0 else Points(entries[..|entries| - 1]) + entries[|entries| - 1].count
  }

  /** All points of these entries. */
  function AllPoints(entries: seq<Entry>): seq<Sample> {
    if entries == [] then []
    else
      var n := |entries| - 1;
      AllPoints(entries[..n]) + if entries[n].points.Some? then entries[n].points.value else []
  }

  lemma {:induction false} PointsAreCounted(entries: seq<Entry>)
    requires forall i :: 0 <= i < |entries| ==>
               entries[i].points.Some? && entries[i].count == |entries[i].points.value|
    ensures Points(entries) == |AllPoints(entries)|
    decreases |entries|
  {
    if entries != [] { PointsAreCounted(entries[..|entries| - 1]); }
  }

  /** The strokes that are counted as hidden: masked, without a range or a point. */
  lemma {:induction false} HiddenAreCounted(strokes: seq<Stroke>)
    ensures HiddenCount(strokes)
         == |set i | 0 <= i < |strokes| && strokes[i].mask.Some?
                     && (strokes[i].mask.value == [] || strokes[i].count == 0)|
    decreases |strokes|
  {
    if strokes != [] {
      var n := |strokes| - 1;
      HiddenAreCounted(strokes[..n]);
      var before := set i | 0 <= i < n && Hidden(strokes[..n][i]);
      assert before == set i | 0 <= i < |strokes[..n]| && strokes[..n][i].mask.Some?
                               && (strokes[..n][i].mask.value == [] || strokes[..n][i].count == 0);
      assert (set i | 0 <= i < |strokes| && strokes[i].mask.Some?
                      && (strokes[i].mask.value == [] || strokes[i].count == 0))
          == before + if Hidden(strokes[n]) then {n} else {};
    }
  }

  /** A nonempty, proper prefix of the points of `whole`, marked as such. */
  ghost predicate CutShort(e: Entry, whole: Entry) {
    && e.cut && !whole.cut && e.masked == whole.masked && e.points.Some? && whole.points.Some?
    && [] < e.points.value < whole.points.value && e.count == |e.points.value|
  }

  /** `r` is the beginning of `full`; its last entry may be cut short. */
  ghost predicate Begins(r: seq<Entry>, full: seq<Entry>) {
    && |r| <= |full|
    && (forall i :: 0 <= i < |r| - 1 ==> r[i] == full[i])
    && (r != [] ==> r[|r| - 1] == full[|r| - 1] || CutShort(r[|r| - 1], full[|r| - 1]))
  }

  /** Decoding stopped in stroke `i`: all that comes before it is complete, and not all of its own is there. */
  ghost predicate StopsIn(strokes: seq<Stroke>, i: nat, entries: seq<Entry>, withPoints: bool)
    requires AllValid(strokes)
  {
    && i < |strokes| && Full(strokes[..i], withPoints) <= entries
    && Begins(entries, Full(strokes[..i + 1], withPoints)) && entries != Full(strokes[..i + 1], withPoints)
  }

  /** No point or entry more would have fitted. */
  predicate Exhausted(r: seq<Entry>, withPoints: bool, maxStrokes: nat, maxPoints: nat) {
    |r| == maxStrokes || (withPoints && Points(r) == maxPoints)
  }

  // ---------- The decoder ----------

  /** Keeps samples while the budget lasts. */
  method KeepSamples(s: Stroke, samples: seq<Sample>, withPoints: bool, budget: nat)
    returns (entry: Entry, left: nat)
    requires withPoints ==> budget > 0
    ensures var kept := if withPoints && |samples| > budget then budget else |samples|;
            && entry == EntryOf(s, samples[..kept], withPoints, kept < |samples|)
            && left == if withPoints then budget - kept else budget
  {
    var points: seq<Sample> := [];
    var widthSum := 0.0;
    var count := 0;
    var cut := false;
    left := budget;
    for i := 0 to |samples|
      invariant count == i && points == (if withPoints then samples[..i] else []) && !cut
      invariant left == if withPoints then budget - i else budget
      invariant widthSum == WidthSum(s, samples[..i])
    {
      if withPoints {
        if left == 0 {
          cut := true;
          break;
        }
        left := left - 1;
      }
      assert samples[..i + 1][..i] == samples[..i];
      count := count + 1;
      widthSum := widthSum + s.width(samples[i]);
      if withPoints { points := points + [samples[i]]; }
    }
    assert samples[..|samples|] == samples;
    entry := Entry(count, if count > 0 then widthSum / count as real else 0.0,
                   if withPoints then Some(points) else None, s.mask.Some?, cut);
  }

  /** What the decoder keeps between two entries: a beginning of the full decode with no entry cut, and the
      budget that is left. */
  ghost predicate Going(entries: seq<Entry>, soFar: seq<Entry>, budget: nat, withPoints: bool, maxStrokes: nat,
                        maxPoints: nat)
  {
    && entries == soFar && |entries| <= maxStrokes
    && (if withPoints then budget + Points(entries) == maxPoints else budget == maxPoints)
  }

  /** How the decoder may end when it leaves something out of `full`. */
  ghost predicate Ended(entries: seq<Entry>, full: seq<Entry>, withPoints: bool, maxStrokes: nat, maxPoints: nat) {
    && Begins(entries, full) && entries != full
    && |entries| <= maxStrokes && (withPoints ==> Points(entries) <= maxPoints)
    && Exhausted(entries, withPoints, maxStrokes, maxPoints)
  }

  lemma PointsSnoc(entries: seq<Entry>, e: Entry)
    ensures Points(entries + [e]) == Points(entries) + e.count
  {
    assert (entries + [e])[..|entries|] == entries;
  }

  lemma EndsBefore(entries: seq<Entry>, full: seq<Entry>, withPoints: bool, maxStrokes: nat, maxPoints: nat)
    requires entries < full && |entries| <= maxStrokes && (withPoints ==> Points(entries) <= maxPoints)
    requires Exhausted(entries, withPoints, maxStrokes, maxPoints)
    ensures Ended(entries, full, withPoints, maxStrokes, maxPoints)
  {}

  /** The entry of one range, if the limits leave room for one. */
  method DecodePart(s: Stroke, samples: seq<Sample>, before: seq<Entry>, budget: nat, withPoints: bool,
                    maxStrokes: nat, ghost maxPoints: nat, ghost full: seq<Entry>)
    returns (entries: seq<Entry>, left: nat, truncated: bool)
    requires Going(before, before, budget, withPoints, maxStrokes, maxPoints)
    requires before + [EntryOf(s, samples, withPoints, false)] <= full
    ensures if truncated then Ended(entries, full, withPoints, maxStrokes, maxPoints)
            else Going(entries, before + [EntryOf(s, samples, withPoints, false)], left, withPoints, maxStrokes,
                       maxPoints)
    ensures before <= entries
  {
    entries, left := before, budget;
    if |entries| >= maxStrokes || (withPoints && left == 0) {
      EndsBefore(entries, full, withPoints, maxStrokes, maxPoints);
      return entries, left, true;
    }
    var entry;
    entry, left := KeepSamples(s, samples, withPoints, left);
    PointsSnoc(entries, entry);
    entries := entries + [entry];
    truncated := entry.cut;
    if truncated {
      CutEnds(before, entry, EntryOf(s, samples, withPoints, false), full, withPoints, maxStrokes, maxPoints);
    } else {
      assert samples[..|samples|] == samples;
    }
  }

  /** The entries of one stroke. */
  method DecodeStroke(s: Stroke, before: seq<Entry>, budget: nat, withPoints: bool, maxStrokes: nat,
                      ghost maxPoints: nat)
    returns (entries: seq<Entry>, left: nat, truncated: bool)
    requires Valid(s) && Going(before, before, budget, withPoints, maxStrokes, maxPoints)
    ensures PartsAreGood(Parts(s))
    ensures var full := before + FullStroke(s, Parts(s), withPoints);
            if truncated then Ended(entries, full, withPoints, maxStrokes, maxPoints)
            else Going(entries, full, left, withPoints, maxStrokes, maxPoints)
    ensures before <= entries
  {
    PartsAreValid(s);
    var parts := Parts(s);
    ghost var full := before + FullStroke(s, parts, withPoints);
    entries, left, truncated := before, budget, false;
    for j := 0 to |parts|
      invariant Going(entries, before + FullStroke(s, parts[..j], withPoints), left, withPoints, maxStrokes, maxPoints)
    {
      FullStrokeGrows(s, parts, j, withPoints);
      ghost var whole := EntryOf(s, SamplesOf(s, parts[j]), withPoints, false);
      ghost var next := FullStroke(s, parts[..j + 1], withPoints);
      Appended(before, FullStroke(s, parts[..j], withPoints), whole, next, FullStroke(s, parts, withPoints));
      entries, left, truncated :=
        DecodePart(s, SamplesOf(s, parts[j]), entries, left, withPoints, maxStrokes, maxPoints, full);
      if truncated { return; }
    }
    assert parts[..|parts|] == parts;
  }

  lemma Appended(before: seq<Entry>, some: seq<Entry>, e: Entry, next: seq<Entry>, all: seq<Entry>)
    requires next == some + [e] && next <= all
    ensures before + some + [e] == before + next <= before + all
  {}

  ghost predicate PartsAreGood(parts: seq<Option<Range>>) {
    forall p :: p in parts ==> p.Some? ==> 0.0 <= p.value.lower
  }

  lemma CutEnds(so: seq<Entry>, e: Entry, whole: Entry, full: seq<Entry>, withPoints: bool, maxStrokes: nat,
                maxPoints: nat)
    requires so + [whole] <= full && CutShort(e, whole) && |so| < maxStrokes && withPoints
    requires Points(so) + e.count == maxPoints
    ensures Ended(so + [e], full, withPoints, maxStrokes, maxPoints)
  {
    PointsSnoc(so, e);
    var r := so + [e];
    assert full[|so|] == (so + [whole])[|so|] == whole;
    forall i | 0 <= i < |r| - 1 ensures r[i] == full[i] { assert full[i] == (so + [whole])[i]; }
  }

  /** The entries of the first parts, and one more, begin the entries of the stroke. */
  lemma FullStrokeGrows(s: Stroke, parts: seq<Option<Range>>, j: nat, withPoints: bool)
    requires PartsAreGood(parts) && j < |parts|
    ensures PartsAreGood(parts[..j]) && PartsAreGood(parts[..j + 1])
    ensures FullStroke(s, parts[..j + 1], withPoints)
         == FullStroke(s, parts[..j], withPoints) + [EntryOf(s, SamplesOf(s, parts[j]), withPoints, false)]
    ensures FullStroke(s, parts[..j + 1], withPoints) <= FullStroke(s, parts, withPoints)
  {
    assert parts[..j + 1][..j] == parts[..j];
    GoodParts(parts, j);
    GoodParts(parts, j + 1);
    FullStrokeBegins(s, parts, j + 1, withPoints);
  }

  lemma {:induction false} FullStrokeBegins(s: Stroke, parts: seq<Option<Range>>, j: nat, withPoints: bool)
    requires PartsAreGood(parts) && j <= |parts|
    ensures PartsAreGood(parts[..j]) && FullStroke(s, parts[..j], withPoints) <= FullStroke(s, parts, withPoints)
    decreases |parts|
  {
    if j < |parts| {
      var fewer := parts[..|parts| - 1];
      assert fewer[..j] == parts[..j];
      GoodParts(parts, |parts| - 1);
      FullStrokeLast(s, parts, withPoints);
      FullStrokeBegins(s, fewer, j, withPoints);
    } else {
      assert parts[..j] == parts;
    }
  }

  lemma GoodParts(parts: seq<Option<Range>>, j: nat)
    requires PartsAreGood(parts) && j <= |parts|
    ensures PartsAreGood(parts[..j])
  {}

  lemma FullStrokeLast(s: Stroke, parts: seq<Option<Range>>, withPoints: bool)
    requires PartsAreGood(parts) && parts != [] && PartsAreGood(parts[..|parts| - 1])
    ensures FullStroke(s, parts[..|parts| - 1], withPoints) <= FullStroke(s, parts, withPoints)
  {}

  method DecodeDrawing(strokes: seq<Stroke>, withPoints: bool, maxStrokes: nat, maxPoints: nat)
    returns (entries: seq<Entry>, truncated: bool, hidden: nat)
    requires AllValid(strokes)
    ensures Begins(entries, Full(strokes, withPoints))
    ensures |entries| <= maxStrokes && (withPoints ==> Points(entries) <= maxPoints)
    ensures truncated <==> entries != Full(strokes, withPoints)
    ensures truncated ==> Exhausted(entries, withPoints, maxStrokes, maxPoints)
    // The strokes counted as hidden are those before the one in which it stopped.
    ensures !truncated ==> hidden == HiddenCount(strokes)
    ensures truncated ==>
              exists i: nat :: StopsIn(strokes, i, entries, withPoints) && hidden == HiddenCount(strokes[..i])
  {
    entries, truncated, hidden := [], false, 0;
    var budget := maxPoints;
    for i := 0 to |strokes|
      invariant Going(entries, Full(strokes[..i], withPoints), budget, withPoints, maxStrokes, maxPoints)
      invariant hidden == HiddenCount(strokes[..i])
    {
      FullGrows(strokes, i, withPoints);
      if Hidden(strokes[i]) {
        hidden := hidden + 1;
      } else {
        entries, budget, truncated := DecodeStroke(strokes[i], entries, budget, withPoints, maxStrokes, maxPoints);
        if truncated {
          BeginsMore(entries, Full(strokes[..i + 1], withPoints), Full(strokes, withPoints));
          assert StopsIn(strokes, i, entries, withPoints);
          return;
        }
      }
    }
    assert strokes[..|strokes|] == strokes;
  }

  lemma BeginsMore(r: seq<Entry>, full: seq<Entry>, more: seq<Entry>)
    requires Begins(r, full) && r != full && full <= more
    ensures Begins(r, more) && r != more
  {
    assert full == more[..|full|];
    if |full| == |more| { assert full == more; }
  }

  lemma FullGrows(strokes: seq<Stroke>, i: nat, withPoints: bool)
    requires AllValid(strokes) && i < |strokes|
    ensures PartsAreGood(Parts(strokes[i]))
    ensures Full(strokes[..i + 1], withPoints)
         == Full(strokes[..i], withPoints) + FullStroke(strokes[i], Parts(strokes[i]), withPoints)
    ensures Full(strokes[..i + 1], withPoints) <= Full(strokes, withPoints)
    ensures HiddenCount(strokes[..i + 1]) == HiddenCount(strokes[..i]) + if Hidden(strokes[i]) then 1 else 0
  {
    PartsAreValid(strokes[i]);
    assert strokes[..i + 1][..i] == strokes[..i];
    FullBegins(strokes, i + 1, withPoints);
  }

  lemma {:induction false} FullBegins(strokes: seq<Stroke>, j: nat, withPoints: bool)
    requires AllValid(strokes) && j <= |strokes|
    ensures Full(strokes[..j], withPoints) <= Full(strokes, withPoints)
    decreases |strokes|
  {
    if j < |strokes| {
      var n := |strokes| - 1;
      assert strokes[..n][..j] == strokes[..j];
      FullBegins(strokes[..n], j, withPoints);
      PartsAreValid(strokes[n]);
    } else {
      assert strokes[..j] == strokes;
    }
  }

  /** The width of an entry lies between those of its samples. */
  lemma WidthIsAMean(s: Stroke, samples: seq<Sample>, withPoints: bool, cut: bool, low: real, high: real)
    requires samples != [] && forall x :: x in samples ==> low <= s.width(x) <= high
    ensures low <= EntryOf(s, samples, withPoints, cut).width <= high
  {
    WidthsWithin(s, samples, low, high);
    MeanIsWithin(WidthSum(s, samples), |samples| as real, low, high);
  }

  lemma MeanIsWithin(sum: real, n: real, low: real, high: real)
    requires n > 0.0 && low * n <= sum <= high * n
    ensures low <= sum / n <= high
  {
    var mean := sum / n;
    assert mean * n == sum;
    Scaled(low, mean, n);
    Scaled(mean, high, n);
  }

  lemma Scaled(a: real, b: real, n: real)
    requires n > 0.0 && a * n <= b * n
    ensures a <= b
  {
    if a > b { Product(a - b, n); }
  }

  lemma Product(x: real, y: real)
    requires x > 0.0 && y > 0.0
    ensures x * y > 0.0
  {}

  lemma {:induction false} WidthsWithin(s: Stroke, samples: seq<Sample>, low: real, high: real)
    requires forall x :: x in samples ==> low <= s.width(x) <= high
    ensures low * |samples| as real <= WidthSum(s, samples) <= high * |samples| as real
    decreases |samples|
  {
    if samples != [] {
      var n := |samples| - 1;
      WidthsWithin(s, samples[..n], low, high);
      assert samples[n] in samples;
      assert low * |samples| as real == low * n as real + low && high * |samples| as real == high * n as real + high;
    }
  }

  /** What a stroke gives: one entry for an unmasked stroke, with all its control points in order; one for each range
      of a masked stroke that has points; and none exactly for a stroke that is hidden, one that is masked and has no
      range or no point. */
  lemma {:induction false} EntriesOfStroke(s: Stroke, withPoints: bool)
    requires Valid(s)
    ensures PartsAreGood(Parts(s))
    ensures var entries := FullStroke(s, Parts(s), withPoints);
            && (Hidden(s) <==> entries == [])
            && (entries == [] <==> s.mask.Some? && (s.mask.value == [] || s.count == 0))
            && (s.mask.None? ==> |entries| == 1 && entries[0].count == s.count
                                 && entries[0] == EntryOf(s, Controls(0, s.count - 1), withPoints, false))
            && (s.mask.Some? && s.count > 0 ==>
                  && |entries| == |s.mask.value|
                  && forall i :: 0 <= i < |entries| ==>
                       && s.mask.value[i].lower >= 0.0
                       && entries[i] == EntryOf(s, SamplesOf(s, Some(s.mask.value[i])), withPoints, false))
  {
    PartsAreValid(s);
    EntriesOfParts(s, Parts(s), withPoints);
    ControlsAt(0, s.count - 1);
  }

  lemma EntriesOfParts(s: Stroke, parts: seq<Option<Range>>, withPoints: bool)
    requires PartsAreGood(parts)
    ensures |FullStroke(s, parts, withPoints)| == |parts|
    ensures forall i :: 0 <= i < |parts| ==>
              FullStroke(s, parts, withPoints)[i] == EntryOf(s, SamplesOf(s, parts[i]), withPoints, false)
  {
    FullStrokeLength(s, parts, withPoints);
    forall i | 0 <= i < |parts|
      ensures FullStroke(s, parts, withPoints)[i] == EntryOf(s, SamplesOf(s, parts[i]), withPoints, false)
    {
      FullStrokeGrows(s, parts, i, withPoints);
      FullStrokeLength(s, parts[..i], withPoints);
    }
  }

  lemma {:induction false} FullStrokeLength(s: Stroke, parts: seq<Option<Range>>, withPoints: bool)
    requires PartsAreGood(parts)
    ensures |FullStroke(s, parts, withPoints)| == |parts|
    decreases |parts|
  {
    if parts != [] { FullStrokeLength(s, parts[..|parts| - 1], withPoints); }
  }

  /** The points that the limit counts are the points in the result. */
  lemma ResultPoints(strokes: seq<Stroke>, entries: seq<Entry>)
    requires AllValid(strokes) && Begins(entries, Full(strokes, true))
    ensures Points(entries) == |AllPoints(entries)|
  {
    FullHasPoints(strokes);
    forall i | 0 <= i < |entries|
      ensures entries[i].points.Some? && entries[i].count == |entries[i].points.value|
    {
      assert Full(strokes, true)[i].points.Some?;
    }
    PointsAreCounted(entries);
  }

  lemma {:induction false} FullHasPoints(strokes: seq<Stroke>)
    requires AllValid(strokes)
    ensures forall i :: 0 <= i < |Full(strokes, true)| ==>
              var e := Full(strokes, true)[i]; e.points.Some? && e.count == |e.points.value|
    decreases |strokes|
  {
    if strokes != [] {
      var n := |strokes| - 1;
      FullHasPoints(strokes[..n]);
      PartsAreValid(strokes[n]);
      EntriesOfParts(strokes[n], Parts(strokes[n]), true);
    }
  }

  /** There is one such stroke. */
  lemma StopsInOne(strokes: seq<Stroke>, i: nat, k: nat, entries: seq<Entry>, withPoints: bool)
    requires AllValid(strokes)
    requires StopsIn(strokes, i, entries, withPoints) && StopsIn(strokes, k, entries, withPoints)
    ensures i == k
  {
    if i < k {
      StopsNoLater(strokes, i, k, entries, withPoints);
    } else if k < i {
      StopsNoLater(strokes, k, i, entries, withPoints);
    }
  }

  lemma StopsNoLater(strokes: seq<Stroke>, i: nat, k: nat, entries: seq<Entry>, withPoints: bool)
    requires AllValid(strokes) && StopsIn(strokes, i, entries, withPoints) && i < k < |strokes|
    ensures !(Full(strokes[..k], withPoints) <= entries)
  {
    FullGrows(strokes[..k], i, withPoints);
    assert strokes[..k][..i + 1] == strokes[..i + 1];
  }
}
