/** The checks on a note's text around a native mutation: what lies below the title, where a checklist may be
    extended, and that the links of appended HTML arrived. */
module NoteChecks {
  import opened Wrappers
  import opened Shortcut
  import ShortcutMeaning

  // ---------- Below the title ----------

  function IndexOf(text: string, c: char): (r: Option<nat>)
    ensures r.None? <==> c !in text
    ensures r.Some? ==> r.value < |text| && text[r.value] == c && c !in text[..r.value]
  {
    if text == [] then None
    else if text[0] == c then Some(0)
    else
      match IndexOf(text[1..], c)
      case None => None
      case Some(i) =>
        assert text[..i + 1] == [text[0]] + text[1..][..i];
        Some(i + 1)
  }

  /** White space and line terminators, as String.prototype.trim removes them. */
  predicate IsSpace(c: char) {
    var u := c as int;
    || 0x9 <= u <= 0xD || u == 0x20 || u == 0xA0 || u == 0x1680 || 0x2000 <= u <= 0x200A || u == 0x2028
    || u == 0x2029 || u == 0x202F || u == 0x205F || u == 0x3000 || u == 0xFEFF
  }

  function Trim(s: string): string {
    if s != [] && IsSpace(s[0]) then Trim(s[1..])
    else if s != [] && IsSpace(s[|s| - 1]) then Trim(s[..|s| - 1])
    else s
  }

  /** Trimming takes white space off both ends, all of it, and nothing else. */
  lemma {:induction false} TrimExactly(s: string) returns (a: nat, b: nat)
    ensures a <= b <= |s| && Trim(s) == s[a..b]
    ensures forall i :: 0 <= i < a || b <= i < |s| ==> IsSpace(s[i])
    ensures a < b ==> !IsSpace(s[a]) && !IsSpace(s[b - 1])
    decreases |s|
  {
    a, b := 0, |s|;
    if s != [] && IsSpace(s[0]) {
      a, b := TrimExactly(s[1..]);
      assert forall i :: 1 <= i < |s| ==> s[i] == s[1..][i - 1];
      a, b := a + 1, b + 1;
    } else if s != [] && IsSpace(s[|s| - 1]) {
      a, b := TrimExactly(s[..|s| - 1]);
    }
  }

  /** The characters in question, one by one. */
  lemma SpacesAre(c: char)
    ensures IsSpace(c) <==> c as int in {0x9, 0xA, 0xB, 0xC, 0xD, 0x20, 0xA0, 0x1680, 0x2000, 0x2001, 0x2002, 0x2003,
                                         0x2004, 0x2005, 0x2006, 0x2007, 0x2008, 0x2009, 0x200A, 0x2028, 0x2029,
                                         0x202F, 0x205F, 0x3000, 0xFEFF}
  {}

  function FirstLine(text: string): string {
    match IndexOf(text, '\n')
    case None => text
    case Some(i) => text[..i]
  }

  function TextBelowTitle(text: string, title: string): string {
    if Trim(FirstLine(text)) != Trim(title) then text
    else
      match IndexOf(text, '\n')
      case None => ""
      case Some(i) => text[i + 1..]
  }

  /** Only a first line that is the title is left out, with its newline, and a scope found in the rest is found
      in the whole text: below the title nothing new appears. */
  lemma BelowTitleIsTheRest(text: string, title: string, scope: string)
    ensures var first, below := FirstLine(text), TextBelowTitle(text, title);
            && '\n' !in first
            && (Trim(first) != Trim(title) ==> below == text)
            && (Trim(first) == Trim(title) ==> text == first + "\n" + below || (text == first && below == ""))
    ensures IsPart(scope, TextBelowTitle(text, title)) ==> IsPart(scope, text)
  {
    var below := TextBelowTitle(text, title);
    var d := |text| - |below|;
    assert text[d..] == below;
    if IsPart(scope, below) { PartOfSuffix(scope, text, d); }
  }

  lemma PartOfSuffix(part: string, text: string, d: nat)
    requires d <= |text| && IsPart(part, text[d..])
    ensures IsPart(part, text)
  {
    var i :| 0 <= i <= |text[d..]| && part <= text[d..][i..];
    assert text[d + i..] == text[d..][i..];
  }

  // ---------- Where a checklist may be extended ----------

  datatype Item = Item(start: nat, text: string)

  predicate Ordered(s: seq<Item>) {
    forall i, j :: 0 <= i < j < |s| ==> s[i].start <= s[j].start
  }

  /** Behind all items that do not start later, so that the sort is stable. */
  function Insert(x: Item, s: seq<Item>): (r: seq<Item>)
    requires Ordered(s)
    ensures Ordered(r) && (forall y :: y in r <==> y == x || y in s) && |r| == |s| + 1
  {
    if s == [] || x.start < s[0].start then [x] + s
    else
      var rest := Insert(x, s[1..]);
      assert forall i :: 0 <= i < |rest| ==> rest[i] in rest;
      [s[0]] + rest
  }

  function SortByStart(items: seq<Item>): (r: seq<Item>)
    ensures Ordered(r) && (forall y :: y in r <==> y in items) && |r| == |items|
  {
    if items == [] then []
    else
      var n := |items| - 1;
      assert items == items[..n] + [items[n]];
      Insert(items[n], SortByStart(items[..n]))
  }

  lemma {:induction false} InsertKeepsAll(x: Item, s: seq<Item>)
    requires Ordered(s)
    ensures multiset(Insert(x, s)) == multiset(s) + multiset{x}
    decreases |s|
  {
    if s != [] && x.start >= s[0].start {
      InsertKeepsAll(x, s[1..]);
      assert s == [s[0]] + s[1..];
    }
  }

  lemma LastApart(items: seq<Item>)
    requires items != []
    ensures multiset(items) == multiset(items[..|items| - 1]) + multiset{items[|items| - 1]}
  {
    assert items == items[..|items| - 1] + [items[|items| - 1]];
  }

  /** The sorted items are the items. */
  lemma {:induction false} SortKeepsAll(items: seq<Item>)
    ensures multiset(SortByStart(items)) == multiset(items)
    decreases |items|
  {
    if items != [] {
      var n := |items| - 1;
      SortKeepsAll(items[..n]);
      InsertKeepsAll(items[n], SortByStart(items[..n]));
      LastApart(items);
    }
  }

  /** The items that start at `p`, in their order. */
  function StartingAt(items: seq<Item>, p: nat): seq<Item> {
    if items == [] then []
    else
      var n := |items| - 1;
      StartingAt(items[..n], p) + if items[n].start == p then [items[n]] else []
  }

  lemma {:induction false} StartingAtConcat(s: seq<Item>, t: seq<Item>, p: nat)
    ensures StartingAt(s + t, p) == StartingAt(s, p) + StartingAt(t, p)
    decreases |t|
  {
    if t == [] {
      assert s + t == s;
    } else {
      assert (s + t)[..|s + t| - 1] == s + t[..|t| - 1];
      StartingAtConcat(s, t[..|t| - 1], p);
    }
  }

  lemma {:induction false} NoneStartsAt(s: seq<Item>, p: nat)
    requires forall i :: 0 <= i < |s| ==> s[i].start != p
    ensures StartingAt(s, p) == []
    decreases |s|
  {
    if s != [] { NoneStartsAt(s[..|s| - 1], p); }
  }

  lemma {:induction false} InsertIsStable(x: Item, s: seq<Item>, p: nat)
    requires Ordered(s)
    ensures StartingAt(Insert(x, s), p) == StartingAt(s, p) + StartingAt([x], p)
    decreases |s|
  {
    if s == [] || x.start < s[0].start {
      StartingAtConcat([x], s, p);
      NoneStartsAtEither(x, s, p);
    } else {
      var first, rest := [s[0]], s[1..];
      InsertIsStable(x, rest, p);
      assert s == first + rest && Insert(x, s) == first + Insert(x, rest);
      StartingAtConcat(first, rest, p);
      StartingAtConcat(first, Insert(x, rest), p);
      ShortcutMeaning.Associates(StartingAt(first, p), StartingAt(rest, p), StartingAt([x], p));
    }
  }

  /** When `x` starts before all of `s`, at most one of them has anything that starts at `p`. */
  lemma NoneStartsAtEither(x: Item, s: seq<Item>, p: nat)
    requires Ordered(s) && (s == [] || x.start < s[0].start)
    ensures StartingAt([x], p) + StartingAt(s, p) == StartingAt(s, p) + StartingAt([x], p)
  {
    if x.start == p { NoneStartsAt(s, p); } else { NoneStartsAt([x], p); }
  }

  /** The sort is stable: items with one start keep their order. */
  lemma {:induction false} SortIsStable(items: seq<Item>, p: nat)
    ensures StartingAt(SortByStart(items), p) == StartingAt(items, p)
    decreases |items|
  {
    if items != [] {
      var n := |items| - 1;
      SortIsStable(items[..n], p);
      InsertIsStable(items[n], SortByStart(items[..n]), p);
      StartingAtConcat(items[..n], [items[n]], p);
      assert items == items[..n] + [items[n]];
    }
  }

  predicate LineStart(text: string, p: nat) {
    p == 0 || (p - 1 < |text| && text[p - 1] == '\n')
  }

  predicate OutOfPlace(text: string, s: seq<Item>, i: nat)
    requires i < |s|
  {
    !LineStart(text, s[i].start) || (i > 0 && s[i].start != s[i - 1].start + |s[i - 1].text| + 1)
  }

  function From(text: string, p: nat): string {
    if p >= |text| then "" else text[p..]
  }

  predicate EndAppendAvailable(text: string, items: seq<Item>) {
    AcceptsSorted(text, SortByStart(items))
  }

  predicate AcceptsSorted(text: string, s: seq<Item>) {
    s == []
    || var last := s[|s| - 1];
       && (forall i :: 0 <= i < |s| ==> !OutOfPlace(text, s, i))
       && (From(text, last.start + |last.text|) == "" || From(text, last.start + |last.text|) == "\n")
  }

  /** The text of every item is in the note, at its start. */
  predicate Matching(text: string, s: seq<Item>) {
    forall i :: 0 <= i < |s| ==> MatchesAt(text, s[i])
  }

  predicate MatchesAt(text: string, item: Item) {
    item.start + |item.text| <= |text| && text[item.start..item.start + |item.text|] == item.text
  }

  function Joined(s: seq<Item>): string
    requires s != []
  {
    if |s| == 1 then s[0].text else s[0].text + "\n" + Joined(s[1..])
  }

  /** One checklist group at the end of the note: all items at line starts, and the note from the first item on
      is their texts on lines of their own, with at most one newline more. */
  predicate OneGroupAtEnd(text: string, s: seq<Item>) {
    s != [] && s[0].start <= |text|
    && (forall i :: 0 <= i < |s| ==> LineStart(text, s[i].start))
    && (text[s[0].start..] == Joined(s) || text[s[0].start..] == Joined(s) + "\n")
  }

  predicate Consecutive(s: seq<Item>) {
    forall i :: 0 < i < |s| ==> s[i].start == s[i - 1].start + |s[i - 1].text| + 1
  }

  /** The check accepts exactly the layouts of one group at the end whose items follow one another. */
  lemma AcceptsExactLayouts(text: string, items: seq<Item>)
    requires Matching(text, items)
    ensures var s := SortByStart(items);
            EndAppendAvailable(text, items) <==> s == [] || (OneGroupAtEnd(text, s) && Consecutive(s))
  {
    var s := SortByStart(items);
    SortedMatches(text, items);
    if s != [] {
      if EndAppendAvailable(text, items) { AcceptedIsOneGroup(text, s); }
      if OneGroupAtEnd(text, s) && Consecutive(s) { OneGroupIsAccepted(text, s); }
    }
  }

  lemma AcceptedIsOneGroup(text: string, s: seq<Item>)
    requires s != [] && AcceptsSorted(text, s) && Matching(text, s)
    ensures OneGroupAtEnd(text, s) && Consecutive(s)
  {
    forall i | 0 < i < |s| ensures s[i].start == s[i - 1].start + |s[i - 1].text| + 1 {
      assert !OutOfPlace(text, s, i);
    }
    forall i | 0 <= i < |s| ensures LineStart(text, s[i].start) { assert !OutOfPlace(text, s, i); }
    TextFromItem(text, s, 0);
    assert s[0..] == s;
  }

  lemma OneGroupIsAccepted(text: string, s: seq<Item>)
    requires OneGroupAtEnd(text, s) && Consecutive(s) && Matching(text, s)
    ensures AcceptsSorted(text, s)
  {
    JoinedLength(s);
    var last := s[|s| - 1];
    assert MatchesAt(text, last);
    assert text[s[0].start..][|Joined(s)|..] == text[last.start + |last.text|..];
    assert forall i :: 0 <= i < |s| ==> !OutOfPlace(text, s, i);
  }

  lemma SortedMatches(text: string, items: seq<Item>)
    requires Matching(text, items)
    ensures Matching(text, SortByStart(items))
  {
    var s := SortByStart(items);
    forall i | 0 <= i < |s| ensures MatchesAt(text, s[i]) {
      assert s[i] in items;
    }
  }

  lemma SplitText(text: string, p: nat, part: string)
    requires p + |part| <= |text| && text[p..p + |part|] == part
    ensures text[p..] == part + text[p + |part|..]
  {}

  lemma {:induction false} TextFromItem(text: string, s: seq<Item>, i: nat)
    requires i < |s| && Matching(text, s) && Consecutive(s)
    requires forall j :: 0 <= j < |s| ==> LineStart(text, s[j].start)
    ensures var last := s[|s| - 1];
            && s[i].start <= |text| && last.start + |last.text| <= |text|
            && text[s[i].start..] == Joined(s[i..]) + text[last.start + |last.text|..]
    decreases |s| - i
  {
    var a := s[i];
    assert MatchesAt(text, a) && MatchesAt(text, s[|s| - 1]);
    SplitText(text, a.start, a.text);
    if i + 1 < |s| {
      TextFromItem(text, s, i + 1);
      assert LineStart(text, s[i + 1].start);
      SplitText(text, a.start + |a.text|, "\n");
      assert s[i..][1..] == s[i + 1..];
      ShortcutMeaning.Associates(a.text, "\n", text[s[i + 1].start..]);
      var last := s[|s| - 1];
      ShortcutMeaning.Associates(a.text + "\n", Joined(s[i + 1..]), text[last.start + |last.text|..]);
    } else {
      assert s[i..] == [a];
    }
  }

  lemma {:induction false} JoinedLength(s: seq<Item>)
    requires s != [] && Consecutive(s)
    ensures |Joined(s)| == s[|s| - 1].start + |s[|s| - 1].text| - s[0].start
    decreases |s|
  {
    if |s| > 1 {
      assert forall i :: 0 < i < |s[1..]| ==> s[1..][i] == s[i + 1];
      JoinedLength(s[1..]);
    }
  }

  /** The layout alone does not make the check accept: two items at one start have it and are refused, */
  lemma TwoItemsAtOneStart()
    ensures var text, s := "a\na", [Item(0, "a"), Item(0, "a")];
            Matching(text, s) && OneGroupAtEnd(text, s) && !EndAppendAvailable(text, s)
  {
    var text, a := "a\na", Item(0, "a");
    assert text[0..] == a.text + "\n" + a.text;
    LaidOutPair(text, a, a);
    RefusedPair(text, a, a);
  }

  /** and so has an empty item behind a blank line. */
  lemma EmptyItemBehindABlankLine()
    ensures var text, s := "a\n\n", [Item(0, "a"), Item(3, "")];
            Matching(text, s) && OneGroupAtEnd(text, s) && !EndAppendAvailable(text, s)
  {
    var text, a, b := "a\n\n", Item(0, "a"), Item(3, "");
    assert text[0..] == (a.text + "\n" + b.text) + "\n";
    LaidOutPair(text, a, b);
    RefusedPair(text, a, b);
  }

  lemma LaidOutPair(text: string, a: Item, b: Item)
    requires MatchesAt(text, a) && MatchesAt(text, b) && LineStart(text, a.start) && LineStart(text, b.start)
    requires var joined := a.text + "\n" + b.text;
             text[a.start..] == joined || text[a.start..] == joined + "\n"
    ensures Matching(text, [a, b]) && OneGroupAtEnd(text, [a, b])
  {
    assert [a, b][1..] == [b];
  }

  lemma RefusedPair(text: string, a: Item, b: Item)
    requires a.start <= b.start != a.start + |a.text| + 1
    ensures !EndAppendAvailable(text, [a, b])
  {
    SortedTwo(a, b);
    assert OutOfPlace(text, [a, b], 1);
  }

  lemma SortedTwo(a: Item, b: Item)
    requires a.start <= b.start
    ensures SortByStart([a, b]) == [a, b]
  {
    assert [a, b][..1] == [a] && [a][..0] == [];
    assert SortByStart([a]) == Insert(a, SortByStart([])) == [a];
    assert [a][1..] == [];
    assert SortByStart([a, b]) == Insert(b, [a]);
    assert Insert(b, []) == [b];
  }

  // ---------- Real checklists ----------

  /** Items as a note has them: nonempty single lines, each at a start of its own. */
  predicate Proper(s: seq<Item>) {
    && (forall i :: 0 <= i < |s| ==> s[i].text != "" && '\n' !in s[i].text)
    && (forall i, j :: 0 <= i < j < |s| ==> s[i].start < s[j].start)
  }

  /** For such items the layout is enough: the check accepts exactly one group at the end. */
  lemma ProperListsNeedOnlyTheLayout(text: string, items: seq<Item>)
    requires Matching(text, items) && items != [] && Proper(SortByStart(items))
    ensures EndAppendAvailable(text, items) <==> OneGroupAtEnd(text, SortByStart(items))
  {
    var s := SortByStart(items);
    AcceptsExactLayouts(text, items);
    if OneGroupAtEnd(text, s) {
      SortedMatches(text, items);
      LinesAreConsecutive(text, s);
    }
  }

  lemma LinesAreConsecutive(text: string, s: seq<Item>)
    requires OneGroupAtEnd(text, s) && Proper(s) && Matching(text, s)
    ensures Consecutive(s)
  {
    forall i | 0 < i < |s| ensures s[i].start == s[i - 1].start + |s[i - 1].text| + 1 {
      StartsAtMost(text, s, i);
      StartsAtLeast(text, s, i);
      StartsAtMost(text, s, i - 1);
      StartsAtLeast(text, s, i - 1);
    }
  }

  /** Where the line of item `i` begins when the items follow one another. */
  function Line(s: seq<Item>, i: nat): nat
    requires s != [] && i <= |s|
  {
    if i == 0 then s[0].start else Line(s, i - 1) + |s[i - 1].text| + 1
  }

  /** The layout puts the text of item `i` at its line, and a newline before the next. */
  lemma {:induction false} LineHolds(text: string, s: seq<Item>, i: nat)
    requires OneGroupAtEnd(text, s) && i < |s|
    ensures Line(s, i) <= |text|
    ensures text[Line(s, i)..] == Joined(s[i..]) || text[Line(s, i)..] == Joined(s[i..]) + "\n"
    decreases i
  {
    if i == 0 {
      assert s[0..] == s;
    } else {
      LineHolds(text, s, i - 1);
      var before := s[i - 1..];
      assert before[1..] == s[i..];
      BehindLine(text, Line(s, i - 1), before[0].text, Joined(s[i..]));
    }
  }

  lemma BehindLine(text: string, p: nat, line: string, rest: string)
    requires p <= |text| && (text[p..] == line + "\n" + rest || text[p..] == (line + "\n" + rest) + "\n")
    ensures p + |line| + 1 <= |text|
    ensures text[p + |line| + 1..] == rest || text[p + |line| + 1..] == rest + "\n"
  {
    assert text[p + |line| + 1..] == text[p..][|line| + 1..];
    assert (line + "\n" + rest)[|line| + 1..] == rest;
    assert ((line + "\n" + rest) + "\n")[|line| + 1..] == rest + "\n";
  }

  /** A line start behind the beginning of line `i` is not before line `i + 1`. */
  lemma NextLine(text: string, s: seq<Item>, i: nat, p: nat)
    requires OneGroupAtEnd(text, s) && Proper(s) && i < |s|
    requires Line(s, i) < p <= |text| && LineStart(text, p)
    ensures p >= Line(s, i + 1)
  {
    LineHolds(text, s, i);
    var line := text[Line(s, i)..];
    assert s[i..][0] == s[i];
    assert s[i].text <= line by { assert s[i].text <= Joined(s[i..]); }
    forall q | Line(s, i) <= q < Line(s, i) + |s[i].text| ensures q < |text| && text[q] != '\n' {
      assert text[q] == line[q - Line(s, i)] == s[i].text[q - Line(s, i)];
    }
  }

  lemma {:induction false} StartsAtMost(text: string, s: seq<Item>, i: nat)
    requires OneGroupAtEnd(text, s) && Proper(s) && Matching(text, s) && i < |s|
    ensures s[i].start <= Line(s, i)
    decreases |s| - i
  {
    assert MatchesAt(text, s[i]);
    if i + 1 < |s| {
      StartsAtMost(text, s, i + 1);
    } else {
      LineHolds(text, s, i);
      assert s[i..] == [s[i]];
    }
    assert s[i].start < Line(s, i + 1);
    if Line(s, i) < s[i].start { NextLine(text, s, i, s[i].start); }
  }

  lemma {:induction false} StartsAtLeast(text: string, s: seq<Item>, i: nat)
    requires OneGroupAtEnd(text, s) && Proper(s) && Matching(text, s) && i < |s|
    ensures s[i].start >= Line(s, i)
    decreases i
  {
    if i > 0 {
      StartsAtLeast(text, s, i - 1);
      assert MatchesAt(text, s[i]);
      NextLine(text, s, i - 1, s[i].start);
    }
  }

  // ---------- Links ----------

  function Signatures<L>(links: seq<L>, sign: L -> string): (r: seq<string>)
    ensures |r| == |links|
  {
    if links == [] then [] else [sign(links[0])] + Signatures(links[1..], sign)
  }

  lemma {:induction false} SignatureAt<L>(links: seq<L>, i: nat, sign: L -> string)
    requires i < |links|
    ensures Signatures(links, sign)[i] == sign(links[i])
    decreases i
  {
    if i > 0 { SignatureAt(links[1..], i - 1, sign); }
  }

  /** The links after the first `previous` ones. */
  function Behind<L>(links: seq<L>, previous: nat): seq<L> {
    if previous >= |links| then [] else links[previous..]
  }

  /** Each expected link takes the first remaining one with its signature out of the list. */
  method AppendedLinks<L>(previous: nat, links: seq<L>, expected: seq<L>, sign: L -> string) returns (ok: bool)
    ensures ok <==> multiset(Signatures(expected, sign)) <= multiset(Signatures(Behind(links, previous), sign))
  {
    var remaining := Behind(links, previous);
    ghost var all, wanted := Signatures(remaining, sign), Signatures(expected, sign);
    for i := 0 to |expected|
      invariant multiset(Signatures(remaining, sign)) + multiset(wanted[..i]) == multiset(all)
    {
      SignatureAt(expected, i, sign);
      var at := FindSignature(remaining, sign(expected[i]), sign);
      TakeOne(all, Signatures(remaining, sign), wanted, i, at);
      if at == |remaining| { return false; }
      Rejoin(remaining, at);
      SplicedParts(remaining[..at], remaining[at], remaining[at + 1..], sign);
      remaining := remaining[..at] + remaining[at + 1..];
    }
    assert wanted[..|expected|] == wanted;
    return true;
  }

  /** At `at` and nowhere before; past the end when there is none. */
  ghost predicate FirstIs(signatures: seq<string>, signature: string, at: nat) {
    && at <= |signatures|
    && (at < |signatures| ==> signatures[at] == signature)
    && signature !in signatures[..at]
  }

  method FindSignature<L>(links: seq<L>, signature: string, sign: L -> string) returns (at: nat)
    ensures FirstIs(Signatures(links, sign), signature, at)
  {
    at := 0;
    while at < |links| && sign(links[at]) != signature
      invariant at <= |links| && forall j :: 0 <= j < at ==> sign(links[j]) != signature
    {
      at := at + 1;
    }
    forall j | 0 <= j < |links| ensures Signatures(links, sign)[j] == sign(links[j]) { SignatureAt(links, j, sign); }
  }

  lemma Rejoin<T>(s: seq<T>, at: nat)
    requires at < |s|
    ensures s == s[..at] + ([s[at]] + s[at + 1..])
  {}

  lemma SplicedParts<L>(a: seq<L>, x: L, b: seq<L>, sign: L -> string)
    ensures var all := Signatures(a + ([x] + b), sign);
            |a| < |all| && Signatures(a + b, sign) == all[..|a|] + all[|a| + 1..]
  {
    SignaturesConcat(a, b, sign);
    SignaturesConcat(a, [x] + b, sign);
    SignaturesConcat([x], b, sign);
    assert Signatures([x], sign) == [sign(x)] + Signatures([x][1..], sign);
    CutOut(Signatures(a, sign), sign(x), Signatures(b, sign));
  }

  lemma CutOut<T>(a: seq<T>, x: T, b: seq<T>)
    ensures (a + ([x] + b))[..|a|] + (a + ([x] + b))[|a| + 1..] == a + b
  {}

  lemma {:induction false} SignaturesConcat<L>(a: seq<L>, b: seq<L>, sign: L -> string)
    ensures Signatures(a + b, sign) == Signatures(a, sign) + Signatures(b, sign)
    decreases |a|
  {
    if a == [] {
      assert a + b == b;
    } else {
      assert (a + b)[1..] == a[1..] + b;
      SignaturesConcat(a[1..], b, sign);
    }
  }

  lemma TakeOne(all: seq<string>, remaining: seq<string>, wanted: seq<string>, i: nat, at: nat)
    requires i < |wanted| && FirstIs(remaining, wanted[i], at)
    requires multiset(remaining) + multiset(wanted[..i]) == multiset(all)
    ensures if at < |remaining|
            then multiset(remaining[..at] + remaining[at + 1..]) + multiset(wanted[..i + 1]) == multiset(all)
            else !(multiset(wanted) <= multiset(all))
  {
    assert wanted[..i + 1] == wanted[..i] + [wanted[i]];
    assert wanted == wanted[..i + 1] + wanted[i + 1..];
    if at < |remaining| {
      assert remaining == remaining[..at] + [remaining[at]] + remaining[at + 1..];
    } else {
      assert remaining[..at] == remaining;
      assert multiset(wanted)[wanted[i]] > multiset(all)[wanted[i]];
    }
  }
}
