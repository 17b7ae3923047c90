/** The anchor registry's operations on the anchors it holds: `record` reuses what is there, `replace`
    and `remove` touch nothing else. How many processes share the file is `RegistryProtocol`. */
module AnchorRegistry {
  import opened Wrappers

  const MAX_ANCHORS := 20000

  /** The fields that decide identity or that an operation treats specially; `details` is the rest. */
  datatype Anchor = Anchor(
    anchorId: string,
    noteIdentifier: string,
    paragraphId: Option<string>,
    fingerprint: string,
    blockIndex: int,
    createdAt: string,
    details: string)

  datatype Key = Key(noteIdentifier: string, paragraphId: Option<string>, fingerprint: string, blockIndex: int)

  function KeyOf(a: Anchor): Key {
    Key(a.noteIdentifier, a.paragraphId, a.fingerprint, a.blockIndex)
  }

  datatype Recorded = Recorded(anchor: Anchor, created: bool)

  /** The index of the first anchor with this key, or the length. */
  function FindKey(anchors: seq<Anchor>, key: Key): (i: nat)
    ensures i <= |anchors|
    ensures i < |anchors| ==> KeyOf(anchors[i]) == key
    ensures forall j :: 0 <= j < i ==> KeyOf(anchors[j]) != key
  {
    if anchors == [] || KeyOf(anchors[0]) == key then 0 else 1 + FindKey(anchors[1..], key)
  }

  predicate HasKey(anchors: seq<Anchor>, key: Key) {
    FindKey(anchors, key) < |anchors|
  }

  predicate UniqueIds(anchors: seq<Anchor>) {
    forall i, j :: 0 <= i < j < |anchors| ==> anchors[i].anchorId != anchors[j].anchorId
  }

  // ---------- record ----------

  /** One candidate; `id` is the fresh id it gets if it is new. */
  function RecordOne(anchors: seq<Anchor>, candidate: Anchor, id: string): (seq<Anchor>, Recorded) {
    var i := FindKey(anchors, KeyOf(candidate));
    if i < |anchors| then (anchors, Recorded(anchors[i], false))
    else
      var anchor := candidate.(anchorId := id);
      (anchors + [anchor], Recorded(anchor, true))
  }

  function RecordAll(anchors: seq<Anchor>, candidates: seq<Anchor>, ids: seq<string>)
    : (r: (seq<Anchor>, seq<Recorded>))
    requires |ids| >= |candidates|
    ensures |r.1| == |candidates|
    decreases |candidates|
  {
    if candidates == [] then (anchors, [])
    else
      var n := |candidates| - 1;
      var (before, out) := RecordAll(anchors, candidates[..n], ids);
      var (after, recorded) := RecordOne(before, candidates[n], ids[n]);
      (after, out + [recorded])
  }

  /** Growing the list at its end moves no first match. */
  lemma FindKeyStable(a: seq<Anchor>, b: seq<Anchor>, key: Key)
    requires a <= b && HasKey(a, key)
    ensures FindKey(b, key) == FindKey(a, key)
  {
    var i, j := FindKey(a, key), FindKey(b, key);
    assert KeyOf(b[i]) == key;
    forall k | 0 <= k < i ensures KeyOf(b[k]) != key { assert b[k] == a[k]; }
  }

  /** Existing anchors stay in place at the front; result i is the first stored anchor with candidate
      i's key; a candidate creates an anchor exactly when its key was neither stored nor an earlier
      candidate's, so duplicates in one call share one anchor. */
  lemma RecordIsStableUpsert(anchors: seq<Anchor>, candidates: seq<Anchor>, ids: seq<string>)
    requires |ids| >= |candidates|
    ensures var (next, out) := RecordAll(anchors, candidates, ids);
            && anchors <= next
            && (forall i :: 0 <= i < |candidates| ==> IsResult(anchors, candidates, ids[i], i, next, out[i]))
            && (forall key :: HasKey(next, key) <==> HasKey(anchors, key) || HasKey(candidates, key))
  {
    var (next, out) := RecordAll(anchors, candidates, ids);
    RecordExtends(anchors, candidates, ids);
    forall i | 0 <= i < |candidates| ensures IsResult(anchors, candidates, ids[i], i, next, out[i]) {
      RecordResult(anchors, candidates, ids, i);
    }
  }

  ghost predicate IsResult(anchors: seq<Anchor>, candidates: seq<Anchor>, id: string, i: nat,
                           next: seq<Anchor>, r: Recorded)
    requires i < |candidates|
  {
    var key := KeyOf(candidates[i]);
    && HasKey(next, key) && r.anchor == next[FindKey(next, key)]
    && (r.created <==> !HasKey(anchors, key) && !HasKey(candidates[..i], key))
    && (r.created ==> r.anchor == candidates[i].(anchorId := id))
  }

  /** The four fields that tell paragraphs apart. */
  predicate SamePlace(a: Anchor, b: Anchor) {
    && a.noteIdentifier == b.noteIdentifier && a.paragraphId == b.paragraphId
    && a.fingerprint == b.fingerprint && a.blockIndex == b.blockIndex
  }

  /** A candidate is answered with an anchor of its own note, paragraph, text and block index; and that anchor is new
      exactly when no stored anchor and no earlier candidate agrees with it in all four. */
  lemma RecordTellsApart(anchors: seq<Anchor>, candidates: seq<Anchor>, ids: seq<string>, i: nat)
    requires |ids| >= |candidates| && i < |candidates|
    ensures var out := RecordAll(anchors, candidates, ids).1;
            && SamePlace(out[i].anchor, candidates[i])
            && (out[i].created <==>
                  && (forall a :: a in anchors ==> !SamePlace(a, candidates[i]))
                  && (forall j :: 0 <= j < i ==> !SamePlace(candidates[j], candidates[i])))
  {
    RecordIsStableUpsert(anchors, candidates, ids);
    var (next, out) := RecordAll(anchors, candidates, ids);
    var c, key := candidates[i], KeyOf(candidates[i]);
    assert IsResult(anchors, candidates, ids[i], i, next, out[i]);
    assert forall a: Anchor :: KeyOf(a) == key <==> SamePlace(a, c);
    var k, m := FindKey(anchors, key), FindKey(candidates[..i], key);
    if k < |anchors| { assert anchors[k] in anchors; }
    if m < i { assert SamePlace(candidates[m], c); }
    forall j | 0 <= j < i && SamePlace(candidates[j], c) ensures HasKey(candidates[..i], key) {
      assert candidates[..i][j] == candidates[j];
    }
  }

  lemma {:induction false} RecordExtends(anchors: seq<Anchor>, candidates: seq<Anchor>, ids: seq<string>)
    requires |ids| >= |candidates|
    ensures var next := RecordAll(anchors, candidates, ids).0;
            && anchors <= next
            && forall key :: HasKey(next, key) <==> HasKey(anchors, key) || HasKey(candidates, key)
    decreases |candidates|
  {
    if candidates != [] {
      var n := |candidates| - 1;
      var before := RecordAll(anchors, candidates[..n], ids).0;
      var c := candidates[n];
      var after := RecordOne(before, c, ids[n]).0;
      RecordExtends(anchors, candidates[..n], ids);
      assert candidates == candidates[..n] + [c];
      forall key ensures HasKey(after, key) <==> HasKey(anchors, key) || HasKey(candidates, key) {
        HasKeyGrows(before, after, c, key);
        HasKeySnoc(candidates[..n], c, key);
      }
    }
  }

  lemma {:induction false} RecordResult(anchors: seq<Anchor>, candidates: seq<Anchor>, ids: seq<string>, i: nat)
    requires |ids| >= |candidates| && i < |candidates|
    ensures var (next, out) := RecordAll(anchors, candidates, ids);
            IsResult(anchors, candidates, ids[i], i, next, out[i])
    decreases |candidates|
  {
    var n := |candidates| - 1;
    var before := RecordAll(anchors, candidates[..n], ids).0;
    var after := RecordOne(before, candidates[n], ids[n]).0;
    if i < n {
      RecordResult(anchors, candidates[..n], ids, i);
      assert candidates[..n][..i] == candidates[..i];
      FindKeyStable(before, after, KeyOf(candidates[i]));
    } else {
      RecordExtends(anchors, candidates[..n], ids);
      if !HasKey(before, KeyOf(candidates[n])) {
        HasKeySnoc(before, candidates[n].(anchorId := ids[n]), KeyOf(candidates[n]));
      }
    }
  }

  lemma HasKeySnoc(anchors: seq<Anchor>, a: Anchor, key: Key)
    ensures HasKey(anchors + [a], key) <==> HasKey(anchors, key) || key == KeyOf(a)
    ensures !HasKey(anchors, KeyOf(a)) ==> FindKey(anchors + [a], KeyOf(a)) == |anchors|
  {
    var all := anchors + [a];
    if HasKey(anchors, key) { FindKeyStable(anchors, all, key); }
    assert KeyOf(all[|anchors|]) == KeyOf(a);
    var j := FindKey(all, KeyOf(a));
    if j < |anchors| { assert KeyOf(anchors[j]) == KeyOf(a); }
    var i := FindKey(all, key);
    if i < |anchors| { assert KeyOf(anchors[i]) == key; }
  }

  lemma HasKeyGrows(before: seq<Anchor>, after: seq<Anchor>, c: Anchor, key: Key)
    requires (after == before && HasKey(before, KeyOf(c))) || exists id :: after == before + [c.(anchorId := id)]
    ensures HasKey(after, key) <==> HasKey(before, key) || key == KeyOf(c)
  {
    if after != before {
      var id :| after == before + [c.(anchorId := id)];
      HasKeySnoc(before, c.(anchorId := id), key);
    }
  }

  /** Recording the same candidates again creates nothing and returns the same anchors. */
  lemma RecordIsIdempotent(anchors: seq<Anchor>, candidates: seq<Anchor>, ids: seq<string>, ids': seq<string>)
    requires |ids| >= |candidates| && |ids'| >= |candidates|
    ensures var (next, out) := RecordAll(anchors, candidates, ids);
            var (again, out') := RecordAll(next, candidates, ids');
            && again == next
            && (forall i :: 0 <= i < |candidates| ==> out'[i] == Recorded(out[i].anchor, false))
  {
    var (next, out) := RecordAll(anchors, candidates, ids);
    RecordIsStableUpsert(anchors, candidates, ids);
    RecordKnown(next, candidates, ids');
  }

  lemma {:induction false} RecordKnown(anchors: seq<Anchor>, candidates: seq<Anchor>, ids: seq<string>)
    requires |ids| >= |candidates|
    requires forall i :: 0 <= i < |candidates| ==> HasKey(anchors, KeyOf(candidates[i]))
    ensures var (next, out) := RecordAll(anchors, candidates, ids);
            && next == anchors
            && (forall i :: 0 <= i < |candidates| ==>
                  && HasKey(anchors, KeyOf(candidates[i]))
                  && out[i] == Recorded(anchors[FindKey(anchors, KeyOf(candidates[i]))], false))
    decreases |candidates|
  {
    if candidates != [] {
      var n := |candidates| - 1;
      assert forall i :: 0 <= i < n ==> candidates[..n][i] == candidates[i];
      RecordKnown(anchors, candidates[..n], ids);
    }
  }

  /** Ids stay unique when the drawn ones are distinct and not in use. */
  lemma {:induction false} RecordKeepsIdsUnique(anchors: seq<Anchor>, candidates: seq<Anchor>, ids: seq<string>)
    requires |ids| >= |candidates| && UniqueIds(anchors)
    requires forall i, j :: 0 <= i < j < |ids| ==> ids[i] != ids[j]
    requires forall i, a :: 0 <= i < |ids| && a in anchors ==> ids[i] != a.anchorId
    ensures var next := RecordAll(anchors, candidates, ids).0;
            && UniqueIds(next)
            && forall a :: a in next ==> a in anchors || a.anchorId in ids[..|candidates|]
    decreases |candidates|
  {
    if candidates != [] {
      var n := |candidates| - 1;
      RecordKeepsIdsUnique(anchors, candidates[..n], ids);
      assert ids[..n + 1] == ids[..n] + [ids[n]];
    }
  }

  // ---------- remove ----------

  /** The positions of the anchors that stay, in order. */
  function Kept(anchors: seq<Anchor>, wanted: set<string>): (kept: seq<nat>)
    ensures forall k :: 0 <= k < |kept| ==> kept[k] < |anchors| && anchors[kept[k]].anchorId !in wanted
    ensures forall j, k :: 0 <= j < k < |kept| ==> kept[j] < kept[k]
    ensures forall i :: 0 <= i < |anchors| && anchors[i].anchorId !in wanted ==> i in kept
  {
    if anchors == [] then []
    else
      var n := |anchors| - 1;
      var kept := Kept(anchors[..n], wanted);
      if anchors[n].anchorId in wanted then kept else kept + [n]
  }

  function Without(anchors: seq<Anchor>, wanted: set<string>): seq<Anchor> {
    if anchors == [] then []
    else
      var n := |anchors| - 1;
      Without(anchors[..n], wanted) + if anchors[n].anchorId in wanted then [] else [anchors[n]]
  }

  /** The ids that were there, in the order of the anchors. */
  function Present(anchors: seq<Anchor>, wanted: set<string>): seq<string> {
    if anchors == [] then []
    else
      var n := |anchors| - 1;
      Present(anchors[..n], wanted) + if anchors[n].anchorId in wanted then [anchors[n].anchorId] else []
  }

  /** What stays is exactly the anchors with other ids, in their order. */
  lemma {:induction false} RemoveKeepsTheRest(anchors: seq<Anchor>, wanted: set<string>)
    ensures var kept := Kept(anchors, wanted);
            && |Without(anchors, wanted)| == |kept|
            && forall k :: 0 <= k < |kept| ==> Without(anchors, wanted)[k] == anchors[kept[k]]
    decreases |anchors|
  {
    if anchors != [] {
      RemoveKeepsTheRest(anchors[..|anchors| - 1], wanted);
    }
  }

  /** And what is reported is exactly the requested ids that were there, one for each anchor gone. */
  lemma {:induction false} RemoveReportsTheGone(anchors: seq<Anchor>, wanted: set<string>)
    ensures |Without(anchors, wanted)| + |Present(anchors, wanted)| == |anchors|
    ensures forall id :: id in Present(anchors, wanted) <==> id in wanted && FindId(anchors, id) < |anchors|
    decreases |anchors|
  {
    if anchors != [] {
      var n := |anchors| - 1;
      RemoveReportsTheGone(anchors[..n], wanted);
      forall id
        ensures FindId(anchors, id) < |anchors| <==> FindId(anchors[..n], id) < n || anchors[n].anchorId == id
      {
        FindIdSnoc(anchors, id);
      }
    }
  }

  lemma FindIdSnoc(anchors: seq<Anchor>, id: string)
    requires anchors != []
    ensures var n := |anchors| - 1;
            FindId(anchors, id) < |anchors| <==> FindId(anchors[..n], id) < n || anchors[n].anchorId == id
  {
    var n := |anchors| - 1;
    var i, j := FindId(anchors, id), FindId(anchors[..n], id);
    if j < n { assert anchors[..n][j].anchorId == id; }
    if i < n { assert anchors[..n][i].anchorId == id; }
  }

  // ---------- replace ----------

  function FindId(anchors: seq<Anchor>, id: string): (i: nat)
    ensures i <= |anchors|
    ensures i < |anchors| ==> anchors[i].anchorId == id
    ensures forall j :: 0 <= j < i ==> anchors[j].anchorId != id
  {
    if anchors == [] || anchors[0].anchorId == id then 0 else 1 + FindId(anchors[1..], id)
  }

  /** The first anchor with this id is replaced, all but its creation time. */
  function Replaced(anchors: seq<Anchor>, anchor: Anchor): Option<seq<Anchor>> {
    var i := FindId(anchors, anchor.anchorId);
    if i == |anchors| then None else Some(anchors[i := anchor.(createdAt := anchors[i].createdAt)])
  }

  // ---------- The registry object ----------

  datatype Problem = UnsafePath | CorruptRegistry | RegistryFull | AnchorNotFound

  datatype Result<+T> = Ok(value: T) | Err(problem: Problem)

  /** What stands at the registry's path. */
  datatype File = Missing | Blank | Saved(anchors: seq<Anchor>) | Unreadable(problem: Problem)

  class Registry {
    var file: File

    /** A missing or blank file is an empty registry; one that does not parse is reported. */
    function Load(): Result<seq<Anchor>>
      reads this
    {
      match file
      case Missing => Ok([])
      case Blank => Ok([])
      case Saved(anchors) => Ok(anchors)
      case Unreadable(problem) => Err(problem)
    }

    constructor (file: File)
      ensures this.file == file
    {
      this.file := file;
    }

    /** Save under the limit, or report and leave the file as it is. */
    method Save(anchors: seq<Anchor>) returns (problem: Option<Problem>)
      modifies this
      ensures problem == if |anchors| > MAX_ANCHORS then Some(RegistryFull) else None
      ensures file == if problem.None? then Saved(anchors) else old(file)
    {
      if |anchors| > MAX_ANCHORS { return Some(RegistryFull); }
      file := Saved(anchors);
      return None;
    }

    method Record(candidates: seq<Anchor>, ids: seq<string>) returns (result: Result<seq<Recorded>>)
      requires |ids| >= |candidates|
      modifies this
      ensures match old(Load())
              case Err(problem) => result == Err(problem) && file == old(file)
              case Ok(anchors) =>
                var (next, out) := RecordAll(anchors, candidates, ids);
                if |next| > 20000 then result == Err(RegistryFull) && file == old(file)
                else result == Ok(out) && file == Saved(next)
    {
      var loaded := Load();
      if loaded.Err? { return Err(loaded.problem); }
      var out, next := [], loaded.value;
      assert candidates[..0] == [];
      for i := 0 to |candidates|
        invariant file == old(file) && (next, out) == RecordAll(loaded.value, candidates[..i], ids)
      {
        assert candidates[..i + 1][..i] == candidates[..i];
        var existing := FirstWithKey(next, KeyOf(candidates[i]));
        if existing < |next| {
          out := out + [Recorded(next[existing], false)];
          continue;
        }
        var anchor := candidates[i].(anchorId := ids[i]);
        next := next + [anchor];
        out := out + [Recorded(anchor, true)];
      }
      assert candidates[..|candidates|] == candidates;
      var problem := Save(next);
      return if problem.Some? then Err(problem.value) else Ok(out);
    }

    method FirstWithKey(anchors: seq<Anchor>, key: Key) returns (i: nat)
      ensures i == FindKey(anchors, key)
    {
      i := 0;
      while i < |anchors| && KeyOf(anchors[i]) != key
        invariant i <= |anchors| && forall j :: 0 <= j < i ==> KeyOf(anchors[j]) != key
      {
        i := i + 1;
      }
      var first := FindKey(anchors, key);
      assert i < |anchors| ==> KeyOf(anchors[i]) == key;
    }

    /** Only the first anchor with this id changes, and not its creation time. */
    method Replace(anchor: Anchor) returns (result: Result<Anchor>)
      modifies this
      ensures match old(Load())
              case Err(problem) => result == Err(problem) && file == old(file)
              case Ok(anchors) =>
                var i := FindId(anchors, anchor.anchorId);
                if i == |anchors| then result == Err(AnchorNotFound) && file == old(file)
                else if |anchors| > MAX_ANCHORS then result == Err(RegistryFull) && file == old(file)
                else
                  var saved := anchor.(createdAt := anchors[i].createdAt);
                  result == Ok(saved) && file == Saved(Replaced(anchors, anchor).value)
    {
      var loaded := Load();
      if loaded.Err? { return Err(loaded.problem); }
      var anchors := loaded.value;
      var i := FindId(anchors, anchor.anchorId);
      if i == |anchors| { return Err(AnchorNotFound); }
      var saved := anchor.(createdAt := anchors[i].createdAt);
      var problem := Save(anchors[i := saved]);
      return if problem.Some? then Err(problem.value) else Ok(saved);
    }

    method Remove(anchorIds: seq<string>) returns (result: Result<seq<string>>)
      modifies this
      ensures match old(Load())
              case Err(problem) => result == Err(problem) && file == old(file)
              case Ok(anchors) =>
                var wanted := set id | id in anchorIds;
                if |Without(anchors, wanted)| > MAX_ANCHORS then result == Err(RegistryFull) && file == old(file)
                else result == Ok(Present(anchors, wanted)) && file == Saved(Without(anchors, wanted))
    {
      var loaded := Load();
      if loaded.Err? { return Err(loaded.problem); }
      var anchors := loaded.value;
      var wanted := set id | id in anchorIds;
      var problem := Save(Without(anchors, wanted));
      return if problem.Some? then Err(problem.value) else Ok(Present(anchors, wanted));
    }
  }

  /** Replacing keeps the length, the order, every other anchor, and unique ids unique. */
  lemma ReplaceKeepsTheRest(anchors: seq<Anchor>, anchor: Anchor)
    requires UniqueIds(anchors) && FindId(anchors, anchor.anchorId) < |anchors|
    ensures var i := FindId(anchors, anchor.anchorId);
            var next := Replaced(anchors, anchor).value;
            && UniqueIds(next) && |next| == |anchors| && next[i] == anchor.(createdAt := anchors[i].createdAt)
            && (forall j :: 0 <= j < |anchors| && anchors[j].anchorId != anchor.anchorId ==> next[j] == anchors[j])
            && (forall j :: 0 <= j < |anchors| ==>
                  next[j].anchorId == anchors[j].anchorId && next[j].createdAt == anchors[j].createdAt)
  {}
}
