/** The protocol and the operations together: what the updates of many processes do to the one registry that
    they share. */
module RegistryUpdates {
  import opened Wrappers
  import opened AnchorRegistry
  import opened RegistryProtocol

  /** One call of the registry; a record comes with the ids that it draws. */
  datatype Update =
    | Record(candidates: seq<Anchor>, ids: seq<string>)
    | Replace(anchor: Anchor)
    | Remove(wanted: set<string>)
  {
    predicate Valid() {
      Record? ==> |ids| == |candidates|
    }
  }

  function Changed(u: Update, anchors: Anchors): Option<Anchors>
    requires u.Valid()
  {
    match u
    case Record(candidates, ids) => Some(RecordAll(anchors, candidates, ids).0)
    case Replace(anchor) => Replaced(anchors, anchor)
    case Remove(wanted) => Some(Without(anchors, wanted))
  }

  /** What the call saves; a registry that would be over-full is not saved. */
  function Applied(u: Update, anchors: Anchors): Option<Anchors>
    requires u.Valid()
  {
    Apply(ChangeOf(u), anchors)
  }

  function ChangeOf(u: Update): Change
    requires u.Valid()
  {
    anchors => Changed(u, anchors)
  }

  // ---------- The commits are calls ----------

  /** Process `p` began an update with this change in one of the first `k` steps. */
  ghost predicate Begun(steps: seq<(ProcessId, Step)>, k: nat, p: ProcessId, change: Change) {
    exists j :: 0 <= j < k <= |steps| && steps[j] == (p, Begin(change))
  }

  ghost predicate PlaceBegun(steps: seq<(ProcessId, Step)>, k: nat, p: ProcessId, place: Place) {
    match place
    case Waiting(change) => Begun(steps, k, p, change)
    case Locked(change) => Begun(steps, k, p, change)
    case Reading(change, _, _) => Begun(steps, k, p, change)
    case Loaded(change, _) => Begun(steps, k, p, change)
    case Writing(change, _, _, _) => Begun(steps, k, p, change)
    case Synced(change, _, _) => Begun(steps, k, p, change)
    case _ => true
  }

  ghost predicate AllBegun(s: State, steps: seq<(ProcessId, Step)>, k: nat) {
    && (forall p :: p in s.places ==> PlaceBegun(steps, k, p, s.places[p]))
    && (forall i :: 0 <= i < |s.past.commits| ==>
          Begun(steps, k, s.past.commits[i].process, s.past.commits[i].change))
  }

  lemma BegunLater(steps: seq<(ProcessId, Step)>, k: nat, p: ProcessId, change: Change)
    requires Begun(steps, k, p, change) && k < |steps|
    ensures Begun(steps, k + 1, p, change)
  {
    var j :| 0 <= j < k <= |steps| && steps[j] == (p, Begin(change));
    assert steps[j] == (p, Begin(change));
  }

  lemma AllBegunStep(s: State, steps: seq<(ProcessId, Step)>, k: nat, c: Codec)
    requires AllBegun(s, steps, k) && k < |steps| && Enabled(s, steps[k].0, steps[k].1)
    ensures AllBegun(Next(s, steps[k].0, steps[k].1, c), steps, k + 1)
  {
    var (p, e) := steps[k];
    forall q, change | Begun(steps, k, q, change) ensures Begun(steps, k + 1, q, change) {
      BegunLater(steps, k, q, change);
    }
    if e.Begin? { assert Begun(steps, k + 1, p, e.change); }
    forall q | q in s.places ensures PlaceBegun(steps, k + 1, q, s.places[q]) {
      assert PlaceBegun(steps, k, q, s.places[q]);
    }
  }

  /** Every committed change was begun by the process that committed it. */
  lemma {:induction false} CommitsWereBegun(states: seq<State>, steps: seq<(ProcessId, Step)>, c: Codec, k: nat)
    requires Behaviour(states, steps, c) && k < |states|
    ensures AllBegun(states[k], steps, k)
    decreases k
  {
    if k > 0 {
      CommitsWereBegun(states, steps, c, k - 1);
      AllBegunStep(states[k - 1], steps, k - 1, c);
    }
  }

  /** These are the calls whose changes were committed, in the order of their locks. */
  ghost predicate Describes(updates: seq<Update>, commits: seq<Commit>) {
    && |updates| == |commits|
    && forall i :: 0 <= i < |commits| ==> IsChangeOf(commits[i].change, updates[i])
  }

  ghost predicate IsChangeOf(change: Change, u: Update) {
    u.Valid() && change == ChangeOf(u)
  }

  ghost predicate IsCall(change: Change) {
    exists u :: IsChangeOf(change, u)
  }

  /** When processes only begin record, replace and remove, the commits are such calls. */
  lemma CommitsAreCalls(states: seq<State>, steps: seq<(ProcessId, Step)>, c: Codec, k: nat)
    requires Behaviour(states, steps, c) && k < |states|
    requires forall j :: 0 <= j < |steps| && steps[j].1.Begin? ==> IsCall(steps[j].1.change)
    ensures exists updates :: Describes(updates, states[k].past.commits)
  {
    CommitsWereBegun(states, steps, c, k);
    var commits := states[k].past.commits;
    forall i | 0 <= i < |commits| ensures IsCall(commits[i].change) {
      assert Begun(steps, k, commits[i].process, commits[i].change);
      var j :| 0 <= j < k && steps[j] == (commits[i].process, Begin(commits[i].change));
      assert steps[j].1.Begin?;
    }
    var updates := Calls(commits);
    assert Describes(updates, commits);
  }

  ghost function Calls(commits: seq<Commit>): (updates: seq<Update>)
    requires forall i :: 0 <= i < |commits| ==> IsCall(commits[i].change)
    ensures Describes(updates, commits)
  {
    if commits == [] then []
    else
      assert IsCall(commits[0].change);
      var u :| IsChangeOf(commits[0].change, u);
      [u] + Calls(commits[1..])
  }

  // ---------- Unique ids ----------

  function Drawn(u: Update): seq<string> {
    if u.Record? then u.ids else []
  }

  predicate Distinct(ids: seq<string>) {
    forall i, j :: 0 <= i < j < |ids| ==> ids[i] != ids[j]
  }

  function Elements(ids: seq<string>): set<string> {
    set id | id in ids
  }

  /** The ids of the start and those drawn by the first `k` calls. */
  function Known(start: Anchors, updates: seq<Update>, k: nat): set<string>
    requires k <= |updates|
  {
    if k == 0 then set a | a in start :: a.anchorId
    else Known(start, updates, k - 1) + Elements(Drawn(updates[k - 1]))
  }

  /** Each call draws distinct ids that were neither there at the start nor drawn before. */
  ghost predicate Fresh(start: Anchors, updates: seq<Update>) {
    forall i :: 0 <= i < |updates| ==> FreshAt(start, updates, i)
  }

  ghost predicate FreshAt(start: Anchors, updates: seq<Update>, i: nat)
    requires i < |updates|
  {
    && Distinct(Drawn(updates[i]))
    && (forall id :: id in Drawn(updates[i]) ==> id !in Known(start, updates, i))
  }

  ghost predicate IdsIn(anchors: Anchors, known: set<string>) {
    forall a :: a in anchors ==> a.anchorId in known
  }

  lemma RemoveKeepsUnique(anchors: Anchors, wanted: set<string>)
    requires UniqueIds(anchors)
    ensures UniqueIds(Without(anchors, wanted)) && forall a :: a in Without(anchors, wanted) ==> a in anchors
  {
    RemoveKeepsTheRest(anchors, wanted);
    var kept := Kept(anchors, wanted);
    forall i, j | 0 <= i < j < |kept| ensures anchors[kept[i]].anchorId != anchors[kept[j]].anchorId {
      assert kept[i] < kept[j];
    }
  }

  lemma UpdateKeepsUnique(u: Update, anchors: Anchors, known: set<string>)
    requires u.Valid() && Applied(u, anchors).Some? && UniqueIds(anchors) && IdsIn(anchors, known)
    requires Distinct(Drawn(u))
    requires forall id :: id in Drawn(u) ==> id !in known
    ensures UniqueIds(Applied(u, anchors).value)
    ensures IdsIn(Applied(u, anchors).value, known + Elements(Drawn(u)))
  {
    match u
    case Record(candidates, ids) =>
      RecordKeepsIdsUnique(anchors, candidates, ids);
      assert ids[..|candidates|] == ids;
    case Replace(anchor) =>
      ReplaceKeepsTheRest(anchors, anchor);
    case Remove(wanted) =>
      RemoveKeepsUnique(anchors, wanted);
  }

  lemma OneVersion(past: History, updates: seq<Update>, k: nat)
    requires HistoryInv(past) && Describes(updates, past.commits) && k < |past.commits|
    ensures past.versions[k].Some? && past.versions[k + 1].Some? && updates[k].Valid()
    ensures Applied(updates[k], past.versions[k].value) == past.versions[k + 1]
  {
    assert Links(past, k) && IsChangeOf(past.commits[k].change, updates[k]);
  }

  lemma {:induction false} VersionsAreUnique(past: History, updates: seq<Update>, start: Anchors, k: nat)
    requires HistoryInv(past) && Describes(updates, past.commits) && k <= |past.commits|
    requires past.versions[0] == Some(start) && UniqueIds(start) && Fresh(start, updates)
    ensures past.versions[k].Some? && UniqueIds(past.versions[k].value)
    ensures IdsIn(past.versions[k].value, Known(start, updates, k))
    decreases k
  {
    if k > 0 {
      VersionsAreUnique(past, updates, start, k - 1);
      OneVersion(past, updates, k - 1);
      assert FreshAt(start, updates, k - 1);
      UpdateKeepsUnique(updates[k - 1], past.versions[k - 1].value, Known(start, updates, k - 1));
    }
  }

  /** Given fresh ids, ids stay unique in every version that the registry ever has, whatever the processes and
      their interleaving. */
  lemma IdsStayUnique(states: seq<State>, steps: seq<(ProcessId, Step)>, c: Codec, k: nat, updates: seq<Update>,
                      start: Anchors)
    requires Behaviour(states, steps, c) && Faithful(c) && k < |states|
    requires Current(states[0].disk, c) == Some(start) && UniqueIds(start)
    requires Describes(updates, states[k].past.commits) && Fresh(start, updates)
    ensures Current(states[k].disk, c).Some? && UniqueIds(Current(states[k].disk, c).value)
  {
    BehaviourKeeps(states, steps, c, k);
    FirstVersion(states, steps, c, k);
    VersionsAreUnique(states[k].past, updates, start, |states[k].past.commits|);
  }

  // ---------- Shared anchors ----------

  /** `x` is what a record of its key is answered with. */
  predicate FirstOfKey(anchors: Anchors, x: Anchor) {
    HasKey(anchors, KeyOf(x)) && anchors[FindKey(anchors, KeyOf(x))] == x
  }

  /** A call that neither removes nor replaces `x`, and gives no other anchor its key. */
  predicate LeavesAlone(u: Update, x: Anchor) {
    match u
    case Record(_, _) => true
    case Replace(anchor) => anchor.anchorId != x.anchorId && KeyOf(anchor) != KeyOf(x)
    case Remove(wanted) => x.anchorId !in wanted
  }

  lemma FirstAt(anchors: Anchors, x: Anchor, p: nat)
    requires p < |anchors| && anchors[p] == x
    requires forall q :: 0 <= q < p ==> KeyOf(anchors[q]) != KeyOf(x)
    ensures FirstOfKey(anchors, x)
  {}

  lemma RemoveKeepsFirst(anchors: Anchors, wanted: set<string>, x: Anchor)
    requires FirstOfKey(anchors, x) && x.anchorId !in wanted
    ensures FirstOfKey(Without(anchors, wanted), x)
  {
    RemoveKeepsTheRest(anchors, wanted);
    var kept, p := Kept(anchors, wanted), FindKey(anchors, KeyOf(x));
    var q: nat :| q < |kept| && kept[q] == p;
    forall r | 0 <= r < q ensures KeyOf(Without(anchors, wanted)[r]) != KeyOf(x) {
      assert kept[r] < p;
    }
    FirstAt(Without(anchors, wanted), x, q);
  }

  lemma UpdateKeepsFirst(u: Update, anchors: Anchors, x: Anchor)
    requires u.Valid() && Applied(u, anchors).Some? && FirstOfKey(anchors, x) && LeavesAlone(u, x)
    ensures FirstOfKey(Applied(u, anchors).value, x)
  {
    match u
    case Record(candidates, ids) =>
      RecordExtends(anchors, candidates, ids);
      FindKeyStable(anchors, RecordAll(anchors, candidates, ids).0, KeyOf(x));
    case Replace(anchor) =>
      FirstAt(Applied(u, anchors).value, x, FindKey(anchors, KeyOf(x)));
    case Remove(wanted) =>
      RemoveKeepsFirst(anchors, wanted, x);
  }

  lemma {:induction false} FirstStays(past: History, updates: seq<Update>, i: nat, j: nat, x: Anchor)
    requires HistoryInv(past) && Describes(updates, past.commits) && i <= j < |past.versions|
    requires past.versions[i].Some? && FirstOfKey(past.versions[i].value, x)
    requires forall m :: i <= m < j ==> LeavesAlone(updates[m], x)
    ensures past.versions[j].Some? && FirstOfKey(past.versions[j].value, x)
    decreases j
  {
    if i < j {
      FirstStays(past, updates, i, j - 1, x);
      OneVersion(past, updates, j - 1);
      UpdateKeepsFirst(updates[j - 1], past.versions[j - 1].value, x);
    }
  }

  /** What candidate `a` of call `i` was answered. */
  function AnswerOf(past: History, updates: seq<Update>, i: nat, a: nat): Recorded
    requires i < |past.versions| && i < |updates| && past.versions[i].Some?
    requires updates[i].Record? && updates[i].Valid() && a < |updates[i].candidates|
  {
    RecordAll(past.versions[i].value, updates[i].candidates, updates[i].ids).1[a]
  }

  /** Two records of one key, by any processes and however they interleave, share one anchor `x`: when no call
      that is committed between them removes or replaces `x` or gives another anchor its key, the later record
      creates nothing and is answered with the earlier's anchor. */
  lemma ConcurrentRecordsShare(states: seq<State>, steps: seq<(ProcessId, Step)>, c: Codec, k: nat,
                               updates: seq<Update>, i: nat, a: nat, j: nat, b: nat, x: Anchor)
    requires Behaviour(states, steps, c) && Faithful(c) && k < |states|
    requires Describes(updates, states[k].past.commits) && i < j < |updates|
    requires updates[i].Record? && updates[j].Record? && forall m :: i < m < j ==> LeavesAlone(updates[m], x)
    requires updates[i].Valid() && updates[j].Valid() && a < |updates[i].candidates| && b < |updates[j].candidates|
    requires KeyOf(updates[i].candidates[a]) == KeyOf(updates[j].candidates[b])
    ensures var past := states[k].past;
            && |past.versions| == |updates| + 1 && past.versions[i].Some? && past.versions[j].Some?
            && (AnswerOf(past, updates, i, a).anchor == x ==> AnswerOf(past, updates, j, b) == Recorded(x, false))
  {
    BehaviourKeeps(states, steps, c, k);
    var past := states[k].past;
    OneVersion(past, updates, i);
    OneVersion(past, updates, j);
    if AnswerOf(past, updates, i, a).anchor == x {
      AnswerIsFirst(past, updates, i, a);
      FirstStays(past, updates, i + 1, j, x);
      FirstStays(past, updates, j, j + 1, x);
      AnswerIsFirst(past, updates, j, b);
    }
  }

  /** An answer is the first anchor of its key in the version that the call left, and new only if that key was
      not there before. */
  lemma AnswerIsFirst(past: History, updates: seq<Update>, i: nat, a: nat)
    requires HistoryInv(past) && Describes(updates, past.commits) && i < |updates|
    requires updates[i].Valid() && updates[i].Record? && a < |updates[i].candidates|
    ensures past.versions[i].Some? && past.versions[i + 1].Some?
    ensures var answer, key := AnswerOf(past, updates, i, a), KeyOf(updates[i].candidates[a]);
            && KeyOf(answer.anchor) == key && FirstOfKey(past.versions[i + 1].value, answer.anchor)
            && (answer.created ==> !HasKey(past.versions[i].value, key))
  {
    OneVersion(past, updates, i);
    var u, before := updates[i], past.versions[i].value;
    RecordIsStableUpsert(before, u.candidates, u.ids);
    assert IsResult(before, u.candidates, u.ids[a], a, past.versions[i + 1].value, AnswerOf(past, updates, i, a));
  }
}
