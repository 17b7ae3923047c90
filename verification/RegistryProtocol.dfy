/** Many processes update one registry file: each takes the lock file, reads the registry, writes a
    temporary file and renames it into place, one system call at a time, and any of them may fail or
    crash anywhere. Others read without the lock.

    Files are inodes with bytes; a rename changes which inode the registry's path names. No lock file is
    ever broken as stale here: that step of the source is a separate stat and unlink. */
module RegistryProtocol {
  import opened Wrappers
  import opened AnchorRegistry

  type Bytes = seq<int>
  type Anchors = seq<Anchor>
  type ProcessId = nat
  type Inode = nat

  /** What an update does to the anchors; None when it throws. */
  type Change = Anchors -> Option<Anchors>

  datatype Codec = Codec(serialise: Anchors -> Bytes, parse: Bytes -> Option<Anchors>)

  ghost predicate Faithful(c: Codec) {
    forall anchors :: c.parse(c.serialise(anchors)) == Some(anchors)
  }

  /** What `update` saves, or None when the change throws or the result is too large. */
  function Apply(change: Change, anchors: Anchors): Option<Anchors> {
    match change(anchors)
    case None => None
    case Some(next) => if |next| > MAX_ANCHORS then None else Some(next)
  }

  // ---------- State ----------

  /** Where an update, or a load without the lock, stands. */
  datatype Place =
    | Idle
    | Waiting(change: Change)
    | Locked(change: Change)
    | Reading(change: Change, inode: Option<Inode>, got: Bytes)
    | Loaded(change: Change, anchors: Anchors)
    | Writing(change: Change, anchors: Anchors, temp: Inode, data: Bytes)
    | Synced(change: Change, anchors: Anchors, temp: Inode)
    | Renamed
    | Failing
    | Crashed
    | Peeking(inode: Option<Inode>, got: Bytes, since: nat)   // a lock-free load, opened after `since` versions
  {
    /** Between taking the lock file and removing it. */
    predicate Holds() {
      Locked? || Reading? || Loaded? || Writing? || Synced? || Renamed? || Failing?
    }
  }

  /** One saved update: who, the ticket of its lock, and its change. */
  datatype Commit = Commit(process: ProcessId, ticket: nat, change: Change)

  /** A finished lock-free load: how many versions there were when it opened, and what it parsed. */
  datatype Peek = Peek(since: nat, result: Option<Anchors>)

  datatype Disk = Disk(files: map<Inode, Bytes>, registry: Option<Inode>, lock: Option<ProcessId>)

  datatype History = History(
    versions: seq<Option<Anchors>>,   // the registry's values; None is a file that does not parse
    published: set<Inode>,            // inodes that are or were the registry
    commits: seq<Commit>,
    tickets: nat,                     // locks taken so far, numbered from 1
    succeeded: set<nat>,              // tickets whose update returned its result
    failed: set<nat>,                 // tickets whose update threw
    peeks: seq<Peek>)

  datatype State = State(disk: Disk, places: map<ProcessId, Place>, past: History)

  /** The value a reader of the whole file would get now. */
  function Current(d: Disk, c: Codec): Option<Anchors> {
    match d.registry
    case None => Some([])
    case Some(inode) => if inode in d.files then c.parse(d.files[inode]) else None
  }

  predicate Initial(s: State, c: Codec) {
    && s.disk.lock.None?
    && (s.disk.registry.Some? ==> s.disk.registry.value in s.disk.files)
    && (forall p :: p in s.places ==> s.places[p].Idle?)
    && s.past == History([Current(s.disk, c)], if s.disk.registry.Some? then {s.disk.registry.value} else {},
                         [], 0, {}, {}, [])
  }

  // ---------- Steps ----------

  datatype Step =
    | Begin(change: Change)
    | TakeLock                // open with O_EXCL; the lock's content is written and closed
    | LockWriteFails          // the lock file was made, but writing to it threw: it stays behind
    | GiveUp                  // registry-busy, or another error while waiting
    | OpenRegistry
    | Read(n: nat)
    | Parse
    | StepFails               // open, read, lstat or creating the temporary file failed
    | CreateTemp(inode: Inode)
    | Refuse                  // the change threw, or the registry would be too large
    | Write(n: nat)
    | Sync
    | WriteFails
    | Rename
    | RenameFails
    | Unlock
    | Crash
    | PeekOpen
    | PeekRead(n: nat)
    | PeekParse

  function Content(d: Disk, inode: Option<Inode>): Bytes {
    if inode.Some? && inode.value in d.files then d.files[inode.value] else []
  }

  /** The next bytes of a short read; never past the end. */
  function More(content: Bytes, got: Bytes, n: nat): Bytes {
    if |got| + n <= |content| then got + content[|got|..|got| + n]
    else if |got| <= |content| then got + content[|got|..] else got
  }

  predicate Enabled(s: State, p: ProcessId, e: Step) {
    && p in s.places
    && var place := s.places[p];
       match e
       case Begin(_) => place.Idle?
       case TakeLock => place.Waiting? && s.disk.lock.None?
       case LockWriteFails => place.Waiting? && s.disk.lock.None?
       case GiveUp => place.Waiting?
       case OpenRegistry => place.Locked?
       case Read(_) => place.Reading? && place.inode.Some?
       case Parse => place.Reading? && place.got == Content(s.disk, place.inode)
       case StepFails => place.Locked? || place.Reading? || place.Loaded?
       case CreateTemp(inode) =>
         place.Loaded? && Apply(place.change, place.anchors).Some? && inode !in s.disk.files
       case Refuse => place.Loaded? && Apply(place.change, place.anchors).None?
       case Write(_) => place.Writing?
       case Sync => place.Writing? && Content(s.disk, Some(place.temp)) == place.data
       case WriteFails => place.Writing?
       case Rename => place.Synced?
       case RenameFails => place.Synced?
       case Unlock => place.Renamed? || place.Failing?
       case Crash => !place.Crashed?
       case PeekOpen => place.Idle?
       case PeekRead(_) => place.Peeking?
       case PeekParse => place.Peeking? && place.got == Content(s.disk, place.inode)
  }

  function Put(s: State, p: ProcessId, place: Place): State {
    s.(places := s.places[p := place])
  }

  function Next(s: State, p: ProcessId, e: Step, c: Codec): State
    requires Enabled(s, p, e)
  {
    var place, d, past := s.places[p], s.disk, s.past;
    match e
    case Begin(change) => Put(s, p, Waiting(change))
    case TakeLock =>
      Put(s.(disk := d.(lock := Some(p)), past := past.(tickets := past.tickets + 1)), p, Locked(place.change))
    case LockWriteFails => Put(s.(disk := d.(lock := Some(p))), p, Idle)
    case GiveUp => Put(s, p, Idle)
    case OpenRegistry => Put(s, p, Reading(place.change, d.registry, []))
    case Read(n) => Put(s, p, Reading(place.change, place.inode, More(Content(d, place.inode), place.got, n)))
    case Parse =>
      (match if place.inode.None? then Some([]) else c.parse(place.got)
       case None => Put(s, p, Failing)
       case Some(anchors) => Put(s, p, Loaded(place.change, anchors)))
    case StepFails => Put(s, p, Failing)
    case CreateTemp(inode) =>
      var next := Apply(place.change, place.anchors).value;
      Put(s.(disk := d.(files := d.files[inode := []])), p, Writing(place.change, next, inode, c.serialise(next)))
    case Refuse => Put(s, p, Failing)
    case Write(n) =>
      var written := Content(d, Some(place.temp));
      s.(disk := d.(files := d.files[place.temp := More(place.data, written, n)]))
    case Sync => Put(s, p, Synced(place.change, place.anchors, place.temp))
    case WriteFails => Put(s, p, Failing)
    case Rename =>
      Put(State(d.(registry := Some(place.temp)), s.places,
                past.(versions := past.versions + [Some(place.anchors)],
                      published := past.published + {place.temp},
                      commits := past.commits + [Commit(p, past.tickets, place.change)])),
          p, Renamed)
    case RenameFails => Put(s, p, Failing)
    case Unlock =>
      var past' := if place.Renamed? then past.(succeeded := past.succeeded + {past.tickets})
                   else past.(failed := past.failed + {past.tickets});
      Put(State(d.(lock := None), s.places, past'), p, Idle)
    case Crash => Put(s, p, Crashed)
    case PeekOpen => Put(s, p, Peeking(d.registry, [], |past.versions|))
    case PeekRead(n) => Put(s, p, place.(got := More(Content(d, place.inode), place.got, n)))
    case PeekParse =>
      var result := if place.inode.None? then Some([]) else c.parse(place.got);
      Put(s.(past := past.(peeks := past.peeks + [Peek(place.since, result)])), p, Idle)
  }

  /** Any number of processes, in any interleaving. */
  ghost predicate Behaviour(states: seq<State>, steps: seq<(ProcessId, Step)>, c: Codec) {
    && |states| == |steps| + 1 && Initial(states[0], c)
    && forall k :: 0 <= k < |steps| ==>
         && Enabled(states[k], steps[k].0, steps[k].1)
         && states[k + 1] == Next(states[k], steps[k].0, steps[k].1, c)
  }

  // ---------- What every step keeps ----------

  /** The versions are the committed changes applied one after another, in the order of their locks;
      an update that returned is among them, one that threw is not; every load saw a version. */
  ghost predicate HistoryInv(past: History) {
    && |past.versions| == |past.commits| + 1
    && (forall k :: 0 <= k < |past.commits| ==> Links(past, k))
    && (forall j, k :: 0 <= j < k < |past.commits| ==> past.commits[j].ticket < past.commits[k].ticket)
    && (forall k :: 0 <= k < |past.commits| ==> past.commits[k].ticket <= past.tickets)
    && (forall t :: t in past.succeeded ==> t <= past.tickets && Committed(past, t))
    && (forall t :: t in past.failed ==> t <= past.tickets && !Committed(past, t))
    && (forall k :: 0 <= k < |past.peeks| ==>
          var peek := past.peeks[k];
          0 < peek.since <= |past.versions| && peek.result == past.versions[peek.since - 1])
  }

  /** Version k + 1 is commit k applied to version k. */
  ghost predicate Links(past: History, k: nat)
    requires k < |past.commits| && |past.versions| == |past.commits| + 1
  {
    && past.versions[k].Some?
    && past.versions[k + 1].Some?
    && past.versions[k + 1] == Apply(past.commits[k].change, past.versions[k].value)
  }

  predicate Committed(past: History, ticket: nat) {
    exists k :: 0 <= k < |past.commits| && past.commits[k].ticket == ticket
  }

  function Latest(past: History): Option<Anchors> {
    if past.versions == [] then None else past.versions[|past.versions| - 1]
  }

  /** The file at the registry's path is whole and holds the latest version. */
  ghost predicate DiskInv(d: Disk, past: History, c: Codec) {
    && (d.registry.Some? ==> d.registry.value in past.published)
    && (forall inode :: inode in past.published ==> inode in d.files)
    && Current(d, c) == Latest(past)
  }

  /** What holds of a process that has the lock and has not saved yet. */
  ghost predicate HolderInv(d: Disk, past: History, p: ProcessId) {
    && d.lock == Some(p)
    && past.tickets !in past.failed && past.tickets !in past.succeeded
    && !Committed(past, past.tickets)
  }

  ghost predicate NextInv(past: History, change: Change, anchors: Anchors) {
    Latest(past).Some? && Apply(change, Latest(past).value) == Some(anchors)
  }

  ghost predicate TempInv(d: Disk, past: History, temp: Inode) {
    temp in d.files && temp !in past.published
  }

  ghost predicate PlaceInv(d: Disk, past: History, p: ProcessId, place: Place, c: Codec) {
    match place
    case Idle => true
    case Waiting(_) => true
    case Crashed => true
    case Locked(_) => HolderInv(d, past, p)
    case Failing => HolderInv(d, past, p)
    case Reading(_, inode, got) => HolderInv(d, past, p) && inode == d.registry
    case Loaded(_, anchors) => HolderInv(d, past, p) && Latest(past) == Some(anchors)
    case Writing(change, anchors, temp, data) =>
      && HolderInv(d, past, p) && NextInv(past, change, anchors) && TempInv(d, past, temp)
      && data == c.serialise(anchors)
    case Synced(change, anchors, temp) =>
      && HolderInv(d, past, p) && NextInv(past, change, anchors) && TempInv(d, past, temp)
      && d.files[temp] == c.serialise(anchors)
    case Renamed =>
      && d.lock == Some(p) && Committed(past, past.tickets)
      && past.tickets !in past.failed && past.tickets !in past.succeeded
    case Peeking(inode, _, since) =>
      && 0 < since <= |past.versions|
      && (match inode
          case None => past.versions[since - 1] == Some([])
          case Some(i) =>
            i in past.published && i in d.files && past.versions[since - 1] == c.parse(d.files[i]))
  }

  ghost predicate Inv(s: State, c: Codec) {
    && HistoryInv(s.past)
    && DiskInv(s.disk, s.past, c)
    && forall p :: p in s.places ==> PlaceInv(s.disk, s.past, p, s.places[p], c)
  }

  /** A place that does not hold the lock only needs the published files and the versions it knows. */
  ghost predicate Extends(d: Disk, past: History, d': Disk, past': History) {
    && past.versions <= past'.versions
    && past.published <= past'.published
    && forall i :: i in past.published && i in d.files ==> i in d'.files && d'.files[i] == d.files[i]
  }

  lemma BystanderKept(d: Disk, past: History, d': Disk, past': History, p: ProcessId, place: Place, c: Codec)
    requires PlaceInv(d, past, p, place, c) && !place.Holds() && Extends(d, past, d', past')
    ensures PlaceInv(d', past', p, place, c)
  {}

  /** Whoever else holds the lock when this process moves is not disturbed: the move leaves the disk and
      all of the past but the finished loads alone. */
  lemma OthersKept(s: State, p: ProcessId, e: Step, c: Codec, q: ProcessId)
    requires Inv(s, c) && Enabled(s, p, e) && q in s.places && q != p
    ensures var n := Next(s, p, e, c);
            q in n.places && n.places[q] == s.places[q] && PlaceInv(n.disk, n.past, q, s.places[q], c)
  {
    var n := Next(s, p, e, c);
    assert PlaceInv(s.disk, s.past, q, s.places[q], c);
    assert PlaceInv(s.disk, s.past, p, s.places[p], c);
    if s.places[q].Holds() {
      assert s.disk.lock == Some(q);
      assert !s.places[p].Holds();
      assert n.disk == s.disk && n.past == s.past.(peeks := n.past.peeks);
    } else {
      assert Extends(s.disk, s.past, n.disk, n.past);
      BystanderKept(s.disk, s.past, n.disk, n.past, q, s.places[q], c);
    }
  }

  lemma RenameKeeps(s: State, p: ProcessId, c: Codec)
    requires Inv(s, c) && Enabled(s, p, Rename) && Faithful(c)
    ensures var n := Next(s, p, Rename, c);
            HistoryInv(n.past) && DiskInv(n.disk, n.past, c) && PlaceInv(n.disk, n.past, p, n.places[p], c)
  {
    var place, past, n := s.places[p], s.past, Next(s, p, Rename, c);
    assert PlaceInv(s.disk, past, p, place, c);
    var k := |past.commits|;
    var commit := Commit(p, past.tickets, place.change);
    assert n.past.commits == past.commits + [commit];
    forall j | 0 <= j < k ensures past.commits[j].ticket < past.tickets && Links(n.past, j) {
      assert past.commits[j].ticket != past.tickets;
      assert Links(past, j);
    }
    assert Links(n.past, k);
    forall t ensures Committed(n.past, t) <==> Committed(past, t) || t == past.tickets {
      CommittedSnoc(past, n.past, commit, t);
    }
  }

  lemma CommittedSnoc(past: History, past': History, commit: Commit, t: nat)
    requires past'.commits == past.commits + [commit]
    ensures Committed(past', t) <==> Committed(past, t) || t == commit.ticket
  {
    if Committed(past, t) {
      var k :| 0 <= k < |past.commits| && past.commits[k].ticket == t;
      assert past'.commits[k].ticket == t;
    }
    assert past'.commits[|past.commits|] == commit;
  }

  /** A load that has all the bytes has the latest version: nobody renamed since it opened. */
  lemma ParseKeeps(s: State, p: ProcessId, c: Codec)
    requires Inv(s, c) && Enabled(s, p, Parse)
    ensures var n := Next(s, p, Parse, c);
            n.disk == s.disk && n.past == s.past && PlaceInv(n.disk, n.past, p, n.places[p], c)
  {
    assert PlaceInv(s.disk, s.past, p, s.places[p], c);
  }

  /** Taking the lock, or leaving its file behind, changes nothing that was saved. */
  lemma LockKeeps(s: State, p: ProcessId, e: Step, c: Codec)
    requires Inv(s, c) && Enabled(s, p, e) && (e.TakeLock? || e.LockWriteFails?)
    ensures var n := Next(s, p, e, c);
            HistoryInv(n.past) && DiskInv(n.disk, n.past, c) && PlaceInv(n.disk, n.past, p, n.places[p], c)
  {
    var past, past' := s.past, Next(s, p, e, c).past;
    assert past'.commits == past.commits && past'.versions == past.versions;
    forall k | 0 <= k < |past.commits| ensures Links(past', k) { assert Links(past, k); }
    forall t ensures Committed(past', t) <==> Committed(past, t) {}
  }

  lemma UnlockKeeps(s: State, p: ProcessId, c: Codec)
    requires Inv(s, c) && Enabled(s, p, Unlock)
    ensures var n := Next(s, p, Unlock, c);
            HistoryInv(n.past) && DiskInv(n.disk, n.past, c) && PlaceInv(n.disk, n.past, p, n.places[p], c)
  {
    var past, past' := s.past, Next(s, p, Unlock, c).past;
    assert PlaceInv(s.disk, past, p, s.places[p], c);
    forall k | 0 <= k < |past.commits| ensures Links(past', k) { assert Links(past, k); }
    forall t ensures Committed(past', t) <==> Committed(past, t) {}
  }

  lemma PeekKeeps(s: State, p: ProcessId, c: Codec)
    requires Inv(s, c) && Enabled(s, p, PeekParse)
    ensures var n := Next(s, p, PeekParse, c);
            HistoryInv(n.past) && DiskInv(n.disk, n.past, c) && PlaceInv(n.disk, n.past, p, n.places[p], c)
  {
    var past, past' := s.past, Next(s, p, PeekParse, c).past;
    assert PlaceInv(s.disk, past, p, s.places[p], c);
    forall k | 0 <= k < |past.commits| ensures Links(past', k) { assert Links(past, k); }
    forall t ensures Committed(past', t) <==> Committed(past, t) {}
  }

  /** Every other step works on a temporary file or on nothing but its own place. */
  lemma QuietStepKeeps(s: State, p: ProcessId, e: Step, c: Codec)
    requires Inv(s, c) && Enabled(s, p, e)
    requires !e.TakeLock? && !e.LockWriteFails? && !e.Rename? && !e.Unlock? && !e.PeekParse? && !e.Parse?
    ensures var n := Next(s, p, e, c);
            n.past == s.past && DiskInv(n.disk, n.past, c) && PlaceInv(n.disk, n.past, p, n.places[p], c)
  {
    assert PlaceInv(s.disk, s.past, p, s.places[p], c);
  }

  lemma StepKeeps(s: State, p: ProcessId, e: Step, c: Codec)
    requires Inv(s, c) && Enabled(s, p, e) && Faithful(c)
    ensures Inv(Next(s, p, e, c), c)
  {
    var n := Next(s, p, e, c);
    match e {
      case TakeLock => LockKeeps(s, p, e, c);
      case LockWriteFails => LockKeeps(s, p, e, c);
      case Rename => RenameKeeps(s, p, c);
      case Unlock => UnlockKeeps(s, p, c);
      case PeekParse => PeekKeeps(s, p, c);
      case Parse => ParseKeeps(s, p, c);
      case _ => QuietStepKeeps(s, p, e, c);
    }
    forall q | q in n.places ensures PlaceInv(n.disk, n.past, q, n.places[q], c) {
      if q != p { OthersKept(s, p, e, c, q); }
    }
  }

  lemma {:induction false} BehaviourKeeps(states: seq<State>, steps: seq<(ProcessId, Step)>, c: Codec, k: nat)
    requires Behaviour(states, steps, c) && Faithful(c) && k < |states|
    ensures Inv(states[k], c)
    decreases k
  {
    if k > 0 {
      BehaviourKeeps(states, steps, c, k - 1);
      StepKeeps(states[k - 1], steps[k - 1].0, steps[k - 1].1, c);
    }
  }

  // ---------- The promises ----------

  /** The first k committed changes, applied one after another. */
  ghost function Replay(start: Option<Anchors>, commits: seq<Commit>): Option<Anchors> {
    if commits == [] then start
    else
      var before := Replay(start, commits[..|commits| - 1]);
      if before.None? then None else Apply(commits[|commits| - 1].change, before.value)
  }

  lemma {:induction false} VersionsReplay(past: History, k: nat)
    requires HistoryInv(past) && k <= |past.commits|
    ensures past.versions[k] == Replay(past.versions[0], past.commits[..k])
    decreases k
  {
    if k > 0 {
      VersionsReplay(past, k - 1);
      assert Links(past, k - 1);
      assert past.commits[..k][..k - 1] == past.commits[..k - 1];
    }
  }

  lemma {:induction false} FirstVersion(states: seq<State>, steps: seq<(ProcessId, Step)>, c: Codec, k: nat)
    requires Behaviour(states, steps, c) && k < |states|
    ensures states[k].past.versions != [] && states[k].past.versions[0] == Current(states[0].disk, c)
    decreases k
  {
    if k > 0 {
      FirstVersion(states, steps, c, k - 1);
    }
  }

  /** The registry is linearizable. At every moment what a reader of the file would get is the start
      with every committed change applied, one after another, in the order their locks were taken; an
      update that returned is one of them exactly once, and an update that threw is none of them. */
  lemma NoUpdateIsLost(states: seq<State>, steps: seq<(ProcessId, Step)>, c: Codec, k: nat)
    requires Behaviour(states, steps, c) && Faithful(c) && k < |states|
    ensures var s := states[k];
            && Current(s.disk, c) == Replay(Current(states[0].disk, c), s.past.commits)
            && (forall i, j :: 0 <= i < j < |s.past.commits| ==>
                  s.past.commits[i].ticket < s.past.commits[j].ticket)
            && (forall t :: t in s.past.succeeded ==> Committed(s.past, t))
            && (forall t :: t in s.past.failed ==> !Committed(s.past, t))
  {
    BehaviourKeeps(states, steps, c, k);
    FirstVersion(states, steps, c, k);
    var past := states[k].past;
    VersionsReplay(past, |past.commits|);
    assert past.commits[..|past.commits|] == past.commits;
  }

  /** At most one live process is between taking the lock and removing it. */
  lemma LockExcludes(states: seq<State>, steps: seq<(ProcessId, Step)>, c: Codec, k: nat,
                     p: ProcessId, q: ProcessId)
    requires Behaviour(states, steps, c) && Faithful(c) && k < |states|
    requires p in states[k].places && states[k].places[p].Holds()
    requires q in states[k].places && states[k].places[q].Holds()
    ensures p == q
  {
    BehaviourKeeps(states, steps, c, k);
    var s := states[k];
    assert PlaceInv(s.disk, s.past, p, s.places[p], c) && PlaceInv(s.disk, s.past, q, s.places[q], c);
  }

  // ---------- The lock comes back ----------

  /** This process crashed, or failed to write into its lock file, in one of the first `k` steps. */
  ghost predicate LeftItsLock(steps: seq<(ProcessId, Step)>, k: nat, p: ProcessId) {
    exists j :: 0 <= j < k <= |steps| && (steps[j] == (p, Crash) || steps[j] == (p, LockWriteFails))
  }

  /** The process is between taking the lock file and removing it. */
  ghost predicate HeldBy(s: State, p: ProcessId) {
    p in s.places && s.places[p].Holds()
  }

  lemma LeftLater(steps: seq<(ProcessId, Step)>, k: nat, p: ProcessId)
    requires LeftItsLock(steps, k, p) && k < |steps|
    ensures LeftItsLock(steps, k + 1, p)
  {
    var j :| 0 <= j < k && (steps[j] == (p, Crash) || steps[j] == (p, LockWriteFails));
    assert steps[j] == (p, Crash) || steps[j] == (p, LockWriteFails);
  }

  /** The lock file is there only while its process holds the lock, or when that process crashed or could not
      write into it: every update that ends, well or badly, gives the lock back. */
  lemma {:induction false} LockIsGivenBack(states: seq<State>, steps: seq<(ProcessId, Step)>, c: Codec, k: nat,
                                           p: ProcessId)
    requires Behaviour(states, steps, c) && Faithful(c) && k < |states| && states[k].disk.lock == Some(p)
    ensures HeldBy(states[k], p) || LeftItsLock(steps, k, p)
    decreases k
  {
    if k > 0 {
      var (q, e) := steps[k - 1];
      BehaviourKeeps(states, steps, c, k - 1);
      OneStepOfLock(states[k - 1], q, e, c, p);
      if states[k - 1].disk.lock == Some(p) {
        LockIsGivenBack(states, steps, c, k - 1, p);
        if LeftItsLock(steps, k - 1, p) { LeftLater(steps, k - 1, p); }
      }
      LeavesItsLock(steps, k - 1, p);
    }
  }

  lemma LeavesItsLock(steps: seq<(ProcessId, Step)>, k: nat, p: ProcessId)
    requires k < |steps|
    ensures steps[k].0 == p && (steps[k].1.Crash? || steps[k].1.LockWriteFails?) ==> LeftItsLock(steps, k + 1, p)
  {
    if steps[k].0 == p && (steps[k].1.Crash? || steps[k].1.LockWriteFails?) {
      assert steps[k] == (p, Crash) || steps[k] == (p, LockWriteFails);
    }
  }

  /** A step leaves the lock file of a process that held it to that process, or takes it away; only that process's
      own crash or failed write leaves it to nobody. */
  lemma OneStepOfLock(s: State, q: ProcessId, e: Step, c: Codec, p: ProcessId)
    requires Inv(s, c) && Enabled(s, q, e) && Next(s, q, e, c).disk.lock == Some(p)
    ensures s.disk.lock == Some(p) || q == p
    ensures (s.disk.lock == Some(p) ==> HeldBy(s, p)) ==>
              HeldBy(Next(s, q, e, c), p) || (q == p && (e.Crash? || e.LockWriteFails?))
    ensures s.disk.lock != Some(p) ==> HeldBy(Next(s, q, e, c), p) || e.LockWriteFails?
  {
    assert PlaceInv(s.disk, s.past, q, s.places[q], c);
  }

  /** So a process that waits can take the lock when nobody holds it and nobody left it behind. */
  lemma WaitingCanLock(states: seq<State>, steps: seq<(ProcessId, Step)>, c: Codec, k: nat, p: ProcessId)
    requires Behaviour(states, steps, c) && Faithful(c) && k < |states|
    requires p in states[k].places && states[k].places[p].Waiting?
    requires forall q :: q in states[k].places ==> !states[k].places[q].Holds()
    requires forall q :: !LeftItsLock(steps, k, q)
    ensures Enabled(states[k], p, TakeLock)
  {
    if states[k].disk.lock.Some? { LockIsGivenBack(states, steps, c, k, states[k].disk.lock.value); }
  }

  // ---------- An update that is not disturbed ----------

  /** These steps of one process, one after another, lead from `s` to `t`. */
  ghost predicate Leads(s: State, p: ProcessId, steps: seq<Step>, c: Codec, t: State)
    decreases |steps|
  {
    if steps == [] then s == t
    else Enabled(s, p, steps[0]) && Leads(Next(s, p, steps[0], c), p, steps[1..], c, t)
  }

  lemma {:induction false} LeadsOn(s: State, p: ProcessId, first: seq<Step>, c: Codec, t: State, more: seq<Step>,
                                   u: State)
    requires Leads(s, p, first, c, t) && Leads(t, p, more, c, u)
    ensures Leads(s, p, first + more, c, u)
    decreases |first|
  {
    if first == [] {
      assert first + more == more;
    } else {
      assert (first + more)[1..] == first[1..] + more;
      LeadsOn(Next(s, p, first[0], c), p, first[1..], c, t, more, u);
    }
  }

  lemma OneLeads(s: State, p: ProcessId, e: Step, c: Codec)
    requires Enabled(s, p, e)
    ensures Leads(s, p, [e], c, Next(s, p, e, c))
  {
    assert [e][1..] == [];
  }

  lemma {:induction false} TwoLead(s: State, p: ProcessId, e: Step, e': Step, c: Codec)
    requires Enabled(s, p, e) && Enabled(Next(s, p, e, c), p, e')
    ensures Leads(s, p, [e, e'], c, Next(Next(s, p, e, c), p, e', c))
  {
    OneLeads(Next(s, p, e, c), p, e', c);
    assert [e, e'][1..] == [e'];
  }

  lemma WholeContent(content: Bytes)
    ensures More(content, [], |content|) == content
  {}

  /** From the lock to the whole of the registry in memory. */
  lemma LoadsAlone(s: State, p: ProcessId, c: Codec) returns (steps: seq<Step>, t: State)
    requires p in s.places && s.places[p].Waiting? && s.disk.lock.None?
    ensures Leads(s, p, steps, c, t) && Enabled(t, p, Parse)
    ensures t.disk == s.disk.(lock := Some(p)) && t.past == s.past.(tickets := s.past.tickets + 1)
    ensures t.places == s.places[p := Reading(s.places[p].change, s.disk.registry, Content(s.disk, s.disk.registry))]
  {
    TwoLead(s, p, TakeLock, OpenRegistry, c);
    steps, t := [TakeLock, OpenRegistry], Next(Next(s, p, TakeLock, c), p, OpenRegistry, c);
    if s.disk.registry.Some? {
      var content := Content(s.disk, s.disk.registry);
      WholeContent(content);
      OneLeads(t, p, Read(|content|), c);
      LeadsOn(s, p, steps, c, t, [Read(|content|)], Next(t, p, Read(|content|), c));
      steps, t := steps + [Read(|content|)], Next(t, p, Read(|content|), c);
    }
  }

  lemma UnusedInode(files: map<Inode, Bytes>) returns (inode: Inode)
    ensures inode !in files
  {
    var largest := Largest(files.Keys);
    inode := largest + 1;
    assert inode !in files.Keys;
  }

  lemma {:induction false} Largest(inodes: set<Inode>) returns (most: Inode)
    ensures forall i :: i in inodes ==> i <= most
    decreases inodes
  {
    most := 0;
    if inodes != {} {
      var i :| i in inodes;
      var rest := Largest(inodes - {i});
      assert inodes == (inodes - {i}) + {i};
      most := if i < rest then rest else i;
    }
  }

  /** From the loaded registry to the new file in its place. */
  lemma SavesAlone(s: State, p: ProcessId, c: Codec, next: Anchors) returns (steps: seq<Step>, t: State)
    requires p in s.places && s.places[p].Loaded? && Apply(s.places[p].change, s.places[p].anchors) == Some(next)
    requires Faithful(c)
    ensures Leads(s, p, steps, c, t) && t.places == s.places[p := Renamed]
    ensures Current(t.disk, c) == Some(next) && t.disk.lock == s.disk.lock
    ensures t.past == s.past.(versions := t.past.versions, published := t.past.published,
                              commits := s.past.commits + [Commit(p, s.past.tickets, s.places[p].change)])
  {
    var inode := UnusedInode(s.disk.files);
    var data := c.serialise(next);
    WholeContent(data);
    TwoLead(s, p, CreateTemp(inode), Write(|data|), c);
    var written := Next(Next(s, p, CreateTemp(inode), c), p, Write(|data|), c);
    assert written.disk.files[inode] == data;
    TwoLead(written, p, Sync, Rename, c);
    t := Next(Next(written, p, Sync, c), p, Rename, c);
    steps := [CreateTemp(inode), Write(|data|)] + [Sync, Rename];
    LeadsOn(s, p, [CreateTemp(inode), Write(|data|)], c, written, [Sync, Rename], t);
  }

  /** An update that nobody disturbs and in which no system call fails ends, gives the lock back, and either saves
      its change and returns, or throws and leaves the registry as it was. It saves exactly when the registry
      parses, the change does not throw, and the result is not too large. */
  lemma UndisturbedUpdate(s: State, p: ProcessId, c: Codec) returns (steps: seq<Step>, t: State)
    requires Inv(s, c) && Faithful(c) && p in s.places && s.places[p].Waiting? && s.disk.lock.None?
    ensures Leads(s, p, steps, c, t) && t.disk.lock.None? && t.places == s.places[p := Idle]
    ensures var change, before := s.places[p].change, Current(s.disk, c);
            if before.Some? && Apply(change, before.value).Some? then
              && Current(t.disk, c) == Apply(change, before.value)
              && t.past.commits == s.past.commits + [Commit(p, s.past.tickets + 1, change)]
              && s.past.tickets + 1 in t.past.succeeded
            else
              && t.disk == s.disk && t.past.commits == s.past.commits && s.past.tickets + 1 in t.past.failed
  {
    var change, before := s.places[p].change, Current(s.disk, c);
    var first, read := LoadsAlone(s, p, c);
    var parsed := Next(read, p, Parse, c);
    OneLeads(read, p, Parse, c);
    LeadsOn(s, p, first, c, read, [Parse], parsed);
    var more, ending := EndsAlone(parsed, p, c);
    LeadsOn(s, p, first + [Parse], c, parsed, more, ending);
    steps, t := first + [Parse] + more, ending;
  }

  /** The same from the call on, in terms of what the change does: it is saved exactly when the registry parses and
      the change gives at most 20,000 anchors. */
  lemma UndisturbedCall(s: State, p: ProcessId, change: Change, c: Codec) returns (steps: seq<Step>, t: State)
    requires Inv(s, c) && Faithful(c) && p in s.places && s.places[p].Idle? && s.disk.lock.None?
    ensures Leads(s, p, steps, c, t) && t.disk.lock.None? && t.places == s.places
    ensures var before := Current(s.disk, c);
            if before.Some? && change(before.value).Some? && |change(before.value).value| <= 20000 then
              && Current(t.disk, c) == change(before.value)
              && t.past.commits == s.past.commits + [Commit(p, s.past.tickets + 1, change)]
              && s.past.tickets + 1 in t.past.succeeded
            else
              && t.disk == s.disk && t.past.commits == s.past.commits && s.past.tickets + 1 in t.past.failed
  {
    var begun := Next(s, p, Begin(change), c);
    OneLeads(s, p, Begin(change), c);
    StepKeeps(s, p, Begin(change), c);
    var more;
    more, t := UndisturbedUpdate(begun, p, c);
    LeadsOn(s, p, [Begin(change)], c, begun, more, t);
    steps := [Begin(change)] + more;
    assert t.places == s.places;
  }

  /** What can go wrong next in an update that holds the lock and has not saved. */
  function Failure(place: Place): Step {
    if place.Writing? then WriteFails else if place.Synced? then RenameFails else StepFails
  }

  /** Any system call of an update can fail; then the update gives the lock back, throws, and leaves the registry as it
      was. */
  lemma FailureEndsWell(s: State, p: ProcessId, c: Codec)
    requires Inv(s, c) && p in s.places
    requires var place := s.places[p];
             place.Locked? || place.Reading? || place.Loaded? || place.Writing? || place.Synced?
    ensures Enabled(s, p, Failure(s.places[p]))
    ensures var failed := Next(s, p, Failure(s.places[p]), c);
            && Enabled(failed, p, Unlock)
            && var t := Next(failed, p, Unlock, c);
               && t.disk == s.disk.(lock := None) && t.places == s.places[p := Idle]
               && t.past.commits == s.past.commits && s.past.tickets in t.past.failed
  {}

  /** A process can crash at any point, and a crash touches nothing on the disk. */
  lemma CrashTouchesNothing(s: State, p: ProcessId, c: Codec)
    requires p in s.places && !s.places[p].Crashed?
    ensures Enabled(s, p, Crash)
    ensures Next(s, p, Crash, c) == s.(places := s.places[p := Crashed])
  {}

  /** A lock file that its process left behind stays for good: without the breaking of stale locks nobody can lock
      again. */
  lemma {:induction false} LeftLockStays(states: seq<State>, steps: seq<(ProcessId, Step)>, c: Codec, j: nat, k: nat)
    requires Behaviour(states, steps, c) && Faithful(c) && j < k < |states|
    requires steps[j].1.LockWriteFails? || (steps[j].1.Crash? && HeldBy(states[j], steps[j].0))
    ensures states[k].disk.lock == Some(steps[j].0) && !HeldBy(states[k], steps[j].0)
    ensures forall p :: p in states[k].places ==> !Enabled(states[k], p, TakeLock)
    decreases k
  {
    if k == j + 1 {
      BehaviourKeeps(states, steps, c, j);
      assert PlaceInv(states[j].disk, states[j].past, steps[j].0, states[j].places[steps[j].0], c);
    } else {
      LeftLockStays(states, steps, c, j, k - 1);
      BehaviourKeeps(states, steps, c, k - 1);
      var (q, e) := steps[k - 1];
      LeftStays(states[k - 1], q, e, c, steps[j].0);
    }
  }

  lemma LeftStays(s: State, q: ProcessId, e: Step, c: Codec, p: ProcessId)
    requires Inv(s, c) && Enabled(s, q, e) && s.disk.lock == Some(p) && !HeldBy(s, p)
    ensures var n := Next(s, q, e, c); n.disk.lock == Some(p) && !HeldBy(n, p)
  {
    assert PlaceInv(s.disk, s.past, q, s.places[q], c);
  }

  /** After the load: the save if there is one, and the lock. */
  lemma EndsAlone(s: State, p: ProcessId, c: Codec) returns (steps: seq<Step>, t: State)
    requires Faithful(c) && p in s.places && (s.places[p].Loaded? || s.places[p].Failing?)
    ensures Leads(s, p, steps, c, t) && t.disk.lock.None? && t.places == s.places[p := Idle]
    ensures if s.places[p].Loaded? && Apply(s.places[p].change, s.places[p].anchors).Some? then
              && Current(t.disk, c) == Apply(s.places[p].change, s.places[p].anchors)
              && t.past.commits == s.past.commits + [Commit(p, s.past.tickets, s.places[p].change)]
              && s.past.tickets in t.past.succeeded
            else
              && t.disk == s.disk.(lock := None) && t.past.commits == s.past.commits
              && s.past.tickets in t.past.failed
  {
    var ending := s;
    steps := [];
    if s.places[p].Loaded? {
      match Apply(s.places[p].change, s.places[p].anchors) {
        case Some(next) => steps, ending := SavesAlone(s, p, c, next);
        case None =>
          OneLeads(s, p, Refuse, c);
          steps, ending := [Refuse], Next(s, p, Refuse, c);
      }
    }
    OneLeads(ending, p, Unlock, c);
    LeadsOn(s, p, steps, c, ending, [Unlock], Next(ending, p, Unlock, c));
    steps, t := steps + [Unlock], Next(ending, p, Unlock, c);
  }

  /** A load without the lock that nobody disturbs gets what is current. */
  lemma UndisturbedLoad(s: State, p: ProcessId, c: Codec) returns (steps: seq<Step>, t: State)
    requires Inv(s, c) && p in s.places && s.places[p].Idle?
    ensures Leads(s, p, steps, c, t) && t.disk == s.disk && t.places == s.places
    ensures t.past.peeks == s.past.peeks + [Peek(|s.past.versions|, Current(s.disk, c))]
  {
    var content := Content(s.disk, s.disk.registry);
    WholeContent(content);
    TwoLead(s, p, PeekOpen, PeekRead(|content|), c);
    var read := Next(Next(s, p, PeekOpen, c), p, PeekRead(|content|), c);
    OneLeads(read, p, PeekParse, c);
    t := Next(read, p, PeekParse, c);
    steps := [PeekOpen, PeekRead(|content|)] + [PeekParse];
    LeadsOn(s, p, [PeekOpen, PeekRead(|content|)], c, read, [PeekParse], t);
    assert t.places == s.places;
  }

  /** A load without the lock gets one whole version: the one that was current when it opened the file. */
  lemma PeeksSeeVersions(states: seq<State>, steps: seq<(ProcessId, Step)>, c: Codec, k: nat, i: nat)
    requires Behaviour(states, steps, c) && Faithful(c) && k < |states| && i < |states[k].past.peeks|
    ensures var past := states[k].past;
            var peek := past.peeks[i];
            && 0 < peek.since <= |past.commits| + 1
            && peek.result == Replay(Current(states[0].disk, c), past.commits[..peek.since - 1])
  {
    BehaviourKeeps(states, steps, c, k);
    FirstVersion(states, steps, c, k);
    var past := states[k].past;
    VersionsReplay(past, past.peeks[i].since - 1);
  }

  /** One step, a crash among them, leaves the file with its old value or, if it is the rename, with the
      whole new one; and a file that does not parse is never replaced. */
  lemma NeverPartial(states: seq<State>, steps: seq<(ProcessId, Step)>, c: Codec, k: nat)
    requires Behaviour(states, steps, c) && Faithful(c) && k < |steps|
    ensures var before, after := Current(states[k].disk, c), Current(states[k + 1].disk, c);
            && (after != before ==> steps[k].1.Rename? && before.Some? && after.Some?)
            && (steps[k].1.Rename? ==>
                  before.Some? && after == Apply(states[k].places[steps[k].0].change, before.value))
  {
    BehaviourKeeps(states, steps, c, k);
    BehaviourKeeps(states, steps, c, k + 1);
    var (p, e) := steps[k];
    assert PlaceInv(states[k].disk, states[k].past, p, states[k].places[p], c);
    if !e.Rename? { OnlyRenamesAddVersions(states[k], p, e, c); }
  }

  lemma OnlyRenamesAddVersions(s: State, p: ProcessId, e: Step, c: Codec)
    requires Enabled(s, p, e) && !e.Rename?
    ensures Next(s, p, e, c).past.versions == s.past.versions
  {}
}
