/** The broker's bookkeeping of concurrent sessions, as steps of the accept loop, of one thread for each
    connection, of the stop signal, and of the system around them. What the source does under its lock
    is one step.

    File descriptors, process ids and the ids of process groups are reused by the system as soon as it
    may; a process keeps its pid until it is reaped. */
module BrokerSessions {
  import opened Wrappers

  const MAX_CHILDREN := 16

  type Fd = nat
  type Pid = nat
  type ThreadId = nat
  type ProcessId = nat       // tells processes apart where pids cannot

  // ---------- What the lock protects ----------

  /** `shut` are the registered connections that were shut down. */
  datatype Shared = Shared(active: int, stopping: bool, connections: set<Fd>, shut: set<Fd>)

  const NOTHING := Shared(0, false, {}, {})

  function Reserve(s: Shared): Option<Shared> {
    if s.stopping || s.active >= MAX_CHILDREN then None else Some(s.(active := s.active + 1))
  }

  function Release(s: Shared): Shared {
    s.(active := s.active - 1)
  }

  function Register(s: Shared, fd: Fd): Option<Shared> {
    if s.stopping then None else Some(s.(connections := s.connections + {fd}))
  }

  /** Marks the stop and shuts down every registered connection, so that its thread wakes up. */
  function Halt(s: Shared): Shared {
    s.(stopping := true, shut := s.shut + s.connections)
  }

  /** The descriptor is closed: its number may come back as another connection, which is not shut down. */
  function Forget(s: Shared, fd: Fd): Shared {
    s.(connections := s.connections - {fd}, shut := s.shut - {fd})
  }

  // ---------- The state around it ----------

  datatype Serving = Polling | Accepted(fd: Fd) | Stopping | Waiting | Exiting | Exited

  /** Where a connection's thread stands. `Terminating` has two signals to send, then one. */
  datatype Place =
    | Handshaking
    | Reserving
    | Reserved
    | Spawning
    | Relaying(child: ProcessId, pid: Pid)
    | Terminating(child: ProcessId, pid: Pid, signalsLeft: nat)
    | Releasing
    | Closing
  {
    predicate HoldsSlot() {
      Reserved? || Spawning? || Relaying? || Terminating? || Releasing?
    }

    predicate HasChild() {
      Relaying? || Terminating?
    }
  }

  datatype Thread = Thread(fd: Fd, place: Place)

  /** A process that was not reaped; `owner` is the session that spawned it, if one did. */
  datatype Process = Process(pid: Pid, owner: Option<ThreadId>, exited: bool)

  /** One signal sent to a process group: who sent it, and the unreaped leader it found, if any. */
  datatype Hit = Hit(sender: ThreadId, leader: Option<Process>)

  datatype State = State(
    shared: Shared,
    serving: Serving,
    openFds: set<Fd>,
    threads: map<ThreadId, Thread>,
    processes: map<ProcessId, Process>,
    hits: seq<Hit>)

  const INITIAL := State(NOTHING, Polling, {}, map[], map[], [])

  // ---------- Steps ----------

  datatype Step =
    // the accept loop
    | StopSignal
    | LeaveLoop
    | Accept(fd: Fd)
    | RejectAccepted
    | StartThread(thread: ThreadId)
    | StopAll
    | FoundEmpty
    | Exit
    // a connection's thread
    | Advance(thread: ThreadId, to: Place)
    | ReserveSlot(thread: ThreadId)
    | Spawn(thread: ThreadId, child: ProcessId, pid: Pid)
    | SignalGroup(thread: ThreadId)
    | Reap(thread: ThreadId)
    | ReleaseSlot(thread: ThreadId)
    | CloseFd(thread: ThreadId)
    // the system
    | ProcessExits(process: ProcessId)
    | OtherStarts(process: ProcessId, pid: Pid)
    | OtherReaped(process: ProcessId)

  predicate PidFree(s: State, pid: Pid) {
    forall p :: p in s.processes ==> s.processes[p].pid != pid
  }

  /** The moves of a thread that touch nothing but its own place. */
  predicate LocalMove(from: Place, to: Place, stopping: bool) {
    match from
    case Handshaking => to.Reserving? || to.Closing?
    case Reserved => to.Releasing? || (to.Spawning? && !stopping)
    case Spawning => to.Releasing?
    case Relaying(child, pid) => to == Terminating(child, pid, 2)
    case _ => false
  }

  predicate Enabled(s: State, e: Step) {
    && !s.serving.Exited?
    && match e
       case StopSignal => true
       case LeaveLoop => s.serving.Polling? && s.shared.stopping
       case Accept(fd) => s.serving.Polling? && fd !in s.openFds
       case RejectAccepted => s.serving.Accepted?
       case StartThread(t) => s.serving.Accepted? && t !in s.threads
       case StopAll => s.serving.Stopping?
       case FoundEmpty => s.serving.Waiting? && s.shared.connections == {}
       case Exit => s.serving.Exiting?
       case Advance(t, to) => t in s.threads && LocalMove(s.threads[t].place, to, s.shared.stopping)
       case ReserveSlot(t) => t in s.threads && s.threads[t].place.Reserving?
       case Spawn(t, child, pid) =>
         t in s.threads && s.threads[t].place.Spawning? && child !in s.processes && PidFree(s, pid)
       case SignalGroup(t) => t in s.threads && s.threads[t].place.Terminating? && s.threads[t].place.signalsLeft > 0
       case Reap(t) =>
         && t in s.threads && s.threads[t].place.Terminating? && s.threads[t].place.signalsLeft == 0
         && var child := s.threads[t].place.child;
            child in s.processes && s.processes[child].exited
       case ReleaseSlot(t) => t in s.threads && s.threads[t].place.Releasing?
       case CloseFd(t) => t in s.threads && s.threads[t].place.Closing?
       case ProcessExits(p) => p in s.processes
       case OtherStarts(p, pid) => p !in s.processes && PidFree(s, pid)
       case OtherReaped(p) => p in s.processes && s.processes[p].owner.None?
  }

  function Put(s: State, t: ThreadId, place: Place): State
    requires t in s.threads
  {
    s.(threads := s.threads[t := s.threads[t].(place := place)])
  }

  /** The unreaped process that holds a pid: what `kill(-pid)` reaches. */
  ghost function LeaderOf(s: State, pid: Pid): Option<Process> {
    if p :| p in s.processes && s.processes[p].pid == pid then Some(s.processes[p]) else None
  }

  ghost function Next(s: State, e: Step): State
    requires Enabled(s, e)
  {
    match e
    case StopSignal => s.(shared := Halt(s.shared))
    case LeaveLoop => s.(serving := Stopping)
    case Accept(fd) => s.(serving := Accepted(fd), openFds := s.openFds + {fd})
    case RejectAccepted => s.(serving := Polling, openFds := s.openFds - {s.serving.fd})
    case StartThread(t) =>
      var fd := s.serving.fd;
      (match Register(s.shared, fd)
       case None => s.(serving := Stopping, openFds := s.openFds - {fd})
       case Some(shared) =>
         s.(shared := shared, serving := Polling, threads := s.threads[t := Thread(fd, Handshaking)]))
    case StopAll => s.(shared := Halt(s.shared), serving := Waiting)
    case FoundEmpty => s.(serving := Exiting)
    case Exit => s.(serving := Exited)
    case Advance(t, to) => Put(s, t, to)
    case ReserveSlot(t) =>
      (match Reserve(s.shared)
       case None => Put(s, t, Closing)
       case Some(shared) => Put(s.(shared := shared), t, Reserved))
    case Spawn(t, child, pid) =>
      Put(s.(processes := s.processes[child := Process(pid, Some(t), false)]), t, Relaying(child, pid))
    case SignalGroup(t) =>
      var p := s.threads[t].place;
      Put(s.(hits := s.hits + [Hit(t, LeaderOf(s, p.pid))]), t, p.(signalsLeft := p.signalsLeft - 1))
    case Reap(t) => Put(s.(processes := s.processes - {s.threads[t].place.child}), t, Releasing)
    case ReleaseSlot(t) => Put(s.(shared := Release(s.shared)), t, Closing)
    case CloseFd(t) =>
      var fd := s.threads[t].fd;
      s.(shared := Forget(s.shared, fd), openFds := s.openFds - {fd}, threads := s.threads - {t})
    case ProcessExits(p) => s.(processes := s.processes[p := s.processes[p].(exited := true)])
    case OtherStarts(p, pid) => s.(processes := s.processes[p := Process(pid, None, false)])
    case OtherReaped(p) => s.(processes := s.processes - {p})
  }

  ghost predicate Behaviour(states: seq<State>, steps: seq<Step>) {
    && |states| == |steps| + 1 && states[0] == INITIAL
    && forall k :: 0 <= k < |steps| ==> Enabled(states[k], steps[k]) && states[k + 1] == Next(states[k], steps[k])
  }

  // ---------- What every step keeps ----------

  /** Every live thread's connection is registered and open, and no two share one; nothing else is open but a
      connection that was just accepted. */
  ghost predicate FdInv(s: State) {
    && s.openFds == s.shared.connections + (if s.serving.Accepted? then {s.serving.fd} else {})
    && (s.serving.Accepted? ==> s.serving.fd !in s.shared.connections)
    && (forall t :: t in s.threads ==> s.threads[t].fd in s.shared.connections)
    && (forall t, u :: t in s.threads && u in s.threads && t != u ==> s.threads[t].fd != s.threads[u].fd)
    && (s.serving.Exiting? || s.serving.Exited? ==> s.shared.connections == {})
  }

  /** The thread `t` is alive and this is its connection. */
  ghost predicate Holds(s: State, t: ThreadId, fd: Fd) {
    t in s.threads && s.threads[t].fd == fd
  }

  /** Only connections of live threads are registered. */
  ghost predicate HolderInv(s: State) {
    forall fd :: fd in s.shared.connections ==> exists t :: Holds(s, t, fd)
  }

  /** Once the broker is stopping, exactly the registered connections are shut down; before, none is. */
  ghost predicate ShutInv(s: State) {
    s.shared.shut == if s.shared.stopping then s.shared.connections else {}
  }

  /** No two unreaped processes share a pid. */
  ghost predicate PidInv(s: State) {
    forall p, q :: p in s.processes && q in s.processes && p != q ==> s.processes[p].pid != s.processes[q].pid
  }

  /** A session's child is unreaped, its own, and its only one. */
  ghost predicate ProcessInv(s: State) {
    && (forall t :: t in s.threads && s.threads[t].place.HasChild() ==>
          var place := s.threads[t].place;
          place.child in s.processes && s.processes[place.child].pid == place.pid
          && s.processes[place.child].owner == Some(t))
    && (forall p :: p in s.processes && s.processes[p].owner.Some? ==>
          var t := s.processes[p].owner.value;
          t in s.threads && s.threads[t].place.HasChild() && s.threads[t].place.child == p)
  }

  ghost function Slots(s: State): set<ThreadId> {
    set t | t in s.threads && s.threads[t].place.HoldsSlot()
  }

  ghost predicate SlotInv(s: State) {
    s.shared.active == |Slots(s)| <= MAX_CHILDREN
  }

  ghost predicate HitInv(s: State) {
    forall h :: h in s.hits ==> h.leader.Some? && h.leader.value.owner == Some(h.sender)
  }

  ghost predicate Inv(s: State) {
    FdInv(s) && HolderInv(s) && ShutInv(s) && PidInv(s) && ProcessInv(s) && SlotInv(s) && HitInv(s)
  }

  lemma FdKept(s: State, e: Step)
    requires FdInv(s) && Enabled(s, e)
    ensures FdInv(Next(s, e))
  {}

  lemma HolderKept(s: State, e: Step)
    requires FdInv(s) && HolderInv(s) && Enabled(s, e)
    ensures HolderInv(Next(s, e))
  {
    var n := Next(s, e);
    forall fd | fd in n.shared.connections ensures exists t :: Holds(n, t, fd) {
      if e.StartThread? && fd == s.serving.fd {
        assert Holds(n, e.thread, fd);
      } else {
        assert fd in s.shared.connections;
        var t :| Holds(s, t, fd);
        assert Holds(n, t, fd);
      }
    }
  }

  lemma ShutKept(s: State, e: Step)
    requires ShutInv(s) && Enabled(s, e)
    ensures ShutInv(Next(s, e))
  {}

  lemma PidKept(s: State, e: Step)
    requires PidInv(s) && Enabled(s, e)
    ensures PidInv(Next(s, e))
  {}

  lemma ProcessKept(s: State, e: Step)
    requires ProcessInv(s) && Enabled(s, e)
    ensures ProcessInv(Next(s, e))
  {
    if e.Spawn? {
      SpawnKeeps(s, e);
    } else if e.Reap? {
      ReapKeeps(s, e);
    } else if !(e.Advance? || e.CloseFd? || e.StartThread?) {
      SameFamilies(s, Next(s, e));
    }
  }

  lemma SpawnKeeps(s: State, e: Step)
    requires ProcessInv(s) && Enabled(s, e) && e.Spawn?
    ensures ProcessInv(Next(s, e))
  {}

  lemma ReapKeeps(s: State, e: Step)
    requires ProcessInv(s) && Enabled(s, e) && e.Reap?
    ensures ProcessInv(Next(s, e))
  {}

  lemma SameFamilies(s: State, n: State)
    requires ProcessInv(s) && n.threads.Keys == s.threads.Keys
    requires forall t :: t in s.threads ==>
               n.threads[t].place.HasChild() == s.threads[t].place.HasChild()
               && (s.threads[t].place.HasChild() ==> n.threads[t].place.child == s.threads[t].place.child
                                                     && n.threads[t].place.pid == s.threads[t].place.pid)
    requires forall p :: p in n.processes ==>
               if p in s.processes
               then n.processes[p].pid == s.processes[p].pid && n.processes[p].owner == s.processes[p].owner
               else n.processes[p].owner.None?
    requires forall p :: p in s.processes && s.processes[p].owner.Some? ==> p in n.processes
    ensures ProcessInv(n)
  {}

  lemma SlotKept(s: State, e: Step)
    requires SlotInv(s) && Enabled(s, e)
    ensures SlotInv(Next(s, e))
  {
    var n := Next(s, e);
    if e.Advance? || e.ReserveSlot? || e.Spawn? || e.SignalGroup? || e.Reap? || e.ReleaseSlot? || e.CloseFd?
       || e.StartThread? {
      SlotsChange(s, n, e.thread);
    } else {
      assert Slots(n) == Slots(s);
    }
  }

  lemma SlotsChange(s: State, n: State, t: ThreadId)
    requires forall u :: u != t ==> (u in n.threads <==> u in s.threads)
    requires forall u :: u != t && u in n.threads ==> n.threads[u] == s.threads[u]
    ensures |Slots(n)| == |Slots(s)| - (if t in Slots(s) then 1 else 0) + (if t in Slots(n) then 1 else 0)
  {
    assert Slots(s) - {t} == Slots(n) - {t};
    OneApart(Slots(s), Slots(n), t);
  }

  lemma OneApart(a: set<ThreadId>, b: set<ThreadId>, t: ThreadId)
    requires a - {t} == b - {t}
    ensures |b| == |a| - (if t in a then 1 else 0) + (if t in b then 1 else 0)
  {
    var rest := a - {t};
    assert a == if t in a then rest + {t} else rest;
    assert b == if t in b then rest + {t} else rest;
  }

  lemma HitKept(s: State, e: Step)
    requires HitInv(s) && PidInv(s) && ProcessInv(s) && Enabled(s, e)
    ensures HitInv(Next(s, e))
  {
    if e.SignalGroup? {
      var place := s.threads[e.thread].place;
      assert s.processes[place.child].pid == place.pid;
      assert LeaderOf(s, place.pid) == Some(s.processes[place.child]);
    }
  }

  lemma {:induction false} Kept(states: seq<State>, steps: seq<Step>, k: nat)
    requires Behaviour(states, steps) && k < |states|
    ensures Inv(states[k])
    decreases k
  {
    if k > 0 {
      Kept(states, steps, k - 1);
      InvKept(states[k - 1], steps[k - 1]);
    }
  }

  lemma InvKept(s: State, e: Step)
    requires Inv(s) && Enabled(s, e)
    ensures Inv(Next(s, e))
  {
    FdKept(s, e);
    HolderKept(s, e);
    ShutKept(s, e);
    PidKept(s, e);
    ProcessKept(s, e);
    SlotKept(s, e);
    HitKept(s, e);
  }

  // ---------- The promises ----------

  /** The unreaped processes that sessions spawned. */
  ghost function Children(s: State): set<ProcessId> {
    set p | p in s.processes && s.processes[p].owner.Some?
  }

  lemma {:induction false} ChildrenFitSlots(s: State, children: set<ProcessId>, slots: set<ThreadId>)
    requires ProcessInv(s) && children <= Children(s)
    requires forall p :: p in children ==> s.processes[p].owner.value in slots
    ensures |children| <= |slots|
    decreases children
  {
    if children != {} {
      var p :| p in children;
      var t := s.processes[p].owner.value;
      ChildrenFitSlots(s, children - {p}, slots - {t});
    }
  }

  /** In every reachable state the unreaped children are at most `active`, which is at most 16; each one's
      connection is still registered, so a stop reaches it, and after a stop it is shut down. */
  lemma ChildrenAreBounded(states: seq<State>, steps: seq<Step>, k: nat)
    requires Behaviour(states, steps) && k < |states|
    ensures var s := states[k];
            && |Children(s)| <= s.shared.active <= MAX_CHILDREN
            && forall p :: p in Children(s) ==>
                 var t := s.processes[p].owner.value;
                 t in s.threads && s.threads[t].fd in s.shared.connections
                 && (s.shared.stopping <==> s.threads[t].fd in s.shared.shut)
  {
    Kept(states, steps, k);
    ChildrenFitSlots(states[k], Children(states[k]), Slots(states[k]));
  }

  // ---------- Signals before the reaping ----------

  /** In one of the first `k` steps the thread sent its child's group a signal, with so many left. */
  ghost predicate Sent(states: seq<State>, steps: seq<Step>, k: nat, i: nat, t: ThreadId, place: Place)
    requires k <= |steps| < |states|
  {
    i < k && steps[i] == SignalGroup(t) && t in states[i].threads && states[i].threads[t].place == place
  }

  ghost predicate SentTwice(states: seq<State>, steps: seq<Step>, k: nat, t: ThreadId, child: ProcessId, pid: Pid)
    requires k <= |steps| < |states|
  {
    exists i, j :: i < j && Sent(states, steps, k, i, t, Terminating(child, pid, 2))
                   && Sent(states, steps, k, j, t, Terminating(child, pid, 1))
  }

  ghost predicate SentOnce(states: seq<State>, steps: seq<Step>, k: nat, t: ThreadId, child: ProcessId, pid: Pid)
    requires k <= |steps| < |states|
  {
    exists i :: Sent(states, steps, k, i, t, Terminating(child, pid, 2))
  }

  lemma {:induction false} SignalsCounted(states: seq<State>, steps: seq<Step>, k: nat, t: ThreadId)
    requires Behaviour(states, steps) && k < |states|
    requires t in states[k].threads && states[k].threads[t].place.Terminating?
    ensures var p := states[k].threads[t].place;
            && p.signalsLeft <= 2
            && (p.signalsLeft == 1 ==> SentOnce(states, steps, k, t, p.child, p.pid))
            && (p.signalsLeft == 0 ==> SentTwice(states, steps, k, t, p.child, p.pid))
    decreases k
  {
    if k > 0 {
      var s, e, p := states[k - 1], steps[k - 1], states[k].threads[t].place;
      PlaceBefore(s, e, t);
      if t in s.threads && s.threads[t].place.Terminating? {
        SignalsCounted(states, steps, k - 1, t);
        SentStays(states, steps, k - 1, k, t, p);
        if e == SignalGroup(t) { OneMoreSent(states, steps, k - 1, k, t, s.threads[t].place); }
      }
    }
  }

  /** A thread that terminates was about to, with one more signal to send, or came to it with two. */
  lemma PlaceBefore(s: State, e: Step, t: ThreadId)
    requires Enabled(s, e) && t in Next(s, e).threads && Next(s, e).threads[t].place.Terminating?
    ensures var p := Next(s, e).threads[t].place;
            if t in s.threads && s.threads[t].place.Terminating? then
              s.threads[t].place == if e == SignalGroup(t) then p.(signalsLeft := p.signalsLeft + 1) else p
            else p.signalsLeft == 2
  {}

  lemma OneMoreSent(states: seq<State>, steps: seq<Step>, k: nat, n: nat, t: ThreadId, before: Place)
    requires n == k + 1 <= |steps| < |states| && before.Terminating? && steps[k] == SignalGroup(t)
    requires t in states[k].threads && states[k].threads[t].place == before
    ensures before.signalsLeft == 2 ==> SentOnce(states, steps, n, t, before.child, before.pid)
    ensures before.signalsLeft == 1 && SentOnce(states, steps, k, t, before.child, before.pid)
            ==> SentTwice(states, steps, n, t, before.child, before.pid)
  {
    assert Sent(states, steps, n, k, t, before);
    if before.signalsLeft == 1 && SentOnce(states, steps, k, t, before.child, before.pid) {
      var i :| Sent(states, steps, k, i, t, Terminating(before.child, before.pid, 2));
      assert Sent(states, steps, n, i, t, Terminating(before.child, before.pid, 2));
      assert Sent(states, steps, n, k, t, Terminating(before.child, before.pid, 1));
    }
  }

  lemma SentStays(states: seq<State>, steps: seq<Step>, k: nat, n: nat, t: ThreadId, p: Place)
    requires p.Terminating? && k <= n <= |steps| < |states|
    ensures SentOnce(states, steps, k, t, p.child, p.pid) ==> SentOnce(states, steps, n, t, p.child, p.pid)
    ensures SentTwice(states, steps, k, t, p.child, p.pid) ==> SentTwice(states, steps, n, t, p.child, p.pid)
  {
    forall i, place | Sent(states, steps, k, i, t, place) ensures Sent(states, steps, n, i, t, place) {}
  }

  /** No child is reaped before its group was sent two signals, and a child is only spawned by a thread that saw, after
      its slot was granted, that the broker was not stopping. */
  lemma ReapedAfterSignals(states: seq<State>, steps: seq<Step>, k: nat)
    requires Behaviour(states, steps) && k < |steps|
    ensures steps[k].Reap? ==>
              var p := states[k].threads[steps[k].thread].place;
              SentTwice(states, steps, k, steps[k].thread, p.child, p.pid)
    ensures steps[k].Advance? && steps[k].to.Spawning? ==> !states[k].shared.stopping
  {
    if steps[k].Reap? { SignalsCounted(states, steps, k, steps[k].thread); }
  }

  /** A connection gets a slot exactly when the broker is not stopping and fewer than 16 are held. */
  lemma SlotGrantedExactly(states: seq<State>, steps: seq<Step>, k: nat)
    requires Behaviour(states, steps) && k < |steps| && steps[k].ReserveSlot?
    ensures var s, t := states[k], steps[k].thread;
            states[k + 1].threads[t].place
            == if !s.shared.stopping && |Slots(s)| < 16 then Reserved else Closing
  {
    Kept(states, steps, k);
  }

  /** An accepted connection gets a thread and is registered exactly when the broker is not stopping; otherwise it is
      closed. */
  lemma AcceptedIsRegistered(states: seq<State>, steps: seq<Step>, k: nat)
    requires Behaviour(states, steps) && k < |steps| && steps[k].StartThread?
    ensures var s, n, fd := states[k], states[k + 1], states[k].serving.fd;
            if s.shared.stopping then fd !in n.openFds && n.threads == s.threads
            else fd in n.shared.connections && Holds(n, steps[k].thread, fd)
  {
    Kept(states, steps, k);
  }

  /** What closing under the lock is for: in every reachable state the registered descriptors are exactly those
      of the live threads, each of one thread and still open. So whatever a stop shuts down is what it means to
      shut down, even when descriptors are reused, and nothing else is taken for shut down. */
  lemma RegisteredAreLive(states: seq<State>, steps: seq<Step>, k: nat, fd: Fd)
    requires Behaviour(states, steps) && k < |states|
    ensures var s := states[k];
            && (fd in s.shared.connections <==> exists t :: Holds(s, t, fd))
            && (fd in s.openFds <==> fd in s.shared.connections || s.serving == Accepted(fd))
            && (forall t, u :: Holds(s, t, fd) && Holds(s, u, fd) ==> t == u)
            && (fd in s.shared.shut ==> fd in s.shared.connections)
            && (fd in Halt(s.shared).shut ==> exists t :: Holds(s, t, fd))
  {
    Kept(states, steps, k);
  }

  /** Every signal sent so far found its group's leader unreaped, and that leader was the sending
      session's own child: no reused pid was ever signalled. */
  lemma SignalsHitOwnChild(states: seq<State>, steps: seq<Step>, k: nat, h: Hit)
    requires Behaviour(states, steps) && k < |states| && h in states[k].hits
    ensures h.leader.Some? && h.leader.value.owner == Some(h.sender)
  {
    Kept(states, steps, k);
  }

  /** A signal that is sent reaches the sender's own child, still unreaped, and no other process. */
  lemma SignalReachesOwnChild(states: seq<State>, steps: seq<Step>, k: nat, t: ThreadId)
    requires Behaviour(states, steps) && k < |steps| && steps[k] == SignalGroup(t)
    ensures var s, n, place := states[k], states[k + 1], states[k].threads[t].place;
            && (forall p :: p in s.processes && s.processes[p].pid == place.pid <==> p == place.child)
            && s.processes[place.child].owner == Some(t)
            && n.hits == s.hits + [Hit(t, Some(s.processes[place.child]))]
  {
    Kept(states, steps, k);
    var s, place := states[k], states[k].threads[t].place;
    assert s.processes[place.child].pid == place.pid;
    assert LeaderOf(s, place.pid) == Some(s.processes[place.child]);
  }

  /** Once a child is reaped its pid is free, and the next process that gets it is nobody's child. */
  lemma PidsComeBack(states: seq<State>, steps: seq<Step>, k: nat, other: ProcessId)
    requires Behaviour(states, steps) && k < |steps| && steps[k].Reap? && other !in states[k + 1].processes
    ensures var pid, n := states[k].threads[steps[k].thread].place.pid, states[k + 1];
            && Enabled(n, OtherStarts(other, pid))
            && Next(n, OtherStarts(other, pid)).processes == n.processes[other := Process(pid, None, false)]
            && Next(Next(n, OtherStarts(other, pid)), OtherReaped(other)).processes == n.processes
  {
    Kept(states, steps, k);
    var s, n, place := states[k], states[k + 1], states[k].threads[steps[k].thread].place;
    assert s.processes[place.child].pid == place.pid;
    assert n.processes[other := Process(place.pid, None, false)] - {other} == n.processes;
  }

  lemma ThreadsHaveConnections(s: State)
    requires FdInv(s)
    ensures s.threads != map[] ==> s.shared.connections != {}
  {
    if s.threads != map[] {
      var t :| t in s.threads;
      assert s.threads[t].fd in s.shared.connections;
    }
  }

  lemma ChildrenHaveThreads(s: State)
    requires ProcessInv(s)
    ensures Children(s) != {} ==> s.threads != map[]
  {
    if Children(s) != {} {
      var p :| p in Children(s);
      assert s.processes[p].owner.value in s.threads;
    }
  }

  /** When `serve` reaches `exit(0)`, no thread is running and no child is left unreaped. */
  lemma NoChildLeftAtExit(states: seq<State>, steps: seq<Step>, k: nat)
    requires Behaviour(states, steps) && k < |states|
    requires states[k].serving.Exiting? || states[k].serving.Exited?
    ensures Children(states[k]) == {} && states[k].threads == map[] && states[k].shared.active == 0
  {
    Kept(states, steps, k);
    ThreadsHaveConnections(states[k]);
    ChildrenHaveThreads(states[k]);
    assert states[k].threads == map[] ==> Slots(states[k]) == {};
  }

  // ---------- The broker can always come to its end ----------

  /** These steps, one after another, lead from `s` to `t`. */
  ghost predicate Leads(s: State, steps: seq<Step>, t: State)
    decreases |steps|
  {
    if steps == [] then s == t else Enabled(s, steps[0]) && Leads(Next(s, steps[0]), steps[1..], t)
  }

  lemma {:induction false} LeadsOn(s: State, first: seq<Step>, t: State, more: seq<Step>, u: State)
    requires Leads(s, first, t) && Leads(t, more, u)
    ensures Leads(s, first + more, u)
    decreases |first|
  {
    if first == [] {
      assert first + more == more;
    } else {
      assert (first + more)[1..] == first[1..] + more;
      LeadsOn(Next(s, first[0]), first[1..], t, more, u);
    }
  }

  lemma LeadsFirst(s: State, e: Step, more: seq<Step>, t: State)
    requires Enabled(s, e) && Leads(Next(s, e), more, t)
    ensures Leads(s, [e] + more, t)
  {
    assert ([e] + more)[1..] == more;
  }

  /** How many steps of its own a thread has left at most when it ends as soon as it can. */
  ghost function StepsLeft(s: State, t: ThreadId): nat
    requires t in s.threads
  {
    match s.threads[t].place
    case Handshaking => 2
    case Reserving => 4
    case Reserved => 3
    case Spawning => 3
    case Relaying(_, _) => 10
    case Terminating(child, _, left) => left + if child in s.processes && s.processes[child].exited then 3 else 4
    case Releasing => 2
    case Closing => 1
  }

  /** One such step. */
  ghost function EndingStep(s: State, t: ThreadId): Step
    requires t in s.threads
  {
    match s.threads[t].place
    case Handshaking => Advance(t, Closing)
    case Reserving => ReserveSlot(t)
    case Reserved => Advance(t, Releasing)
    case Spawning => Advance(t, Releasing)
    case Relaying(child, pid) => Advance(t, Terminating(child, pid, 2))
    case Terminating(child, _, left) =>
      if left > 0 then SignalGroup(t)
      else if child in s.processes && s.processes[child].exited then Reap(t) else ProcessExits(child)
    case Releasing => ReleaseSlot(t)
    case Closing => CloseFd(t)
  }

  lemma EndingStepEnds(s: State, t: ThreadId)
    requires Inv(s) && !s.serving.Exited? && t in s.threads
    ensures var e := EndingStep(s, t);
            && Enabled(s, e)
            && var n := Next(s, e);
               && n.serving == s.serving
               && if e == CloseFd(t) then n.threads.Keys == s.threads.Keys - {t}
                  else n.threads.Keys == s.threads.Keys && StepsLeft(n, t) < StepsLeft(s, t)
  {
    EndingStepIsEnabled(s, t);
    EndingStepStays(s, t);
  }

  lemma EndingStepStays(s: State, t: ThreadId)
    requires t in s.threads && Enabled(s, EndingStep(s, t))
    ensures var n := Next(s, EndingStep(s, t));
            && n.serving == s.serving
            && n.threads.Keys == s.threads.Keys - if EndingStep(s, t) == CloseFd(t) then {t} else {}
  {}

  lemma EndingStepIsEnabled(s: State, t: ThreadId)
    requires Inv(s) && !s.serving.Exited? && t in s.threads
    ensures Enabled(s, EndingStep(s, t))
  {}

  lemma {:induction false} ThreadCanEnd(s: State, t: ThreadId) returns (steps: seq<Step>, u: State)
    requires Inv(s) && !s.serving.Exited? && t in s.threads
    ensures Leads(s, steps, u) && Inv(u) && u.serving == s.serving && u.threads.Keys == s.threads.Keys - {t}
    decreases StepsLeft(s, t)
  {
    var e := EndingStep(s, t);
    EndingStepEnds(s, t);
    InvKept(s, e);
    var n := Next(s, e);
    steps, u := [], n;
    if e != CloseFd(t) { steps, u := ThreadCanEnd(n, t); }
    LeadsFirst(s, e, steps, u);
    steps := [e] + steps;
  }

  lemma {:induction false} ThreadsCanEnd(s: State) returns (steps: seq<Step>, u: State)
    requires Inv(s) && !s.serving.Exited?
    ensures Leads(s, steps, u) && Inv(u) && u.serving == s.serving && u.threads == map[]
    decreases |s.threads.Keys|
  {
    steps, u := [], s;
    if s.threads.Keys != {} {
      var t :| t in s.threads.Keys;
      var first, n := ThreadCanEnd(s, t);
      var more;
      more, u := ThreadsCanEnd(n);
      LeadsOn(s, first, n, more, u);
      steps := first + more;
    } else {
      assert s.threads == map[];
    }
  }

  /** The accept loop's next step towards the end, when no thread is left. */
  function ClosingStep(s: State): Step {
    match s.serving
    case Polling => if s.shared.stopping then LeaveLoop else StopSignal
    case Accepted(_) => RejectAccepted
    case Stopping => StopAll
    case Waiting => FoundEmpty
    case _ => Exit
  }

  function StagesLeft(s: State): nat {
    match s.serving
    case Accepted(_) => 7
    case Polling => if s.shared.stopping then 5 else 6
    case Stopping => 4
    case Waiting => 3
    case Exiting => 2
    case Exited => 0
  }

  lemma ClosingStepCloses(s: State)
    requires Inv(s) && !s.serving.Exited? && s.threads == map[]
    ensures var e := ClosingStep(s);
            Enabled(s, e) && Next(s, e).threads == map[] && StagesLeft(Next(s, e)) < StagesLeft(s)
  {
    assert forall fd :: fd in s.shared.connections ==> exists t :: Holds(s, t, fd);
  }

  lemma {:induction false} LoopCanEnd(s: State) returns (steps: seq<Step>, u: State)
    requires Inv(s) && s.threads == map[]
    ensures Leads(s, steps, u) && u.serving.Exited?
    decreases StagesLeft(s)
  {
    steps, u := [], s;
    if !s.serving.Exited? {
      var e := ClosingStep(s);
      ClosingStepCloses(s);
      InvKept(s, e);
      var more;
      more, u := LoopCanEnd(Next(s, e));
      LeadsFirst(s, e, more, u);
      steps := [e] + more;
    }
  }

  /** From every reachable state, whatever its threads are doing, some steps lead to the exit. */
  lemma CanExit(states: seq<State>, steps: seq<Step>, k: nat) returns (more: seq<Step>, u: State)
    requires Behaviour(states, steps) && k < |states|
    ensures Leads(states[k], more, u) && u.serving.Exited?
  {
    Kept(states, steps, k);
    more, u := [], states[k];
    if !states[k].serving.Exited? {
      var first, n := ThreadsCanEnd(states[k]);
      var rest;
      rest, u := LoopCanEnd(n);
      LeadsOn(states[k], first, n, rest, u);
      more := first + rest;
    }
  }

  /** And a thread whose slot was granted can go on to a child of its own, with any unused pid, unless the broker is
      stopping by then. */
  lemma CanSpawn(states: seq<State>, steps: seq<Step>, k: nat, t: ThreadId, child: ProcessId, pid: Pid)
    requires Behaviour(states, steps) && k < |states| && !states[k].serving.Exited? && !states[k].shared.stopping
    requires t in states[k].threads && states[k].threads[t].place.Reserved?
    requires child !in states[k].processes && PidFree(states[k], pid)
    ensures Enabled(states[k], Advance(t, Spawning))
    ensures var n := Next(states[k], Advance(t, Spawning));
            && Enabled(n, Spawn(t, child, pid))
            && var u := Next(n, Spawn(t, child, pid));
               && u.threads[t].place == Relaying(child, pid)
               && u.processes == states[k].processes[child := Process(pid, Some(t), false)]
  {}

  /** The accept loop is left only to stop, and nothing comes after the exit. */
  lemma ExitIsLast(states: seq<State>, steps: seq<Step>, k: nat)
    requires Behaviour(states, steps) && k < |steps|
    ensures !states[k].serving.Exited?
    ensures steps[k].LeaveLoop? || (steps[k].StartThread? && states[k + 1].serving.Stopping?) ==>
              states[k].shared.stopping
  {}

  // ---------- The object that the threads share ----------

  class Broker {
    var active: int
    var stopping: bool
    var connections: set<Fd>
    ghost var shut: set<Fd>

    ghost function View(): Shared
      reads this
    {
      Shared(active, stopping, connections, shut)
    }

    constructor ()
      ensures View() == NOTHING
    {
      active, stopping, connections, shut := 0, false, {}, {};
    }

    method ReserveChild() returns (reserved: bool)
      modifies this
      ensures reserved <==> Reserve(old(View())).Some?
      ensures View() == if reserved then Reserve(old(View())).value else old(View())
    {
      if stopping || active >= MAX_CHILDREN { return false; }
      active := active + 1;
      return true;
    }

    method ReleaseChild()
      modifies this
      ensures View() == Release(old(View()))
    {
      active := active - 1;
    }

    method AddConnection(fd: Fd) returns (added: bool)
      modifies this
      ensures added <==> Register(old(View()), fd).Some?
      ensures View() == if added then Register(old(View()), fd).value else old(View())
    {
      if stopping { return false; }
      connections := connections + {fd};
      return true;
    }

    /** Shuts down one connection after another. */
    method Stop()
      modifies this
      ensures View() == Halt(old(View()))
    {
      stopping := true;
      var left := connections;
      while left != {}
        invariant left <= connections == old(connections) && stopping && active == old(active)
        invariant shut == old(shut) + (connections - left)
        decreases |left|
      {
        var connection :| connection in left;
        Shutdown(connection);
        left := left - {connection};
      }
    }

    method Shutdown(fd: Fd)
      modifies this`shut
      ensures shut == old(shut) + {fd}
    {
      shut := shut + {fd};
    }

    method CloseConnection(fd: Fd)
      modifies this
      ensures View() == Forget(old(View()), fd)
    {
      connections := connections - {fd};
      shut := shut - {fd};
    }

    /** What the lock protects, after one step of any thread. */
    method Take(s: State, e: Step)
      requires Enabled(s, e) && View() == s.shared
      modifies this
      ensures View() == Next(s, e).shared
    {
      match e {
        case StopSignal => Stop();
        case StopAll => Stop();
        case StartThread(_) => var _ := AddConnection(s.serving.fd);
        case ReserveSlot(_) => var _ := ReserveChild();
        case ReleaseSlot(_) => ReleaseChild();
        case CloseFd(t) => CloseConnection(s.threads[t].fd);
        case _ =>
      }
    }
  }

  /** The shared object goes through exactly the states of every behaviour, so the promises are about it. */
  method Follow(states: seq<State>, steps: seq<Step>) returns (broker: Broker)
    requires Behaviour(states, steps)
    ensures fresh(broker) && broker.View() == states[|steps|].shared
  {
    broker := new Broker();
    for k := 0 to |steps|
      invariant fresh(broker) && broker.View() == states[k].shared
    {
      broker.Take(states[k], steps[k]);
    }
  }
}
