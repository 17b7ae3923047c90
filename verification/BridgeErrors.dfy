/** What an action's error can leave behind. Programs without repeats are compared in worlds that differ only in
    the action from which on everything breaks: one action later, at most one more mutation is started. */
module BridgeErrors {
  import opened Shortcut
  import opened ShortcutMeaning
  import opened ShortcutProperties
  import opened OperationsBridge
  import opened OperationsGate
  import BackgroundNotes

  /** The same world, where every action from the `n`th on reports an error. */
  function BreakingFrom(w: World, n: nat): World {
    w.(breaks := k => k >= n)
  }

  predicate NoRepeat(b: Block) {
    match b
    case Skip => true
    case Do(_, rest) => NoRepeat(rest)
    case Cond(_, _, _, _, thn, _, els, rest) => NoRepeat(thn) && NoRepeat(els) && NoRepeat(rest)
    case Each(_, _, _, _) => false
  }

  /** From here on the next action breaks. */
  lemma {:induction false} BreaksAtOnce(b: Block, m: Machine, item: string, w: World, n: nat)
    requires WellFormed(b) && NoRepeat(b) && m.ticks >= n
    ensures var r := Execute(b, m, item, BreakingFrom(w, n));
            && |m.log| <= |r.log| <= |m.log| + 1
            && (|r.log| > |m.log| ==> r.status == Broke)
            && (r.status.Running? ==> m.status.Running? && r.log == m.log && r.ticks == m.ticks)
    decreases b
  {
    var v := BreakingFrom(w, n);
    if m.status.Running? {
      match b
      case Skip =>
      case Do(a, rest) =>
        var r := Perform(a, m, item, v);
        assert !r.status.Running?;
        assert Execute(rest, r, item, v) == r;
      case Cond(g, source, mode, value, thn, hasElse, els, rest) =>
        if FirstUnbound(m, Needs(IfOf(b))).None? {
          BreaksAtOnce(thn, m, item, w, n);
          BreaksAtOnce(els, m, item, w, n);
          var r := Taken(b, m, item, v);
          assert Execute(b, m, item, v) == Execute(rest, r, item, v);
          if r.status.Running? { BreaksAtOnce(rest, r, item, w, n); }
        }
    }
  }

  /** Two executions, of which the first breaks one action earlier. */
  ghost predicate Close(r: Machine, s: Machine, n: nat) {
    || (r == s && (r.status.Running? ==> r.ticks <= n))
    || (r.status == Broke && |r.log| <= |s.log| <= |r.log| + 1
        && (|s.log| > |r.log| ==> s.status == Broke)
        && (s.status.Running? ==> s.ticks == n + 1 && |s.log| == |r.log|))
  }

  lemma PerformIsClose(a: Action, m: Machine, item: string, w: World, n: nat)
    requires !a.IsControl() && m.status.Running? && m.ticks <= n
    ensures Close(Perform(a, m, item, BreakingFrom(w, n)), Perform(a, m, item, BreakingFrom(w, n + 1)), n)
  {}

  lemma {:induction false} OneActionLater(b: Block, m: Machine, item: string, w: World, n: nat)
    requires WellFormed(b) && NoRepeat(b) && m.ticks <= n
    ensures Close(Execute(b, m, item, BreakingFrom(w, n)), Execute(b, m, item, BreakingFrom(w, n + 1)), n)
    decreases b, 0
  {
    var u, v := BreakingFrom(w, n), BreakingFrom(w, n + 1);
    if m.status.Running? {
      match b
      case Skip =>
      case Do(a, rest) =>
        PerformIsClose(a, m, item, w, n);
        RestIsClose(rest, Perform(a, m, item, u), Perform(a, m, item, v), item, w, n);
      case Cond(g, source, mode, value, thn, hasElse, els, rest) =>
        if FirstUnbound(m, Needs(IfOf(b))).None? {
          assert Holds(IfOf(b), m, item, u) == Holds(IfOf(b), m, item, v);
          OneActionLater(thn, m, item, w, n);
          OneActionLater(els, m, item, w, n);
          RestIsClose(rest, Taken(b, m, item, u), Taken(b, m, item, v), item, w, n);
        }
    }
  }

  lemma {:induction false} RestIsClose(rest: Block, r: Machine, s: Machine, item: string, w: World, n: nat)
    requires WellFormed(rest) && NoRepeat(rest) && Close(r, s, n)
    ensures Close(Execute(rest, r, item, BreakingFrom(w, n)), Execute(rest, s, item, BreakingFrom(w, n + 1)), n)
    decreases rest, 1
  {
    if r == s {
      if r.status.Running? { OneActionLater(rest, r, item, w, n); }
    } else if s.status.Running? {
      BreaksAtOnce(rest, s, item, w, n + 1);
    }
  }

  // ---------- Never breaking ----------

  lemma {:induction false} TicksGrow(b: Block, m: Machine, item: string, w: World)
    requires WellFormed(b) && NoRepeat(b)
    ensures m.ticks <= Execute(b, m, item, w).ticks
    decreases b
  {
    if m.status.Running? {
      match b
      case Skip =>
      case Do(a, rest) =>
        TicksGrow(rest, Perform(a, m, item, w), item, w);
      case Cond(g, source, mode, value, thn, hasElse, els, rest) =>
        if FirstUnbound(m, Needs(IfOf(b))).None? {
          TicksGrow(thn, m, item, w);
          TicksGrow(els, m, item, w);
          TicksGrow(rest, Taken(b, m, item, w), item, w);
        }
    }
  }

  lemma PerformTooLate(a: Action, m: Machine, item: string, w: World, n: nat)
    requires !a.IsControl() && m.status.Running? && (forall k :: !w.breaks(k))
    requires Perform(a, m, item, w).ticks <= n
    ensures Perform(a, m, item, BreakingFrom(w, n)) == Perform(a, m, item, w)
  {}

  /** Breaking only after the end is not breaking. */
  lemma {:induction false} BreaksTooLate(b: Block, m: Machine, item: string, w: World, n: nat)
    requires WellFormed(b) && NoRepeat(b) && (forall k :: !w.breaks(k))
    requires Execute(b, m, item, w).ticks <= n
    ensures Execute(b, m, item, BreakingFrom(w, n)) == Execute(b, m, item, w)
    decreases b
  {
    var v := BreakingFrom(w, n);
    if m.status.Running? {
      match b
      case Skip =>
      case Do(a, rest) =>
        var r := Perform(a, m, item, w);
        TicksGrow(rest, r, item, w);
        PerformTooLate(a, m, item, w, n);
        BreaksTooLate(rest, r, item, w, n);
      case Cond(g, source, mode, value, thn, hasElse, els, rest) =>
        if FirstUnbound(m, Needs(IfOf(b))).None? { TakenTooLate(b, m, item, w, n); }
    }
  }

  lemma {:induction false} TakenTooLate(b: Block, m: Machine, item: string, w: World, n: nat)
    requires WellFormed(b) && NoRepeat(b) && (forall k :: !w.breaks(k))
    requires b.Cond? && m.status.Running? && FirstUnbound(m, Needs(IfOf(b))).None?
    requires Execute(b, m, item, w).ticks <= n
    ensures Execute(b, m, item, BreakingFrom(w, n)) == Execute(b, m, item, w)
    decreases b, 0
  {
    var v, r := BreakingFrom(w, n), Taken(b, m, item, w);
    assert Execute(b, m, item, w) == Execute(b.rest, r, item, w);
    assert Execute(b, m, item, v) == Execute(b.rest, Taken(b, m, item, v), item, v);
    TicksGrow(b.rest, r, item, w);
    if Holds(IfOf(b), m, item, w) {
      BreaksTooLate(b.thn, m, item, w, n);
    } else if b.hasElse {
      BreaksTooLate(b.els, m, item, w, n);
    }
    BreaksTooLate(b.rest, r, item, w, n);
  }

  /** So between no mutation and all of them, every number of mutations is left behind by some error. */
  lemma {:induction false} EveryCountHappens(b: Block, w: World, n: nat, count: nat) returns (k: nat)
    requires WellFormed(b) && NoRepeat(b)
    requires Execute(b, Shortcut.START, "", BreakingFrom(w, 0)).log == []
    requires Execute(b, Shortcut.START, "", BreakingFrom(w, 0)).status == Broke
    requires count <= |Execute(b, Shortcut.START, "", BreakingFrom(w, n)).log|
    ensures |Execute(b, Shortcut.START, "", BreakingFrom(w, k)).log| == count
    ensures Execute(b, Shortcut.START, "", BreakingFrom(w, k)).status == Broke
    decreases n
  {
    var r := Execute(b, Shortcut.START, "", BreakingFrom(w, n));
    if |r.log| == count && r.status == Broke {
      k := n;
    } else {
      assert n > 0;
      OneActionLater(b, Shortcut.START, "", w, n - 1);
      k := EveryCountHappens(b, w, n - 1, count);
    }
  }

  // ---------- The operations program ----------

  lemma {:induction false} PlainHasNoRepeat(b: Block, made: set<Label>)
    requires Plain(b, made)
    ensures NoRepeat(b)
    decreases b
  {
    match b
    case Skip =>
    case Do(a, rest) => PlainHasNoRepeat(rest, made + {a.id});
    case Cond(_, _, _, _, thn, _, els, rest) =>
      PlainHasNoRepeat(thn, NOTHING.Keys);
      PlainHasNoRepeat(rest, NOTHING.Keys);
  }

  lemma {:induction false} ThenHasNoRepeat(b: Block, c: Block)
    requires NoRepeat(b) && NoRepeat(c)
    ensures NoRepeat(Then(b, c))
    decreases b
  {
    match b
    case Skip =>
    case Do(a, rest) => ThenHasNoRepeat(rest, c);
    case Cond(_, _, _, _, _, _, _, rest) => ThenHasNoRepeat(rest, c);
  }

  lemma {:induction false} BranchesHaveNoRepeat(ops: seq<(string, Block)>)
    requires forall o :: o in ops ==> GoodBranch(o)
    ensures NoRepeat(BranchesBlock(ops))
    decreases |ops|
  {
    if ops != [] {
      var (op, steps) := ops[0];
      assert GoodBranch(ops[0]);
      PlainHasNoRepeat(steps, NOTHING.Keys);
      assert NoRepeat(Do(StopWithOutput(Success(op)), Skip));
      ThenHasNoRepeat(steps, Finish(op));
      BranchesHaveNoRepeat(ops[1..]);
    }
  }

  lemma GateHasNoRepeat(inner: Block, rest: Block)
    requires NoRepeat(inner) && NoRepeat(rest)
    ensures NoRepeat(Gate(inner, rest))
  {
    assert NoRepeat(Skip);
    assert NoRepeat(BodyGate(inner).rest);
    assert NoRepeat(BodyGate(inner));
    assert NoRepeat(NameGate(inner).rest);
    assert NoRepeat(NameGate(inner));
    var gate := Gate(inner, rest);
    assert NoRepeat(gate.rest.rest.rest);
    assert NoRepeat(gate.rest.rest);
    assert NoRepeat(gate.rest);
  }

  lemma {:induction false} KeysHaveNoRepeat(keys: seq<Key>, rest: Block)
    requires NoRepeat(rest)
    ensures NoRepeat(KeysBlock(keys, rest))
    decreases |keys|
  {
    if keys != [] {
      KeysHaveNoRepeat(keys[1..], rest);
      assert NoRepeat(KeysBlock(keys, rest).rest);
    }
  }

  lemma ProgramHasNoRepeat(keys: seq<Key>, ops: seq<(string, Block)>)
    requires forall o :: o in ops ==> GoodBranch(o)
    ensures NoRepeat(ProgramOf(keys, ops))
  {
    BranchesHaveNoRepeat(ops);
    assert NoRepeat(Do(StopWithOutput(Refusal), Skip));
    GateHasNoRepeat(BranchesBlock(ops), RefuseBlock());
    KeysHaveNoRepeat(keys, Gate(BranchesBlock(ops), RefuseBlock()));
    assert NoRepeat(ProgramOf(keys, ops).rest);
  }

  lemma FirstActionBreaks(keys: seq<Key>, ops: seq<(string, Block)>, w: World)
    requires WellFormed(ProgramOf(keys, ops))
    ensures var r := Execute(ProgramOf(keys, ops), Shortcut.START, "", BreakingFrom(w, 0));
            r.log == [] && r.status == Broke
  {
    var b := ProgramOf(keys, ops);
    var r := Perform(Comment, Shortcut.START, "", BreakingFrom(w, 0));
    assert Execute(b.rest, r, "", BreakingFrom(w, 0)) == r;
  }

  /** A program without repeats that is honest in every world leaves every beginning of its work behind. */
  lemma PrefixHappens(b: Block, w: World, count: nat) returns (k: nat)
    requires WellFormed(b) && NoRepeat(b) && count <= |WantedFor(w)|
    requires Execute(b, Shortcut.START, "", BreakingFrom(w, 0)).log == []
    requires Execute(b, Shortcut.START, "", BreakingFrom(w, 0)).status == Broke
    requires forall v: World :: Honest(Execute(b, Shortcut.START, "", v), v)
    ensures Execute(b, Shortcut.START, "", BreakingFrom(w, k)).log == WantedFor(w)[..count]
    ensures Execute(b, Shortcut.START, "", BreakingFrom(w, k)).status == Broke
  {
    var w0 := w.(breaks := k => false);
    var done := Execute(b, Shortcut.START, "", w0);
    assert Honest(done, w0) && WantedFor(w0) == WantedFor(w);
    BreaksTooLate(b, Shortcut.START, "", w0, done.ticks);
    assert BreakingFrom(w0, done.ticks) == BreakingFrom(w, done.ticks);
    k := EveryCountHappens(b, w, done.ticks, count);
    var v := BreakingFrom(w, k);
    assert Honest(Execute(b, Shortcut.START, "", v), v) && WantedFor(v) == WantedFor(w);
  }

  /** The bound of `OperationsGate.ListIsHonest` is tight: for every request and every beginning of what it
      stands for, some error leaves exactly that behind. */
  lemma EveryPrefixHappens(keys: seq<Key>, ops: seq<(string, Block)>, w: World, count: nat) returns (k: nat)
    requires keys == KEYS && ops == Branches() && count <= |WantedFor(w)|
    ensures WellFormed(ProgramOf(keys, ops))
    ensures var m := Execute(ProgramOf(keys, ops), Shortcut.START, "", BreakingFrom(w, k));
            m.log == WantedFor(w)[..count] && m.status == Broke
  {
    BranchesAreGood();
    ProgramHasNoRepeat(keys, ops);
    forall v: World ensures WellFormed(ProgramOf(keys, ops))
                         && Honest(Execute(ProgramOf(keys, ops), Shortcut.START, "", v), v) {
      BranchesImplement(v);
      ProgramOfIsHonest(keys, ops, v);
    }
    ProgramShape(keys, ops);
    FirstActionBreaks(keys, ops, w);
    k := PrefixHappens(ProgramOf(keys, ops), w, count);
  }

  lemma ListOf(keys: seq<Key>, ops: seq<(string, Block)>, w: World) returns (n: nat)
    requires keys == KEYS && ops == Branches() && WellFormed(ProgramOf(keys, ops))
    ensures ListAfter(w, n) == Ended(Execute(ProgramOf(keys, ops), Shortcut.START, "", w))
  {
    n := RunsAsBlock(ProgramOf(keys, ops), w);
  }

  // ---------- When the report is true ----------

  /** The same request and notes, of which some error leaves the first `count` wanted mutations behind. */
  lemma SomeErrorLeaves(w: World, count: nat) returns (v: World, n: nat)
    requires count <= |WantedFor(w)|
    ensures v.request == w.request && FoundFor(v) == FoundFor(w)
    ensures ListAfter(v, n).status == Broke && ListAfter(v, n).log == WantedFor(w)[..count]
  {
    var k := EveryPrefixHappens(KEYS, Branches(), w, count);
    v := BreakingFrom(w, k);
    n := ListOf(KEYS, Branches(), v);
  }

  /** So an error in a tag branch can leave a tag created that was added to no note. */
  lemma AnErrorCanLeaveATag(w: World) returns (v: World, n: nat)
    requires Passes(w) && TagOperation(w.request.field(Operation))
    ensures v.request == w.request && FoundFor(v) == FoundFor(w)
    ensures ListAfter(v, n).status == Broke && |ListAfter(v, n).log| == 1
    ensures ListAfter(v, n).log[0].kind == CreateTag && ListAfter(v, n).log[0].notes == []
  {
    TagComesFirst(w);
    v, n := SomeErrorLeaves(w, 1);
  }

  lemma TagComesFirst(w: World)
    requires Passes(w) && TagOperation(w.request.field(Operation))
    ensures WantedFor(w) != [] && WantedFor(w)[0].kind == CreateTag && WantedFor(w)[0].notes == []
  {}

  /** What is wanted depends on the texts of the request and on the found notes only. */
  lemma SameWanted(v: World, w: World, payload: map<string, string>)
    requires BackgroundNotes.Carries(v, payload) && BackgroundNotes.Carries(w, payload) && FoundFor(v) == FoundFor(w)
    ensures WantedFor(v) == WantedFor(w) && Passes(v) == Passes(w)
  {
    assert forall key: Key :: !key.Tags? ==> v.request.field(key) == w.request.field(key);
  }

  /** Whenever "not committed" is reported after an error exit, the same request, process and notes allow a list
      that has started any number of the wanted mutations. */
  lemma NotCommittedCanHideMutations(request: BackgroundNotes.Input, operation: string, data: map<string, string>,
                                     env: BackgroundNotes.Environment, process: BackgroundNotes.Process, w: World,
                                     count: nat)
    returns (v: World, n: nat)
    requires BackgroundNotes.Clear(request, operation, env) && BackgroundNotes.NotCommitted(env)
    requires process.Failed? && env.run == BackgroundNotes.RunError(true, process)
    requires var payload := BackgroundNotes.Payload(operation, data, env.first.value, request.scopeText);
             BackgroundNotes.Carries(w, payload)
    requires count <= |WantedFor(w)|
    ensures var payload := BackgroundNotes.Payload(operation, data, env.first.value, request.scopeText);
            BackgroundNotes.Occurs(v, n, true, process, payload)
    ensures FoundFor(v) == FoundFor(w)
    ensures ListAfter(v, n).status == Broke && ListAfter(v, n).log == WantedFor(w)[..count]
  {
    v, n := SomeErrorLeaves(w, count);
  }

  /** No list that may have been run on this payload and these notes has started anything. */
  ghost predicate NothingStarted(w: World, installed: bool, process: BackgroundNotes.Process,
                                 payload: map<string, string>)
  {
    forall v, k :: BackgroundNotes.Occurs(v, k, installed, process, payload) && FoundFor(v) == FoundFor(w) ==>
      ListAfter(v, k).log == []
  }

  /** The report "not committed" is true, whatever the list did, exactly when the bridge was not run to an error
      exit, or the request stands for no mutation on the found notes. */
  lemma NotCommittedIsTrueExactly(request: BackgroundNotes.Input, operation: string, data: map<string, string>,
                                  env: BackgroundNotes.Environment, installed: bool,
                                  process: BackgroundNotes.Process, w: World)
    requires BackgroundNotes.Clear(request, operation, env) && BackgroundNotes.NotCommitted(env)
    requires env.run == BackgroundNotes.RunError(installed, process)
    requires var payload := BackgroundNotes.Payload(operation, data, env.first.value, request.scopeText);
             BackgroundNotes.Carries(w, payload)
    ensures var payload := BackgroundNotes.Payload(operation, data, env.first.value, request.scopeText);
            NothingStarted(w, installed, process, payload)
            <==> !(installed && process.Failed?) || WantedFor(w) == []
  {
    var payload := BackgroundNotes.Payload(operation, data, env.first.value, request.scopeText);
    if !(installed && process.Failed?) || WantedFor(w) == [] {
      forall v, k | BackgroundNotes.Occurs(v, k, installed, process, payload) && FoundFor(v) == FoundFor(w)
        ensures ListAfter(v, k).log == []
      {
        BackgroundNotes.NotCommittedIsTrue(request, operation, data, env, v, k, installed, process);
        SameWanted(v, w, payload);
      }
    } else {
      var v, n := NotCommittedCanHideMutations(request, operation, data, env, process, w, 1);
      assert ListAfter(v, n).log != [];
    }
  }

  // ---------- What the readback can see ----------

  /** Every started mutation acts on the note with this id, and on no other. */
  predicate ActsOnlyOn(log: seq<Mutation>, id: string) {
    forall e :: e in log ==> e.notes != [] && forall n :: n in e.notes ==> n.id == id
  }

  /** Every mutation that such a list may have started acts on the note that is read back. */
  ghost predicate ReadbackSees(id: string, w: World, installed: bool, process: BackgroundNotes.Process,
                               payload: map<string, string>)
  {
    forall v, k :: BackgroundNotes.Occurs(v, k, installed, process, payload) && FoundFor(v) == FoundFor(w) ==>
      ActsOnlyOn(ListAfter(v, k).log, id)
  }

  predicate TagOperation(operation: string) {
    operation == "add-tag" || operation == "remove-tag"
  }

  /** After an error exit the unchanged note covers everything that may have been started exactly when nothing is
      wanted, or the operation creates no tag and the bridge's search found the very note that was asked for. */
  lemma ReadbackCoversExactly(request: BackgroundNotes.Input, operation: string, data: map<string, string>,
                              env: BackgroundNotes.Environment, process: BackgroundNotes.Process, w: World)
    requires BackgroundNotes.Clear(request, operation, env) && BackgroundNotes.NotCommitted(env)
    requires process.Failed? && env.run == BackgroundNotes.RunError(true, process)
    requires var payload := BackgroundNotes.Payload(operation, data, env.first.value, request.scopeText);
             BackgroundNotes.Carries(w, payload)
    ensures var payload := BackgroundNotes.Payload(operation, data, env.first.value, request.scopeText);
            ReadbackSees(request.id, w, true, process, payload)
            <==> WantedFor(w) == [] || (!TagOperation(operation) && FoundFor(w)[0].id == request.id)
  {
    var payload := BackgroundNotes.Payload(operation, data, env.first.value, request.scopeText);
    BackgroundNotes.FixedKeys(operation, data, env.first.value, request.scopeText);
    WantedTargets(w);
    if WantedFor(w) == [] || (!TagOperation(operation) && FoundFor(w)[0].id == request.id) {
      forall v, k | BackgroundNotes.Occurs(v, k, true, process, payload) && FoundFor(v) == FoundFor(w)
        ensures ActsOnlyOn(ListAfter(v, k).log, request.id)
      {
        ListIsHonest(v, k);
        SameWanted(v, w, payload);
        PrefixActs(ListAfter(v, k).log, WantedFor(w), request.id);
      }
    } else {
      var v, n := NotCommittedCanHideMutations(request, operation, data, env, process, w, 1);
      assert ListAfter(v, n).log[0] == WantedFor(w)[0];
      assert !ActsOnlyOn(ListAfter(v, n).log, request.id) by { assert ListAfter(v, n).log[0] in ListAfter(v, n).log; }
    }
  }

  lemma PrefixActs(log: seq<Mutation>, wanted: seq<Mutation>, id: string)
    requires log <= wanted && ActsOnlyOn(wanted, id)
    ensures ActsOnlyOn(log, id)
  {
    forall e | e in log ensures e in wanted {
      var i :| 0 <= i < |log| && log[i] == e;
      assert wanted[i] == e;
    }
  }

  /** Only creating a tag acts on no note; every other wanted mutation acts on the found one. */
  lemma WantedTargets(w: World)
    ensures WantedFor(w) != [] ==> Passes(w)
    ensures WantedFor(w) != [] ==>
              WantedFor(w)[0].notes == if TagOperation(w.request.field(Operation)) then [] else FoundFor(w)
    ensures WantedFor(w) != [] && !TagOperation(w.request.field(Operation)) ==>
              forall id :: ActsOnlyOn(WantedFor(w), id) <==> FoundFor(w)[0].id == id
  {
    if WantedFor(w) != [] {
      assert FoundFor(w) == [FoundFor(w)[0]];
      assert TagOperation(w.request.field(Operation)) || |WantedFor(w)| == 1;
      assert WantedFor(w)[0] in WantedFor(w);
    }
  }

  /** A concrete case: two notes with the title and the scope; the search of the bridge finds another one than
      the search before it, the append breaks, and the note that was asked for reads back unchanged. */
  lemma AnErrorCanWriteToAnotherNote() returns (w: World, n: nat)
    ensures w.request.field(Operation) == "append-text" && FoundFor(w) == [Note("other", "plan", "a scope that fits")]
    ensures ListAfter(w, n).status == Broke && |ListAfter(w, n).log| == 1
    ensures ListAfter(w, n).log[0].notes == FoundFor(w) && !ActsOnlyOn(ListAfter(w, n).log, "mine")
  {
    var note, op := Note("other", "plan", "a scope that fits"), "append-text";
    FindsPasses(op, note);
    w, n := AppendBreaks(Finds(op, note));
    assert "other"[0] != "mine"[0];
    OnAnother(ListAfter(w, n).log, note, "mine");
  }

  /** A request for the title and the whole text of the one note that is found. */
  function Finds(op: string, note: Note): World {
    World(Request((key: Key) => if key.Operation? then op else if key.Title? then note.name else note.body, []),
          (t, s) => [note], i => false, v => "")
  }

  lemma FindsPasses(op: string, note: Note)
    ensures Passes(Finds(op, note)) && FoundFor(Finds(op, note)) == [note]
    ensures Finds(op, note).request.field(Operation) == op
  {
    assert note.body[0..] == note.body;
  }

  lemma AppendBreaks(w: World) returns (v: World, n: nat)
    requires Passes(w) && w.request.field(Operation) == "append-text"
    ensures v.request == w.request && FoundFor(v) == FoundFor(w)
    ensures ListAfter(v, n).status == Broke && |ListAfter(v, n).log| == 1
    ensures ListAfter(v, n).log[0].notes == FoundFor(w)
  {
    AppendIsWanted(w);
    v, n := SomeErrorLeaves(w, 1);
  }

  lemma AppendIsWanted(w: World)
    requires Passes(w) && w.request.field(Operation) == "append-text"
    ensures WantedFor(w) != [] && WantedFor(w)[0].notes == FoundFor(w)
  {}

  lemma OnAnother(log: seq<Mutation>, note: Note, id: string)
    requires |log| == 1 && log[0].notes == [note] && note.id != id
    ensures !ActsOnlyOn(log, id)
  {
    assert log[0] in log && note in log[0].notes;
  }
}
