/** Flattening preserves meaning: a flat list that holds a block runs exactly as the block does. */
module ShortcutMeaning {
  import opened Shortcut

  lemma {:induction false} IterateSum(program: seq<Action>, f: Flat, w: World, a: nat, b: nat)
    ensures Iterate(program, f, w, a + b) == Iterate(program, Iterate(program, f, w, a), w, b)
    decreases a
  {
    if a > 0 {
      IterateSum(program, Tick(program, f, w), w, a - 1, b);
    }
  }

  // ---------- Finding the end of a group ----------

  lemma {:induction false} AfterSkips(program: seq<Action>, i: nat, j: nat, g: Group, orElse: bool)
    requires i <= j <= |program|
    requires forall k :: i <= k < j ==> !Marks(program[k], g, orElse)
    ensures After(program, i, g, orElse) == After(program, j, g, orElse)
    decreases j - i
  {
    if i < j {
      AfterSkips(program, i + 1, j, g, orElse);
    }
  }

  /** A block has no mark of a group that is not its own. */
  lemma {:induction false} NoForeignMarks(b: Block, g: Group, orElse: bool)
    requires WellFormed(b) && g !in Groups(b)
    ensures forall k :: 0 <= k < |Flatten(b)| ==> !Marks(Flatten(b)[k], g, orElse)
    decreases b
  {
    match b
    case Skip =>
    case Do(a, rest) => NoForeignMarks(rest, g, orElse);
    case Cond(h, source, mode, value, thn, hasElse, els, rest) =>
      NoForeignMarks(thn, g, orElse);
      NoForeignMarks(els, g, orElse);
      NoForeignMarks(rest, g, orElse);
    case Each(h, over, body, rest) =>
      NoForeignMarks(body, g, orElse);
      NoForeignMarks(rest, g, orElse);
  }

  /** From just inside a group, the search goes past what the group holds to its mark. */
  lemma AfterBlock(program: seq<Action>, pre: seq<Action>, b: Block, mark: Action, post: seq<Action>,
                   g: Group, orElse: bool)
    requires program == pre + Flatten(b) + [mark] + post
    requires WellFormed(b) && g !in Groups(b) && Marks(mark, g, orElse)
    ensures After(program, |pre|, g, orElse) == |pre| + |Flatten(b)| + 1
  {
    var n := |pre| + |Flatten(b)|;
    NoForeignMarks(b, g, orElse);
    forall k | |pre| <= k < n ensures !Marks(program[k], g, orElse) {
      assert program[k] == Flatten(b)[k - |pre|];
    }
    AfterSkips(program, |pre|, n, g, orElse);
    assert program[n] == mark;
  }

  // ---------- Simulation ----------

  /** After n ticks the list has this machine; and if that is still running, it is at this place. */
  ghost predicate Reaches(program: seq<Action>, f: Flat, w: World, n: nat, m: Machine, pc: nat, frames: seq<Frame>) {
    var g := Iterate(program, f, w, n);
    g.machine == m && (m.status.Running? ==> g == Flat(m, pc, frames))
  }

  lemma {:induction false} HaltedStays(program: seq<Action>, f: Flat, w: World, n: nat)
    requires !f.machine.status.Running?
    ensures Iterate(program, f, w, n) == f
    decreases n
  {
    if n > 0 {
      HaltedStays(program, f, w, n - 1);
    }
  }

  /** One tick, then a reached state, is a reached state. */
  lemma TickThen(program: seq<Action>, f: Flat, w: World, n: nat, m: Machine, pc: nat, frames: seq<Frame>)
    requires Reaches(program, Tick(program, f, w), w, n, m, pc, frames)
    ensures Reaches(program, f, w, n + 1, m, pc, frames)
  {}

  lemma Chain(program: seq<Action>, f: Flat, w: World, n: nat, m: Machine, pc: nat, frames: seq<Frame>,
              n': nat, m': Machine, pc': nat, frames': seq<Frame>)
    requires Reaches(program, f, w, n, m, pc, frames)
    requires m.status.Running? ==> Reaches(program, Flat(m, pc, frames), w, n', m', pc', frames')
    requires !m.status.Running? ==> m' == m
    ensures Reaches(program, f, w, n + n', m', pc', frames')
  {
    IterateSum(program, f, w, n, n');
    if !m.status.Running? {
      HaltedStays(program, Iterate(program, f, w, n), w, n');
    }
  }

  lemma OneTick(program: seq<Action>, f: Flat, w: World)
    ensures Iterate(program, f, w, 1) == Tick(program, f, w)
  {
    assert Iterate(program, Tick(program, f, w), w, 0) == Tick(program, f, w);
  }

  /** A list that holds a block, started at the block's first action, gives the block's result, and if that
      is still running, goes on just after its last action. */
  lemma {:induction false} Simulates(program: seq<Action>, pre: seq<Action>, b: Block, post: seq<Action>,
                                     f: Flat, w: World) returns (n: nat)
    requires program == pre + Flatten(b) + post && WellFormed(b)
    requires f.pc == |pre| && f.machine.status.Running?
    ensures Reaches(program, f, w, n, Execute(b, f.machine, CurrentItem(f.frames), w),
                    |pre| + |Flatten(b)|, f.frames)
    decreases b, 1
  {
    match b
    case Skip => n := 0;
    case Do(a, rest) => n := SimulatesDo(program, pre, b, post, f, w);
    case Cond(_, _, _, _, _, _, _, _) => n := SimulatesCond(program, pre, b, post, f, w);
    case Each(_, _, _, _) => n := SimulatesEach(program, pre, b, post, f, w);
  }

  lemma {:induction false} SimulatesDo(program: seq<Action>, pre: seq<Action>, b: Block, post: seq<Action>,
                                       f: Flat, w: World) returns (n: nat)
    requires program == pre + Flatten(b) + post && WellFormed(b) && b.Do?
    requires f.pc == |pre| && f.machine.status.Running?
    ensures Reaches(program, f, w, n, Execute(b, f.machine, CurrentItem(f.frames), w),
                    |pre| + |Flatten(b)|, f.frames)
    decreases b, 0
  {
    DoLies(program, pre, b, post);
    DoTick(program, f, b.action, w);
    var m := Perform(b.action, f.machine, CurrentItem(f.frames), w);
    var g := f.(machine := m, pc := f.pc + 1);
    var result := Execute(b, f.machine, CurrentItem(f.frames), w);
    assert result == Execute(b.rest, m, CurrentItem(f.frames), w);
    n := 0;
    if m.status.Running? { n := Simulates(program, pre + [b.action], b.rest, post, g, w); }
    TickThen(program, f, w, n, result, |pre| + |Flatten(b)|, f.frames);
    n := n + 1;
  }

  lemma DoLies(program: seq<Action>, pre: seq<Action>, b: Block, post: seq<Action>)
    requires program == pre + Flatten(b) + post && b.Do?
    ensures program == (pre + [b.action]) + Flatten(b.rest) + post
    ensures |pre| < |program| && program[|pre|] == b.action
  {
    Associates(pre, [b.action], Flatten(b.rest));
    assert (pre + [b.action])[|pre|] == b.action;
  }

  lemma DoTick(program: seq<Action>, f: Flat, a: Action, w: World)
    requires f.pc < |program| && program[f.pc] == a && !a.IsControl() && f.machine.status.Running?
    ensures Tick(program, f, w)
         == f.(machine := Perform(a, f.machine, CurrentItem(f.frames), w), pc := f.pc + 1)
  {}

  function ElsePart(b: Block): seq<Action>
    requires b.Cond?
  {
    if b.hasElse then [Otherwise(b.group)] + Flatten(b.els) else []
  }

  function IfOf(b: Block): Action
    requires b.Cond?
  {
    If(b.group, b.source, b.mode, b.value)
  }

  lemma CondLies(program: seq<Action>, pre: seq<Action>, b: Block, post: seq<Action>)
    requires program == pre + Flatten(b) + post && b.Cond?
    ensures HoldsCond(program, pre, b, Flatten(b.rest) + post)
    ensures program == pre + [IfOf(b)] + Flatten(b.thn) + ElsePart(b) + [EndIf(b.group)] + Flatten(b.rest) + post
    ensures |Flatten(b)| == |Flatten(b.thn)| + |ElsePart(b)| + 2 + |Flatten(b.rest)|
  {
    var head := [IfOf(b)] + Flatten(b.thn) + ElsePart(b) + [EndIf(b.group)];
    assert Flatten(b) == head + Flatten(b.rest);
    Regroup(pre, [IfOf(b)], Flatten(b.thn), ElsePart(b), [EndIf(b.group)], Flatten(b.rest), post);
  }

  lemma Regroup<T>(pre: seq<T>, a: seq<T>, b: seq<T>, c: seq<T>, d: seq<T>, rest: seq<T>, post: seq<T>)
    ensures pre + (a + b + c + d + rest) + post == pre + a + b + c + d + rest + post
    ensures pre + (a + b + c + d + rest) + post == pre + a + b + c + d + (rest + post)
  {
    Associates(pre, a + b + c + d, rest);
    Associates(pre, a + b + c, d);
    Associates(pre, a + b, c);
    Associates(pre, a, b);
    Associates(pre + a + b + c + d, rest, post);
  }

  lemma Associates<T>(x: seq<T>, y: seq<T>, z: seq<T>)
    ensures x + (y + z) == (x + y) + z
  {}

  /** The result of the branch that a condition takes. */
  function Taken(b: Block, m: Machine, item: string, w: World): Machine
    requires b.Cond? && WellFormed(b) && FirstUnbound(m, Needs(IfOf(b))).None?
  {
    if Holds(IfOf(b), m, item, w) then Execute(b.thn, m, item, w)
    else if b.hasElse then Execute(b.els, m, item, w) else m
  }

  lemma {:induction false} SimulatesCond(program: seq<Action>, pre: seq<Action>, b: Block, post: seq<Action>,
                                         f: Flat, w: World) returns (n: nat)
    requires program == pre + Flatten(b) + post && WellFormed(b) && b.Cond?
    requires f.pc == |pre| && f.machine.status.Running?
    ensures Reaches(program, f, w, n, Execute(b, f.machine, CurrentItem(f.frames), w),
                    |pre| + |Flatten(b)|, f.frames)
    decreases b, 0
  {
    var item, m := CurrentItem(f.frames), f.machine;
    var before := pre + [IfOf(b)] + Flatten(b.thn) + ElsePart(b) + [EndIf(b.group)];
    CondLies(program, pre, b, post);
    assert program[|pre|] == IfOf(b);
    OneTick(program, f, w);
    if FirstUnbound(m, Needs(IfOf(b))).Some? { return 1; }
    if Holds(IfOf(b), m, item, w) {
      n := TakesThen(program, pre, b, Flatten(b.rest) + post, f, w);
    } else {
      n := TakesElse(program, pre, b, Flatten(b.rest) + post, f, w);
    }
    n := ThenRest(program, before, b.rest, post, f, w, n, Taken(b, m, item, w));
  }

  /** After what comes first, the rest of a block. */
  lemma {:induction false} ThenRest(program: seq<Action>, before: seq<Action>, rest: Block, post: seq<Action>,
                                    f: Flat, w: World, n: nat, middle: Machine) returns (n': nat)
    requires program == before + Flatten(rest) + post && WellFormed(rest)
    requires Reaches(program, f, w, n, middle, |before|, f.frames)
    ensures Reaches(program, f, w, n', Execute(rest, middle, CurrentItem(f.frames), w),
                    |before| + |Flatten(rest)|, f.frames)
    decreases rest, 4
  {
    var k := 0;
    if middle.status.Running? {
      k := Simulates(program, before, rest, post, Flat(middle, |before|, f.frames), w);
    }
    Chain(program, f, w, n, middle, |before|, f.frames,
          k, Execute(rest, middle, CurrentItem(f.frames), w), |before| + |Flatten(rest)|, f.frames);
    n' := n + k;
  }

  /** A condition with its branches, as it lies in a list. */
  ghost predicate HoldsCond(program: seq<Action>, pre: seq<Action>, b: Block, post: seq<Action>)
    requires b.Cond?
  {
    program == pre + [IfOf(b)] + Flatten(b.thn) + ElsePart(b) + [EndIf(b.group)] + post
  }

  function AfterCond(pre: seq<Action>, b: Block): nat
    requires b.Cond?
  {
    |pre| + |Flatten(b.thn)| + |ElsePart(b)| + 2
  }

  lemma LeaveThen(program: seq<Action>, pre: seq<Action>, b: Block, post: seq<Action>,
                  m: Machine, frames: seq<Frame>, w: World)
    requires b.Cond? && WellFormed(b) && HoldsCond(program, pre, b, post) && m.status.Running?
    ensures Tick(program, Flat(m, |pre| + 1 + |Flatten(b.thn)|, frames), w) == Flat(m, AfterCond(pre, b), frames)
  {
    var f := Flat(m, |pre| + 1 + |Flatten(b.thn)|, frames);
    if b.hasElse {
      ElseLies(program, pre, b, post);
      LeaveByElse(program, pre + [IfOf(b)] + Flatten(b.thn), b.group, b.els, post, f, w);
    } else {
      EndLies(program, pre, b, post);
      EndIfTick(program, f, b.group, w);
    }
  }

  lemma EndLies(program: seq<Action>, pre: seq<Action>, b: Block, post: seq<Action>)
    requires b.Cond? && !b.hasElse && HoldsCond(program, pre, b, post)
    ensures program == (pre + [IfOf(b)]) + Flatten(b.thn) + [EndIf(b.group)] + post
    ensures AfterCond(pre, b) == |pre| + |Flatten(b.thn)| + 2 <= |program|
    ensures program[AfterCond(pre, b) - 1] == EndIf(b.group)
  {
    var body := pre + [IfOf(b)] + Flatten(b.thn);
    assert body + [] == body;
    LiesAt(body, EndIf(b.group), post);
  }

  /** From the mark of the other branch, a list goes on after the end of that branch. */
  lemma LeaveByElse(program: seq<Action>, body: seq<Action>, g: Group, els: Block, post: seq<Action>, f: Flat, w: World)
    requires program == (body + [Otherwise(g)]) + Flatten(els) + ([EndIf(g)] + post)
    requires WellFormed(els) && g !in Groups(els) && f.pc == |body| && f.machine.status.Running?
    ensures Tick(program, f, w) == f.(pc := |body| + |Flatten(els)| + 2)
  {
    var mark := body + [Otherwise(g)];
    Associates(mark + Flatten(els), [EndIf(g)], post);
    AfterBlock(program, mark, els, EndIf(g), post, g, false);
    Associates(mark, Flatten(els), [EndIf(g)] + post);
    LiesAt(body, Otherwise(g), Flatten(els) + ([EndIf(g)] + post));
    OtherwiseTick(program, f, g, w);
  }

  lemma LiesAt(pre: seq<Action>, a: Action, post: seq<Action>)
    ensures (pre + [a] + post)[|pre|] == a
  {}

  lemma OtherwiseTick(program: seq<Action>, f: Flat, g: Group, w: World)
    requires f.pc < |program| && program[f.pc] == Otherwise(g) && f.machine.status.Running?
    ensures Tick(program, f, w) == f.(pc := After(program, f.pc + 1, g, false))
  {}

  lemma EnterThen(program: seq<Action>, pre: seq<Action>, b: Block, post: seq<Action>, f: Flat, w: World)
    requires b.Cond? && HoldsCond(program, pre, b, post)
    requires f.pc == |pre| && f.machine.status.Running?
    requires FirstUnbound(f.machine, Needs(IfOf(b))).None? && Holds(IfOf(b), f.machine, CurrentItem(f.frames), w)
    ensures Tick(program, f, w) == f.(pc := |pre| + 1)
  {
    assert program[|pre|] == IfOf(b);
  }

  /** A failed condition goes to its other branch, or past its end. */
  lemma EnterElse(program: seq<Action>, pre: seq<Action>, b: Block, post: seq<Action>, f: Flat, w: World)
    requires b.Cond? && WellFormed(b) && HoldsCond(program, pre, b, post)
    requires f.pc == |pre| && f.machine.status.Running?
    requires FirstUnbound(f.machine, Needs(IfOf(b))).None? && !Holds(IfOf(b), f.machine, CurrentItem(f.frames), w)
    ensures Tick(program, f, w) == f.(pc := |pre| + |Flatten(b.thn)| + 2)
  {
    assert program[|pre|] == IfOf(b);
    if b.hasElse {
      ElseLies(program, pre, b, post);
      AfterBlock(program, pre + [IfOf(b)], b.thn, Otherwise(b.group), Flatten(b.els) + [EndIf(b.group)] + post,
                 b.group, true);
    } else {
      EndLies(program, pre, b, post);
      AfterBlock(program, pre + [IfOf(b)], b.thn, EndIf(b.group), post, b.group, true);
    }
  }

  lemma ElseLies(program: seq<Action>, pre: seq<Action>, b: Block, post: seq<Action>)
    requires b.Cond? && b.hasElse && HoldsCond(program, pre, b, post)
    ensures program == (pre + [IfOf(b)]) + Flatten(b.thn) + [Otherwise(b.group)]
                       + (Flatten(b.els) + [EndIf(b.group)] + post)
    ensures program == (pre + [IfOf(b)] + Flatten(b.thn) + [Otherwise(b.group)]) + Flatten(b.els)
                       + ([EndIf(b.group)] + post)
    ensures AfterCond(pre, b) == |pre| + |Flatten(b.thn)| + |Flatten(b.els)| + 3 <= |program|
    ensures program[AfterCond(pre, b) - 1] == EndIf(b.group)
  {
    var p, other, els, end := pre + [IfOf(b)] + Flatten(b.thn), [Otherwise(b.group)], Flatten(b.els), [EndIf(b.group)];
    var q := p + other;
    Associates(p, other, els);
    Associates(q + els, end, post);
    Associates(q, els + end, post);
    Associates(q, els, end);
    assert (q + els + end)[|q + els|] == EndIf(b.group);
  }

  lemma ThenLies(program: seq<Action>, pre: seq<Action>, b: Block, post: seq<Action>)
    requires b.Cond? && HoldsCond(program, pre, b, post)
    ensures program == (pre + [IfOf(b)]) + Flatten(b.thn) + (ElsePart(b) + [EndIf(b.group)] + post)
  {
    var p := pre + [IfOf(b)] + Flatten(b.thn);
    Associates(p, ElsePart(b) + [EndIf(b.group)], post);
    Associates(p, ElsePart(b), [EndIf(b.group)]);
  }

  lemma {:induction false} TakesThen(program: seq<Action>, pre: seq<Action>, b: Block, post: seq<Action>,
                                     f: Flat, w: World) returns (n: nat)
    requires b.Cond? && WellFormed(b) && HoldsCond(program, pre, b, post)
    requires f.pc == |pre| && f.machine.status.Running?
    requires FirstUnbound(f.machine, Needs(IfOf(b))).None? && Holds(IfOf(b), f.machine, CurrentItem(f.frames), w)
    ensures Reaches(program, f, w, n, Execute(b.thn, f.machine, CurrentItem(f.frames), w),
                    AfterCond(pre, b), f.frames)
    decreases b.thn, 2
  {
    var g, mark := f.(pc := |pre| + 1), pre + [IfOf(b)];
    var r, at := Execute(b.thn, f.machine, CurrentItem(f.frames), w), |mark| + |Flatten(b.thn)|;
    EnterThen(program, pre, b, post, f, w);
    ThenLies(program, pre, b, post);
    n := Simulates(program, mark, b.thn, ElsePart(b) + [EndIf(b.group)] + post, g, w);
    assert Reaches(program, g, w, n, r, at, f.frames);
    n := LeavesThen(program, pre, b, post, f, g, r, n, w);
  }

  lemma LeavesThen(program: seq<Action>, pre: seq<Action>, b: Block, post: seq<Action>, f: Flat, g: Flat, r: Machine,
                   n: nat, w: World) returns (n': nat)
    requires b.Cond? && WellFormed(b) && HoldsCond(program, pre, b, post)
    requires Tick(program, f, w) == g && g.frames == f.frames
    requires Reaches(program, g, w, n, r, |pre| + 1 + |Flatten(b.thn)|, f.frames)
    ensures Reaches(program, f, w, n', r, AfterCond(pre, b), f.frames)
  {
    if r.status.Running? { LeaveThen(program, pre, b, post, r, f.frames, w); }
    n' := AroundTicks(program, f, g, w, n, r, |pre| + 1 + |Flatten(b.thn)|, AfterCond(pre, b));
  }

  /** A tick before and a tick after. */
  lemma AroundTicks(program: seq<Action>, f: Flat, g: Flat, w: World, n: nat, r: Machine, at: nat, end: nat)
    returns (n': nat)
    requires Tick(program, f, w) == g && g.frames == f.frames
    requires Reaches(program, g, w, n, r, at, f.frames)
    requires r.status.Running? ==> Tick(program, Flat(r, at, f.frames), w) == Flat(r, end, f.frames)
    ensures Reaches(program, f, w, n', r, end, f.frames)
  {
    OneTick(program, Flat(r, at, f.frames), w);
    Chain(program, g, w, n, r, at, f.frames, 1, r, end, f.frames);
    TickThen(program, f, w, n + 1, r, end, f.frames);
    n' := n + 2;
  }

  lemma {:induction false} TakesElse(program: seq<Action>, pre: seq<Action>, b: Block, post: seq<Action>,
                                     f: Flat, w: World) returns (n: nat)
    requires b.Cond? && WellFormed(b) && HoldsCond(program, pre, b, post)
    requires f.pc == |pre| && f.machine.status.Running?
    requires FirstUnbound(f.machine, Needs(IfOf(b))).None? && !Holds(IfOf(b), f.machine, CurrentItem(f.frames), w)
    ensures Reaches(program, f, w, n,
                    if b.hasElse then Execute(b.els, f.machine, CurrentItem(f.frames), w) else f.machine,
                    AfterCond(pre, b), f.frames)
    decreases b.els, 3
  {
    EnterElse(program, pre, b, post, f, w);
    if b.hasElse {
      ElseLies(program, pre, b, post);
      var mark := pre + [IfOf(b)] + Flatten(b.thn) + [Otherwise(b.group)];
      n := TakesOtherwise(program, mark, b.els, b.group, post, f, w);
    } else {
      OneTick(program, f, w);
      n := 1;
    }
  }

  lemma {:induction false} TakesOtherwise(program: seq<Action>, mark: seq<Action>, els: Block, g: Group,
                                          post: seq<Action>, f: Flat, w: World) returns (n: nat)
    requires program == mark + Flatten(els) + ([EndIf(g)] + post) && WellFormed(els)
    requires Tick(program, f, w) == f.(pc := |mark|) && f.machine.status.Running?
    ensures Reaches(program, f, w, n, Execute(els, f.machine, CurrentItem(f.frames), w),
                    |mark| + |Flatten(els)| + 1, f.frames)
    decreases els, 2
  {
    var start, at := f.(pc := |mark|), |mark| + |Flatten(els)|;
    var r := Execute(els, f.machine, CurrentItem(f.frames), w);
    n := Simulates(program, mark, els, [EndIf(g)] + post, start, w);
    assert program[at] == EndIf(g);
    if r.status.Running? { EndIfTick(program, Flat(r, at, f.frames), g, w); }
    n := AroundTicks(program, f, start, w, n, r, at, at + 1);
  }

  lemma EndIfTick(program: seq<Action>, f: Flat, g: Group, w: World)
    requires f.pc < |program| && program[f.pc] == EndIf(g) && f.machine.status.Running?
    ensures Tick(program, f, w) == f.(pc := f.pc + 1)
  {}

  lemma {:induction false} SimulatesEach(program: seq<Action>, pre: seq<Action>, b: Block, post: seq<Action>,
                                         f: Flat, w: World) returns (n: nat)
    requires program == pre + Flatten(b) + post && WellFormed(b) && b.Each?
    requires f.pc == |pre| && f.machine.status.Running?
    ensures Reaches(program, f, w, n, Execute(b, f.machine, CurrentItem(f.frames), w),
                    |pre| + |Flatten(b)|, f.frames)
    decreases b, 0
  {
    var item, m := CurrentItem(f.frames), f.machine;
    var inside := pre + [Repeat(b.group, b.over)];
    var before := inside + Flatten(b.body) + [EndRepeat(b.group)];
    EachLies(program, pre, b, post);
    assert program[|pre|] == Repeat(b.group, b.over);
    OneTick(program, f, w);
    if b.over !in m.env { return 1; }
    var middle := ExecuteEach(b.body, ItemsOf(m.env[b.over]), m, w);
    n := RepeatRuns(program, pre, b, Flatten(b.rest) + post, f, w);
    n := ThenRest(program, before, b.rest, post, f, w, n, middle);
  }

  lemma EachLies(program: seq<Action>, pre: seq<Action>, b: Block, post: seq<Action>)
    requires program == pre + Flatten(b) + post && b.Each?
    ensures program == pre + [Repeat(b.group, b.over)] + Flatten(b.body) + [EndRepeat(b.group)]
                       + (Flatten(b.rest) + post)
    ensures program == pre + [Repeat(b.group, b.over)] + Flatten(b.body) + [EndRepeat(b.group)]
                       + Flatten(b.rest) + post
    ensures |Flatten(b)| == |Flatten(b.body)| + 2 + |Flatten(b.rest)|
  {
    var start, end := [Repeat(b.group, b.over)], [EndRepeat(b.group)];
    assert start + Flatten(b.body) + end + [] == start + Flatten(b.body) + end;
    assert pre + start + Flatten(b.body) + end + [] == pre + start + Flatten(b.body) + end;
    assert Flatten(b) == start + Flatten(b.body) + end + [] + Flatten(b.rest);
    Regroup(pre, start, Flatten(b.body), end, [], Flatten(b.rest), post);
  }

  lemma {:induction false} RepeatRuns(program: seq<Action>, pre: seq<Action>, b: Block, post: seq<Action>,
                                  f: Flat, w: World) returns (n: nat)
    requires b.Each? && WellFormed(b)
    requires program == pre + [Repeat(b.group, b.over)] + Flatten(b.body) + [EndRepeat(b.group)] + post
    requires f.pc == |pre| && f.machine.status.Running? && b.over in f.machine.env
    ensures Reaches(program, f, w, n, ExecuteEach(b.body, ItemsOf(f.machine.env[b.over]), f.machine, w),
                    |pre| + |Flatten(b.body)| + 2, f.frames)
    decreases b.body, 3
  {
    var inside := pre + [Repeat(b.group, b.over)];
    var items := ItemsOf(f.machine.env[b.over]);
    var end := |pre| + |Flatten(b.body)| + 2;
    assert program[|pre|] == Repeat(b.group, b.over);
    assert FirstUnbound(f.machine, Needs(program[|pre|])).None?;
    if items == [] {
      AfterBlock(program, inside, b.body, EndRepeat(b.group), post, b.group, false);
      OneTick(program, f, w);
      n := 1;
    } else {
      n := SimulatesItems(program, inside, b.group, b.body, post, f.machine, f.frames, items, w);
      assert Tick(program, f, w) == Flat(f.machine, |inside|, f.frames + [Frame(|inside|, items[1..], items[0])]);
      TickThen(program, f, w, n, ExecuteEach(b.body, items, f.machine, w), end, f.frames);
      n := n + 1;
    }
  }

  /** The passes of a repeat, from the start of its body with the frame of its first item. */
  lemma {:induction false} SimulatesItems(program: seq<Action>, inside: seq<Action>, g: Group, body: Block,
                                          post: seq<Action>, m: Machine, outer: seq<Frame>, items: seq<string>,
                                          w: World) returns (n: nat)
    requires program == inside + Flatten(body) + [EndRepeat(g)] + post && WellFormed(body)
    requires items != [] && m.status.Running?
    ensures Reaches(program, Flat(m, |inside|, outer + [Frame(|inside|, items[1..], items[0])]), w, n,
                    ExecuteEach(body, items, m, w), |inside| + |Flatten(body)| + 1, outer)
    decreases body, 2, 2 * |items| + 1
  {
    var frames := outer + [Frame(|inside|, items[1..], items[0])];
    n := OnePass(program, inside, g, body, post, m, frames, w);
    assert ExecuteEach(body, items, m, w) == ExecuteEach(body, items[1..], Execute(body, m, items[0], w), w);
    n := OtherPasses(program, inside, g, body, post, Flat(m, |inside|, frames), Execute(body, m, items[0], w), outer,
                     items, n, w);
  }

  /** After the first pass, the others. */
  lemma {:induction false} OtherPasses(program: seq<Action>, inside: seq<Action>, g: Group, body: Block,
                                       post: seq<Action>, f: Flat, r: Machine, outer: seq<Frame>, items: seq<string>,
                                       n: nat, w: World) returns (n': nat)
    requires program == inside + Flatten(body) + [EndRepeat(g)] + post && WellFormed(body) && items != []
    requires Reaches(program, f, w, n, r, |inside| + |Flatten(body)|,
                     outer + [Frame(|inside|, items[1..], items[0])])
    ensures Reaches(program, f, w, n', ExecuteEach(body, items[1..], r, w), |inside| + |Flatten(body)| + 1, outer)
    decreases body, 2, 2 * |items|
  {
    var frames, at := outer + [Frame(|inside|, items[1..], items[0])], |inside| + |Flatten(body)|;
    var result := ExecuteEach(body, items[1..], r, w);
    var h, k := Flat(r, at + 1, outer), 0;
    if r.status.Running? {
      EndOfPass(program, inside, g, body, post, r, outer, items, w);
      if |items| > 1 {
        h := Flat(r, |inside|, outer + [Frame(|inside|, items[1..][1..], items[1])]);
        k := SimulatesItems(program, inside, g, body, post, r, outer, items[1..], w);
      }
    }
    n' := PassThenMore(program, f, w, n, r, at, frames, h, k, result, outer);
  }

  lemma {:induction false} OnePass(program: seq<Action>, inside: seq<Action>, g: Group, body: Block,
                                   post: seq<Action>, m: Machine, frames: seq<Frame>, w: World) returns (n: nat)
    requires program == inside + Flatten(body) + [EndRepeat(g)] + post && WellFormed(body)
    requires m.status.Running?
    ensures Reaches(program, Flat(m, |inside|, frames), w, n, Execute(body, m, CurrentItem(frames), w),
                    |inside| + |Flatten(body)|, frames)
    decreases body, 2, 0
  {
    Associates(inside + Flatten(body), [EndRepeat(g)], post);
    n := Simulates(program, inside, body, [EndRepeat(g)] + post, Flat(m, |inside|, frames), w);
  }

  lemma PassThenMore(program: seq<Action>, f: Flat, w: World, n: nat, r: Machine, at: nat, frames: seq<Frame>,
                     h: Flat, k: nat, result: Machine, outer: seq<Frame>) returns (n': nat)
    requires Reaches(program, f, w, n, r, at, frames)
    requires r.status.Running? ==>
               Tick(program, Flat(r, at, frames), w) == h && Reaches(program, h, w, k, result, at + 1, outer)
    requires !r.status.Running? ==> result == r
    ensures Reaches(program, f, w, n', result, at + 1, outer)
  {
    n' := n;
    if r.status.Running? {
      TickThen(program, Flat(r, at, frames), w, k, result, at + 1, outer);
      n' := n + k + 1;
      Chain(program, f, w, n, r, at, frames, k + 1, result, at + 1, outer);
    }
  }

  /** The end of a pass goes back to the body for the next item, or past the repeat. */
  lemma EndOfPass(program: seq<Action>, inside: seq<Action>, g: Group, body: Block, post: seq<Action>,
                  r: Machine, outer: seq<Frame>, items: seq<string>, w: World)
    requires program == inside + Flatten(body) + [EndRepeat(g)] + post && items != [] && r.status.Running?
    ensures var at := |inside| + |Flatten(body)|;
            Tick(program, Flat(r, at, outer + [Frame(|inside|, items[1..], items[0])]), w)
            == if |items| == 1 then Flat(r, at + 1, outer)
               else Flat(r, |inside|, outer + [Frame(|inside|, items[1..][1..], items[1])])
  {
    var at, top := |inside| + |Flatten(body)|, Frame(|inside|, items[1..], items[0]);
    LiesAt(inside + Flatten(body), EndRepeat(g), post);
    EndRepeatTick(program, Flat(r, at, outer + [top]), g, top, outer, w);
  }

  lemma EndRepeatTick(program: seq<Action>, f: Flat, g: Group, top: Frame, outer: seq<Frame>, w: World)
    requires f.pc < |program| && program[f.pc] == EndRepeat(g) && f.machine.status.Running?
    requires f.frames == outer + [top]
    ensures Tick(program, f, w)
         == if top.left == [] then f.(pc := f.pc + 1, frames := outer)
            else f.(pc := top.body, frames := outer + [Frame(top.body, top.left[1..], top.left[0])])
  {
    assert f.frames[..|f.frames| - 1] == outer;
  }
}
