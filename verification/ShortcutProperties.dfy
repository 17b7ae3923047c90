/** What holds of every block: its groups nest, and what its flat list has done at any moment is the beginning
    of what the block does. */
module ShortcutProperties {
  import opened Wrappers
  import opened Shortcut
  import opened ShortcutMeaning

  // ---------- Whole programs ----------

  function Ended(m: Machine): Machine {
    if m.status.Running? then m.(status := RanOff) else m
  }

  function Begin(): Flat {
    Flat(Shortcut.START, 0, [])
  }

  /** The flat list of a block, run on its own, halts with the block's result. */
  lemma RunsAsBlock(b: Block, w: World) returns (n: nat)
    requires WellFormed(b)
    ensures Iterate(Flatten(b), Begin(), w, n).machine == Ended(Execute(b, Shortcut.START, "", w))
  {
    var program := Flatten(b);
    assert program == [] + Flatten(b) + [];
    n := Simulates(program, [], b, [], Begin(), w);
    var g := Iterate(program, Begin(), w, n);
    IterateSum(program, Begin(), w, n, 1);
    OneTick(program, g, w);
    n := n + 1;
  }

  lemma TickGrows(program: seq<Action>, f: Flat, w: World)
    ensures f.machine.log <= Tick(program, f, w).machine.log
  {
    if f.machine.status.Running? && f.pc < |program| {
      var a := program[f.pc];
      if a.IsControl() {
        assert Tick(program, f, w).machine.log == f.machine.log;
      } else {
        PerformGrows(a, f.machine, CurrentItem(f.frames), w);
      }
    }
  }

  lemma PerformGrows(a: Action, m: Machine, item: string, w: World)
    requires !a.IsControl() && m.status.Running?
    ensures m.log <= Perform(a, m, item, w).log
  {}

  lemma {:induction false} LogGrows(program: seq<Action>, f: Flat, w: World, n: nat)
    ensures f.machine.log <= Iterate(program, f, w, n).machine.log
    decreases n
  {
    if n > 0 {
      TickGrows(program, f, w);
      LogGrows(program, Tick(program, f, w), w, n - 1);
    }
  }

  /** So at every moment of a run, what was done so far is the beginning of what the block does; and a run
      that has halted has halted with the block's result. */
  lemma EveryMoment(b: Block, w: World, k: nat)
    requires WellFormed(b)
    ensures var result := Ended(Execute(b, Shortcut.START, "", w));
            var m := Iterate(Flatten(b), Begin(), w, k).machine;
            && m.log <= result.log
            && (!m.status.Running? ==> m == result)
  {
    var n := RunsAsBlock(b, w);
    var program := Flatten(b);
    var at := Iterate(program, Begin(), w, k);
    if k <= n {
      IterateSum(program, Begin(), w, k, n - k);
      LogGrows(program, at, w, n - k);
      if !at.machine.status.Running? { HaltedStays(program, at, w, n - k); }
    } else {
      IterateSum(program, Begin(), w, n, k - n);
      HaltedStays(program, Iterate(program, Begin(), w, n), w, k - n);
    }
  }

  // ---------- Nesting ----------

  /** The groups still open after a list, innermost last; None when one closes out of turn. */
  function OpenAfter(s: seq<Action>, open: seq<(Group, bool)>): Option<seq<(Group, bool)>> {
    if s == [] then Some(open)
    else
      match OpenAfterOne(s[0], open)
      case None => None
      case Some(next) => OpenAfter(s[1..], next)
  }

  function OpenAfterOne(a: Action, open: seq<(Group, bool)>): Option<seq<(Group, bool)>> {
    match a
    case If(g, _, _, _) => Some(open + [(g, true)])
    case Repeat(g, _) => Some(open + [(g, false)])
    case Otherwise(g) => if open != [] && open[|open| - 1] == (g, true) then Some(open) else None
    case EndIf(g) => if open != [] && open[|open| - 1] == (g, true) then Some(open[..|open| - 1]) else None
    case EndRepeat(g) => if open != [] && open[|open| - 1] == (g, false) then Some(open[..|open| - 1]) else None
    case _ => Some(open)
  }

  lemma {:induction false} OpenAfterConcat(s: seq<Action>, t: seq<Action>, open: seq<(Group, bool)>)
    requires OpenAfter(s, open).Some?
    ensures OpenAfter(s + t, open) == OpenAfter(t, OpenAfter(s, open).value)
    decreases |s|
  {
    if s == [] {
      assert s + t == t;
    } else {
      assert (s + t)[1..] == s[1..] + t;
      OpenAfterConcat(s[1..], t, OpenAfterOne(s[0], open).value);
    }
  }

  lemma OpenAfterSingle(a: Action, open: seq<(Group, bool)>)
    ensures OpenAfter([a], open) == OpenAfterOne(a, open)
  {}

  /** Every group of a flattened block closes in last-in, first-out order. */
  lemma {:induction false} GroupsNest(b: Block, open: seq<(Group, bool)>)
    requires WellFormed(b)
    ensures OpenAfter(Flatten(b), open) == Some(open)
    decreases b
  {
    match b
    case Skip =>
    case Do(a, rest) =>
      OpenAfterSingle(a, open);
      OpenAfterConcat([a], Flatten(rest), open);
      GroupsNest(rest, open);
    case Cond(g, source, mode, value, thn, hasElse, els, rest) =>
      var inner := open + [(g, true)];
      GroupsNest(thn, inner);
      GroupsNest(els, inner);
      GroupsNest(rest, open);
      ElseNests(g, hasElse, Flatten(els), inner);
      ConditionNests(IfOf(b), Flatten(thn), ElsePart(b), Flatten(rest), open, inner);
    case Each(g, over, body, rest) =>
      GroupsNest(body, open + [(g, false)]);
      GroupsNest(rest, open);
      Nested(Repeat(g, over), Flatten(body), EndRepeat(g), Flatten(rest), open, open + [(g, false)]);
  }

  lemma ConditionNests(first: Action, thn: seq<Action>, other: seq<Action>, rest: seq<Action>,
                       open: seq<(Group, bool)>, inner: seq<(Group, bool)>)
    requires first.If? && inner == open + [(first.group, true)]
    requires OpenAfter(thn, inner) == Some(inner) && OpenAfter(other, inner) == Some(inner)
    requires OpenAfter(rest, open) == Some(open)
    ensures OpenAfter([first] + thn + other + [EndIf(first.group)] + rest, open) == Some(open)
  {
    OpenAfterConcat(thn, other, inner);
    assert inner[..|inner| - 1] == open;
    assert [first] + (thn + other) == [first] + thn + other;
    Nested(first, thn + other, EndIf(first.group), rest, open, inner);
  }

  lemma ElseNests(g: Group, hasElse: bool, els: seq<Action>, inner: seq<(Group, bool)>)
    requires inner != [] && inner[|inner| - 1] == (g, true) && OpenAfter(els, inner) == Some(inner)
    ensures OpenAfter(if hasElse then [Otherwise(g)] + els else [], inner) == Some(inner)
  {
    OpenAfterSingle(Otherwise(g), inner);
    OpenAfterConcat([Otherwise(g)], els, inner);
  }

  /** What nests, between an action that opens a group and the one that closes it. */
  lemma Nested(first: Action, inside: seq<Action>, last: Action, rest: seq<Action>, open: seq<(Group, bool)>,
               inner: seq<(Group, bool)>)
    requires OpenAfterOne(first, open) == Some(inner) && OpenAfter(inside, inner) == Some(inner)
    requires OpenAfterOne(last, inner) == Some(open)
    requires OpenAfter(rest, open) == Some(open)
    ensures OpenAfter([first] + inside + [last] + rest, open) == Some(open)
  {
    OpenAfterSingle(first, open);
    OpenAfterConcat([first], inside, open);
    OpenAfterSingle(last, inner);
    OpenAfterConcat([first] + inside, [last], open);
    OpenAfterConcat([first] + inside + [last], rest, open);
  }
}
