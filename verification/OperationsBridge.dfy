/** The Background Operations bridge: the builder's functions, the program it emits, and the gate that
    every mutating action of it is behind. */
module OperationsBridge {
  import opened Wrappers
  import opened Shortcut
  import opened ShortcutMeaning

  const READY := "APPLE_NOTES_BACKGROUND_V5_READY"
  const DONE := "APPLE_NOTES_BACKGROUND_V5_DONE"
  const REFUSED := "APPLE_NOTES_BACKGROUND_V5_REFUSED"

  const KEYS := [Operation, Title, ScopeText, Text, ObjectId, ObjectName, Change, OtherTitle, OtherScope, Tag, Size]

  // ---------- The builder ----------

  function Condition(group: Group, source: Label, value: TextSource, mode: Mode): Action {
    If(group, source, mode, value)
  }

  function End(group: Group): Action {
    EndIf(group)
  }

  function AppendAction(id: Label, source: Label, markdown: bool): Action {
    Native(id, Append(markdown), Some(OutputOf(source)), Some(Found))
  }

  function GetProperty(id: Label, of: Label, property: Property): Action {
    GetText(id, PropertyOf(of, property))
  }

  function Select(target: Label, title: Label, scope: Label): seq<Action> {
    [FindNotes(target, title, scope),
     CountItems(Part(target, CountOf), target),
     GetText(Part(target, CountText), OutputOf(Part(target, CountOf))),
     Condition(Part(target, One), Part(target, CountText), Literal("1"), Is),
     GetProperty(Part(target, NameOf), target, Name),
     Condition(Part(target, ExactName), Part(target, NameOf), OutputOf(title), Is),
     GetProperty(Part(target, BodyOf), target, Body),
     Condition(Part(target, ExactBody), Part(target, BodyOf), OutputOf(scope), Contains)]
  }

  function CloseSelect(target: Label): seq<Action> {
    [End(Part(target, ExactBody)), End(Part(target, ExactName)), End(Part(target, One))]
  }

  /** The branches, each with the block that its steps are. */
  function Branches(): seq<(string, Block)> {
    [("probe", Do(GetText(Step("probe", 1), Literal(READY)), Skip)),
     ("append-text", Do(AppendAction(Step("append-text", 1), Field(Text), false), Skip)),
     ("append-markdown", Do(AppendAction(Step("append-markdown", 1), Field(Text), true), Skip)),
     ("create-checklist-item",
      Do(Native(Step("create-checklist-item", 1), CreateChecklistItem, Some(OutputOf(Field(Text))), Some(Found)),
         Skip)),
     ("append-html",
      Do(RichText(Step("append-html", 1), Field(Text)),
      Do(AppendAction(Step("append-html", 2), Step("append-html", 1), false), Skip))),
     ("set-pinned", SetPinned()),
     ("add-tag", TagSteps("add-tag", AddTags)),
     ("remove-tag", TagSteps("remove-tag", RemoveTags))]
  }

  function SetPinned(): Block {
    var op := "set-pinned";
    Cond(Step(op, 1), Field(Change), Is, Literal("add"),
         Do(Native(Step(op, 2), Pin(true), None, Some(Found)), Skip), false, Skip,
    Cond(Step(op, 3), Field(Change), Is, Literal("remove"),
         Do(Native(Step(op, 4), Pin(false), None, Some(Found)), Skip), false, Skip, Skip))
  }

  function TagSteps(op: string, kind: Kind): Block {
    Do(Native(Step(op, 1), CreateTag, Some(OutputOf(Field(Tag))), None),
    Do(Native(Step(op, 2), kind, Some(OutputOf(Step(op, 1))), Some(Found)), Skip))
  }

  function SuccessText(op: string): string {
    if op == "probe" then READY else DONE
  }

  /** The builder's own loops over the keys and the branches, appending to one list. */
  method Build() returns (a: seq<Action>)
    ensures a == Flatten(Program())
  {
    a := [Comment, DetectDictionary(RequestDictionary)];
    a := AppendKeys(a);
    a := a + Select(Found, Field(Title), Field(ScopeText));
    a := AppendBranches(a, Branches());
    a := a + CloseSelect(Found);
    a := a + [GetText(Refusal, Literal(REFUSED)), StopWithOutput(Refusal)];
    ProgramFlat();
  }

  method AppendKeys(before: seq<Action>) returns (a: seq<Action>)
    ensures a == before + KeyActions(KEYS)
  {
    a := before;
    for i := 0 to |KEYS|
      invariant a == before + KeyActions(KEYS[..i])
    {
      assert KEYS[..i + 1] == KEYS[..i] + [KEYS[i]];
      KeyActionsSnoc(KEYS[..i], KEYS[i]);
      a := a + [GetValue(RawValue(KEYS[i]), RequestDictionary, KEYS[i])];
      a := a + [GetText(Field(KEYS[i]), OutputOf(RawValue(KEYS[i])))];
    }
    assert KEYS[..|KEYS|] == KEYS;
  }

  method AppendBranches(before: seq<Action>, ops: seq<(string, Block)>) returns (a: seq<Action>)
    ensures a == before + BranchActions(ops)
  {
    a := before;
    for i := 0 to |ops|
      invariant a == before + BranchActions(ops[..i])
    {
      assert ops[..i + 1] == ops[..i] + [ops[i]];
      BranchActionsSnoc(ops[..i], ops[i]);
      a := AppendBranch(a, ops[i].0, ops[i].1);
    }
    assert ops[..|ops|] == ops;
  }

  method AppendBranch(before: seq<Action>, op: string, steps: Block) returns (a: seq<Action>)
    ensures a == before + BranchAction((op, steps))
  {
    a := before + [Condition(Step(op, 0), Field(Operation), Literal(op), Is)] + Flatten(steps);
    a := a + [GetText(Success(op), Literal(SuccessText(op)))];
    a := a + [StopWithOutput(Success(op))];
    a := a + [End(Step(op, 0))];
  }

  // ---------- The program as a block ----------

  function KeysBlock(keys: seq<Key>, rest: Block): Block {
    if keys == [] then rest
    else
      Do(GetValue(RawValue(keys[0]), RequestDictionary, keys[0]),
      Do(GetText(Field(keys[0]), OutputOf(RawValue(keys[0]))), KeysBlock(keys[1..], rest)))
  }

  function BranchesBlock(ops: seq<(string, Block)>): Block {
    if ops == [] then Skip
    else
      var (op, steps) := ops[0];
      Cond(Step(op, 0), Field(Operation), Is, Literal(op), Then(steps, Finish(op)), false, Skip,
           BranchesBlock(ops[1..]))
  }

  function Finish(op: string): Block {
    Do(GetText(Success(op), Literal(SuccessText(op))), Do(StopWithOutput(Success(op)), Skip))
  }

  /** One block after another. */
  function Then(b: Block, c: Block): Block {
    match b
    case Skip => c
    case Do(a, rest) => Do(a, Then(rest, c))
    case Cond(g, source, mode, value, thn, hasElse, els, rest) =>
      Cond(g, source, mode, value, thn, hasElse, els, Then(rest, c))
    case Each(g, over, body, rest) => Each(g, over, body, Then(rest, c))
  }

  function Gate(inner: Block, rest: Block): Block {
    Do(FindNotes(Found, Field(Title), Field(ScopeText)),
    Do(CountItems(Part(Found, CountOf), Found),
    Do(GetText(Part(Found, CountText), OutputOf(Part(Found, CountOf))),
    Cond(Part(Found, One), Part(Found, CountText), Is, Literal("1"), NameGate(inner), false, Skip, rest))))
  }

  function NameGate(inner: Block): Block {
    Do(GetProperty(Part(Found, NameOf), Found, Name),
    Cond(Part(Found, ExactName), Part(Found, NameOf), Is, OutputOf(Field(Title)), BodyGate(inner), false, Skip, Skip))
  }

  function BodyGate(inner: Block): Block {
    Do(GetProperty(Part(Found, BodyOf), Found, Body),
    Cond(Part(Found, ExactBody), Part(Found, BodyOf), Contains, OutputOf(Field(ScopeText)), inner, false, Skip, Skip))
  }

  function RefuseBlock(): Block {
    Do(GetText(Refusal, Literal(REFUSED)), Do(StopWithOutput(Refusal), Skip))
  }

  function ProgramOf(keys: seq<Key>, ops: seq<(string, Block)>): Block {
    Do(Comment, Do(DetectDictionary(RequestDictionary), KeysBlock(keys, Gate(BranchesBlock(ops), RefuseBlock()))))
  }

  function Program(): Block {
    ProgramOf(KEYS, Branches())
  }

  // ---------- The builder emits the program ----------

  function KeyActions(keys: seq<Key>): seq<Action> {
    if keys == [] then []
    else [GetValue(RawValue(keys[0]), RequestDictionary, keys[0]),
          GetText(Field(keys[0]), OutputOf(RawValue(keys[0])))] + KeyActions(keys[1..])
  }

  lemma {:induction false} KeyActionsSnoc(keys: seq<Key>, k: Key)
    ensures KeyActions(keys + [k]) == KeyActions(keys)
              + [GetValue(RawValue(k), RequestDictionary, k), GetText(Field(k), OutputOf(RawValue(k)))]
    decreases |keys|
  {
    if keys == [] {
      assert [k][1..] == [];
    } else {
      assert (keys + [k])[1..] == keys[1..] + [k];
      KeyActionsSnoc(keys[1..], k);
    }
  }

  function BranchAction(op: (string, Block)): seq<Action> {
    [Condition(Step(op.0, 0), Field(Operation), Literal(op.0), Is)] + Flatten(op.1)
    + [GetText(Success(op.0), Literal(SuccessText(op.0)))]
    + [StopWithOutput(Success(op.0))]
    + [End(Step(op.0, 0))]
  }

  function BranchActions(ops: seq<(string, Block)>): seq<Action> {
    if ops == [] then [] else BranchAction(ops[0]) + BranchActions(ops[1..])
  }

  lemma {:induction false} BranchActionsSnoc(ops: seq<(string, Block)>, op: (string, Block))
    ensures BranchActions(ops + [op]) == BranchActions(ops) + BranchAction(op)
    decreases |ops|
  {
    if ops == [] {
      assert [op][1..] == [];
    } else {
      assert (ops + [op])[1..] == ops[1..] + [op];
      BranchActionsSnoc(ops[1..], op);
    }
  }

  lemma {:induction false} FlattenThen(b: Block, c: Block)
    ensures Flatten(Then(b, c)) == Flatten(b) + Flatten(c)
    decreases b
  {
    match b
    case Skip =>
    case Do(a, rest) =>
      FlattenThen(rest, c);
      Associates([a], Flatten(rest), Flatten(c));
    case Cond(g, source, mode, value, thn, hasElse, els, rest) =>
      FlattenThen(rest, c);
      var other := if hasElse then [Otherwise(g)] + Flatten(els) else [];
      Associates([If(g, source, mode, value)] + Flatten(thn) + other + [EndIf(g)], Flatten(rest), Flatten(c));
    case Each(g, over, body, rest) =>
      FlattenThen(rest, c);
      Associates([Repeat(g, over)] + Flatten(body) + [EndRepeat(g)], Flatten(rest), Flatten(c));
  }

  lemma {:induction false} FlattenKeys(keys: seq<Key>, rest: Block)
    ensures Flatten(KeysBlock(keys, rest)) == KeyActions(keys) + Flatten(rest)
    decreases |keys|
  {
    if keys != [] {
      FlattenKeys(keys[1..], rest);
    }
  }

  lemma FlattenPlainCond(g: Group, source: Label, mode: Mode, value: TextSource, thn: Block, rest: Block)
    ensures Flatten(Cond(g, source, mode, value, thn, false, Skip, rest))
         == [If(g, source, mode, value)] + Flatten(thn) + [EndIf(g)] + Flatten(rest)
  {}

  lemma FlattenTwo(a: Action, b: Action)
    ensures Flatten(Do(a, Do(b, Skip))) == [a, b]
  {
    assert Flatten(Do(b, Skip)) == [b] + [];
  }

  lemma {:induction false} FlattenBranches(ops: seq<(string, Block)>)
    ensures Flatten(BranchesBlock(ops)) == BranchActions(ops)
    decreases |ops|
  {
    if ops != [] {
      var (op, steps) := ops[0];
      FlattenThen(steps, Finish(op));
      FlattenBranches(ops[1..]);
      FlattenTwo(GetText(Success(op), Literal(SuccessText(op))), StopWithOutput(Success(op)));
      FlattenPlainCond(Step(op, 0), Field(Operation), Is, Literal(op), Then(steps, Finish(op)),
                       BranchesBlock(ops[1..]));
      assert BranchAction(ops[0]) == [Condition(Step(op, 0), Field(Operation), Literal(op), Is)]
                                     + Flatten(Then(steps, Finish(op))) + [End(Step(op, 0))];
    }
  }

  lemma FlattenGate(inner: Block, rest: Block)
    ensures Flatten(Gate(inner, rest))
         == Select(Found, Field(Title), Field(ScopeText)) + Flatten(inner) + CloseSelect(Found) + Flatten(rest)
  {
    var s, e := Select(Found, Field(Title), Field(ScopeText)), CloseSelect(Found);
    FlattenBodyGate(inner);
    FlattenNameGate(inner);
    FlattenOneGate(inner, rest);
    Nested(s[..3], s[3..4], s[4..6], s[6..], Flatten(inner), e[..1], e[1..2], e[2..], Flatten(rest));
    SelectParts(s, e);
  }

  lemma SelectParts(s: seq<Action>, e: seq<Action>)
    requires |s| == 8 && |e| == 3
    ensures s == s[..3] + s[3..4] + s[4..6] + s[6..] && e == e[..1] + e[1..2] + e[2..]
  {}

  lemma Nested<T>(a: seq<T>, b: seq<T>, c: seq<T>, d: seq<T>, inner: seq<T>, x: seq<T>, y: seq<T>, z: seq<T>,
                  rest: seq<T>)
    ensures a + (b + (c + (d + inner + x) + y) + z + rest) == (a + b + c + d) + inner + (x + y + z) + rest
  {}

  lemma FlattenOneGate(inner: Block, rest: Block)
    ensures Flatten(Gate(inner, rest))
         == [FindNotes(Found, Field(Title), Field(ScopeText)), CountItems(Part(Found, CountOf), Found),
             GetText(Part(Found, CountText), OutputOf(Part(Found, CountOf)))]
            + ([Condition(Part(Found, One), Part(Found, CountText), Literal("1"), Is)] + Flatten(NameGate(inner))
               + [End(Part(Found, One))] + Flatten(rest))
  {
    FlattenPlainCond(Part(Found, One), Part(Found, CountText), Is, Literal("1"), NameGate(inner), rest);
    var one := Cond(Part(Found, One), Part(Found, CountText), Is, Literal("1"), NameGate(inner), false, Skip, rest);
    ThreeThen(FindNotes(Found, Field(Title), Field(ScopeText)), CountItems(Part(Found, CountOf), Found),
              GetText(Part(Found, CountText), OutputOf(Part(Found, CountOf))), one);
  }

  lemma ThreeThen(a: Action, b: Action, c: Action, rest: Block)
    ensures Flatten(Do(a, Do(b, Do(c, rest)))) == [a, b, c] + Flatten(rest)
  {
    TwoThen(b, c, rest);
  }

  lemma FlattenBodyGate(inner: Block)
    ensures Flatten(BodyGate(inner))
         == Select(Found, Field(Title), Field(ScopeText))[6..] + Flatten(inner) + CloseSelect(Found)[..1]
  {
    FlattenPlainCond(Part(Found, ExactBody), Part(Found, BodyOf), Contains, OutputOf(Field(ScopeText)), inner, Skip);
  }

  lemma FlattenNameGate(inner: Block)
    ensures Flatten(NameGate(inner))
         == Select(Found, Field(Title), Field(ScopeText))[4..6] + Flatten(BodyGate(inner))
            + CloseSelect(Found)[1..2]
  {
    FlattenPlainCond(Part(Found, ExactName), Part(Found, NameOf), Is, OutputOf(Field(Title)), BodyGate(inner), Skip);
  }

  lemma ProgramFlat()
    ensures Flatten(Program())
         == [Comment, DetectDictionary(RequestDictionary)] + KeyActions(KEYS)
            + Select(Found, Field(Title), Field(ScopeText)) + BranchActions(Branches()) + CloseSelect(Found)
            + [GetText(Refusal, Literal(REFUSED)), StopWithOutput(Refusal)]
  {
    FlattenBranches(Branches());
    ProgramFlatAround(BranchesBlock(Branches()), KEYS);
  }

  lemma ProgramFlatAround(inner: Block, keys: seq<Key>)
    ensures Flatten(Do(Comment, Do(DetectDictionary(RequestDictionary), KeysBlock(keys, Gate(inner, RefuseBlock())))))
         == [Comment, DetectDictionary(RequestDictionary)] + KeyActions(keys)
            + Select(Found, Field(Title), Field(ScopeText)) + Flatten(inner) + CloseSelect(Found)
            + [GetText(Refusal, Literal(REFUSED)), StopWithOutput(Refusal)]
  {
    FlattenGate(inner, RefuseBlock());
    FlattenKeys(keys, Gate(inner, RefuseBlock()));
    FlattenTwo(GetText(Refusal, Literal(REFUSED)), StopWithOutput(Refusal));
    TwoThen(Comment, DetectDictionary(RequestDictionary), KeysBlock(keys, Gate(inner, RefuseBlock())));
    Regrouped([Comment, DetectDictionary(RequestDictionary)], KeyActions(keys),
              Select(Found, Field(Title), Field(ScopeText)), Flatten(inner), CloseSelect(Found),
              [GetText(Refusal, Literal(REFUSED)), StopWithOutput(Refusal)]);
  }

  lemma Regrouped<T>(a: seq<T>, b: seq<T>, c: seq<T>, d: seq<T>, e: seq<T>, f: seq<T>)
    ensures a + (b + (c + d + e + f)) == a + b + c + d + e + f
  {}

  lemma TwoThen(a: Action, b: Action, rest: Block)
    ensures Flatten(Do(a, Do(b, rest))) == [a, b] + Flatten(rest)
  {}
}
