/** What the Background Operations bridge does, for every request and every note store: exactly the
    mutations of the requested operation on the one note that the gate identifies, or none. */
module OperationsGate {
  import opened Wrappers
  import opened Shortcut
  import opened ShortcutMeaning
  import opened ShortcutProperties
  import opened OperationsBridge

  // ---------- What is wanted ----------

  /** The notes that the search finds for a request. */
  function FoundFor(w: World): seq<Note> {
    w.find(w.request.field(Title), w.request.field(ScopeText))
  }

  /** The gate: one note, with exactly the requested title and with the scope text in its body. */
  predicate Passes(w: World) {
    && |FoundFor(w)| == 1
    && FoundFor(w)[0].name == w.request.field(Title)
    && IsPart(w.request.field(ScopeText), FoundFor(w)[0].body)
  }

  const OPERATIONS := ["probe", "append-text", "append-markdown", "create-checklist-item", "append-html",
                       "set-pinned", "add-tag", "remove-tag"]

  /** The mutations that each operation stands for. */
  function Wanted(op: string, r: Request, n: Note): seq<Mutation> {
    var text, tag := Some(TextValue(r.field(Text))), r.field(Tag);
    if op == "append-text" then [Mutation(Step(op, 1), Append(false), text, [n])]
    else if op == "append-markdown" then [Mutation(Step(op, 1), Append(true), text, [n])]
    else if op == "create-checklist-item" then [Mutation(Step(op, 1), CreateChecklistItem, text, [n])]
    else if op == "append-html" then [Mutation(Step(op, 2), Append(false), Some(Rich(r.field(Text))), [n])]
    else if op == "set-pinned" then
      if r.field(Change) == "add" then [Mutation(Step(op, 2), Pin(true), None, [n])]
      else if r.field(Change) == "remove" then [Mutation(Step(op, 4), Pin(false), None, [n])]
      else []
    else if op == "add-tag" then
      [Mutation(Step(op, 1), CreateTag, Some(TextValue(tag)), []),
       Mutation(Step(op, 2), AddTags, Some(TagNamed(tag)), [n])]
    else if op == "remove-tag" then
      [Mutation(Step(op, 1), CreateTag, Some(TextValue(tag)), []),
       Mutation(Step(op, 2), RemoveTags, Some(TagNamed(tag)), [n])]
    else []
  }

  function WantedFor(w: World): seq<Mutation> {
    if Passes(w) then Wanted(w.request.field(Operation), w.request, FoundFor(w)[0]) else []
  }

  /** The answer of a run in which no action reports an error. */
  function Answer(w: World): string {
    if Passes(w) && w.request.field(Operation) in OPERATIONS then SuccessText(w.request.field(Operation))
    else REFUSED
  }

  ghost predicate Fails(w: World) {
    exists k :: w.breaks(k)
  }

  /** How a run may end: with its answer and all that is wanted, or, when an action reports an error, with
      the beginning of what is wanted. */
  ghost predicate Honest(m: Machine, w: World) {
    && m.log <= WantedFor(w)
    && ((m.status == Stopped(Answer(w)) && m.log == WantedFor(w)) || (m.status == Broke && Fails(w)))
  }

  // ---------- The steps of an operation ----------

  /** What the steps so far have put out. */
  type Made = map<Label, Value>

  const NOTHING: Made := map[]

  /** An input from a field of the request or from a step before. */
  predicate PlainInput(t: TextSource, made: set<Label>) {
    t.OutputOf? && ((t.id.Field? && t.id.key in KEYS) || (t.id.Step? && t.id in made))
  }

  predicate PlainStep(a: Action, made: set<Label>) {
    match a
    case GetText(id, text) => id.Step? && text.Literal?
    case RichText(id, html) => id.Step? && html.Field? && html.key in KEYS
    case Native(id, kind, input, notes) =>
      && id.Step? && (notes == None || notes == Some(Found))
      && (input.Some? ==> PlainInput(input.value, made))
      && (kind.CreateTag? ==> input.Some? && input.value.id.Field?)
    case _ => false
  }

  /** Steps that act on the found note or on none, decide only on a field of the request, and never stop. */
  predicate Plain(b: Block, made: set<Label>) {
    match b
    case Skip => true
    case Do(a, rest) => PlainStep(a, made) && Plain(rest, made + {a.id})
    case Cond(_, source, mode, value, thn, hasElse, els, rest) =>
      && source.Field? && source.key in KEYS && mode.Is? && value.Literal? && !hasElse && els.Skip?
      && Plain(thn, NOTHING.Keys) && Plain(rest, NOTHING.Keys)
    case Each(_, _, _, _) => false
  }

  function Given(t: TextSource, r: Request, made: Made): Value
    requires PlainInput(t, made.Keys)
  {
    if t.id.Field? then TextValue(r.field(t.id.key)) else made[t.id]
  }

  function MadeBy(a: Action, r: Request, made: Made): Value
    requires PlainStep(a, made.Keys)
  {
    match a
    case GetText(_, text) => TextValue(text.text)
    case RichText(_, html) => Rich(r.field(html.key))
    case Native(_, kind, input, _) => if kind.CreateTag? then TagNamed(r.field(input.value.id.key)) else Opaque
  }

  function EffectOf(a: Action, r: Request, n: Note, made: Made): seq<Mutation>
    requires PlainStep(a, made.Keys)
  {
    if !a.Native? then []
    else [Mutation(a.id, a.kind, if a.input.Some? then Some(Given(a.input.value, r, made)) else None,
                   if a.notes.Some? then [n] else [])]
  }

  function Effects(b: Block, r: Request, n: Note, made: Made): seq<Mutation>
    requires Plain(b, made.Keys)
  {
    match b
    case Skip => []
    case Do(a, rest) =>
      var next := made[a.id := MadeBy(a, r, made)];
      assert next.Keys == made.Keys + {a.id};
      EffectOf(a, r, n, made) + Effects(rest, r, n, next)
    case Cond(_, source, _, value, thn, _, _, rest) =>
      (if r.field(source.key) == value.text then Effects(thn, r, n, NOTHING) else []) + Effects(rest, r, n, NOTHING)
  }

  ghost predicate FieldsKnown(keys: seq<Key>, m: Machine, w: World) {
    forall k :: k in keys ==> Field(k) in m.env && m.env[Field(k)] == TextValue(w.request.field(k))
  }

  ghost predicate Targeted(m: Machine, w: World, n: Note, made: Made) {
    && FieldsKnown(KEYS, m, w) && Found in m.env && m.env[Found] == Notes([n])
    && forall l :: l in made ==> l in m.env && m.env[l] == made[l]
  }

  /** From `m`, a run got to `r` doing `effects`, or stopped on an error on the way. */
  ghost predicate Does(m: Machine, r: Machine, effects: seq<Mutation>, w: World) {
    && r.log <= m.log + effects
    && ((r.status.Running? && r.log == m.log + effects) || (r.status == Broke && Fails(w)))
  }

  lemma DoesBoth(m: Machine, r: Machine, s: Machine, x: seq<Mutation>, y: seq<Mutation>, w: World)
    requires Does(m, r, x, w)
    requires if r.status.Running? then Does(r, s, y, w) else s == r
    ensures Does(m, s, x + y, w)
  {
    assert m.log + (x + y) == (m.log + x) + y;
  }

  lemma StepDoes(a: Action, m: Machine, item: string, w: World, n: Note, made: Made)
    requires PlainStep(a, made.Keys) && m.status.Running? && Targeted(m, w, n, made)
    ensures var r := Perform(a, m, item, w);
            && Does(m, r, EffectOf(a, w.request, n, made), w)
            && (r.status.Running? ==> Targeted(r, w, n, made[a.id := MadeBy(a, w.request, made)]))
  {
    assert FirstUnbound(m, Needs(a)).None?;
    assert m.log + [] == m.log;
    var r := Perform(a, m, item, w);
    if r.status.Running? {
      assert r.env == m.env[a.id := MadeBy(a, w.request, made)];
    }
  }

  lemma {:induction false} StepsDo(b: Block, m: Machine, item: string, w: World, n: Note, made: Made)
    requires WellFormed(b) && Plain(b, made.Keys)
    requires m.status.Running? && Targeted(m, w, n, made)
    ensures Does(m, Execute(b, m, item, w), Effects(b, w.request, n, made), w)
    ensures Execute(b, m, item, w).status.Running? ==> Targeted(Execute(b, m, item, w), w, n, NOTHING)
    decreases b
  {
    match b
    case Skip =>
      assert m.log + [] == m.log;
    case Do(a, rest) =>
      StepDoes(a, m, item, w, n, made);
      var r := Perform(a, m, item, w);
      var next := made[a.id := MadeBy(a, w.request, made)];
      assert next.Keys == made.Keys + {a.id};
      if r.status.Running? { StepsDo(rest, r, item, w, n, next); }
      DoesBoth(m, r, Execute(rest, r, item, w), EffectOf(a, w.request, n, made), Effects(rest, w.request, n, next), w);
    case Cond(_, source, _, value, thn, _, _, rest) =>
      CondDoes(b, m, item, w, n, made);
  }

  lemma {:induction false} CondDoes(b: Block, m: Machine, item: string, w: World, n: Note, made: Made)
    requires WellFormed(b) && Plain(b, made.Keys) && b.Cond?
    requires m.status.Running? && Targeted(m, w, n, made)
    ensures Does(m, Execute(b, m, item, w), Effects(b, w.request, n, made), w)
    ensures Execute(b, m, item, w).status.Running? ==> Targeted(Execute(b, m, item, w), w, n, NOTHING)
    decreases b, 0
  {
    var r := TakenIfEqual(b, m, item, w, b.source.key);
    assert m.log + [] == m.log;
    var equal := w.request.field(b.source.key) == b.value.text;
    if equal { StepsDo(b.thn, m, item, w, n, NOTHING); }
    if r.status.Running? { StepsDo(b.rest, r, item, w, n, NOTHING); }
    DoesBoth(m, r, Execute(b.rest, r, item, w), if equal then Effects(b.thn, w.request, n, NOTHING) else [],
             Effects(b.rest, w.request, n, NOTHING), w);
  }

  /** A condition on a field of the request takes its branch exactly when the field has that text. */
  lemma TakenIfEqual(b: Block, m: Machine, item: string, w: World, k: Key) returns (r: Machine)
    requires WellFormed(b) && b.Cond? && b.source == Field(k) && b.mode.Is? && b.value.Literal? && !b.hasElse
    requires m.status.Running? && FieldsKnown([k], m, w)
    ensures r == if w.request.field(k) == b.value.text then Execute(b.thn, m, item, w) else m
    ensures Execute(b, m, item, w) == Execute(b.rest, r, item, w)
  {
    assert k in [k];
    assert Field(k) in m.env;
    assert FirstUnbound(m, Needs(IfOf(b))).None?;
    r := Taken(b, m, item, w);
  }

  lemma {:induction false} ThenRuns(b: Block, c: Block, m: Machine, item: string, w: World)
    requires WellFormed(b) && WellFormed(c)
    ensures WellFormed(Then(b, c)) && Groups(Then(b, c)) == Groups(b) + Groups(c)
    ensures Execute(Then(b, c), m, item, w) == Execute(c, Execute(b, m, item, w), item, w)
    decreases b
  {
    if !m.status.Running? {
      ThenWellFormed(b, c);
    } else {
      match b
      case Skip =>
      case Do(a, rest) => ThenRuns(rest, c, Perform(a, m, item, w), item, w);
      case Cond(g, source, mode, value, thn, hasElse, els, rest) =>
        ThenWellFormed(rest, c);
        if FirstUnbound(m, Needs(IfOf(b))).None? { ThenRuns(rest, c, Taken(b, m, item, w), item, w); }
      case Each(g, over, body, rest) =>
        ThenWellFormed(rest, c);
        if over in m.env { ThenRuns(rest, c, ExecuteEach(body, ItemsOf(m.env[over]), m, w), item, w); }
    }
  }

  lemma {:induction false} ThenWellFormed(b: Block, c: Block)
    requires WellFormed(b) && WellFormed(c)
    ensures WellFormed(Then(b, c)) && Groups(Then(b, c)) == Groups(b) + Groups(c)
    decreases b
  {
    match b
    case Skip =>
    case Do(a, rest) => ThenWellFormed(rest, c);
    case Cond(_, _, _, _, _, _, _, rest) => ThenWellFormed(rest, c);
    case Each(_, _, _, rest) => ThenWellFormed(rest, c);
  }

  // ---------- The branches ----------

  /** A branch as `Branches` has it. */
  ghost predicate GoodBranch(op: (string, Block)) {
    && WellFormed(op.1) && Plain(op.1, NOTHING.Keys)
    && Step(op.0, 0) !in Groups(op.1) && forall g :: g in Groups(op.1) ==> g.Step?
  }

  function Names(ops: seq<(string, Block)>): seq<string> {
    if ops == [] then [] else [ops[0].0] + Names(ops[1..])
  }

  /** The effects of the first branch with the requested name. */
  ghost function EffectsOf(ops: seq<(string, Block)>, op: string, r: Request, n: Note): seq<Mutation>
    requires forall o :: o in ops ==> GoodBranch(o)
  {
    if ops == [] then []
    else if ops[0].0 == op then
      assert GoodBranch(ops[0]);
      Effects(ops[0].1, r, n, NOTHING)
    else EffectsOf(ops[1..], op, r, n)
  }

  /** What a branch, once entered, ends with. */
  ghost predicate Answers(m: Machine, r: Machine, effects: seq<Mutation>, op: string, w: World) {
    && r.log <= m.log + effects
    && ((r.status == Stopped(SuccessText(op)) && r.log == m.log + effects) || (r.status == Broke && Fails(w)))
  }

  lemma FinishShape(op: string)
    ensures WellFormed(Finish(op)) && Groups(Finish(op)) == {}
  {
    assert Groups(Do(StopWithOutput(Success(op)), Skip)) == {};
  }

  lemma FinishAnswers(op: string, m: Machine, item: string, w: World)
    requires m.status.Running?
    ensures Answers(m, Execute(Finish(op), m, item, w), [], op, w)
  {
    var a, b := GetText(Success(op), Literal(SuccessText(op))), StopWithOutput(Success(op));
    assert m.log + [] == m.log;
    assert FirstUnbound(m, Needs(a)).None?;
    var r := Perform(a, m, item, w);
    if r.status.Running? {
      assert r.env[Success(op)] == TextValue(SuccessText(op));
      assert FirstUnbound(r, Needs(b)).None?;
      assert Execute(Skip, Perform(b, r, item, w), item, w) == Perform(b, r, item, w);
    }
    assert Execute(Finish(op), m, item, w) == Execute(Do(b, Skip), r, item, w);
  }

  /** Executing the branch for the requested operation does its effects and answers for it. */
  lemma BranchAnswers(op: string, steps: Block, m: Machine, item: string, w: World, n: Note)
    requires GoodBranch((op, steps)) && m.status.Running? && Targeted(m, w, n, NOTHING)
    ensures WellFormed(Then(steps, Finish(op))) && Groups(Then(steps, Finish(op))) == Groups(steps)
    ensures Answers(m, Execute(Then(steps, Finish(op)), m, item, w), Effects(steps, w.request, n, NOTHING), op, w)
  {
    FinishShape(op);
    ThenRuns(steps, Finish(op), m, item, w);
    StepsDo(steps, m, item, w, n, NOTHING);
    var r := Execute(steps, m, item, w);
    if r.status.Running? { FinishAnswers(op, r, item, w); }
    DoesThenAnswers(m, r, Execute(Finish(op), r, item, w), Effects(steps, w.request, n, NOTHING), op, w);
  }

  lemma DoesThenAnswers(m: Machine, r: Machine, s: Machine, effects: seq<Mutation>, op: string, w: World)
    requires Does(m, r, effects, w)
    requires if r.status.Running? then Answers(r, s, [], op, w) else s == r
    ensures Answers(m, s, effects, op, w)
  {
    assert r.log + [] == r.log;
  }

  lemma {:induction false} BranchesAnswer(ops: seq<(string, Block)>, m: Machine, item: string, w: World, n: Note)
    requires forall o :: o in ops ==> GoodBranch(o)
    requires m.status.Running? && Targeted(m, w, n, NOTHING)
    ensures WellFormed(BranchesBlock(ops))
    ensures var op, r := w.request.field(Operation), Execute(BranchesBlock(ops), m, item, w);
            if op in Names(ops) then Answers(m, r, EffectsOf(ops, op, w.request, n), op, w) else r == m
    decreases |ops|
  {
    if ops != [] {
      var (op, steps) := ops[0];
      assert ops[0] in ops;
      assert GoodBranch((op, steps));
      BranchAnswers(op, steps, m, item, w, n);
      BranchesAnswer(ops[1..], m, item, w, n);
      assert Operation in KEYS;
      var r := TakenIfEqual(BranchesBlock(ops), m, item, w, Operation);
      FirstName(ops, w.request.field(Operation));
      if w.request.field(Operation) == op {
        NothingAfter(ops[1..], m, r, Effects(steps, w.request, n, NOTHING), op, item, w);
      }
    }
  }

  lemma FirstName(ops: seq<(string, Block)>, op: string)
    requires ops != []
    ensures op in Names(ops) <==> op == ops[0].0 || op in Names(ops[1..])
  {}

  /** A branch that has answered is the last one to run. */
  lemma NothingAfter(ops: seq<(string, Block)>, m: Machine, r: Machine, effects: seq<Mutation>, op: string,
                     item: string, w: World)
    requires Answers(m, r, effects, op, w) && WellFormed(BranchesBlock(ops))
    ensures Execute(BranchesBlock(ops), r, item, w) == r
  {}

  lemma OneStep(a: Action, made: set<Label>)
    requires PlainStep(a, made)
    ensures WellFormed(Do(a, Skip)) && Plain(Do(a, Skip), made) && Groups(Do(a, Skip)) == {}
  {}

  lemma TwoSteps(a: Action, b: Action)
    requires PlainStep(a, NOTHING.Keys) && PlainStep(b, NOTHING.Keys + {a.id})
    ensures WellFormed(Do(a, Do(b, Skip))) && Plain(Do(a, Do(b, Skip)), NOTHING.Keys)
    ensures Groups(Do(a, Do(b, Skip))) == {}
  {
    OneStep(b, NOTHING.Keys + {a.id});
  }

  lemma BranchesAreGood()
    ensures forall o :: o in Branches() ==> GoodBranch(o)
  {
    forall o | o in Branches() ensures GoodBranch(o) {
      var i :| 0 <= i < |Branches()| && Branches()[i] == o;
      BranchIsGood(i);
    }
  }

  lemma BranchIsGood(i: nat)
    requires i < |Branches()|
    ensures GoodBranch(Branches()[i])
  {
    match i {
      case 0 => ProbeIsGood("probe", READY);
      case 1 => AppendIsGood("append-text", false);
      case 2 => AppendIsGood("append-markdown", true);
      case 3 => ChecklistIsGood("create-checklist-item");
      case 4 => HtmlIsGood("append-html");
      case 5 => PinIsGood();
      case 6 => TagIsGood("add-tag", AddTags);
      case _ => TagIsGood("remove-tag", RemoveTags);
    }
  }

  lemma ProbeIsGood(op: string, text: string)
    ensures GoodBranch((op, Do(GetText(Step(op, 1), Literal(text)), Skip)))
  {
    OneStep(GetText(Step(op, 1), Literal(text)), NOTHING.Keys);
  }

  lemma AppendIsGood(op: string, markdown: bool)
    ensures GoodBranch((op, Do(AppendAction(Step(op, 1), Field(Text), markdown), Skip)))
  {
    assert Text in KEYS;
    OneStep(AppendAction(Step(op, 1), Field(Text), markdown), NOTHING.Keys);
  }

  lemma ChecklistIsGood(op: string)
    ensures GoodBranch((op, Do(Native(Step(op, 1), CreateChecklistItem, Some(OutputOf(Field(Text))), Some(Found)),
                               Skip)))
  {
    assert Text in KEYS;
    OneStep(Native(Step(op, 1), CreateChecklistItem, Some(OutputOf(Field(Text))), Some(Found)), NOTHING.Keys);
  }

  lemma HtmlIsGood(op: string)
    ensures GoodBranch((op, Do(RichText(Step(op, 1), Field(Text)),
                            Do(AppendAction(Step(op, 2), Step(op, 1), false), Skip))))
  {
    assert Text in KEYS;
    TwoSteps(RichText(Step(op, 1), Field(Text)), AppendAction(Step(op, 2), Step(op, 1), false));
  }

  lemma PinIsGood()
    ensures GoodBranch(("set-pinned", SetPinned()))
  {
    var op := "set-pinned";
    assert Change in KEYS;
    var remove := Native(Step(op, 4), Pin(false), None, Some(Found));
    OneStep(Native(Step(op, 2), Pin(true), None, Some(Found)), NOTHING.Keys);
    OneStep(remove, NOTHING.Keys);
    var second := Cond(Step(op, 3), Field(Change), Is, Literal("remove"), Do(remove, Skip), false, Skip, Skip);
    CondIsPlain(second, {});
    CondIsPlain(SetPinned(), {Step(op, 3)});
  }

  lemma CondIsPlain(b: Block, more: set<Group>)
    requires b.Cond? && b.source.Field? && b.source.key in KEYS && b.mode.Is? && b.value.Literal? && !b.hasElse
    requires b.els == Skip && WellFormed(b.thn) && Plain(b.thn, NOTHING.Keys) && Groups(b.thn) == {}
    requires WellFormed(b.rest) && Plain(b.rest, NOTHING.Keys) && Groups(b.rest) == more
    ensures WellFormed(b) && Plain(b, NOTHING.Keys) && Groups(b) == {b.group} + more
  {
    assert Groups(b.els) == {};
  }

  lemma TagIsGood(op: string, kind: Kind)
    requires kind == AddTags || kind == RemoveTags
    ensures GoodBranch((op, TagSteps(op, kind)))
  {
    assert Tag in KEYS;
    TwoSteps(Native(Step(op, 1), CreateTag, Some(OutputOf(Field(Tag))), None),
             Native(Step(op, 2), kind, Some(OutputOf(Step(op, 1))), Some(Found)));
  }

  // ---------- The keys ----------

  lemma {:induction false} KeysRun(keys: seq<Key>, rest: Block, m: Machine, w: World) returns (r: Machine)
    requires Tags !in keys && WellFormed(rest)
    requires m.status.Running? && RequestDictionary in m.env && m.env[RequestDictionary] == Dictionary
    ensures WellFormed(KeysBlock(keys, rest)) && Groups(KeysBlock(keys, rest)) == Groups(rest)
    ensures Execute(KeysBlock(keys, rest), m, "", w) == Execute(rest, r, "", w)
    ensures Does(m, r, [], w)
    ensures r.status.Running? ==> FieldsKnown(keys, r, w)
    ensures r.status.Running? ==> forall k :: Field(k) in m.env && k !in keys ==>
                                    Field(k) in r.env && r.env[Field(k)] == m.env[Field(k)]
    decreases |keys|
  {
    if keys == [] {
      r := m;
      assert m.log + [] == m.log;
    } else {
      var k := keys[0];
      KeysShape(keys[1..], rest);
      KeysShape(keys, rest);
      var n := KeyRuns(k, KeysBlock(keys[1..], rest), m, w);
      if n.status.Running? {
        r := KeysRun(keys[1..], rest, n, w);
        DoesBoth(m, n, r, [], [], w);
        FieldsGrow(k, keys, n, r, w);
      } else {
        r := n;
      }
    }
  }

  lemma FieldsGrow(k: Key, keys: seq<Key>, n: Machine, r: Machine, w: World)
    requires keys != [] && k == keys[0]
    requires r.status.Running? ==> FieldsKnown(keys[1..], r, w)
    requires r.status.Running? ==> forall j :: Field(j) in n.env && j !in keys[1..] ==>
                                     Field(j) in r.env && r.env[Field(j)] == n.env[Field(j)]
    requires Field(k) in n.env && n.env[Field(k)] == TextValue(w.request.field(k))
    ensures r.status.Running? ==> FieldsKnown(keys, r, w)
  {}

  lemma {:induction false} KeysShape(keys: seq<Key>, rest: Block)
    requires WellFormed(rest)
    ensures WellFormed(KeysBlock(keys, rest)) && Groups(KeysBlock(keys, rest)) == Groups(rest)
    decreases |keys|
  {
    if keys != [] {
      KeysShape(keys[1..], rest);
    }
  }

  /** One key: its value, then its text. */
  lemma KeyRuns(k: Key, rest: Block, m: Machine, w: World) returns (r: Machine)
    requires k != Tags && WellFormed(rest)
    requires m.status.Running? && RequestDictionary in m.env && m.env[RequestDictionary] == Dictionary
    ensures Execute(Do(GetValue(RawValue(k), RequestDictionary, k), Do(GetText(Field(k), OutputOf(RawValue(k))), rest)),
                    m, "", w) == Execute(rest, r, "", w)
    ensures Does(m, r, [], w)
    ensures r.status.Running? ==> r.env == m.env[RawValue(k) := TextValue(w.request.field(k))]
                                                [Field(k) := TextValue(w.request.field(k))]
  {
    var a, b := GetValue(RawValue(k), RequestDictionary, k), GetText(Field(k), OutputOf(RawValue(k)));
    assert m.log + [] == m.log;
    assert FirstUnbound(m, Needs(a)).None?;
    var n := Perform(a, m, "", w);
    r := n;
    if n.status.Running? {
      assert FirstUnbound(n, Needs(b)).None?;
      r := Perform(b, n, "", w);
    }
    assert Execute(Do(b, rest), n, "", w) == Execute(rest, r, "", w);
  }

  // ---------- The gate ----------

  lemma CondShape(a: Action, b: Block, have: set<Group>)
    requires !a.IsControl() && b.Cond? && !b.hasElse && b.els == Skip
    requires WellFormed(b.thn) && WellFormed(b.rest) && Groups(b.thn) == have && b.group !in have
    ensures WellFormed(b) && WellFormed(Do(a, b)) && Groups(Do(a, b)) == {b.group} + have + Groups(b.rest)
  {
    assert Groups(b) == {b.group} + have + Groups(b.els) + Groups(b.rest);
  }

  lemma GateShape(inner: Block, rest: Block)
    requires WellFormed(inner) && WellFormed(rest)
    requires forall p :: Part(Found, p) !in Groups(inner)
    ensures WellFormed(Gate(inner, rest)) && WellFormed(NameGate(inner)) && WellFormed(BodyGate(inner))
    ensures Part(Found, One) !in Groups(NameGate(inner))
  {
    CondShape(BodyGate(inner).action, BodyGate(inner).rest, Groups(inner));
    CondShape(NameGate(inner).action, NameGate(inner).rest, Groups(BodyGate(inner)));
    var gate := Gate(inner, rest);
    CondShape(gate.rest.rest.action, gate.rest.rest.rest, Groups(NameGate(inner)));
    assert WellFormed(gate.rest);
  }

  /** What stays while the gate is evaluated. */
  ghost predicate Follows(m: Machine, r: Machine, w: World) {
    && Does(m, r, [], w)
    && (r.status.Running? ==>
          FieldsKnown(KEYS, r, w) && Found in r.env && r.env[Found] == Notes(FoundFor(w)))
  }

  /** One plain action of the gate. */
  lemma GateStep(a: Action, rest: Block, m: Machine, w: World) returns (r: Machine)
    requires (a.CountItems? || a.GetText?) && a.id.Part? && WellFormed(rest)
    requires m.status.Running? && FieldsKnown(KEYS, m, w) && Found in m.env && m.env[Found] == Notes(FoundFor(w))
    requires FirstUnbound(m, Needs(a)).None?
    ensures r == Perform(a, m, "", w) && Follows(m, r, w)
    ensures Execute(Do(a, rest), m, "", w) == Execute(rest, r, "", w)
    ensures r.status.Running? ==> r.env == m.env[a.id := if a.CountItems? then Complete(a, m, "", w).env[a.id]
                                                         else TextValue(Evaluate(a.text, m, "", w))]
  {
    assert m.log + [] == m.log;
    r := Perform(a, m, "", w);
  }

  /** The text of the one found note's property. */
  lemma PropertyStep(id: Label, property: Property, rest: Block, m: Machine, w: World) returns (r: Machine)
    requires id.Part? && WellFormed(rest) && |FoundFor(w)| == 1
    requires m.status.Running? && FieldsKnown(KEYS, m, w) && Found in m.env && m.env[Found] == Notes(FoundFor(w))
    ensures Follows(m, r, w)
    ensures Execute(Do(GetProperty(id, Found, property), rest), m, "", w) == Execute(rest, r, "", w)
    ensures r.status.Running? ==>
              id in r.env && r.env[id] == TextValue(PropertyText(Notes(FoundFor(w)), property, w))
  {
    r := GateStep(GetProperty(id, Found, property), rest, m, w);
  }

  /** A condition that compares a text with a field of the request. */
  lemma FieldTest(b: Block, text: string, key: Key, m: Machine, w: World)
    requires b.Cond? && WellFormed(b) && !b.hasElse && b.rest == Skip && b.value == OutputOf(Field(key)) && key in KEYS
    requires m.status.Running? && FieldsKnown(KEYS, m, w) && b.source in m.env && m.env[b.source] == TextValue(text)
    ensures Execute(b, m, "", w)
         == if (if b.mode.Is? then text == w.request.field(key) else IsPart(w.request.field(key), text))
            then Execute(b.thn, m, "", w) else m
  {
    assert FirstUnbound(m, Needs(IfOf(b))).None?;
    assert Execute(b, m, "", w) == Taken(b, m, "", w);
  }

  lemma BodyGateRuns(inner: Block, m: Machine, w: World) returns (r: Machine)
    requires WellFormed(inner) && WellFormed(BodyGate(inner)) && |FoundFor(w)| == 1
    requires m.status.Running? && FieldsKnown(KEYS, m, w) && Found in m.env && m.env[Found] == Notes(FoundFor(w))
    ensures Follows(m, r, w)
    ensures Execute(BodyGate(inner), m, "", w)
         == if IsPart(w.request.field(ScopeText), FoundFor(w)[0].body) then Execute(inner, r, "", w) else r
  {
    var test := BodyGate(inner).rest;
    r := PropertyStep(Part(Found, BodyOf), Body, test, m, w);
    if r.status.Running? { FieldTest(test, FoundFor(w)[0].body, ScopeText, r, w); }
  }

  lemma NameGateRuns(inner: Block, m: Machine, w: World) returns (r: Machine)
    requires WellFormed(inner) && WellFormed(BodyGate(inner)) && WellFormed(NameGate(inner)) && |FoundFor(w)| == 1
    requires m.status.Running? && FieldsKnown(KEYS, m, w) && Found in m.env && m.env[Found] == Notes(FoundFor(w))
    ensures Follows(m, r, w)
    ensures Execute(NameGate(inner), m, "", w) == if Passes(w) then Execute(inner, r, "", w) else r
  {
    var test := NameGate(inner).rest;
    r := PropertyStep(Part(Found, NameOf), Name, test, m, w);
    if r.status.Running? {
      FieldTest(test, FoundFor(w)[0].name, Title, r, w);
      if FoundFor(w)[0].name == w.request.field(Title) {
        var s := BodyGateRuns(inner, r, w);
        DoesBoth(m, r, s, [], [], w);
        r := s;
      }
    }
  }

  lemma CountSteps(b: Block, m: Machine, w: World) returns (r: Machine)
    requires WellFormed(b) && m.status.Running? && FieldsKnown(KEYS, m, w)
    requires Found in m.env && m.env[Found] == Notes(FoundFor(w))
    ensures Follows(m, r, w)
    ensures Execute(Do(CountItems(Part(Found, CountOf), Found),
                    Do(GetText(Part(Found, CountText), OutputOf(Part(Found, CountOf))), b)), m, "", w)
         == Execute(b, r, "", w)
    ensures r.status.Running? ==> Part(Found, CountText) in r.env
    ensures r.status.Running? ==> r.env[Part(Found, CountText)] == TextValue(Decimal(|FoundFor(w)|))
  {
    var c := GetText(Part(Found, CountText), OutputOf(Part(Found, CountOf)));
    r := CountStep(Do(c, b), m, w);
    if r.status.Running? {
      var s := NumberStep(b, r, w, |FoundFor(w)|);
      DoesBoth(m, r, s, [], [], w);
      r := s;
    }
  }

  lemma CountStep(b: Block, m: Machine, w: World) returns (r: Machine)
    requires WellFormed(b) && m.status.Running? && FieldsKnown(KEYS, m, w)
    requires Found in m.env && m.env[Found] == Notes(FoundFor(w))
    ensures Follows(m, r, w)
    ensures Execute(Do(CountItems(Part(Found, CountOf), Found), b), m, "", w) == Execute(b, r, "", w)
    ensures r.status.Running? ==>
              Part(Found, CountOf) in r.env && r.env[Part(Found, CountOf)] == Number(|FoundFor(w)|)
  {
    r := GateStep(CountItems(Part(Found, CountOf), Found), b, m, w);
  }

  lemma NumberStep(b: Block, m: Machine, w: World, n: nat) returns (r: Machine)
    requires WellFormed(b) && m.status.Running? && FieldsKnown(KEYS, m, w)
    requires Found in m.env && m.env[Found] == Notes(FoundFor(w))
    requires Part(Found, CountOf) in m.env && m.env[Part(Found, CountOf)] == Number(n)
    ensures Follows(m, r, w)
    ensures Execute(Do(GetText(Part(Found, CountText), OutputOf(Part(Found, CountOf))), b), m, "", w)
         == Execute(b, r, "", w)
    ensures r.status.Running? ==>
              Part(Found, CountText) in r.env && r.env[Part(Found, CountText)] == TextValue(Decimal(n))
  {
    r := GateStep(GetText(Part(Found, CountText), OutputOf(Part(Found, CountOf))), b, m, w);
  }

  lemma FindStep(b: Block, m: Machine, w: World) returns (r: Machine)
    requires WellFormed(b) && m.status.Running? && FieldsKnown(KEYS, m, w)
    ensures Follows(m, r, w)
    ensures Execute(Do(FindNotes(Found, Field(Title), Field(ScopeText)), b), m, "", w) == Execute(b, r, "", w)
  {
    var a := FindNotes(Found, Field(Title), Field(ScopeText));
    assert Title in KEYS && ScopeText in KEYS;
    assert FirstUnbound(m, Needs(a)).None?;
    assert m.log + [] == m.log;
    r := Perform(a, m, "", w);
  }

  /** The whole gate: the inner block runs exactly when the gate passes. */
  lemma GateRuns(inner: Block, rest: Block, m: Machine, w: World) returns (r: Machine)
    requires WellFormed(inner) && WellFormed(rest) && (forall p :: Part(Found, p) !in Groups(inner))
    requires m.status.Running? && FieldsKnown(KEYS, m, w)
    ensures Follows(m, r, w) && WellFormed(Gate(inner, rest))
    ensures Execute(Gate(inner, rest), m, "", w)
         == if Passes(w) then Execute(rest, Execute(inner, r, "", w), "", w) else Execute(rest, r, "", w)
  {
    GateShape(inner, rest);
    var one := Cond(Part(Found, One), Part(Found, CountText), Is, Literal("1"), NameGate(inner), false, Skip, rest);
    var counting := Do(CountItems(Part(Found, CountOf), Found),
                    Do(GetText(Part(Found, CountText), OutputOf(Part(Found, CountOf))), one));
    r := FindStep(counting, m, w);
    if r.status.Running? {
      var s := CountSteps(one, r, w);
      DoesBoth(m, r, s, [], [], w);
      r := s;
    }
    if r.status.Running? {
      var s := OneRuns(one, inner, rest, r, w);
      DoesBoth(m, r, s, [], [], w);
      r := s;
    }
  }

  lemma OneTest(b: Block, n: nat, m: Machine, w: World)
    requires b.Cond? && WellFormed(b) && !b.hasElse && b.mode.Is? && b.value == Literal("1")
    requires m.status.Running? && b.source in m.env && m.env[b.source] == TextValue(Decimal(n))
    ensures Execute(b, m, "", w) == Execute(b.rest, if n == 1 then Execute(b.thn, m, "", w) else m, "", w)
  {
    assert FirstUnbound(m, Needs(IfOf(b))).None?;
    assert Execute(b, m, "", w) == Execute(b.rest, Taken(b, m, "", w), "", w);
    DecimalOne(n);
  }

  lemma OneRuns(one: Block, inner: Block, rest: Block, m: Machine, w: World) returns (r: Machine)
    requires one == Cond(Part(Found, One), Part(Found, CountText), Is, Literal("1"), NameGate(inner), false, Skip, rest)
    requires WellFormed(one) && WellFormed(inner) && WellFormed(BodyGate(inner)) && WellFormed(NameGate(inner))
    requires m.status.Running? && FieldsKnown(KEYS, m, w) && Found in m.env && m.env[Found] == Notes(FoundFor(w))
    requires Part(Found, CountText) in m.env && m.env[Part(Found, CountText)] == TextValue(Decimal(|FoundFor(w)|))
    ensures Follows(m, r, w)
    ensures Execute(one, m, "", w)
         == if Passes(w) then Execute(rest, Execute(inner, r, "", w), "", w) else Execute(rest, r, "", w)
  {
    OneTest(one, |FoundFor(w)|, m, w);
    r := m;
    assert m.log + [] == m.log;
    if |FoundFor(w)| == 1 { r := NameGateRuns(inner, m, w); }
  }

  // ---------- The program ----------

  lemma RefuseRuns(m: Machine, w: World)
    requires m.status.Running?
    ensures WellFormed(RefuseBlock())
    ensures var r := Execute(RefuseBlock(), m, "", w);
            r.log == m.log && (r.status == Stopped(REFUSED) || (r.status == Broke && Fails(w)))
  {
    var a, b := GetText(Refusal, Literal(REFUSED)), StopWithOutput(Refusal);
    assert FirstUnbound(m, Needs(a)).None?;
    var r := Perform(a, m, "", w);
    if r.status.Running? {
      assert FirstUnbound(r, Needs(b)).None?;
      assert Execute(Skip, Perform(b, r, "", w), "", w) == Perform(b, r, "", w);
    }
    assert Execute(RefuseBlock(), m, "", w) == Execute(Do(b, Skip), r, "", w);
  }

  lemma {:induction false} BranchesShape(ops: seq<(string, Block)>)
    requires forall o :: o in ops ==> GoodBranch(o)
    ensures WellFormed(BranchesBlock(ops)) && forall g :: g in Groups(BranchesBlock(ops)) ==> g.Step?
    decreases |ops|
  {
    if ops != [] {
      assert GoodBranch(ops[0]);
      FinishShape(ops[0].0);
      ThenWellFormed(ops[0].1, Finish(ops[0].0));
      BranchesShape(ops[1..]);
    }
  }

  lemma NamesOfBranches()
    ensures Names(Branches()) == OPERATIONS
  {
    NamesFrom(Branches(), OPERATIONS);
  }

  lemma {:induction false} NamesFrom(ops: seq<(string, Block)>, names: seq<string>)
    requires |ops| == |names| && forall i :: 0 <= i < |ops| ==> ops[i].0 == names[i]
    ensures Names(ops) == names
    decreases |ops|
  {
    if ops != [] {
      NamesFrom(ops[1..], names[1..]);
    }
  }

  lemma {:induction false} EffectsAt(ops: seq<(string, Block)>, i: nat, r: Request, n: Note)
    requires i < |ops| && (forall o :: o in ops ==> GoodBranch(o))
    requires forall j :: 0 <= j < i ==> ops[j].0 != ops[i].0
    ensures GoodBranch(ops[i]) && EffectsOf(ops, ops[i].0, r, n) == Effects(ops[i].1, r, n, NOTHING)
    decreases i
  {
    assert ops[i] in ops;
    if i > 0 {
      assert ops[0].0 != ops[i].0;
      EffectsAt(ops[1..], i - 1, r, n);
    }
  }

  lemma DifferentNames(i: nat, j: nat)
    requires j < i < 8
    ensures OPERATIONS[j] != OPERATIONS[i]
  {
    assert |OPERATIONS[0]| == 5 && |OPERATIONS[1]| == 11 && |OPERATIONS[2]| == 15 && |OPERATIONS[3]| == 21;
    assert |OPERATIONS[4]| == 11 && |OPERATIONS[5]| == 10 && |OPERATIONS[6]| == 7 && |OPERATIONS[7]| == 10;
    assert OPERATIONS[1][7] != OPERATIONS[4][7] && OPERATIONS[5][0] != OPERATIONS[7][0];
  }

  /** The branches are the table `Wanted`. */
  lemma BranchesAsWanted(i: nat, r: Request, n: Note)
    requires i < |OPERATIONS|
    ensures forall o :: o in Branches() ==> GoodBranch(o)
    ensures EffectsOf(Branches(), OPERATIONS[i], r, n) == Wanted(OPERATIONS[i], r, n)
  {
    BranchesAreGood();
    forall j | 0 <= j < i ensures OPERATIONS[j] != OPERATIONS[i] { DifferentNames(i, j); }
    EffectsAt(Branches(), i, r, n);
    WantedByBranch(i, r, n);
  }

  lemma WantedByBranch(i: nat, r: Request, n: Note)
    requires i < |OPERATIONS| && Plain(Branches()[i].1, NOTHING.Keys)
    ensures Effects(Branches()[i].1, r, n, NOTHING) == Wanted(OPERATIONS[i], r, n)
  {
    forall j | 0 <= j < i ensures OPERATIONS[j] != OPERATIONS[i] { DifferentNames(i, j); }
    forall j | i < j < 8 ensures OPERATIONS[j] != OPERATIONS[i] { DifferentNames(j, i); }
    if i < 4 {
      OneEffect(Branches()[i].1, r, n, NOTHING);
    } else if i == 5 {
      PinEffects(r, n);
    } else {
      TwoEffects(Branches()[i].1, r, n);
    }
  }

  lemma OneEffect(b: Block, r: Request, n: Note, made: Made)
    requires Plain(b, made.Keys) && b.Do? && b.rest == Skip
    ensures Effects(b, r, n, made) == EffectOf(b.action, r, n, made)
  {
    var next := made[b.action.id := MadeBy(b.action, r, made)];
    assert next.Keys == made.Keys + {b.action.id};
    assert Effects(b.rest, r, n, next) == [];
  }

  lemma TwoEffects(b: Block, r: Request, n: Note)
    requires Plain(b, NOTHING.Keys) && b.Do? && b.rest.Do? && b.rest.rest == Skip
    ensures var made := NOTHING[b.action.id := MadeBy(b.action, r, NOTHING)];
            && PlainStep(b.rest.action, made.Keys)
            && Effects(b, r, n, NOTHING) == EffectOf(b.action, r, n, NOTHING) + EffectOf(b.rest.action, r, n, made)
  {
    var made := NOTHING[b.action.id := MadeBy(b.action, r, NOTHING)];
    assert made.Keys == NOTHING.Keys + {b.action.id};
    OneEffect(b.rest, r, n, made);
  }

  lemma PinEffects(r: Request, n: Note)
    requires Plain(SetPinned(), NOTHING.Keys)
    ensures Effects(SetPinned(), r, n, NOTHING) == Wanted("set-pinned", r, n)
  {
    assert "add"[0] != "remove"[0];
    var second := SetPinned().rest;
    OneEffect(SetPinned().thn, r, n, NOTHING);
    OneEffect(second.thn, r, n, NOTHING);
    assert Effects(second.rest, r, n, NOTHING) == [];
  }

  lemma ProgramShape(keys: seq<Key>, ops: seq<(string, Block)>)
    requires forall o :: o in ops ==> GoodBranch(o)
    ensures WellFormed(BranchesBlock(ops)) && WellFormed(Gate(BranchesBlock(ops), RefuseBlock()))
    ensures WellFormed(KeysBlock(keys, Gate(BranchesBlock(ops), RefuseBlock()))) && WellFormed(ProgramOf(keys, ops))
  {
    BranchesShape(ops);
    RefuseShape();
    GateShape(BranchesBlock(ops), RefuseBlock());
    var gate := Gate(BranchesBlock(ops), RefuseBlock());
    KeysShape(keys, gate);
    HeadShape(KeysBlock(keys, gate));
  }

  lemma HeadShape(rest: Block)
    requires WellFormed(rest)
    ensures WellFormed(Do(Comment, Do(DetectDictionary(RequestDictionary), rest)))
  {
    assert WellFormed(Do(DetectDictionary(RequestDictionary), rest));
  }

  lemma RefuseShape()
    ensures WellFormed(RefuseBlock())
  {
    assert WellFormed(Do(StopWithOutput(Refusal), Skip));
  }

  /** `ops` are branches that stand for the table `Wanted`. */
  ghost predicate Implements(ops: seq<(string, Block)>, w: World) {
    && (forall o :: o in ops ==> GoodBranch(o))
    && Names(ops) == OPERATIONS
    && (Passes(w) && w.request.field(Operation) in OPERATIONS
        ==> EffectsOf(ops, w.request.field(Operation), w.request, FoundFor(w)[0]) == WantedFor(w))
    && (Passes(w) && w.request.field(Operation) !in OPERATIONS ==> WantedFor(w) == [])
  }

  lemma BranchesImplement(w: World)
    ensures Implements(Branches(), w)
  {
    var op := w.request.field(Operation);
    BranchesAreGood();
    NamesOfBranches();
    if Passes(w) {
      if op in OPERATIONS {
        var i :| 0 <= i < |OPERATIONS| && OPERATIONS[i] == op;
        BranchesAsWanted(i, w.request, FoundFor(w)[0]);
      } else {
        UnknownWantsNothing(op, w.request, FoundFor(w)[0]);
      }
    }
  }

  /** From the gate on. */
  lemma GateOnIsHonest(ops: seq<(string, Block)>, m: Machine, w: World)
    requires Implements(ops, w) && WellFormed(BranchesBlock(ops))
    requires WellFormed(Gate(BranchesBlock(ops), RefuseBlock()))
    requires m.status.Running? && FieldsKnown(KEYS, m, w) && m.log == []
    ensures Honest(Execute(Gate(BranchesBlock(ops), RefuseBlock()), m, "", w), w)
  {
    BranchesShape(ops);
    RefuseShape();
    var inner := BranchesBlock(ops);
    var r := GateRuns(inner, RefuseBlock(), m, w);
    if r.status.Running? {
      assert m.log + [] == r.log;
      if Passes(w) { PassedIsHonest(ops, r, w); } else { RefuseRuns(r, w); }
    }
  }

  lemma PassedIsHonest(ops: seq<(string, Block)>, m: Machine, w: World)
    requires Implements(ops, w) && WellFormed(BranchesBlock(ops)) && WellFormed(RefuseBlock())
    requires m.status.Running? && Passes(w) && FieldsKnown(KEYS, m, w) && m.log == []
    requires Found in m.env && m.env[Found] == Notes(FoundFor(w))
    ensures Honest(Execute(RefuseBlock(), Execute(BranchesBlock(ops), m, "", w), "", w), w)
  {
    var n := FoundFor(w)[0];
    assert FoundFor(w) == [n];
    BranchesAnswer(ops, m, "", w, n);
    AnsweredIsHonest(ops, m, Execute(BranchesBlock(ops), m, "", w), w);
  }

  lemma AnsweredIsHonest(ops: seq<(string, Block)>, m: Machine, r: Machine, w: World)
    requires Implements(ops, w) && Passes(w) && m.status.Running? && m.log == [] && WellFormed(RefuseBlock())
    requires var op := w.request.field(Operation);
             if op in Names(ops) then Answers(m, r, EffectsOf(ops, op, w.request, FoundFor(w)[0]), op, w) else r == m
    ensures Honest(Execute(RefuseBlock(), r, "", w), w)
  {
    if w.request.field(Operation) in OPERATIONS {
      assert m.log + WantedFor(w) == WantedFor(w);
    } else {
      RefuseRuns(m, w);
    }
  }

  lemma UnknownWantsNothing(op: string, r: Request, n: Note)
    requires op !in OPERATIONS
    ensures Wanted(op, r, n) == []
  {
    assert OPERATIONS[1] != op && OPERATIONS[2] != op && OPERATIONS[3] != op && OPERATIONS[4] != op;
    assert OPERATIONS[5] != op && OPERATIONS[6] != op && OPERATIONS[7] != op;
  }

  lemma ProgramOfIsHonest(keys: seq<Key>, ops: seq<(string, Block)>, w: World)
    requires keys == KEYS && Implements(ops, w)
    ensures WellFormed(ProgramOf(keys, ops)) && Honest(Execute(ProgramOf(keys, ops), Shortcut.START, "", w), w)
  {
    ProgramShape(keys, ops);
    var r := HeadRuns(KeysBlock(keys, Gate(BranchesBlock(ops), RefuseBlock())), w);
    if r.status.Running? { KeysOnIsHonest(keys, ops, r, w); }
  }

  /** The comment, and the dictionary of the request. */
  lemma HeadRuns(rest: Block, w: World) returns (r: Machine)
    requires WellFormed(rest)
    ensures WellFormed(Do(Comment, Do(DetectDictionary(RequestDictionary), rest)))
    ensures Execute(Do(Comment, Do(DetectDictionary(RequestDictionary), rest)), Shortcut.START, "", w)
         == Execute(rest, r, "", w)
    ensures r.log == [] && (r.status.Running? || (r.status == Broke && Fails(w)))
    ensures r.status.Running? ==> RequestDictionary in r.env && r.env[RequestDictionary] == Dictionary
  {
    var detect := DetectDictionary(RequestDictionary);
    HeadShape(rest);
    r := Perform(Comment, Shortcut.START, "", w);
    assert Execute(Do(Comment, Do(detect, rest)), Shortcut.START, "", w) == Execute(Do(detect, rest), r, "", w);
    if r.status.Running? {
      assert Execute(Do(detect, rest), r, "", w) == Execute(rest, Perform(detect, r, "", w), "", w);
      r := Perform(detect, r, "", w);
    }
  }

  lemma KeysOnIsHonest(keys: seq<Key>, ops: seq<(string, Block)>, m: Machine, w: World)
    requires keys == KEYS && Implements(ops, w)
    requires m.status.Running? && RequestDictionary in m.env && m.env[RequestDictionary] == Dictionary && m.log == []
    ensures WellFormed(KeysBlock(keys, Gate(BranchesBlock(ops), RefuseBlock())))
    ensures Honest(Execute(KeysBlock(keys, Gate(BranchesBlock(ops), RefuseBlock())), m, "", w), w)
  {
    ProgramShape(keys, ops);
    var s := KeysThenGate(keys, Gate(BranchesBlock(ops), RefuseBlock()), m, w);
    if s.status.Running? { GateOnIsHonest(ops, s, w); }
  }

  lemma KeysThenGate(keys: seq<Key>, gate: Block, m: Machine, w: World) returns (s: Machine)
    requires keys == KEYS && WellFormed(gate)
    requires m.status.Running? && RequestDictionary in m.env && m.env[RequestDictionary] == Dictionary && m.log == []
    ensures WellFormed(KeysBlock(keys, gate))
    ensures Execute(KeysBlock(keys, gate), m, "", w) == Execute(gate, s, "", w)
    ensures s.log == [] && (s.status.Running? ==> FieldsKnown(KEYS, s, w))
    ensures !s.status.Running? ==> s.status == Broke && Fails(w) && Execute(gate, s, "", w) == s
  {
    s := KeysRun(keys, gate, m, w);
    assert m.log + [] == s.log;
  }

  /** The program does exactly what is wanted and answers for it, whatever the request and the notes. */
  lemma ProgramIsHonest(w: World)
    ensures WellFormed(Program()) && Honest(Execute(Program(), Shortcut.START, "", w), w)
  {
    BranchesImplement(w);
    ProgramOfIsHonest(KEYS, Branches(), w);
  }

  // ---------- The flat list ----------

  function ListAfter(w: World, k: nat): Machine {
    Iterate(Flatten(Program()), Begin(), w, k).machine
  }

  /** At every moment of a run of the list that the builder emits, what was started is the beginning of what
      the request stands for; a run that has halted ended honestly; and every run halts. */
  lemma ListIsHonest(w: World, k: nat)
    ensures ListAfter(w, k).log <= WantedFor(w)
    ensures !ListAfter(w, k).status.Running? ==> Honest(ListAfter(w, k), w)
    ensures exists n :: !ListAfter(w, n).status.Running?
  {
    ProgramIsHonest(w);
    EveryMoment(Program(), w, k);
    var n := RunsAsBlock(Program(), w);
    assert !ListAfter(w, n).status.Running?;
  }

  /** A mutation is only ever started on the one note with the exact title and the scope text in its body,
      and only in the branch of the requested operation. */
  lemma MutationsAreGated(w: World, k: nat)
    ensures ListAfter(w, k).log != [] ==> Passes(w) && w.request.field(Operation) in OPERATIONS
    ensures forall e :: e in ListAfter(w, k).log ==> ActsFor(e, w)
  {
    ListIsHonest(w, k);
    forall i | 0 <= i < |ListAfter(w, k).log| ensures ActsFor(ListAfter(w, k).log[i], w) {
      assert ListAfter(w, k).log[i] == WantedFor(w)[i];
      WantedIsGated(w, i);
    }
    if ListAfter(w, k).log != [] { WantedIsGated(w, 0); }
  }

  /** A mutation of the requested operation, on the found note; only creating a tag needs no note. */
  predicate ActsFor(e: Mutation, w: World) {
    && e.id.Step? && e.id.operation == w.request.field(Operation)
    && (e.notes == FoundFor(w) || (e.notes == [] && e.kind == CreateTag))
  }

  lemma WantedIsGated(w: World, i: nat)
    requires i < |WantedFor(w)|
    ensures Passes(w) && w.request.field(Operation) in OPERATIONS && ActsFor(WantedFor(w)[i], w)
  {
    var n := FoundFor(w)[0];
    assert FoundFor(w) == [n];
    if w.request.field(Operation) !in OPERATIONS {
      UnknownWantsNothing(w.request.field(Operation), w.request, n);
    }
  }

  lemma AnswersDiffer()
    ensures READY != REFUSED && DONE != REFUSED && READY != DONE
  {
    assert |READY| == 31 && |DONE| == 30 && |REFUSED| == 33;
  }

  /** The answer is the refusal exactly when the gate does not pass or the operation is unknown, and then no
      mutation is wanted. */
  lemma RefusalWantsNothing(w: World)
    ensures Answer(w) == REFUSED <==> !(Passes(w) && w.request.field(Operation) in OPERATIONS)
    ensures Answer(w) == REFUSED ==> WantedFor(w) == []
  {
    AnswersDiffer();
    if Passes(w) && w.request.field(Operation) !in OPERATIONS {
      UnknownWantsNothing(w.request.field(Operation), w.request, FoundFor(w)[0]);
    }
  }

  /** A run that answers REFUSED has started no mutating action. Without errors it answers so exactly when the
      gate does not pass or the operation is unknown. */
  lemma RefusedMeansUntouched(w: World, k: nat)
    ensures ListAfter(w, k).status == Stopped(REFUSED) ==> ListAfter(w, k).log == []
    ensures !Fails(w) && !ListAfter(w, k).status.Running? ==>
              (ListAfter(w, k).status == Stopped(REFUSED)
               <==> !(Passes(w) && w.request.field(Operation) in OPERATIONS))
  {
    ListIsHonest(w, k);
    RefusalWantsNothing(w);
  }

  /** The list reads every key of a request but the list of tags, which belongs to the other bridge. */
  lemma EveryKeyIsRead(key: Key)
    ensures key in KEYS <==> !key.Tags?
  {
    assert KEYS[0] == Operation && KEYS[1] == Title && KEYS[2] == ScopeText && KEYS[3] == Text && KEYS[4] == ObjectId;
    assert KEYS[5] == ObjectName && KEYS[6] == Change && KEYS[7] == OtherTitle && KEYS[8] == OtherScope;
    assert KEYS[9] == Tag && KEYS[10] == Size;
  }

  /** The very texts of the answers: without errors a probe that passes the gate is answered READY, every other
      known operation DONE, and everything else is refused. */
  lemma AnswersLiterally(w: World, k: nat)
    requires !Fails(w) && !ListAfter(w, k).status.Running?
    ensures var op := w.request.field(Operation);
            var text :=
              if !Passes(w) then "APPLE_NOTES_BACKGROUND_V5_REFUSED"
              else if op == "probe" then "APPLE_NOTES_BACKGROUND_V5_READY"
              else if op == "append-text" || op == "append-markdown" || op == "create-checklist-item"
                      || op == "append-html" || op == "set-pinned" || op == "add-tag" || op == "remove-tag"
              then "APPLE_NOTES_BACKGROUND_V5_DONE"
              else "APPLE_NOTES_BACKGROUND_V5_REFUSED";
            ListAfter(w, k).status == Stopped(text)
  {
    ListIsHonest(w, k);
    KnownOperations(w.request.field(Operation));
  }

  lemma KnownOperations(op: string)
    ensures op in OPERATIONS
       <==> op == "probe" || op == "append-text" || op == "append-markdown" || op == "create-checklist-item"
            || op == "append-html" || op == "set-pinned" || op == "add-tag" || op == "remove-tag"
    ensures op in OPERATIONS && op != "probe" ==> SuccessText(op) == "APPLE_NOTES_BACKGROUND_V5_DONE"
    ensures SuccessText("probe") == "APPLE_NOTES_BACKGROUND_V5_READY"
  {
    forall i | 0 <= i < |OPERATIONS| ensures OPERATIONS[i] in OPERATIONS {}
    assert OPERATIONS[0] == "probe" && OPERATIONS[1] == "append-text" && OPERATIONS[2] == "append-markdown";
    assert OPERATIONS[3] == "create-checklist-item" && OPERATIONS[4] == "append-html";
    assert OPERATIONS[5] == "set-pinned" && OPERATIONS[6] == "add-tag" && OPERATIONS[7] == "remove-tag";
  }

  /** Groups close in last-in, first-out order, and every output was produced before it is used. */
  lemma ListIsWellBuilt(w: World, k: nat)
    ensures OpenAfter(Flatten(Program()), []) == Some([])
    ensures !ListAfter(w, k).status.Unbound?
  {
    BranchesAreGood();
    ProgramShape(KEYS, Branches());
    GroupsNest(Program(), []);
    ListIsHonest(w, k);
  }
}

