/** The Native Tags bridge: its builder, and exactly when its program changes a note. Unlike the Background
    Operations bridge it checks only that the search found one note, not the note's exact title and scope. */
module TagsBridge {
  import opened Wrappers
  import opened Shortcut
  import opened ShortcutMeaning
  import opened ShortcutProperties
  import opened OperationsGate
  import OperationsBridge

  const OK := "APPLE_NOTES_TAGS_OK"
  const AMBIGUOUS := "APPLE_NOTES_TAGS_AMBIGUOUS_OR_MISSING"

  const TAG_KEYS := [Title, ScopeText, Tags]

  const UNIQUE := Part(Found, One)
  const LOOP := Part(Field(Tags), One)

  // ---------- The builder ----------

  method Build() returns (a: seq<Action>)
    ensures a == Flatten(TagProgram())
  {
    a := [Comment];
    a := a + [DetectDictionary(RequestDictionary)];
    a := AppendKeys(a, TAG_KEYS);
    a := a + [FindNotes(Found, Field(Title), Field(ScopeText))];
    a := a + [CountItems(Part(Found, CountOf), Found)];
    a := a + [GetText(Part(Found, CountText), OutputOf(Part(Found, CountOf)))];
    a := AppendCondition(a);
    FlattenTagProgram(TAG_KEYS);
  }

  method AppendKeys(before: seq<Action>, keys: seq<Key>) returns (a: seq<Action>)
    ensures a == before + ValueActions(keys)
  {
    a := before;
    for i := 0 to |keys|
      invariant a == before + ValueActions(keys[..i])
    {
      assert keys[..i + 1] == keys[..i] + [keys[i]];
      ValueActionsSnoc(keys[..i], keys[i]);
      a := a + [GetValue(Field(keys[i]), RequestDictionary, keys[i])];
    }
    assert keys[..|keys|] == keys;
  }

  method AppendCondition(before: seq<Action>) returns (a: seq<Action>)
    ensures a == before + Flatten(Decision())
  {
    a := before + [If(UNIQUE, Part(Found, CountText), Is, Literal("1"))];
    a := a + [Repeat(LOOP, Field(Tags))];
    a := a + [Native(Step("tags", 1), CreateTag, Some(RepeatItem), None)];
    a := a + [Native(Step("tags", 2), AddTags, Some(OutputOf(Step("tags", 1))), Some(Found))];
    a := a + [EndRepeat(LOOP)];
    a := a + [GetText(Success("tags"), Literal(OK))];
    a := a + [StopWithOutput(Success("tags"))];
    a := a + [Otherwise(UNIQUE)];
    a := a + [GetText(Refusal, Literal(AMBIGUOUS))];
    a := a + [StopWithOutput(Refusal)];
    a := a + [EndIf(UNIQUE)];
    FlattenDecision();
  }

  // ---------- The program as a block ----------

  function AddOne(): Block {
    Do(Native(Step("tags", 1), CreateTag, Some(RepeatItem), None),
    Do(Native(Step("tags", 2), AddTags, Some(OutputOf(Step("tags", 1))), Some(Found)), Skip))
  }

  function AnswerWith(id: Label, text: string): Block {
    Do(GetText(id, Literal(text)), Do(StopWithOutput(id), Skip))
  }

  function AddAll(): Block {
    Each(LOOP, Field(Tags), AddOne(), AnswerWith(Success("tags"), OK))
  }

  function Decision(): Block {
    Cond(UNIQUE, Part(Found, CountText), Is, Literal("1"), AddAll(), true, AnswerWith(Refusal, AMBIGUOUS), Skip)
  }

  function Searching(rest: Block): Block {
    Do(FindNotes(Found, Field(Title), Field(ScopeText)),
    Do(CountItems(Part(Found, CountOf), Found),
    Do(GetText(Part(Found, CountText), OutputOf(Part(Found, CountOf))), rest)))
  }

  function ValuesBlock(keys: seq<Key>, rest: Block): Block {
    if keys == [] then rest
    else Do(GetValue(Field(keys[0]), RequestDictionary, keys[0]), ValuesBlock(keys[1..], rest))
  }

  function TagProgramOf(keys: seq<Key>): Block {
    Do(Comment, Do(DetectDictionary(RequestDictionary), ValuesBlock(keys, Searching(Decision()))))
  }

  function TagProgram(): Block {
    TagProgramOf(TAG_KEYS)
  }

  // ---------- The builder emits the program ----------

  function ValueActions(keys: seq<Key>): seq<Action> {
    if keys == [] then [] else [GetValue(Field(keys[0]), RequestDictionary, keys[0])] + ValueActions(keys[1..])
  }

  lemma {:induction false} ValueActionsSnoc(keys: seq<Key>, k: Key)
    ensures ValueActions(keys + [k]) == ValueActions(keys) + [GetValue(Field(k), RequestDictionary, k)]
    decreases |keys|
  {
    if keys == [] {
      assert [k][1..] == [];
    } else {
      assert (keys + [k])[1..] == keys[1..] + [k];
      ValueActionsSnoc(keys[1..], k);
    }
  }

  lemma {:induction false} FlattenValues(keys: seq<Key>, rest: Block)
    ensures Flatten(ValuesBlock(keys, rest)) == ValueActions(keys) + Flatten(rest)
    decreases |keys|
  {
    if keys != [] {
      FlattenValues(keys[1..], rest);
    }
  }

  lemma FlattenDecision()
    ensures Flatten(Decision())
         == [If(UNIQUE, Part(Found, CountText), Is, Literal("1")), Repeat(LOOP, Field(Tags)),
             Native(Step("tags", 1), CreateTag, Some(RepeatItem), None),
             Native(Step("tags", 2), AddTags, Some(OutputOf(Step("tags", 1))), Some(Found)), EndRepeat(LOOP),
             GetText(Success("tags"), Literal(OK)), StopWithOutput(Success("tags")), Otherwise(UNIQUE),
             GetText(Refusal, Literal(AMBIGUOUS)), StopWithOutput(Refusal), EndIf(UNIQUE)]
  {
    OperationsBridge.FlattenTwo(AddOne().action, AddOne().rest.action);
    OperationsBridge.FlattenTwo(GetText(Success("tags"), Literal(OK)), StopWithOutput(Success("tags")));
    OperationsBridge.FlattenTwo(GetText(Refusal, Literal(AMBIGUOUS)), StopWithOutput(Refusal));
    FlattenCondElse(UNIQUE, Part(Found, CountText), AddAll(), AnswerWith(Refusal, AMBIGUOUS));
    FlattenEach(LOOP, Field(Tags), AddOne(), AnswerWith(Success("tags"), OK));
  }

  lemma FlattenCondElse(g: Group, source: Label, thn: Block, els: Block)
    ensures Flatten(Cond(g, source, Is, Literal("1"), thn, true, els, Skip))
         == [If(g, source, Is, Literal("1"))] + Flatten(thn) + [Otherwise(g)] + Flatten(els) + [EndIf(g)]
  {
    assert Flatten(Skip) == [];
  }

  lemma FlattenEach(g: Group, over: Label, body: Block, rest: Block)
    ensures Flatten(Each(g, over, body, rest))
         == [Repeat(g, over)] + Flatten(body) + [EndRepeat(g)] + Flatten(rest)
  {}

  lemma FlattenTagProgram(keys: seq<Key>)
    ensures Flatten(TagProgramOf(keys))
         == [Comment] + [DetectDictionary(RequestDictionary)] + ValueActions(keys)
            + [FindNotes(Found, Field(Title), Field(ScopeText))] + [CountItems(Part(Found, CountOf), Found)]
            + [GetText(Part(Found, CountText), OutputOf(Part(Found, CountOf)))] + Flatten(Decision())
  {
    var rest := Searching(Decision());
    FlattenValues(keys, rest);
    OperationsBridge.TwoThen(Comment, DetectDictionary(RequestDictionary), ValuesBlock(keys, rest));
    OperationsBridge.ThreeThen(rest.action, rest.rest.action, rest.rest.rest.action, Decision());
  }

  // ---------- What the program does ----------

  function TagEffects(tags: seq<string>, n: Note): seq<Mutation> {
    if tags == [] then []
    else [Mutation(Step("tags", 1), CreateTag, Some(TextValue(tags[0])), []),
          Mutation(Step("tags", 2), AddTags, Some(TagNamed(tags[0])), [n])] + TagEffects(tags[1..], n)
  }

  function TagsWanted(w: World): seq<Mutation> {
    if |FoundFor(w)| == 1 then TagEffects(w.request.tags, FoundFor(w)[0]) else []
  }

  function TagsAnswer(w: World): string {
    if |FoundFor(w)| == 1 then OK else AMBIGUOUS
  }

  ghost predicate TagsHonest(m: Machine, w: World) {
    && m.log <= TagsWanted(w)
    && ((m.status == Stopped(TagsAnswer(w)) && m.log == TagsWanted(w)) || (m.status == Broke && Fails(w)))
  }

  ghost predicate Aims(m: Machine, n: Note) {
    Found in m.env && m.env[Found] == Notes([n])
  }

  lemma OneTagDoes(m: Machine, tag: string, w: World, n: Note)
    requires m.status.Running? && Aims(m, n)
    ensures var r := Execute(AddOne(), m, tag, w);
            && Does(m, r, [Mutation(Step("tags", 1), CreateTag, Some(TextValue(tag)), []),
                           Mutation(Step("tags", 2), AddTags, Some(TagNamed(tag)), [n])], w)
            && (r.status.Running? ==> Aims(r, n))
  {
    var a, b := AddOne().action, AddOne().rest.action;
    assert FirstUnbound(m, Needs(a)).None?;
    var r := Perform(a, m, tag, w);
    var x, y := Mutation(a.id, CreateTag, Some(TextValue(tag)), []), Mutation(b.id, AddTags, Some(TagNamed(tag)), [n]);
    var s := r;
    if r.status.Running? {
      assert FirstUnbound(r, Needs(b)).None?;
      s := Perform(b, r, tag, w);
      assert Does(r, s, [y], w);
    }
    DoesBoth(m, r, s, [x], [y], w);
    assert [x] + [y] == [x, y];
    assert Execute(Do(b, Skip), r, tag, w) == s;
  }

  lemma {:induction false} TagsDo(tags: seq<string>, m: Machine, w: World, n: Note)
    requires m.status.Running? && Aims(m, n)
    ensures WellFormed(AddOne())
    ensures Does(m, ExecuteEach(AddOne(), tags, m, w), TagEffects(tags, n), w)
    decreases |tags|
  {
    if tags == [] {
      assert m.log + [] == m.log;
    } else {
      OneTagDoes(m, tags[0], w, n);
      var r := Execute(AddOne(), m, tags[0], w);
      if r.status.Running? { TagsDo(tags[1..], r, w, n); }
      DoesBoth(m, r, ExecuteEach(AddOne(), tags[1..], r, w), TagEffects(tags, n)[..2], TagEffects(tags[1..], n), w);
      assert TagEffects(tags, n)[..2] + TagEffects(tags[1..], n) == TagEffects(tags, n);
    }
  }

  lemma AnswerRuns(id: Label, text: string, m: Machine, item: string, w: World)
    requires m.status.Running?
    ensures WellFormed(AnswerWith(id, text)) && Groups(AnswerWith(id, text)) == {}
    ensures var r := Execute(AnswerWith(id, text), m, item, w);
            r.log == m.log && (r.status == Stopped(text) || (r.status == Broke && Fails(w)))
  {
    var a, b := GetText(id, Literal(text)), StopWithOutput(id);
    assert FirstUnbound(m, Needs(a)).None?;
    var r := Perform(a, m, item, w);
    assert Groups(Do(b, Skip)) == {};
    if r.status.Running? {
      assert FirstUnbound(r, Needs(b)).None?;
      assert Execute(Skip, Perform(b, r, item, w), item, w) == Perform(b, r, item, w);
    }
    assert Execute(AnswerWith(id, text), m, item, w) == Execute(Do(b, Skip), r, item, w);
  }

  ghost predicate RequestKnown(m: Machine, w: World) {
    && Field(Title) in m.env && m.env[Field(Title)] == TextValue(w.request.field(Title))
    && Field(ScopeText) in m.env && m.env[Field(ScopeText)] == TextValue(w.request.field(ScopeText))
    && Field(Tags) in m.env && m.env[Field(Tags)] == ListValue(w.request.tags)
  }

  /** A plain action that logs nothing and puts out one value. */
  lemma PutsOut(a: Action, rest: Block, v: Value, m: Machine, w: World) returns (r: Machine)
    requires (a.GetValue? || a.GetText? || a.FindNotes? || a.CountItems? || a.DetectDictionary?) && WellFormed(rest)
    requires m.status.Running? && FirstUnbound(m, Needs(a)).None? && Complete(a, m, "", w) == Define(m, a.id, v)
    ensures Execute(Do(a, rest), m, "", w) == Execute(rest, r, "", w)
    ensures Does(m, r, [], w) && (r.status.Running? ==> r.env == m.env[a.id := v])
  {
    assert m.log + [] == m.log;
    r := Perform(a, m, "", w);
  }

  lemma SearchRuns(rest: Block, m: Machine, w: World) returns (r: Machine)
    requires WellFormed(rest) && m.status.Running? && RequestKnown(m, w)
    ensures Execute(Searching(rest), m, "", w) == Execute(rest, r, "", w)
    ensures Does(m, r, [], w)
    ensures r.status.Running? ==> RequestKnown(r, w) && Counted(r, w)
  {
    var a, b, c := Searching(rest).action, Searching(rest).rest.action, Searching(rest).rest.rest.action;
    assert WellFormed(Do(c, rest)) && WellFormed(Do(b, Do(c, rest)));
    assert FirstUnbound(m, Needs(a)).None?;
    r := PutsOut(a, Do(b, Do(c, rest)), Notes(FoundFor(w)), m, w);
    if r.status.Running? {
      var s := CountRuns(b, c, rest, r, w);
      DoesBoth(m, r, s, [], [], w);
      r := s;
    }
  }

  lemma CountRuns(b: Action, c: Action, rest: Block, m: Machine, w: World) returns (r: Machine)
    requires b == CountItems(Part(Found, CountOf), Found)
    requires c == GetText(Part(Found, CountText), OutputOf(Part(Found, CountOf)))
    requires WellFormed(rest) && WellFormed(Do(c, rest)) && m.status.Running? && RequestKnown(m, w)
    requires Found in m.env && m.env[Found] == Notes(FoundFor(w))
    ensures Execute(Do(b, Do(c, rest)), m, "", w) == Execute(rest, r, "", w)
    ensures Does(m, r, [], w)
    ensures r.status.Running? ==> RequestKnown(r, w) && Counted(r, w)
  {
    assert FirstUnbound(m, Needs(b)).None?;
    r := PutsOut(b, Do(c, rest), Number(|FoundFor(w)|), m, w);
    if r.status.Running? {
      assert FirstUnbound(r, Needs(c)).None?;
      var s := PutsOut(c, rest, TextValue(Decimal(|FoundFor(w)|)), r, w);
      DoesBoth(m, r, s, [], [], w);
      r := s;
    }
  }

  ghost predicate Counted(m: Machine, w: World) {
    && Found in m.env && m.env[Found] == Notes(FoundFor(w))
    && Part(Found, CountText) in m.env && m.env[Part(Found, CountText)] == TextValue(Decimal(|FoundFor(w)|))
  }

  lemma {:induction false} ValuesShape(keys: seq<Key>, rest: Block)
    requires WellFormed(rest)
    ensures WellFormed(ValuesBlock(keys, rest))
    decreases |keys|
  {
    if keys != [] {
      ValuesShape(keys[1..], rest);
    }
  }

  lemma {:induction false} ValuesRun(keys: seq<Key>, done: seq<Key>, rest: Block, m: Machine, w: World)
    returns (r: Machine)
    requires WellFormed(rest) && m.status.Running?
    requires RequestDictionary in m.env && m.env[RequestDictionary] == Dictionary
    requires forall k :: k in done ==> Field(k) in m.env && m.env[Field(k)] == ValueOfKey(k, w)
    ensures WellFormed(ValuesBlock(keys, rest))
    ensures Execute(ValuesBlock(keys, rest), m, "", w) == Execute(rest, r, "", w)
    ensures Does(m, r, [], w)
    ensures r.status.Running? ==>
              forall k :: k in done + keys ==> Field(k) in r.env && r.env[Field(k)] == ValueOfKey(k, w)
    decreases |keys|
  {
    ValuesShape(keys, rest);
    if keys == [] {
      r := m;
      assert m.log + [] == m.log;
    } else {
      ValuesShape(keys[1..], rest);
      var n := ValueRuns(keys[0], done, ValuesBlock(keys[1..], rest), m, w);
      r := n;
      if n.status.Running? {
        r := ValuesRun(keys[1..], done + [keys[0]], rest, n, w);
        DoesBoth(m, n, r, [], [], w);
        assert done + [keys[0]] + keys[1..] == done + keys;
      }
    }
  }

  lemma ValueRuns(k: Key, done: seq<Key>, rest: Block, m: Machine, w: World) returns (r: Machine)
    requires WellFormed(rest) && m.status.Running?
    requires RequestDictionary in m.env && m.env[RequestDictionary] == Dictionary
    requires forall k :: k in done ==> Field(k) in m.env && m.env[Field(k)] == ValueOfKey(k, w)
    ensures Execute(Do(GetValue(Field(k), RequestDictionary, k), rest), m, "", w) == Execute(rest, r, "", w)
    ensures Does(m, r, [], w)
    ensures r.status.Running? ==> RequestDictionary in r.env && r.env[RequestDictionary] == Dictionary
    ensures r.status.Running? ==>
              forall k' :: k' in done + [k] ==> Field(k') in r.env && r.env[Field(k')] == ValueOfKey(k', w)
  {
    var a := GetValue(Field(k), RequestDictionary, k);
    assert FirstUnbound(m, Needs(a)).None?;
    r := PutsOut(a, rest, ValueOfKey(k, w), m, w);
  }

  lemma DecisionShape()
    ensures WellFormed(AddOne()) && WellFormed(AddAll()) && WellFormed(Decision())
    ensures WellFormed(AnswerWith(Success("tags"), OK)) && WellFormed(AnswerWith(Refusal, AMBIGUOUS))
  {
    PlainPair(AddOne());
    PlainPair(AnswerWith(Success("tags"), OK));
    PlainPair(AnswerWith(Refusal, AMBIGUOUS));
    assert Groups(AddAll()) == {LOOP} + Groups(AddOne()) + Groups(AnswerWith(Success("tags"), OK));
  }

  lemma PlainPair(b: Block)
    requires b.Do? && b.rest.Do? && b.rest.rest == Skip && !b.action.IsControl() && !b.rest.action.IsControl()
    ensures WellFormed(b) && Groups(b) == {}
  {
    assert Groups(b.rest) == Groups(Skip);
  }

  lemma DecisionIsHonest(m: Machine, w: World)
    requires m.status.Running? && RequestKnown(m, w) && Counted(m, w) && m.log == []
    ensures WellFormed(Decision()) && TagsHonest(Execute(Decision(), m, "", w), w)
  {
    DecisionShape();
    DecimalOne(|FoundFor(w)|);
    var b := Decision();
    assert FirstUnbound(m, Needs(IfOf(b))).None?;
    assert Execute(b, m, "", w) == Execute(Skip, Taken(b, m, "", w), "", w);
    assert Execute(b, m, "", w) == Taken(b, m, "", w);
    if |FoundFor(w)| == 1 {
      AddAllIsHonest(m, w);
    } else {
      AnswerRuns(Refusal, AMBIGUOUS, m, "", w);
    }
  }

  lemma AddAllIsHonest(m: Machine, w: World)
    requires m.status.Running? && RequestKnown(m, w) && Counted(m, w) && m.log == [] && |FoundFor(w)| == 1
    ensures WellFormed(AddAll()) && TagsHonest(Execute(AddAll(), m, "", w), w)
  {
    DecisionShape();
    var n := FoundFor(w)[0];
    assert FoundFor(w) == [n];
    TagsDo(w.request.tags, m, w, n);
    var r := ExecuteEach(AddOne(), w.request.tags, m, w);
    assert m.log + TagsWanted(w) == TagsWanted(w);
    assert Execute(AddAll(), m, "", w) == Execute(AnswerWith(Success("tags"), OK), r, "", w);
    if r.status.Running? { AnswerRuns(Success("tags"), OK, r, "", w); }
  }

  lemma TagProgramOfIsHonest(keys: seq<Key>, w: World)
    requires keys == TAG_KEYS
    ensures WellFormed(TagProgramOf(keys)) && TagsHonest(Execute(TagProgramOf(keys), Shortcut.START, "", w), w)
  {
    DecisionShape();
    SearchShape(Decision());
    ValuesShape(keys, Searching(Decision()));
    var r := HeadRuns(ValuesBlock(keys, Searching(Decision())), w);
    if r.status.Running? { ValuesOnIsHonest(keys, r, w); }
  }

  lemma SearchShape(rest: Block)
    requires WellFormed(rest)
    ensures WellFormed(Searching(rest))
  {
    assert WellFormed(Searching(rest).rest.rest);
  }

  lemma ValuesOnIsHonest(keys: seq<Key>, m: Machine, w: World)
    requires keys == TAG_KEYS && m.status.Running? && m.log == []
    requires RequestDictionary in m.env && m.env[RequestDictionary] == Dictionary
    ensures WellFormed(ValuesBlock(keys, Searching(Decision())))
    ensures TagsHonest(Execute(ValuesBlock(keys, Searching(Decision())), m, "", w), w)
  {
    DecisionShape();
    SearchShape(Decision());
    var r := ValuesRun(keys, [], Searching(Decision()), m, w);
    assert m.log + [] == r.log;
    if r.status.Running? {
      assert Title in [] + keys && ScopeText in [] + keys && Tags in [] + keys;
      var s := SearchRuns(Decision(), r, w);
      assert r.log + [] == s.log;
      if s.status.Running? { DecisionIsHonest(s, w); }
    }
  }

  // ---------- The flat list ----------

  function TagListAfter(w: World, k: nat): Machine {
    Iterate(Flatten(TagProgram()), Begin(), w, k).machine
  }

  /** At every moment what was started is the beginning of what the request stands for, a run that has halted
      ended honestly, and every run halts. */
  lemma TagListIsHonest(w: World, k: nat)
    ensures TagListAfter(w, k).log <= TagsWanted(w)
    ensures !TagListAfter(w, k).status.Running? ==> TagsHonest(TagListAfter(w, k), w)
    ensures exists n :: !TagListAfter(w, n).status.Running?
  {
    TagProgramOfIsHonest(TAG_KEYS, w);
    EveryMoment(TagProgram(), w, k);
    var n := RunsAsBlock(TagProgram(), w);
    assert !TagListAfter(w, n).status.Running?;
  }

  /** A run without errors changes a note exactly when the search finds one note and there is a tag; it answers
      with the refusal exactly when the search does not find one note, and then it has started nothing. */
  lemma TagsChangeExactlyOneFound(w: World, k: nat)
    requires !TagListAfter(w, k).status.Running?
    ensures !Fails(w) ==> (TagListAfter(w, k).log != [] <==> |FoundFor(w)| == 1 && w.request.tags != [])
    ensures !Fails(w) ==> (TagListAfter(w, k).status == Stopped(AMBIGUOUS) <==> |FoundFor(w)| != 1)
    ensures TagListAfter(w, k).status == Stopped(AMBIGUOUS) ==> TagListAfter(w, k).log == []
    ensures !Fails(w) ==>
              TagListAfter(w, k).status
              == Stopped(if |FoundFor(w)| == 1 then "APPLE_NOTES_TAGS_OK" else "APPLE_NOTES_TAGS_AMBIGUOUS_OR_MISSING")
  {
    TagListIsHonest(w, k);
    assert |OK| == 19 && |AMBIGUOUS| == 37;
  }

  /** What such a run starts for one found note, tag by tag: the tag is created, then added to the note. */
  lemma EachTagIsAdded(w: World, k: nat, i: nat)
    requires !Fails(w) && !TagListAfter(w, k).status.Running? && |FoundFor(w)| == 1 && i < |w.request.tags|
    ensures var log, tag := TagListAfter(w, k).log, w.request.tags[i];
            && |log| == 2 * |w.request.tags|
            && log[2 * i].kind == CreateTag && log[2 * i].input == Some(TextValue(tag)) && log[2 * i].notes == []
            && log[2 * i + 1].kind == AddTags && log[2 * i + 1].input == Some(TagNamed(tag))
            && log[2 * i + 1].notes == FoundFor(w)
  {
    TagListIsHonest(w, k);
    TagEffectsAt(w.request.tags, FoundFor(w)[0], i);
  }

  lemma {:induction false} TagEffectsAt(tags: seq<string>, n: Note, i: nat)
    requires i < |tags|
    ensures var effects := TagEffects(tags, n);
            && |effects| == 2 * |tags|
            && effects[2 * i].kind == CreateTag && effects[2 * i].input == Some(TextValue(tags[i]))
            && effects[2 * i].notes == []
            && effects[2 * i + 1].kind == AddTags && effects[2 * i + 1].input == Some(TagNamed(tags[i]))
            && effects[2 * i + 1].notes == [n]
    decreases |tags|
  {
    if |tags| > 1 { TagEffectsAt(tags[1..], n, if i > 0 then i - 1 else 0); }
  }

  /** So the stricter gate of the Background Operations bridge, exact title and literal scope, is kept exactly
      by the requests whose search is already strict: it finds no single note, or one that passes the gate. */
  lemma TagsKeepTheGateIff(w: World, k: nat)
    requires !Fails(w) && !TagListAfter(w, k).status.Running? && w.request.tags != []
    ensures (TagListAfter(w, k).log != [] ==> Passes(w)) <==> (|FoundFor(w)| == 1 ==> Passes(w))
  {
    TagsChangeExactlyOneFound(w, k);
  }

  /** A search by words finds "Old plan" for the title "plan": the note is tagged although its title differs. */
  lemma TagsReachAnInexactTitle() returns (w: World, k: nat)
    ensures !Fails(w) && FoundFor(w) == [Note("x-1", "Old plan", "scope")] && w.request.field(Title) == "plan"
    ensures TagListAfter(w, k).status == Stopped(OK) && |TagListAfter(w, k).log| == 2
    ensures TagListAfter(w, k).log[1].notes == FoundFor(w) && !Passes(w)
  {
    var n := Note("x-1", "Old plan", "scope");
    w := World(Request((key: Key) => if key.Title? then "plan" else "scope", ["red"]),
               (t, s) => [n], i => false, v => "");
    TagListIsHonest(w, 0);
    k :| !TagListAfter(w, k).status.Running?;
    TagListIsHonest(w, k);
    assert TagEffects(["red"][1..], n) == [];
    assert "Old plan"[0] != "plan"[0];
  }

  lemma TagListIsWellBuilt(w: World, k: nat)
    ensures OpenAfter(Flatten(TagProgram()), []) == Some([])
    ensures !TagListAfter(w, k).status.Unbound?
  {
    TagProgramOfIsHonest(TAG_KEYS, w);
    GroupsNest(TagProgram(), []);
    TagListIsHonest(w, k);
  }
}
