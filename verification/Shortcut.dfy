/** The bridges' language: a flat list of actions in which conditions and repeats are marked only by
    actions that share a group, as Shortcuts stores them.

    `Iterate` interprets the flat list. `Execute` gives the meaning of a structured `Block`. The two
    agree on every block whose nested groups differ: `Simulates`. */
module Shortcut {
  import opened Wrappers

  datatype Note = Note(id: string, name: string, body: string)

  datatype Key =
    | Operation | Title | ScopeText | Text | ObjectId | ObjectName | Change | OtherTitle | OtherScope
    | Tag | Size | Tags

  /** The request dictionary: text under every key, a list under `Tags`. */
  datatype Request = Request(field: Key -> string, tags: seq<string>)

  /** The labels that the builders pass to `uid`, which is taken to tell labels apart. */
  datatype Label =
    | RequestDictionary
    | RawValue(key: Key)
    | Field(key: Key)
    | Found
    | Part(of: Label, part: Piece)
    | Step(operation: string, index: nat)
    | Success(operation: string)
    | Refusal

  datatype Piece = CountOf | CountText | One | NameOf | ExactName | BodyOf | ExactBody

  datatype Property = Name | Body

  datatype TextSource = Literal(text: string) | OutputOf(id: Label) | PropertyOf(of: Label, property: Property)
                      | RepeatItem

  datatype Mode = Is | Contains

  datatype Kind =
    | Append(markdown: bool)
    | CreateChecklistItem
    | Pin(add: bool)
    | CreateTag
    | AddTags
    | RemoveTags

  type Group = Label

  datatype Action =
    | Comment
    | DetectDictionary(id: Label)
    | GetValue(id: Label, from: Label, key: Key)
    | GetText(id: Label, text: TextSource)
    | FindNotes(id: Label, title: Label, scope: Label)
    | CountItems(id: Label, of: Label)
    | RichText(id: Label, html: Label)
    | Native(id: Label, kind: Kind, input: Option<TextSource>, notes: Option<Label>)
    | StopWithOutput(output: Label)
    | If(group: Group, source: Label, mode: Mode, value: TextSource)
    | Otherwise(group: Group)
    | EndIf(group: Group)
    | Repeat(group: Group, over: Label)
    | EndRepeat(group: Group)
  {
    predicate IsControl() {
      If? || Otherwise? || EndIf? || Repeat? || EndRepeat?
    }
  }

  datatype Value = TextValue(text: string) | Dictionary | ListValue(items: seq<string>) | Notes(notes: seq<Note>)
                 | Number(n: nat) | Rich(html: string) | TagNamed(name: string) | Opaque

  /** One mutating action that was started, with the input and the notes it was given. */
  datatype Mutation = Mutation(id: Label, kind: Kind, input: Option<Value>, notes: seq<Note>)

  datatype Status =
    | Running
    | Stopped(output: string)
    | RanOff                    // the end of the list, without an output
    | Broke                     // an action reported an error
    | Unbound(id: Label)     // an action refers to an output that was not produced

  datatype Machine = Machine(env: map<Label, Value>, log: seq<Mutation>, ticks: nat, status: Status)

  /** What the program runs in: the request, the native search, which actions break, and how values
      that are no text and no single note appear as text. */
  datatype World = World(
    request: Request,
    find: (string, string) -> seq<Note>,
    breaks: nat -> bool,
    render: Value -> string)

  const START := Machine(map[], [], 0, Running)

  // ---------- Single actions ----------

  function Digit(n: nat): char
    requires n < 10
  {
    ("0123456789")[n]
  }

  function Decimal(n: nat): (s: string)
    ensures s != []
    decreases n
  {
    if n < 10 then [Digit(n)] else Decimal(n / 10) + [Digit(n % 10)]
  }

  lemma DecimalOne(n: nat)
    ensures Decimal(n) == "1" <==> n == 1
  {
    if n >= 10 { assert |Decimal(n)| >= 2; }
  }

  function AsText(v: Value, w: World): string {
    match v
    case TextValue(text) => text
    case Number(n) => Decimal(n)
    case _ => w.render(v)
  }

  function PropertyText(v: Value, property: Property, w: World): string {
    if v.Notes? && |v.notes| == 1 then
      if property.Name? then v.notes[0].name else v.notes[0].body
    else w.render(v)
  }

  /** The label a text refers to, if any. */
  function Reference(t: TextSource): Option<Label> {
    match t
    case OutputOf(id) => Some(id)
    case PropertyOf(of, _) => Some(of)
    case _ => None
  }

  predicate Bound(m: Machine, l: Option<Label>) {
    l.Some? ==> l.value in m.env
  }

  function Evaluate(t: TextSource, m: Machine, item: string, w: World): string
    requires Bound(m, Reference(t))
  {
    match t
    case Literal(text) => text
    case OutputOf(id) => AsText(m.env[id], w)
    case PropertyOf(of, property) => PropertyText(m.env[of], property, w)
    case RepeatItem => item
  }

  /** The labels an action needs, in the order it needs them. */
  function Needs(a: Action): seq<Option<Label>> {
    match a
    case GetValue(_, from, _) => [Some(from)]
    case GetText(_, text) => [Reference(text)]
    case FindNotes(_, title, scope) => [Some(title), Some(scope)]
    case CountItems(_, of) => [Some(of)]
    case RichText(_, html) => [Some(html)]
    case Native(_, _, input, notes) => [notes, if input.Some? then Reference(input.value) else None]
    case StopWithOutput(text) => [Some(text)]
    case If(_, source, _, value) => [Some(source), Reference(value)]
    case Repeat(_, over) => [Some(over)]
    case _ => []
  }

  function FirstUnbound(m: Machine, needs: seq<Option<Label>>): (l: Option<Label>)
    ensures l.None? <==> forall i :: 0 <= i < |needs| ==> Bound(m, needs[i])
  {
    if needs == [] then None
    else if !Bound(m, needs[0]) then needs[0]
    else FirstUnbound(m, needs[1..])
  }

  function Define(m: Machine, l: Label, v: Value): Machine {
    m.(env := m.env[l := v])
  }

  function ValueOfKey(k: Key, w: World): Value {
    if k.Tags? then ListValue(w.request.tags) else TextValue(w.request.field(k))
  }

  /** One action that is not control flow. A mutating action is logged when it starts, whether or not it
      then reports an error. */
  function Perform(a: Action, m: Machine, item: string, w: World): Machine
    requires !a.IsControl() && m.status.Running?
  {
    var missing := FirstUnbound(m, Needs(a));
    if missing.Some? then m.(status := Unbound(missing.value))
    else
      var n := Start(a, m.(ticks := m.ticks + 1), item, w);
      if w.breaks(m.ticks) then n.(status := Broke) else Complete(a, n, item, w)
  }

  function Start(a: Action, m: Machine, item: string, w: World): Machine {
    if a.Native? then
      var notes := if a.notes.Some? && a.notes.value in m.env && m.env[a.notes.value].Notes?
                   then m.env[a.notes.value].notes else [];
      var input := if a.input.Some? then Some(InputValue(a.input.value, m, item, w)) else None;
      m.(log := m.log + [Mutation(a.id, a.kind, input, notes)])
    else m
  }

  function InputValue(t: TextSource, m: Machine, item: string, w: World): Value {
    if t.OutputOf? && t.id in m.env then m.env[t.id]
    else if Bound(m, Reference(t)) then TextValue(Evaluate(t, m, item, w))
    else Opaque
  }

  function Complete(a: Action, m: Machine, item: string, w: World): Machine
    requires !a.IsControl() && FirstUnbound(m, Needs(a)).None?
  {
    match a
    case Comment => m
    case DetectDictionary(id) => Define(m, id, Dictionary)
    case GetValue(id, from, key) =>
      Define(m, id, if m.env[Needs(a)[0].value].Dictionary? then ValueOfKey(key, w) else Opaque)
    case GetText(id, text) =>
      assert Bound(m, Needs(a)[0]);
      Define(m, id, TextValue(Evaluate(text, m, item, w)))
    case FindNotes(id, title, scope) =>
      assert Bound(m, Needs(a)[0]) && Bound(m, Needs(a)[1]);
      Define(m, id, Notes(w.find(AsText(m.env[title], w), AsText(m.env[scope], w))))
    case CountItems(id, of) =>
      assert Bound(m, Needs(a)[0]);
      Define(m, id, if m.env[of].Notes? then Number(|m.env[of].notes|) else Number(1))
    case RichText(id, html) =>
      assert Bound(m, Needs(a)[0]);
      Define(m, id, Rich(AsText(m.env[html], w)))
    case Native(id, kind, input, _) =>
      Define(m, id, if kind.CreateTag? && input.Some? then TagNamed(AsText(InputValue(input.value, m, item, w), w))
                    else Opaque)
    case StopWithOutput(text) =>
      assert Bound(m, Needs(a)[0]);
      m.(status := Stopped(AsText(m.env[text], w)))
  }

  function Holds(a: Action, m: Machine, item: string, w: World): bool
    requires a.If? && FirstUnbound(m, Needs(a)).None?
  {
    assert Bound(m, Needs(a)[0]) && Bound(m, Needs(a)[1]);
    var text, value := AsText(m.env[a.source], w), Evaluate(a.value, m, item, w);
    if a.mode.Is? then text == value else IsPart(value, text)
  }

  predicate IsPart(part: string, whole: string) {
    exists i :: 0 <= i <= |whole| && part <= whole[i..]
  }

  ghost predicate Surrounded(whole: string, before: string, part: string, after: string) {
    whole == before + part + after
  }

  /** A part is what some text before it and some text after it make into the whole. */
  lemma PartExactly(part: string, whole: string)
    ensures IsPart(part, whole) <==> exists before, after :: Surrounded(whole, before, part, after)
  {
    if IsPart(part, whole) {
      var i :| 0 <= i <= |whole| && part <= whole[i..];
      var after := whole[i..][|part|..];
      assert whole == whole[..i] + whole[i..] && whole[i..] == part + after;
      assert Surrounded(whole, whole[..i], part, after);
    }
    if before, after :| Surrounded(whole, before, part, after) {
      assert whole[|before|..] == part + after;
    }
  }

  function ItemsOf(v: Value): seq<string> {
    if v.ListValue? then v.items else []
  }

  // ---------- The flat list ----------

  /** A repeat in progress: its first action, what is left to do, and the current item. */
  datatype Frame = Frame(body: nat, left: seq<string>, item: string)

  datatype Flat = Flat(machine: Machine, pc: nat, frames: seq<Frame>)

  function CurrentItem(frames: seq<Frame>): string {
    if frames == [] then "" else frames[|frames| - 1].item
  }

  predicate Marks(a: Action, g: Group, orElse: bool) {
    a == EndIf(g) || (orElse && a == Otherwise(g)) || a == EndRepeat(g)
  }

  /** Just after the first action from `i` on that ends group `g` (or begins its other branch). */
  function After(program: seq<Action>, i: nat, g: Group, orElse: bool): nat
    decreases |program| - i
  {
    if i >= |program| then i
    else if Marks(program[i], g, orElse) then i + 1
    else After(program, i + 1, g, orElse)
  }

  function Tick(program: seq<Action>, f: Flat, w: World): Flat {
    if !f.machine.status.Running? then f
    else if f.pc >= |program| then f.(machine := f.machine.(status := RanOff))
    else
      var a := program[f.pc];
      if !a.IsControl() then
        f.(machine := Perform(a, f.machine, CurrentItem(f.frames), w), pc := f.pc + 1)
      else
        var missing := FirstUnbound(f.machine, Needs(a));
        if missing.Some? then f.(machine := f.machine.(status := Unbound(missing.value)))
        else Branch(program, a, f, w)
  }

  function Branch(program: seq<Action>, a: Action, f: Flat, w: World): Flat
    requires a.IsControl() && FirstUnbound(f.machine, Needs(a)).None?
  {
    match a
    case If(g, _, _, _) =>
      f.(pc := if Holds(a, f.machine, CurrentItem(f.frames), w) then f.pc + 1
               else After(program, f.pc + 1, g, true))
    case Otherwise(g) => f.(pc := After(program, f.pc + 1, g, false))
    case EndIf(_) => f.(pc := f.pc + 1)
    case Repeat(g, over) =>
      assert Bound(f.machine, Needs(a)[0]);
      var items := ItemsOf(f.machine.env[over]);
      if items == [] then f.(pc := After(program, f.pc + 1, g, false))
      else f.(pc := f.pc + 1, frames := f.frames + [Frame(f.pc + 1, items[1..], items[0])])
    case EndRepeat(_) =>
      if f.frames == [] then f.(pc := f.pc + 1)
      else
        var outer, top := f.frames[..|f.frames| - 1], f.frames[|f.frames| - 1];
        if top.left == [] then f.(pc := f.pc + 1, frames := outer)
        else f.(pc := top.body, frames := outer + [Frame(top.body, top.left[1..], top.left[0])])
  }

  function Iterate(program: seq<Action>, f: Flat, w: World, n: nat): Flat
    decreases n
  {
    if n == 0 then f else Iterate(program, Tick(program, f, w), w, n - 1)
  }

  // ---------- Blocks ----------

  datatype Block =
    | Skip
    | Do(action: Action, rest: Block)
    | Cond(group: Group, source: Label, mode: Mode, value: TextSource, thn: Block, hasElse: bool, els: Block,
           rest: Block)
    | Each(group: Group, over: Label, body: Block, rest: Block)

  function Flatten(b: Block): seq<Action> {
    match b
    case Skip => []
    case Do(a, rest) => [a] + Flatten(rest)
    case Cond(g, source, mode, value, thn, hasElse, els, rest) =>
      [If(g, source, mode, value)] + Flatten(thn)
      + (if hasElse then [Otherwise(g)] + Flatten(els) else [])
      + [EndIf(g)] + Flatten(rest)
    case Each(g, over, body, rest) =>
      [Repeat(g, over)] + Flatten(body) + [EndRepeat(g)] + Flatten(rest)
  }

  /** Only plain actions in `Do`, and no group within itself. */
  predicate WellFormed(b: Block) {
    match b
    case Skip => true
    case Do(a, rest) => !a.IsControl() && WellFormed(rest)
    case Cond(g, _, _, _, thn, _, els, rest) =>
      g !in Groups(thn) && g !in Groups(els) && WellFormed(thn) && WellFormed(els) && WellFormed(rest)
    case Each(g, _, body, rest) => g !in Groups(body) && WellFormed(body) && WellFormed(rest)
  }

  function Groups(b: Block): set<Group> {
    match b
    case Skip => {}
    case Do(_, rest) => Groups(rest)
    case Cond(g, _, _, _, thn, _, els, rest) => {g} + Groups(thn) + Groups(els) + Groups(rest)
    case Each(g, _, body, rest) => {g} + Groups(body) + Groups(rest)
  }

  function Execute(b: Block, m: Machine, item: string, w: World): Machine
    requires WellFormed(b)
    decreases b, 0
  {
    if !m.status.Running? then m
    else
      match b
      case Skip => m
      case Do(a, rest) => Execute(rest, Perform(a, m, item, w), item, w)
      case Cond(g, source, mode, value, thn, hasElse, els, rest) =>
        var a := If(g, source, mode, value);
        var missing := FirstUnbound(m, Needs(a));
        if missing.Some? then m.(status := Unbound(missing.value))
        else if Holds(a, m, item, w) then Execute(rest, Execute(thn, m, item, w), item, w)
        else Execute(rest, if hasElse then Execute(els, m, item, w) else m, item, w)
      case Each(g, over, body, rest) =>
        if over !in m.env then m.(status := Unbound(over))
        else Execute(rest, ExecuteEach(body, ItemsOf(m.env[over]), m, w), item, w)
  }

  function ExecuteEach(body: Block, items: seq<string>, m: Machine, w: World): Machine
    requires WellFormed(body)
    decreases body, 1, |items|
  {
    if items == [] || !m.status.Running? then m
    else ExecuteEach(body, items[1..], Execute(body, m, items[0], w), w)
  }
}
