/** The guarded native mutation: preflight, at most one run of the bridge, readback, and an honest report. */
module BackgroundNotes {
  import opened Wrappers
  import opened NoteChecks
  import Shortcut
  import OperationsBridge
  import OperationsGate
  import TagsBridge

  // ---------- Data ----------

  datatype RichNote = RichNote(text: string, complete: bool, items: seq<Item>)

  datatype Snapshot = Snapshot(id: string, title: string, hash: string, pinned: Option<bool>, rich: RichNote)

  datatype Input = Input(id: string, expectedHash: string, scopeText: string)

  /** What a failed run carries: `status` and `signal` of the process, a timeout, or one of our own marks. */
  datatype TransportError = TransportError(
    notInstalled: bool, refused: bool, status: Option<int>, signalled: bool, timedOut: bool)

  datatype Answer<T> = Gave(value: T) | Threw

  /** What the environment answers, call by call; it may change the note between any two of them. */
  datatype Environment = Environment(
    first: Answer<Snapshot>,
    found: Answer<seq<string>>,
    second: Answer<Snapshot>,
    run: Option<TransportError>,   // None when the run reports no error
    third: Answer<Snapshot>,
    verify: (Snapshot, Snapshot) -> bool)

  datatype Call = Read(id: string) | Search(title: string, scope: string) | Run(payload: map<string, string>)

  datatype Code = ValidationError | ShortcutNotInstalled | OperationFailed | VerificationFailed

  datatype Outcome =
    | Done(previous: string, current: string, warned: bool)
    | Plain(uncertain: bool)                  // an error without a code; `uncertain` is what its text says
    | Coded(code: Code, committed: Option<bool>, indeterminate: bool)

  // ---------- Preflight ----------

  predicate GoodScope(scope: string) {
    12 <= |scope| <= 500 && '\r' !in scope && '\n' !in scope && '\0' !in scope
  }

  predicate Unchanged(before: Snapshot, after: Snapshot) {
    after.hash == before.hash && after.pinned == before.pinned
  }

  predicate ExitedWithError(e: TransportError) {
    e.status.Some? && e.status.value != 0 && !e.signalled && !e.timedOut
  }

  /** The note that was read is the expected revision, and the scope is below its title. */
  predicate Fits(request: Input, before: Snapshot) {
    && before.hash == request.expectedHash && before.rich.complete
    && Shortcut.IsPart(request.scopeText, TextBelowTitle(before.rich.text, before.title))
  }

  /** Nothing changed since, and a checklist item would go to the end. */
  predicate StillFits(before: Snapshot, operation: string, current: Snapshot) {
    && current.hash == before.hash && current.rich.complete
    && (operation == "create-checklist-item" ==> EndAppendAvailable(current.rich.text, current.rich.items))
  }

  /** The note read first is the expected revision, and the scope identifies it. */
  predicate Identified(request: Input, env: Environment) {
    && GoodScope(request.scopeText)
    && env.first.Gave? && Fits(request, env.first.value)
    && env.found == Gave([request.id])
  }

  /** Everything that must hold before the bridge is run. */
  predicate Clear(request: Input, operation: string, env: Environment) {
    && Identified(request, env)
    && env.second.Gave? && StillFits(env.first.value, operation, env.second.value)
  }

  function Payload(operation: string, data: map<string, string>, before: Snapshot, scope: string): map<string, string> {
    data["operation" := operation]["title" := before.title]["scopeText" := scope]
  }

  /** All the calls of a mutation that gets to its end. */
  function AllCalls(request: Input, operation: string, data: map<string, string>, before: Snapshot): seq<Call> {
    [Read(request.id), Search(before.title, request.scopeText), Read(request.id),
     Run(Payload(operation, data, before, request.scopeText)), Read(request.id)]
  }

  // ---------- The mutation ----------

  /** The result of an error before the run. */
  function Invalid(): Outcome {
    Coded(ValidationError, Some(false), false)
  }

  method MutateBackground(request: Input, operation: string, data: map<string, string>, env: Environment)
    returns (outcome: Outcome, calls: seq<Call>)
    // The bridge runs exactly when the preflight is clear, once, and is always followed by a read.
    ensures calls == [] || calls == [Read(request.id)]
            || (env.first.Gave? && calls <= AllCalls(request, operation, data, env.first.value))
    ensures |calls| == 5 <==> Clear(request, operation, env)
    ensures |calls| != 4
    // Success is reported exactly when the pair that was read around the run verifies.
    ensures outcome.Done? <==>
              Clear(request, operation, env) && env.third.Gave? && env.verify(env.first.value, env.third.value)
    ensures outcome.Done? ==>
              outcome == Done(request.expectedHash, env.third.value.hash, env.run.Some?)
    // Before the run, nothing is ever left open.
    ensures !Clear(request, operation, env) ==>
              outcome == Plain(false) || outcome == Coded(ValidationError, Some(false), false)
    // After it, "not committed" is claimed exactly for an unchanged note and a run that did not take place,
    // refused, or exited by itself with an error.
    ensures Clear(request, operation, env) ==>
              ((outcome.Coded? && outcome.committed == Some(false))
               <==> NotCommitted(env))
    ensures Clear(request, operation, env) && NotCommitted(env) ==>
              outcome == Coded(if env.run.value.notInstalled then ShortcutNotInstalled else OperationFailed,
                               Some(false), false)
    // Everything else is reported as open.
    ensures Clear(request, operation, env) && !outcome.Done? && !NotCommitted(env) ==>
              outcome == if env.third.Threw? then Coded(VerificationFailed, None, true) else Plain(true)
  {
    var failure;
    failure, calls := Preflight(request, operation, env);
    if failure.Some? { return failure.value, calls; }
    var before := env.first.value;
    calls := calls + [Run(Payload(operation, data, before, request.scopeText))];
    calls := calls + [Read(request.id)];
    if env.third.Threw? { return Coded(VerificationFailed, None, true), calls; }
    outcome := Report(before, env.third.value, env.run, env.verify(before, env.third.value));
  }

  /** The checks before the run, with the calls they need. */
  method Preflight(request: Input, operation: string, env: Environment)
    returns (failure: Option<Outcome>, calls: seq<Call>)
    ensures failure.None? <==> Clear(request, operation, env)
    ensures failure.Some? ==> failure.value == Plain(false) || failure.value == Invalid()
    ensures calls == [] || calls == [Read(request.id)]
            || (env.first.Gave? && calls <= Looking(request, env.first.value))
    ensures failure.None? ==> env.first.Gave? && calls == Looking(request, env.first.value)
  {
    calls := [];
    if |request.scopeText| < 12 || |request.scopeText| > 500
       || '\r' in request.scopeText || '\n' in request.scopeText || '\0' in request.scopeText {
      return Some(Plain(false)), calls;
    }
    calls := calls + [Read(request.id)];
    if env.first.Threw? { return Some(Plain(false)), calls; }
    var before := env.first.value;
    failure := CheckFirst(request, before);
    if failure.Some? { return; }
    calls := calls + [Search(before.title, request.scopeText)];
    if env.found.Threw? { return Some(Plain(false)), calls; }
    var candidates := env.found.value;
    if |candidates| != 1 || candidates[0] != request.id { return Some(Plain(false)), calls; }
    assert candidates == [request.id];
    calls := calls + [Read(request.id)];
    if env.second.Threw? { return Some(Plain(false)), calls; }
    failure := CheckSecond(before, operation, env.second.value);
  }

  method CheckFirst(request: Input, before: Snapshot) returns (failure: Option<Outcome>)
    ensures failure.None? <==> Fits(request, before)
    ensures failure.Some? ==> failure.value == Plain(false) || failure.value == Invalid()
  {
    if before.hash != request.expectedHash { return Some(Plain(false)); }
    if !before.rich.complete { return Some(Invalid()); }
    BelowTitleIsTheRest(before.rich.text, before.title, request.scopeText);
    if !Shortcut.IsPart(request.scopeText, before.rich.text) { return Some(Plain(false)); }
    if !Shortcut.IsPart(request.scopeText, TextBelowTitle(before.rich.text, before.title)) { return Some(Invalid()); }
    return None;
  }

  method CheckSecond(before: Snapshot, operation: string, current: Snapshot) returns (failure: Option<Outcome>)
    ensures failure.None? <==> StillFits(before, operation, current)
    ensures failure.Some? ==> failure.value == Plain(false) || failure.value == Invalid()
  {
    if current.hash != before.hash { return Some(Plain(false)); }
    if !current.rich.complete { return Some(Invalid()); }
    if operation == "create-checklist-item" && !EndAppendAvailable(current.rich.text, current.rich.items) {
      return Some(Invalid());
    }
    return None;
  }

  function Looking(request: Input, before: Snapshot): seq<Call> {
    [Read(request.id), Search(before.title, request.scopeText), Read(request.id)]
  }

  /** What is reported once the note was read back. */
  method Report(before: Snapshot, after: Snapshot, transportError: Option<TransportError>, verified: bool)
    returns (outcome: Outcome)
    ensures verified <==> outcome.Done?
    ensures verified ==> outcome == Done(before.hash, after.hash, transportError.Some?)
    ensures !verified ==> (outcome == Plain(true) <==> !(Unchanged(before, after) && DidNotRun(transportError)))
    ensures !verified && outcome != Plain(true) ==>
              outcome == Coded(if transportError.value.notInstalled then ShortcutNotInstalled else OperationFailed,
                               Some(false), false)
  {
    if !verified {
      var same := after.hash == before.hash && after.pinned == before.pinned;
      if transportError.Some? && transportError.value.notInstalled && same {
        return Coded(ShortcutNotInstalled, Some(false), false);
      }
      var exited := transportError.Some? && ExitedWithError(transportError.value);
      if transportError.Some? && (transportError.value.refused || exited) && same {
        return Coded(OperationFailed, Some(false), false);
      }
      return Plain(true);
    }
    return Done(before.hash, after.hash, transportError.Some?);
  }

  /** By its own account the run changed nothing. */
  predicate DidNotRun(e: Option<TransportError>) {
    e.Some? && (e.value.notInstalled || e.value.refused || ExitedWithError(e.value))
  }

  predicate NotCommitted(env: Environment) {
    && env.first.Gave? && env.third.Gave? && !env.verify(env.first.value, env.third.value)
    && Unchanged(env.first.value, env.third.value) && DidNotRun(env.run)
  }

  /** What the preflight comes to, in one place: a scope of 12 to 500 characters on one line; a complete note of the
      expected revision that has the scope below its title, is the one note that the search finds, and has the same
      revision when it is read again; and for a checklist item a checklist that can be continued. */
  lemma ClearExactly(request: Input, operation: string, env: Environment)
    ensures Clear(request, operation, env)
       <==> && 12 <= |request.scopeText| <= 500
            && '\r' !in request.scopeText && '\n' !in request.scopeText && '\0' !in request.scopeText
            && env.first.Gave? && env.found == Gave([request.id]) && env.second.Gave?
            && env.first.value.hash == env.second.value.hash == request.expectedHash
            && env.first.value.rich.complete && env.second.value.rich.complete
            && Shortcut.IsPart(request.scopeText, TextBelowTitle(env.first.value.rich.text, env.first.value.title))
            && (operation == "create-checklist-item" ==>
                  EndAppendAvailable(env.second.value.rich.text, env.second.value.rich.items))
  {}

  /** And when "not committed" is reported after it: the note has the same revision and pin as before, the pair does
      not verify, and the bridge was not installed, refused, or ended by itself with a status other than 0. */
  lemma NotCommittedExactly(env: Environment, installed: bool, process: Process)
    requires env.run == RunError(installed, process)
    ensures NotCommitted(env)
       <==> && env.first.Gave? && env.third.Gave? && !env.verify(env.first.value, env.third.value)
            && env.third.value.hash == env.first.value.hash && env.third.value.pinned == env.first.value.pinned
            && (!installed
                || (process.Exited? && SaysRefused(process.output))
                || (process.Failed? && !process.signalled && !process.timedOut
                    && process.status.Some? && process.status.value != 0))
  {}

  // ---------- Running the bridge ----------

  /** How `shortcuts run` ended. */
  datatype Process = Exited(output: string) | Failed(status: Option<int>, signalled: bool, timedOut: bool)

  predicate IsWord(c: char) {
    'a' <= c <= 'z' || 'A' <= c <= 'Z' || '0' <= c <= '9' || c == '_'
  }

  /** The text `_REFUSED` at `i`, with no word character behind it. */
  predicate RefusedAt(output: string, i: nat) {
    && i + 8 <= |output| && output[i..i + 8] == "_REFUSED"
    && (i + 8 == |output| || !IsWord(output[i + 8]))
  }

  predicate SaysRefused(output: string) {
    exists i :: 0 <= i < |output| && RefusedAt(output, i)
  }

  function KeyName(k: Shortcut.Key): string {
    match k
    case Operation => "operation"
    case Title => "title"
    case ScopeText => "scopeText"
    case Text => "text"
    case ObjectId => "objectId"
    case ObjectName => "objectName"
    case Change => "change"
    case OtherTitle => "otherTitle"
    case OtherScope => "otherScope"
    case Tag => "tag"
    case Size => "size"
    case Tags => "tags"
  }

  /** The text that the bridge gets under a key: from the input, or empty. */
  function FieldText(input: map<string, string>, k: Shortcut.Key): string {
    if KeyName(k) in input then input[KeyName(k)] else ""
  }

  /** The error of a run, if any. The output is read only when the process exits without one. */
  method RunBackgroundShortcut(installed: bool, process: Process) returns (error: Option<TransportError>)
    ensures error == RunError(installed, process)
  {
    if !installed { return Some(TransportError(true, false, None, false, false)); }
    if process.Failed? {
      return Some(TransportError(false, false, process.status, process.signalled, process.timedOut));
    }
    if SaysRefused(process.output) { return Some(TransportError(false, true, None, false, false)); }
    return None;
  }

  function RunError(installed: bool, process: Process): Option<TransportError> {
    if installed && process.Exited? && !SaysRefused(process.output) then None
    else
      Some(TransportError(!installed, installed && process.Exited?,
                          if installed && process.Failed? then process.status else None,
                          installed && process.Failed? && process.signalled,
                          installed && process.Failed? && process.timedOut))
  }

  /** The mark ends where a word ends: directly before a letter, a digit or an underscore it is not the mark. */
  lemma MarkIsAWord(before: string, c: char)
    ensures SaysRefused(before + "_REFUSED")
    ensures 'F' !in before ==>
              (SaysRefused(before + "_REFUSED" + [c])
               <==> !('a' <= c <= 'z' || 'A' <= c <= 'Z' || '0' <= c <= '9' || c == '_'))
  {
    var n, s, t := |before|, before + "_REFUSED", before + "_REFUSED" + [c];
    assert s[n..n + 8] == "_REFUSED" && t[n..n + 8] == "_REFUSED" && t[n + 8] == c;
    assert RefusedAt(s, n);
    if !IsWord(c) { assert RefusedAt(t, n); }
    if 'F' !in before && IsWord(c) {
      forall i | 0 <= i < |t| ensures !RefusedAt(t, i) { OnlyMark(before, c, i); }
    }
  }

  lemma OnlyMark(before: string, c: char, i: nat)
    requires 'F' !in before && IsWord(c)
    ensures !RefusedAt(before + "_REFUSED" + [c], i)
  {
    var n, mark, t := |before|, "_REFUSED", before + "_REFUSED" + [c];
    assert mark[3] == 'F' && t[n + 8] == c && forall k :: 0 <= k < n ==> t[k] == before[k];
    if RefusedAt(t, i) { MarkAt(t, i); }
  }

  lemma MarkAt(t: string, i: nat)
    requires RefusedAt(t, i)
    ensures t[i + 3] == 'F'
  {
    assert t[i..i + 8][3] == "_REFUSED"[3];
  }

  lemma RefusedHasF(s: string)
    requires SaysRefused(s)
    ensures 'F' in s
  {
    var i :| 0 <= i < |s| && RefusedAt(s, i);
    MarkAt(s, i);
  }

  lemma LacksF(s: string)
    requires 'F' !in s
    ensures !SaysRefused(s)
  {
    if SaysRefused(s) { RefusedHasF(s); }
  }

  /** The mark tells the refusal of the operations bridge from its other answers; it misses that of the tags
      bridge. */
  lemma MarkIsTheRefusal()
    ensures SaysRefused(OperationsBridge.REFUSED)
    ensures !SaysRefused(OperationsBridge.READY) && !SaysRefused(OperationsBridge.DONE)
    ensures !SaysRefused(TagsBridge.OK) && !SaysRefused(TagsBridge.AMBIGUOUS)
  {
    assert OperationsBridge.REFUSED[25..33] == "_REFUSED";
    assert RefusedAt(OperationsBridge.REFUSED, 25);
    LacksF(OperationsBridge.READY);
    LacksF(OperationsBridge.DONE);
    LacksF(TagsBridge.OK);
    LacksF(TagsBridge.AMBIGUOUS);
  }

  // ---------- The report and what the bridge did ----------

  /** The request that the bridge got is this payload. */
  ghost predicate Carries(w: Shortcut.World, payload: map<string, string>) {
    forall key: Shortcut.Key :: !key.Tags? ==> w.request.field(key) == FieldText(payload, key)
  }

  /** The bridge got the payload of this mutation; when the process exits without an error, its output is the
      answer of the list. */
  ghost predicate Serves(w: Shortcut.World, k: nat, process: Process, payload: map<string, string>) {
    && Carries(w, payload)
    && (process.Exited? ==> OperationsGate.ListAfter(w, k).status == Shortcut.Stopped(process.output))
  }

  /** What may have happened in a call of the bridge: a bridge that is not installed took no step. */
  ghost predicate Occurs(w: Shortcut.World, k: nat, installed: bool, process: Process, payload: map<string, string>) {
    if installed then Serves(w, k, process, payload) else Carries(w, payload) && k == 0
  }

  lemma FixedKeys(operation: string, data: map<string, string>, before: Snapshot, scope: string)
    ensures var p := Payload(operation, data, before, scope);
            && FieldText(p, Shortcut.Operation) == operation && FieldText(p, Shortcut.Title) == before.title
            && FieldText(p, Shortcut.ScopeText) == scope
  {
    assert "operation"[0] != "scopeText"[0] && |"title"| == 5 && |"operation"| == 9 && |"scopeText"| == 9;
  }

  /** No two keys of a request have one name. */
  lemma NamesAreDistinct(a: Shortcut.Key, b: Shortcut.Key)
    ensures KeyName(a) == KeyName(b) ==> a == b
  {
    assert KeyName(a)[0] == KeyName(b)[0] || KeyName(a) != KeyName(b);
  }

  /** And all other data of the caller reaches the bridge as it is. */
  lemma DataPassesOn(operation: string, data: map<string, string>, before: Snapshot, scope: string, key: Shortcut.Key)
    requires !key.Operation? && !key.Title? && !key.ScopeText?
    ensures FieldText(Payload(operation, data, before, scope), key) == FieldText(data, key)
  {
    OtherNames(key);
  }

  lemma OtherNames(key: Shortcut.Key)
    requires !key.Operation? && !key.Title? && !key.ScopeText?
    ensures KeyName(key) != "operation" && KeyName(key) != "title" && KeyName(key) != "scopeText"
  {
    var name := KeyName(key);
    assert |"operation"| == 9 && |"title"| == 5 && |"scopeText"| == 9;
    assert |name| == 9 ==> name != "operation" && name != "scopeText";
  }

  /** What a caller asks for is what is done: each mutation that is started has the caller's text, tag or change
      as its input. */
  lemma DataReachesTheNote(request: Input, operation: string, data: map<string, string>, env: Environment,
                           w: Shortcut.World, k: nat, process: Process)
    requires Clear(request, operation, env)
    requires Serves(w, k, process, Payload(operation, data, env.first.value, request.scopeText))
    ensures var text := if "text" in data then data["text"] else "";
            var tag := if "tag" in data then data["tag"] else "";
            var change := if "change" in data then data["change"] else "";
            forall e :: e in OperationsGate.ListAfter(w, k).log ==>
              AsAsked(e, operation, text, tag, change, OperationsGate.FoundFor(w))
  {
    FixedKeys(operation, data, env.first.value, request.scopeText);
    DataPassesOn(operation, data, env.first.value, request.scopeText, Shortcut.Text);
    DataPassesOn(operation, data, env.first.value, request.scopeText, Shortcut.Tag);
    DataPassesOn(operation, data, env.first.value, request.scopeText, Shortcut.Change);
    LogAsAsked(w, k);
    assert w.request.field(Shortcut.Text) == FieldText(data, Shortcut.Text);
    assert w.request.field(Shortcut.Tag) == FieldText(data, Shortcut.Tag);
    assert w.request.field(Shortcut.Change) == FieldText(data, Shortcut.Change);
    NamesOfInputs(data);
  }

  lemma NamesOfInputs(data: map<string, string>)
    ensures FieldText(data, Shortcut.Text) == if "text" in data then data["text"] else ""
    ensures FieldText(data, Shortcut.Tag) == if "tag" in data then data["tag"] else ""
    ensures FieldText(data, Shortcut.Change) == if "change" in data then data["change"] else ""
  {}

  lemma LogAsAsked(w: Shortcut.World, k: nat)
    ensures forall e :: e in OperationsGate.ListAfter(w, k).log ==>
              AsAsked(e, w.request.field(Shortcut.Operation), w.request.field(Shortcut.Text),
                      w.request.field(Shortcut.Tag), w.request.field(Shortcut.Change), OperationsGate.FoundFor(w))
  {
    OperationsGate.ListIsHonest(w, k);
    forall e | e in OperationsGate.ListAfter(w, k).log
      ensures AsAsked(e, w.request.field(Shortcut.Operation), w.request.field(Shortcut.Text),
                      w.request.field(Shortcut.Tag), w.request.field(Shortcut.Change), OperationsGate.FoundFor(w))
    {
      assert e in OperationsGate.WantedFor(w);
      WantedAsAsked(e, w);
    }
  }

  predicate AsAsked(e: Shortcut.Mutation, operation: string, text: string, tag: string, change: string,
                    found: seq<Shortcut.Note>)
  {
    && (operation == "append-text" ==>
          e.kind == Shortcut.Append(false) && e.input == Some(Shortcut.TextValue(text)) && e.notes == found)
    && (operation == "append-markdown" ==>
          e.kind == Shortcut.Append(true) && e.input == Some(Shortcut.TextValue(text)) && e.notes == found)
    && (operation == "create-checklist-item" ==>
          e.kind == Shortcut.CreateChecklistItem && e.input == Some(Shortcut.TextValue(text)) && e.notes == found)
    && (operation == "append-html" ==>
          e.kind == Shortcut.Append(false) && e.input == Some(Shortcut.Rich(text)) && e.notes == found)
    && (operation == "set-pinned" ==>
          && e.kind.Pin? && e.notes == found && e.input == None
          && change == if e.kind.add then "add" else "remove")
    && (operation == "add-tag" || operation == "remove-tag" ==>
          if e.kind.CreateTag? then e.input == Some(Shortcut.TextValue(tag))
          else
            && e.kind == (if operation == "add-tag" then Shortcut.AddTags else Shortcut.RemoveTags)
            && e.input == Some(Shortcut.TagNamed(tag)) && e.notes == found)
    && operation != "probe"
  }

  lemma WantedAsAsked(e: Shortcut.Mutation, w: Shortcut.World)
    requires e in OperationsGate.WantedFor(w)
    ensures AsAsked(e, w.request.field(Shortcut.Operation), w.request.field(Shortcut.Text),
                    w.request.field(Shortcut.Tag), w.request.field(Shortcut.Change), OperationsGate.FoundFor(w))
  {
    var n := OperationsGate.FoundFor(w)[0];
    assert OperationsGate.FoundFor(w) == [n];
    var op := w.request.field(Shortcut.Operation);
    assert e in OperationsGate.Wanted(op, w.request, n);
  }

  /** Whatever data a caller adds, the mutations that a clear request starts are those of its operation, on the
      one note that has the title of the note read before and the scope text in its body. */
  lemma MutationsAreScoped(request: Input, operation: string, data: map<string, string>, env: Environment,
                           w: Shortcut.World, k: nat, process: Process)
    requires Clear(request, operation, env)
    requires Serves(w, k, process, Payload(operation, data, env.first.value, request.scopeText))
    ensures var log, found := OperationsGate.ListAfter(w, k).log, OperationsGate.FoundFor(w);
            && (log != [] ==> |found| == 1 && found[0].name == env.first.value.title
                              && Shortcut.IsPart(request.scopeText, found[0].body))
            && (forall e :: e in log ==> IsOf(e, operation, found))
  {
    FixedKeys(operation, data, env.first.value, request.scopeText);
    OperationsGate.MutationsAreGated(w, k);
    forall e | e in OperationsGate.ListAfter(w, k).log ensures IsOf(e, operation, OperationsGate.FoundFor(w)) {
      assert OperationsGate.ActsFor(e, w);
    }
  }

  /** A mutation of this operation on the found note; only creating a tag needs no note. */
  predicate IsOf(e: Shortcut.Mutation, operation: string, found: seq<Shortcut.Note>) {
    && e.id.Step? && e.id.operation == operation
    && (e.notes == found || (e.notes == [] && e.kind == Shortcut.CreateTag))
  }

  /** A run that the bridge answers is taken for refused exactly when its list ended with the refusal, and then
      the list has started no mutation. */
  lemma RefusalIsRecognized(w: Shortcut.World, k: nat, process: Process, payload: map<string, string>)
    requires Serves(w, k, process, payload) && process.Exited?
    ensures RunError(true, process).Some? <==> OperationsGate.Answer(w) == OperationsBridge.REFUSED
    ensures RunError(true, process).Some? ==> OperationsGate.ListAfter(w, k).log == []
  {
    MarkIsTheRefusal();
    OperationsGate.ListIsHonest(w, k);
    OperationsGate.RefusalWantsNothing(w);
  }

  /** After a report of "not committed" the bridge was not run, or its list started nothing, unless the report
      rests on an error exit. Then the note reads back unchanged, and what the list started is the beginning of
      what the request stands for; `BridgeErrors.NotCommittedIsTrueExactly` says when that is nothing. A run that
      was killed or timed out is never reported in this way. */
  lemma NotCommittedIsTrue(request: Input, operation: string, data: map<string, string>, env: Environment,
                           w: Shortcut.World, k: nat, installed: bool, process: Process)
    requires Clear(request, operation, env) && NotCommitted(env) && env.run == RunError(installed, process)
    requires Occurs(w, k, installed, process, Payload(operation, data, env.first.value, request.scopeText))
    ensures OperationsGate.ListAfter(w, k).log <= OperationsGate.WantedFor(w)
    ensures OperationsGate.ListAfter(w, k).log != [] ==>
              && installed && process.Failed? && ExitedWithError(env.run.value)
              && Unchanged(env.first.value, env.third.value)
    ensures installed && process.Failed? ==>
              process.status.Some? && process.status.value != 0 && !process.signalled && !process.timedOut
  {
    OperationsGate.ListIsHonest(w, k);
    if installed && process.Exited? {
      RefusalIsRecognized(w, k, process, Payload(operation, data, env.first.value, request.scopeText));
    }
  }
}
