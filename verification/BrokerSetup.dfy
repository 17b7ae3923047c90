/** Installing and removing the broker: nothing that is installed is removed or replaced before launchd confirmed
    that the service is gone, and the manifest goes last. */
module BrokerSetup {
  import opened Wrappers

  /** What setup knows by path. `OtherFiles` stands for whatever else lies in the state directory. */
  datatype Artifact = Agent | App | Socket | Log | Manifest | StateDir | Staging | OtherFiles

  const MAX_PROBES := 20

  /** A `launchctl print`: its status (None when there is none), and whether its output has the line that says
      this service was not found. */
  datatype Probe = Probe(status: Option<int>, error: bool, signal: bool, notFound: bool) | ProbeThrew

  datatype Verdict = Absent | Loaded | Inconclusive

  /** Only the service's own diagnostic with status 113 proves absence. */
  function Judge(p: Probe): Verdict {
    match p
    case ProbeThrew => Inconclusive
    case Probe(status, error, signal, notFound) =>
      if !error && !signal && status == Some(113) && notFound then Absent
      else if status != Some(0) || error || signal then Inconclusive
      else Loaded
  }

  /** What an attempt to remove a path does. */
  datatype Removal = Gone | Stays | Throws(left: Leftover)

  /** What a removal that throws has left; only a recursive one can leave a part. */
  datatype Leftover = AsWas | Nothing | Part(contents: nat)

  /** What replacing or writing a path does; an error in the middle of a write leaves other contents. */
  datatype Writing = Written | NotWritten | Damaged(contents: nat)

  datatype Link = Symlink | Directory | Missing | Unreadable

  datatype DirectoryRemoval = Removed | StillThere | NotEmpty | NotThere | OtherError

  /** The steps before an installation touches anything that is installed. */
  datatype Check = SocketPath | Source | EntryPoint | NodeRuntime | Compiler | Compile | Identity | Sign | Verify
                 | Handshake

  datatype Environment = Environment(
    darwin: bool,
    passes: Check -> bool,
    bootoutThrows: bool,
    probes: nat -> Probe,
    link: Link,
    remove: Artifact -> Removal,
    directory: DirectoryRemoval,
    write: Artifact -> Writing,
    bootstraps: bool,
    answers: nat -> bool,
    ready: bool,                   // the inspection finds a usable installation
    version: nat)                  // the contents that this setup installs

  datatype Effect =
    | Bootout
    | Probed(verdict: Verdict)
    | Slept
    | Removing(path: Artifact)
    | RemovingDirectory
    | Prepared                     // the directories and the staged app
    | WritingTo(path: Artifact)
    | Bootstrap
    | Unstaged
    | Pinged

  /** An effect on something that is installed. */
  predicate Touches(e: Effect) {
    e.Removing? || e.WritingTo? || e.RemovingDirectory?
  }

  /** Every effect on something installed comes after a confirmed absence. */
  ghost predicate Guarded(trace: seq<Effect>) {
    forall i :: 0 <= i < |trace| && Touches(trace[i]) ==> Probed(Absent) in trace[..i]
  }

  datatype Mode = CheckOnly | Uninstall | Install

  datatype Step = Platform | Inspect | Stop | RemoveAll | Checked(check: Check) | InstallApp | StartAgent
                | BrokerAnswers

  datatype StepResult = StepResult(step: Step, ok: bool)

  predicate AllOk(steps: seq<StepResult>) {
    forall s :: s in steps ==> s.ok
  }

  /** The checks that also leave a step when they pass. */
  predicate Announced(c: Check) {
    c != SocketPath && c != EntryPoint && c != Identity
  }

  /** The paths of an installation, apart from its directories. */
  const INSTALLED := {Agent, App, Socket, Log, Manifest}

  predicate Untouched(a: Artifact, before: map<Artifact, nat>, after: map<Artifact, nat>) {
    (a in before <==> a in after) && (a in before ==> after[a] == before[a])
  }

  predicate New(a: Artifact, files: map<Artifact, nat>, env: Environment) {
    a in files && files[a] == env.version
  }

  /** What an installation may have changed: the app first, of which a failing removal may leave a part, the
      manifest only beside the new app, the agent only beside the new manifest; and nothing that it does not write. */
  ghost predicate InOrder(before: map<Artifact, nat>, after: map<Artifact, nat>, env: Environment) {
    && (Untouched(App, before, after) || App !in after || New(App, after, env) || PartOf(App, after[App], env))
    && (Untouched(Manifest, before, after) || New(App, after, env))
    && (Untouched(Agent, before, after) || (New(Manifest, after, env) && New(App, after, env)))
    && (forall a :: a in {Socket, Log, OtherFiles} ==> Untouched(a, before, after))
  }

  /** The app and the staging directory are removed recursively. */
  predicate Recursive(path: Artifact) {
    path == App || path == Staging
  }

  /** What a recursive removal left when it threw halfway. */
  predicate PartOf(path: Artifact, contents: nat, env: Environment) {
    Recursive(path) && env.remove(path) == Throws(Part(contents))
  }

  function AfterRemoval(files: map<Artifact, nat>, path: Artifact, env: Environment): map<Artifact, nat> {
    match env.remove(path)
    case Gone => files - {path}
    case Stays => files
    case Throws(Nothing) => files - {path}
    case Throws(AsWas) => files
    case Throws(Part(contents)) => if path in files && Recursive(path) then files[path := contents] else files
  }

  /** Nothing is written: what is there was there before, as it was, or is a part that a removal left. */
  ghost predicate OnlyLess(before: map<Artifact, nat>, after: map<Artifact, nat>, env: Environment) {
    forall a :: a in after ==> a in before && (after[a] == before[a] || PartOf(a, after[a], env))
  }

  /** The app is renamed into place, so an error there leaves what was there. */
  function AfterWrite(files: map<Artifact, nat>, path: Artifact, env: Environment): map<Artifact, nat> {
    match env.write(path)
    case Written => files[path := env.version]
    case NotWritten => files
    case Damaged(contents) => if path == App then files else files[path := contents]
  }

  // ---------- Stopping ----------

  /** The probes from the `n`th on, until one decides; a wait follows each that does not, except the last. */
  function ProbesFrom(env: Environment, n: nat): seq<Effect>
    decreases MAX_PROBES - n, env
  {
    if n >= MAX_PROBES then []
    else
      var v := Judge(env.probes(n));
      if v != Loaded then [Probed(v)]
      else [Probed(v)] + (if n < MAX_PROBES - 1 then [Slept] else []) + ProbesFrom(env, n + 1)
  }

  /** The service is confirmed gone: among the first 20 probes one says so, and all before it said "loaded". */
  ghost predicate ConfirmedGone(env: Environment) {
    !env.bootoutThrows && exists n :: GoneAt(env, n)
  }

  /** Probe `n`, one of the first 20, ended by itself with status 113 and said that this service was not found,
      and all before it ended by themselves with status 0. */
  ghost predicate GoneAt(env: Environment, n: nat) {
    && n < 20 && env.probes(n) == Probe(Some(113), false, false, true)
    && forall i :: 0 <= i < n ==> SaysLoaded(env.probes(i))
  }

  predicate SaysLoaded(p: Probe) {
    p.Probe? && p.status == Some(0) && !p.error && !p.signal
  }

  function Count(trace: seq<Effect>, e: Effect): nat {
    if trace == [] then 0 else (if trace[0] == e then 1 else 0) + Count(trace[1..], e)
  }

  /** Whether an effect is a probe. */
  function Probes(trace: seq<Effect>): nat {
    if trace == [] then 0 else (if trace[0].Probed? then 1 else 0) + Probes(trace[1..])
  }

  lemma {:induction false} ProbesConcat(s: seq<Effect>, t: seq<Effect>)
    ensures Probes(s + t) == Probes(s) + Probes(t) && Count(s + t, Slept) == Count(s, Slept) + Count(t, Slept)
    decreases |s|
  {
    if s == [] {
      assert s + t == t;
    } else {
      assert (s + t)[1..] == s[1..] + t;
      ProbesConcat(s[1..], t);
    }
  }

  /** At most 20 probes, with a wait between any two of them and none after the last. */
  lemma {:induction false} StoppingIsBounded(env: Environment, n: nat)
    requires n < MAX_PROBES
    ensures var p := ProbesFrom(env, n);
            && 1 <= Probes(p) <= 20 - n && Count(p, Slept) == Probes(p) - 1
            && p != [] && p[|p| - 1].Probed?
    decreases MAX_PROBES - n
  {
    var v := Judge(env.probes(n));
    assert [Probed(v)][1..] == [] && [Slept][1..] == [];
    if v == Loaded {
      if n < MAX_PROBES - 1 {
        StoppingIsBounded(env, n + 1);
        ProbesConcat([Probed(v)] + [Slept], ProbesFrom(env, n + 1));
        ProbesConcat([Probed(v)], [Slept]);
      } else {
        assert ProbesFrom(env, n) == [Probed(v)];
      }
    }
  }

  function AfterAttempt(trace: seq<Effect>, env: Environment, n: nat): seq<Effect>
    requires n < MAX_PROBES
  {
    var v := Judge(env.probes(n));
    trace + [Probed(v)] + if v == Loaded && n < MAX_PROBES - 1 then [Slept] else []
  }

  lemma OneProbe(trace: seq<Effect>, env: Environment, n: nat)
    requires n < MAX_PROBES
    ensures trace + ProbesFrom(env, n)
         == AfterAttempt(trace, env, n) + if Judge(env.probes(n)) == Loaded then ProbesFrom(env, n + 1) else []
  {}

  lemma NothingMore(trace: seq<Effect>)
    ensures trace + [] == trace
  {}

  lemma StillLoaded(env: Environment)
    requires forall i :: 0 <= i < MAX_PROBES ==> Judge(env.probes(i)) == Loaded
    ensures !ConfirmedGone(env)
  {}

  /** The first probe that does not say "loaded" decides. */
  lemma Decisive(env: Environment, n: nat)
    requires n < MAX_PROBES && !env.bootoutThrows
    requires forall i :: 0 <= i < n ==> Judge(env.probes(i)) == Loaded
    ensures Judge(env.probes(n)) != Loaded ==> (ConfirmedGone(env) <==> Judge(env.probes(n)) == Absent)
  {
    if Judge(env.probes(n)) == Absent { assert GoneAt(env, n); }
    if Judge(env.probes(n)) == Inconclusive {
      forall k: nat ensures !GoneAt(env, k) {
        assert k < n ==> Judge(env.probes(k)) == Loaded;
        assert n < k && GoneAt(env, k) ==> SaysLoaded(env.probes(n));
      }
    }
  }

  lemma GuardedMore(trace: seq<Effect>, e: Effect)
    requires Guarded(trace) && (Touches(e) ==> Probed(Absent) in trace)
    ensures Guarded(trace + [e])
  {
    var more := trace + [e];
    forall i | 0 <= i < |more| && Touches(more[i]) ensures Probed(Absent) in more[..i] {
      if i < |trace| {
        assert more[..i] == trace[..i] && more[i] == trace[i];
      } else {
        assert more[..i] == trace;
      }
    }
  }

  lemma {:induction false} GuardedByQuiet(trace: seq<Effect>, quiet: seq<Effect>)
    requires Guarded(trace) && forall i :: 0 <= i < |quiet| ==> !Touches(quiet[i])
    ensures Guarded(trace + quiet)
    decreases |quiet|
  {
    if quiet == [] {
      assert trace + quiet == trace;
    } else {
      var n := |quiet| - 1;
      GuardedByQuiet(trace, quiet[..n]);
      GuardedMore(trace + quiet[..n], quiet[n]);
      assert trace + quiet == (trace + quiet[..n]) + [quiet[n]];
    }
  }

  lemma {:induction false} ProbesTouchNothing(env: Environment, n: nat)
    ensures forall i :: 0 <= i < |ProbesFrom(env, n)| ==> !Touches(ProbesFrom(env, n)[i])
    decreases MAX_PROBES - n
  {
    if n < MAX_PROBES { ProbesTouchNothing(env, n + 1); }
  }

  lemma StoppingIsHarmless(trace: seq<Effect>, env: Environment)
    requires Guarded(trace)
    ensures Guarded(trace + [Bootout] + if env.bootoutThrows then [] else ProbesFrom(env, 0))
  {
    ProbesTouchNothing(env, 0);
    var more := trace + [Bootout] + if env.bootoutThrows then [] else ProbesFrom(env, 0);
    GuardedMore(trace, Bootout);
    if !env.bootoutThrows { GuardedByQuiet(trace + [Bootout], ProbesFrom(env, 0)); }
    assert env.bootoutThrows ==> more == trace + [Bootout];
  }

  // ---------- Removing ----------

  function ToRemove(env: Environment): seq<Artifact> {
    [Agent, App] + (if env.link == Symlink then [] else [Socket]) + [Log]
  }

  /** What goes last: the manifest, or the link through which the state directory is reached. */
  function Metadata(env: Environment): Artifact {
    if env.link == Symlink then StateDir else Manifest
  }

  predicate GoneFrom(files: map<Artifact, nat>, paths: seq<Artifact>) {
    forall a :: a in paths ==> a !in files
  }

  /** Behind a link only the link itself goes: the socket and the manifest are in its target. Otherwise all that
      an installation consists of goes. */
  lemma WhatIsRemoved(env: Environment, a: Artifact)
    ensures a in ToRemove(env) + [Metadata(env)]
       <==> if env.link == Symlink then a in {Agent, App, Log, StateDir} else a in INSTALLED
  {
    assert ToRemove(env) + [Metadata(env)]
        == if env.link == Symlink then [Agent, App, Log, StateDir] else [Agent, App, Socket, Log, Manifest];
  }

  lemma RemovesAtMost(before: map<Artifact, nat>, files: map<Artifact, nat>, path: Artifact, env: Environment)
    requires OnlyLess(before, files, env)
    ensures var after := AfterRemoval(files, path, env);
            && OnlyLess(before, after, env)
            && (forall a :: a != path ==> (a in files <==> a in after))
            && (path in after ==> path in files)
  {}

  function RemovalsOf(paths: seq<Artifact>): seq<Effect> {
    if paths == [] then [] else RemovalsOf(paths[..|paths| - 1]) + [Removing(paths[|paths| - 1])]
  }

  // ---------- Installing ----------

  lemma MetadataInOrder(before: map<Artifact, nat>, renamed: map<Artifact, nat>, after: map<Artifact, nat>,
                        env: Environment)
    requires New(App, renamed, env)
    requires forall a :: a != App ==> Untouched(a, before, renamed)
    requires after == renamed || after == AfterWrite(renamed, Manifest, env)
             || (after == AfterWrite(AfterWrite(renamed, Manifest, env), Agent, env) && env.write(Manifest).Written?)
    ensures InOrder(before, after, env) && New(App, after, env) && (Staging in after <==> Staging in before)
  {
    assert Untouched(Manifest, before, renamed) && Untouched(Agent, before, renamed);
    assert Untouched(Staging, before, renamed);
    forall a | a in {Socket, Log, OtherFiles} ensures Untouched(a, before, after) {
      assert Untouched(a, before, renamed);
    }
  }

  lemma OnlyDirectories(before: map<Artifact, nat>, prepared: map<Artifact, nat>, installed: map<Artifact, nat>,
                        after: map<Artifact, nat>, env: Environment)
    requires InOrder(prepared, installed, env)
    requires forall a :: a != Staging && a != StateDir ==>
               Untouched(a, before, prepared) && Untouched(a, installed, after)
    ensures InOrder(before, after, env)
    ensures prepared == installed ==> forall a :: a in INSTALLED ==> Untouched(a, before, after)
  {
    forall a | a != Staging && a != StateDir
      ensures Untouched(a, prepared, installed) ==> Untouched(a, before, after)
      ensures a in after <==> a in installed
      ensures a in after ==> after[a] == installed[a]
    {
      assert Untouched(a, before, prepared) && Untouched(a, installed, after);
    }
  }

  lemma OkSnoc(steps: seq<StepResult>, s: StepResult)
    ensures AllOk(steps + [s]) <==> AllOk(steps) && s.ok
  {
    if AllOk(steps + [s]) {
      forall x | x in steps ensures x.ok { assert x in steps + [s]; }
      assert s in steps + [s];
    }
  }

  // ---------- Success ----------

  /** The report of these steps, all of them passed. */
  function Passed(steps: seq<Step>): seq<StepResult> {
    seq(|steps|, i requires 0 <= i < |steps| => StepResult(steps[i], true))
  }

  lemma AllPassed(a: seq<Step>, b: seq<Step>)
    ensures Passed(a) + Passed(b) + [StepResult(BrokerAnswers, true)] == Passed(a + b + [BrokerAnswers])
  {}

  /** The replacement goes through. */
  ghost predicate Replaces(env: Environment) {
    && !env.remove(App).Throws? && env.bootstraps
    && env.write(App).Written? && env.write(Manifest).Written? && env.write(Agent).Written?
  }

  /** The build and its checks pass, the old service is gone, and the replacement goes through. */
  ghost predicate InstallsStaged(env: Environment) {
    && env.passes(Compile) && env.passes(Identity) && env.passes(Sign) && env.passes(Verify) && env.passes(Handshake)
    && ConfirmedGone(env) && Replaces(env)
  }

  /** Nothing that an installation needs fails, and the new broker answers one of 20 pings. */
  ghost predicate Installs(env: Environment) {
    && env.passes(SocketPath) && env.passes(Source) && env.passes(EntryPoint) && env.passes(NodeRuntime)
    && env.passes(Compiler) && InstallsStaged(env) && !env.remove(Staging).Throws?
    && exists n :: 0 <= n < 20 && env.answers(n)
  }

  /** A path that is there goes, and nothing is thrown. */
  predicate Removable(path: Artifact, files: map<Artifact, nat>, env: Environment) {
    !env.remove(path).Throws? && (path in files ==> env.remove(path).Gone?)
  }

  predicate AllRemovable(paths: seq<Artifact>, files: map<Artifact, nat>, env: Environment) {
    forall a :: a in paths ==> Removable(a, files, env)
  }

  lemma OneMoreRemovable(paths: seq<Artifact>, path: Artifact, files: map<Artifact, nat>, env: Environment)
    ensures AllRemovable(paths + [path], files, env)
       <==> AllRemovable(paths, files, env) && Removable(path, files, env)
  {
    assert path in paths + [path];
    if AllRemovable(paths + [path], files, env) {
      forall a | a in paths ensures Removable(a, files, env) { assert a in paths + [path]; }
    }
  }

  /** How far the removal has come when each of `done` was tried. */
  ghost predicate RemovedSoFar(before: map<Artifact, nat>, files: map<Artifact, nat>, done: seq<Artifact>, ok: bool,
                           env: Environment)
  {
    && OnlyLess(before, files, env)
    && (forall a :: a !in done ==> (a in files <==> a in before))
    && (ok ==> GoneFrom(files, done))
    && (ok <==> AllRemovable(done, before, env))
  }

  lemma OneMoreRemoved(before: map<Artifact, nat>, files: map<Artifact, nat>, done: seq<Artifact>, ok: bool,
                       path: Artifact, env: Environment)
    requires RemovedSoFar(before, files, done, ok, env) && path !in done
    ensures var after := AfterRemoval(files, path, env);
            RemovedSoFar(before, after, done + [path], ok && !env.remove(path).Throws? && path !in after, env)
  {
    RemovesAtMost(before, files, path, env);
    OneMoreRemovable(done, path, before, env);
  }

  // ---------- The host ----------

  class Host {
    var files: map<Artifact, nat>      // what exists, with a number for its contents
    var trace: seq<Effect>

    constructor (present: map<Artifact, nat>)
      ensures files == present && trace == []
    {
      files, trace := present, [];
    }

    method StopBroker(env: Environment) returns (ok: bool)
      modifies this`trace
      ensures ok <==> ConfirmedGone(env)
      ensures trace == old(trace) + [Bootout] + if env.bootoutThrows then [] else ProbesFrom(env, 0)
      ensures ok ==> Probed(Absent) in trace
    {
      trace := trace + [Bootout];
      ok := false;
      if !env.bootoutThrows { ok := ProbeUntilGone(env); }
    }

    method ProbeUntilGone(env: Environment) returns (ok: bool)
      requires !env.bootoutThrows
      modifies this`trace
      ensures ok <==> ConfirmedGone(env)
      ensures trace == old(trace) + ProbesFrom(env, 0)
      ensures ok ==> Probed(Absent) in trace
    {
      var attempt := 0;
      ghost var whole := trace + ProbesFrom(env, 0);
      while attempt < MAX_PROBES
        invariant attempt <= MAX_PROBES
        invariant forall i :: 0 <= i < attempt ==> Judge(env.probes(i)) == Loaded
        invariant trace + ProbesFrom(env, attempt) == whole
      {
        OneProbe(trace, env, attempt);
        var verdict := Attempt(env, attempt);
        if verdict != Loaded {
          Decisive(env, attempt);
          NothingMore(trace);
          return verdict == Absent;
        }
        attempt := attempt + 1;
      }
      StillLoaded(env);
      NothingMore(trace);
      return false;
    }

    /** One probe, and the wait for the next. */
    method Attempt(env: Environment, attempt: nat) returns (verdict: Verdict)
      requires attempt < MAX_PROBES
      modifies this`trace
      ensures verdict == Judge(env.probes(attempt))
      ensures trace == AfterAttempt(old(trace), env, attempt)
      ensures Probed(verdict) in trace
    {
      verdict := Judge(env.probes(attempt));
      trace := trace + [Probed(verdict)];
      assert Probed(verdict) in trace;
      if verdict == Loaded && attempt < MAX_PROBES - 1 { trace := trace + [Slept]; }
    }

    /** Removes one path and looks whether it is gone. */
    method Remove(path: Artifact, env: Environment) returns (failed: bool)
      requires Guarded(trace) && Probed(Absent) in trace
      modifies this
      ensures Guarded(trace) && trace == old(trace) + [Removing(path)]
      ensures files == AfterRemoval(old(files), path, env)
      ensures env.remove(path).Gone? || env.remove(path) == Throws(Nothing) ==> path !in files
      ensures failed <==> env.remove(path).Throws? || path in files
    {
      GuardedMore(trace, Removing(path));
      trace := trace + [Removing(path)];
      files := AfterRemoval(files, path, env);
      failed := env.remove(path).Throws? || path in files;
    }

    /** The known artifacts, then the manifest (or the link to the state directory), then the directory if it is
        empty. */
    method RemoveBroker(env: Environment) returns (ok: bool, kept: bool)
      requires Guarded(trace) && Probed(Absent) in trace
      modifies this
      ensures Guarded(trace) && old(trace) <= trace
      // Nothing else is removed, and nothing is written.
      ensures OnlyLess(old(files), files, env)
      ensures forall a :: a in old(files) && a !in files ==> a in ToRemove(env) || a == Metadata(env) || a == StateDir
      // Success means that all of it is gone.
      ensures ok ==> GoneFrom(files, ToRemove(env)) && Metadata(env) !in files
      // The metadata, and the directory, go only when everything else is gone.
      ensures Metadata(env) in old(files) && Metadata(env) !in files ==> GoneFrom(files, ToRemove(env))
      ensures StateDir in old(files) && StateDir !in files ==>
                GoneFrom(files, ToRemove(env)) && Metadata(env) !in files
      ensures env.link == Unreadable ==> !ok && files == old(files)
      ensures kept ==> ok && env.directory == NotEmpty
      // It succeeds exactly when each of them can be removed, and the directory too or it is kept.
      ensures ok <==> env.link != Unreadable && AllRemovable(ToRemove(env) + [Metadata(env)], old(files), env)
                      && (env.link != Symlink ==> env.directory in {Removed, NotEmpty, NotThere})
    {
      kept := false;
      OneMoreRemovable(ToRemove(env), Metadata(env), files, env);
      if env.link == Unreadable { return false, false; }
      ok := RemoveArtifacts(env);
      if !ok { return; }
      RemovesAtMost(old(files), files, Metadata(env), env);
      var failed := Remove(Metadata(env), env);
      ok := !failed;
      if ok && env.link != Symlink { ok, kept := RemoveDirectory(env); }
    }

    /** Every one of them is tried, even when one fails. */
    method RemoveArtifacts(env: Environment) returns (ok: bool)
      requires Guarded(trace) && Probed(Absent) in trace
      modifies this
      ensures Guarded(trace) && old(trace) <= trace
      ensures trace == old(trace) + RemovalsOf(ToRemove(env))
      ensures OnlyLess(old(files), files, env)
      ensures forall a :: a in old(files) && a !in files ==> a in ToRemove(env)
      ensures ok ==> GoneFrom(files, ToRemove(env))
      ensures ok <==> AllRemovable(ToRemove(env), old(files), env)
      ensures forall a :: a !in ToRemove(env) ==> (a in files <==> a in old(files))
    {
      ok := true;
      var paths := ToRemove(env);
      for i := 0 to |paths|
        invariant Guarded(trace) && Probed(Absent) in trace && trace == old(trace) + RemovalsOf(paths[..i])
        invariant RemovedSoFar(old(files), files, paths[..i], ok, env)
      {
        assert paths[..i + 1][..i] == paths[..i] && paths[..i + 1] == paths[..i] + [paths[i]];
        OneMoreRemoved(old(files), files, paths[..i], ok, paths[i], env);
        var failed := Remove(paths[i], env);
        if failed { ok := false; }
      }
      assert paths[..|paths|] == paths;
    }

    /** The state directory, only if it is empty. */
    method RemoveDirectory(env: Environment) returns (ok: bool, kept: bool)
      requires Guarded(trace) && Probed(Absent) in trace
      modifies this
      ensures Guarded(trace) && trace == old(trace) + [RemovingDirectory]
      ensures files == old(files) || files == old(files) - {StateDir}
      ensures ok <==> env.directory in {Removed, NotEmpty, NotThere}
      ensures kept <==> env.directory == NotEmpty
    {
      GuardedMore(trace, RemovingDirectory);
      trace := trace + [RemovingDirectory];
      if env.directory == Removed { files := files - {StateDir}; }
      kept := env.directory == NotEmpty;
      ok := kept || env.directory == Removed || env.directory == NotThere;
    }

    /** One check of an installation. */
    method RunCheck(c: Check, steps: seq<StepResult>, env: Environment) returns (ok: bool, after: seq<StepResult>)
      ensures ok == env.passes(c)
      ensures AllOk(after) <==> AllOk(steps) && ok
      ensures after == if ok && c in {SocketPath, EntryPoint, Identity} then steps
                       else steps + [StepResult(Checked(c), ok)]
    {
      ok := env.passes(c);
      after := if !ok || Announced(c) then steps + [StepResult(Checked(c), ok)] else steps;
      OkSnoc(steps, StepResult(Checked(c), ok));
    }

    /** A rename that throws leaves what was there; an ordinary write that throws may leave anything. */
    method Write(path: Artifact, env: Environment) returns (threw: bool)
      requires Guarded(trace) && Probed(Absent) in trace
      modifies this
      ensures Guarded(trace) && Probed(Absent) in trace
      ensures threw <==> !env.write(path).Written?
      ensures files == AfterWrite(old(files), path, env)
    {
      GuardedMore(trace, WritingTo(path));
      trace := trace + [WritingTo(path)];
      files := AfterWrite(files, path, env);
      threw := !env.write(path).Written?;
    }

    /** Removes the app; a removal that throws may have removed it, or a part of it. */
    method ClearApp(env: Environment) returns (threw: bool)
      requires Guarded(trace) && Probed(Absent) in trace
      modifies this
      ensures Guarded(trace) && Probed(Absent) in trace
      ensures threw <==> env.remove(App).Throws?
      ensures files == AfterRemoval(old(files), App, env)
      ensures env.remove(App).Gone? || env.remove(App) == Throws(Nothing) ==> App !in files
    {
      GuardedMore(trace, Removing(App));
      trace := trace + [Removing(App)];
      files := AfterRemoval(files, App, env);
      threw := env.remove(App).Throws?;
    }

    /** Replaces the app, then writes the manifest and the agent. */
    method Replace(steps: seq<StepResult>, env: Environment) returns (after: seq<StepResult>, threw: bool)
      requires Guarded(trace) && Probed(Absent) in trace && AllOk(steps)
      modifies this
      ensures Guarded(trace) && InOrder(old(files), files, env)
      ensures Staging in files <==> Staging in old(files)
      ensures !threw && AllOk(after) ==> New(App, files, env) && New(Manifest, files, env) && New(Agent, files, env)
      ensures !threw && AllOk(after) <==> Replaces(env)
      ensures !threw && AllOk(after) ==> after == steps + Passed([InstallApp, StartAgent])
    {
      after := steps;
      threw := ClearApp(env);
      if threw { return; }
      threw := Write(App, env);
      if threw { return; }
      ghost var renamed := files;
      after, threw := WriteMetadata(after, env);
      MetadataInOrder(old(files), renamed, files, env);
    }

    /** With the new app in place: its manifest, then the agent, then the start. */
    method WriteMetadata(steps: seq<StepResult>, env: Environment) returns (after: seq<StepResult>, threw: bool)
      requires Guarded(trace) && Probed(Absent) in trace && AllOk(steps)
      modifies this
      ensures Guarded(trace)
      ensures files == old(files) || files == AfterWrite(old(files), Manifest, env)
              || (files == AfterWrite(AfterWrite(old(files), Manifest, env), Agent, env)
                  && env.write(Manifest).Written?)
      ensures !threw && AllOk(after) ==> New(Manifest, files, env) && New(Agent, files, env)
      ensures !threw && AllOk(after) <==> env.write(Manifest).Written? && env.write(Agent).Written? && env.bootstraps
      ensures !threw && AllOk(after) ==> after == steps + Passed([InstallApp, StartAgent])
    {
      after := steps;
      threw := Write(Manifest, env);
      if threw { return; }
      OkSnoc(after, StepResult(InstallApp, true));
      after := after + [StepResult(InstallApp, true)];
      threw := Write(Agent, env);
      if threw { return; }
      GuardedMore(trace, Bootstrap);
      trace := trace + [Bootstrap];
      OkSnoc(after, StepResult(StartAgent, env.bootstraps));
      after := after + [StepResult(StartAgent, env.bootstraps)];
    }

    /** With the app staged: the checks of the build, the stop, and only then the replacement. */
    method InstallStaged(steps: seq<StepResult>, env: Environment) returns (after: seq<StepResult>, threw: bool)
      requires Guarded(trace) && AllOk(steps)
      modifies this
      ensures Guarded(trace) && InOrder(old(files), files, env)
      ensures Staging in files <==> Staging in old(files)
      ensures !ConfirmedGone(env) ==> files == old(files)
      ensures !threw && AllOk(after) ==> New(App, files, env) && New(Manifest, files, env) && New(Agent, files, env)
      ensures !threw && AllOk(after) <==> InstallsStaged(env)
      ensures !threw && AllOk(after) ==>
                after == steps + Passed([Checked(Compile), Checked(Sign), Checked(Verify), Checked(Handshake), Stop,
                                         InstallApp, StartAgent])
    {
      var ok;
      threw := false;
      ok, after := CheckBuild(steps, env);
      if !ok { return; }
      StoppingIsHarmless(trace, env);
      ok := StopBroker(env);
      OkSnoc(after, StepResult(Stop, ok));
      after := after + [StepResult(Stop, ok)];
      if !ok { return; }
      after, threw := Replace(after, env);
    }

    /** The checks of the build. */
    method CheckBuild(steps: seq<StepResult>, env: Environment) returns (ok: bool, after: seq<StepResult>)
      requires AllOk(steps)
      ensures AllOk(after) <==> ok
      ensures ok <==> env.passes(Compile) && env.passes(Identity) && env.passes(Sign) && env.passes(Verify)
                      && env.passes(Handshake)
      ensures ok ==> after == steps + Passed([Checked(Compile), Checked(Sign), Checked(Verify), Checked(Handshake)])
    {
      ok, after := RunCheck(Compile, steps, env);
      if !ok { return; }
      ok, after := RunCheck(Identity, after, env);
      if !ok { return; }
      ok, after := RunCheck(Sign, after, env);
      if !ok { return; }
      ok, after := RunCheck(Verify, after, env);
      if !ok { return; }
      ok, after := RunCheck(Handshake, after, env);
    }

    /** The checks before anything is created. */
    method CheckSources(env: Environment) returns (ok: bool, steps: seq<StepResult>)
      ensures AllOk(steps) <==> ok
      ensures ok <==> env.passes(SocketPath) && env.passes(Source) && env.passes(EntryPoint)
                      && env.passes(NodeRuntime) && env.passes(Compiler)
      ensures ok ==> steps == Passed([Checked(Source), Checked(NodeRuntime), Checked(Compiler)])
    {
      ok, steps := RunCheck(SocketPath, [], env);
      if !ok { return; }
      ok, steps := RunCheck(Source, steps, env);
      if !ok { return; }
      ok, steps := RunCheck(EntryPoint, steps, env);
      if !ok { return; }
      ok, steps := RunCheck(NodeRuntime, steps, env);
      if !ok { return; }
      ok, steps := RunCheck(Compiler, steps, env);
    }

    /** The staging directory goes whatever happened; its removal may throw as well. */
    method Unstage(env: Environment) returns (threw: bool)
      requires Guarded(trace)
      modifies this
      ensures Guarded(trace)
      ensures threw <==> env.remove(Staging).Throws?
      ensures files == AfterRemoval(old(files), Staging, env)
      ensures env.remove(Staging).Gone? || env.remove(Staging) == Throws(Nothing) ==> Staging !in files
    {
      GuardedMore(trace, Unstaged);
      trace := trace + [Unstaged];
      files := AfterRemoval(files, Staging, env);
      threw := env.remove(Staging).Throws?;
    }

    /** The directories, and the staged app beside the installed one. */
    method Stage()
      requires Guarded(trace)
      modifies this
      ensures Guarded(trace)
      ensures forall a :: a != Staging && a != StateDir ==> Untouched(a, old(files), files)
    {
      GuardedMore(trace, Prepared);
      trace := trace + [Prepared];
      if StateDir !in files { files := files[StateDir := 0]; }
      files := files[Staging := 0];
    }

    method InstallBroker(env: Environment) returns (steps: seq<StepResult>, threw: bool)
      requires trace == [] && Staging !in files
      modifies this
      ensures Guarded(trace) && InOrder(old(files), files, env)
      ensures Staging in files ==> threw || env.remove(Staging).Stays?
      ensures !ConfirmedGone(env) ==> forall a :: a in INSTALLED ==> Untouched(a, old(files), files)
      ensures !threw && AllOk(steps) ==> New(App, files, env) && New(Manifest, files, env) && New(Agent, files, env)
      ensures !threw && AllOk(steps) <==> Installs(env)
      ensures !threw && AllOk(steps) ==>
                steps == Passed([Checked(Source), Checked(NodeRuntime), Checked(Compiler)]
                                + [Checked(Compile), Checked(Sign), Checked(Verify), Checked(Handshake), Stop,
                                   InstallApp, StartAgent] + [BrokerAnswers])
    {
      var ok;
      threw := false;
      ok, steps := CheckSources(env);
      if !ok { return; }
      Stage();
      ghost var prepared := files;
      steps, threw := InstallStaged(steps, env);
      ghost var installed := files;
      var failed := Unstage(env);
      threw := threw || failed;
      OnlyDirectories(old(files), prepared, installed, files, env);
      if threw || !AllOk(steps) { return; }
      ok := WaitForBroker(env);
      OkSnoc(steps, StepResult(BrokerAnswers, ok));
      AllPassed([Checked(Source), Checked(NodeRuntime), Checked(Compiler)],
                [Checked(Compile), Checked(Sign), Checked(Verify), Checked(Handshake), Stop, InstallApp, StartAgent]);
      steps := steps + [StepResult(BrokerAnswers, ok)];
    }

    /** At most 20 pings. */
    method WaitForBroker(env: Environment) returns (ok: bool)
      requires Guarded(trace)
      modifies this`trace
      ensures Guarded(trace) && (ok <==> exists n :: 0 <= n < 20 && env.answers(n))
    {
      for n := 0 to 20
        invariant Guarded(trace) && forall i :: 0 <= i < n ==> !env.answers(i)
      {
        GuardedMore(trace, Pinged);
        trace := trace + [Pinged];
        if env.answers(n) { return true; }
        GuardedMore(trace, Slept);
        trace := trace + [Slept];
      }
      return false;
    }

    /** Setup in any mode, on any host, whatever its commands answer. */
    method SetupBroker(mode: Mode, env: Environment) returns (steps: seq<StepResult>, threw: bool)
      requires trace == [] && Staging !in files
      modifies this
      // Nothing installed is removed or written before the absence is confirmed.
      ensures forall i :: 0 <= i < |trace| && (trace[i].Removing? || trace[i].RemovingDirectory? || trace[i].WritingTo?)
                          ==> Probed(Absent) in trace[..i]
      ensures !env.darwin || mode.CheckOnly? ==> files == old(files) && trace == []
      ensures !ConfirmedGone(env) ==> forall a :: a in INSTALLED ==> Untouched(a, old(files), files)
      ensures mode.Install? ==> InOrder(old(files), files, env)
      ensures Staging in files ==> mode.Install? && (threw || env.remove(Staging).Stays?)
      ensures Untouched(OtherFiles, old(files), files)
      // What a report without a failed step means.
      ensures mode.Install? && !threw && AllOk(steps) ==>
                New(App, files, env) && New(Manifest, files, env) && New(Agent, files, env)
      ensures mode.Uninstall? && AllOk(steps) ==> GoneFrom(files, ToRemove(env) + [Metadata(env)])
      // And exactly when there is one.
      ensures !env.darwin ==> !AllOk(steps)
      ensures env.darwin && mode.CheckOnly? ==> (AllOk(steps) <==> env.ready)
      ensures env.darwin && mode.Install? ==> (!threw && AllOk(steps) <==> Installs(env))
      ensures env.darwin && mode.Uninstall? ==>
                !threw
                && (AllOk(steps)
                    <==> && ConfirmedGone(env) && env.link != Unreadable
                         && AllRemovable(ToRemove(env) + [Metadata(env)], old(files), env)
                         && (env.link != Symlink ==> env.directory in {Removed, NotEmpty, NotThere}))
    {
      threw := false;
      if !env.darwin { return [StepResult(Platform, false)], false; }
      match mode
      case CheckOnly => return [StepResult(Inspect, env.ready)], false;
      case Install => steps, threw := InstallBroker(env);
      case Uninstall =>
        StoppingIsHarmless(trace, env);
        var stopped := StopBroker(env);
        steps := [StepResult(Stop, stopped)];
        if !stopped { return; }
        var ok, kept := RemoveBroker(env);
        steps := steps + [StepResult(RemoveAll, ok)];
        OkSnoc([StepResult(Stop, stopped)], StepResult(RemoveAll, ok));
    }
  }
}
