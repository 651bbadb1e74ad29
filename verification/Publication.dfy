/**
  Publication of builds: concurrent builders, an environment that edits the sources at any moment,
  a content-addressed snapshot store, three separate promotions, a crash anywhere, and the freshness
  check as the judge of what is left. A hash stands for the contents it is the hash of.
 */
module Publication {
  import opened Bytes

  type Path = string
  type Hash = nat

  /** A source tree: the hash of every file. */
  type Tree = map<Path, Hash>

  /** The file that says how to build: profile, optimization level, entry and outputs. */
  const PROJECT: Path := "project.json"

  /** The two trees that a snapshot holds and that its name is the fingerprint of. */
  datatype Contents = Contents(lsp: Tree, compiler: Tree) {
    /** Every recorded file has its recorded hash here. */
    predicate Covers(records: Contents) {
      records.lsp.Items <= lsp.Items && records.compiler.Items <= compiler.Items
    }
  }

  /** Everything a build depends on. */
  datatype Inputs = Inputs(contents: Contents, tool: Hash, pipeline: Hash)

  datatype Snapshot = Snapshot(contents: Contents, readOnly: bool)

  datatype Manifest = Manifest(artifact: Hash, obj: Hash, inputs: Inputs, closure: Contents)

  /** How far a builder has come, with the variables of its script. */
  datatype Builder =
    | Waiting
    | Started
    | Fingerprinted(before: Inputs)
    | Reported(before: Inputs, closure: Contents)
    | Staged(before: Inputs, closure: Contents, candidate: Contents)
    | Sealed(before: Inputs, closure: Contents, candidate: Contents)
    | Located(before: Inputs, closure: Contents)
    | Verified(before: Inputs, closure: Contents)
    | Compiled(before: Inputs, closure: Contents, artifact: Hash, obj: Hash)
    | Checked(manifest: Manifest)
    | ObjectMoved(manifest: Manifest)
    | ExecutableMoved(manifest: Manifest)
    | Finished(manifest: Manifest)
    | Failed

  /** One run of the compiler: what came out, from which contents, with which binary, as which project file said. */
  datatype Compilation = Compilation(artifact: Hash, obj: Hash, contents: Contents, tool: Hash, project: Hash)

  type Store = map<Contents, Snapshot>

  datatype State = State(
    live: Inputs,
    store: Store,
    lock: Option<nat>,
    builders: map<nat, Builder>,
    /** The project file that each builder has read its configuration from. */
    configured: map<nat, Hash>,
    obj: Option<Hash>,
    executable: Option<Hash>,
    manifest: Option<Manifest>,
    /** Every compilation so far. */
    compilations: set<Compilation>,
    /** A builder died between its promotions and none has completed since. */
    torn: bool)

  /**
    One atomic step. Trees are read while they may be edited, so the result of hashing or copying a
    live tree is arbitrary: it is a parameter of the step. The project file is read in one piece.
   */
  datatype Step =
    | Edit(live: Inputs)
    | Begin(b: nat)
    | Configure(b: nat)
    | Fingerprint(b: nat, read: Inputs)
    | Report(b: nat, closure: Contents)
    | Stage(b: nat, copied: Contents)
    | Seal(b: nat)
    | Rename(b: nat)
    | UseExisting(b: nat)
    | Verify(b: nat)
    | Compile(b: nat, artifact: Hash, obj: Hash)
    | Recheck(b: nat, read: Inputs, reread: Contents)
    | MoveObject(b: nat)
    | MoveExecutable(b: nat)
    | MoveManifest(b: nat)
    | Crash(b: nat)

  predicate Running(builder: Builder) {
    !builder.Waiting? && !builder.Finished? && !builder.Failed?
  }

  /** In the middle of the three promotions. */
  predicate Promoting(builder: Builder) {
    builder.ObjectMoved? || builder.ExecutableMoved?
  }

  function With(s: State, b: nat, builder: Builder): State {
    s.(builders := s.builders[b := builder])
  }

  /** The end of a builder's process, which also releases its lock. */
  function Leave(s: State, b: nat, builder: Builder): State {
    With(s, b, builder).(lock := if s.lock == Some(b) then None else s.lock)
  }

  /** The successor state, or None where the step is not possible. `locking` is the build lock. */
  function Apply(locking: bool, s: State, step: Step): Option<State> {
    match step
    case Edit(live) => Some(s.(live := live))
    case _ =>
      if step.b !in s.builders then None
      else ApplyBuilder(locking, s, step, s.builders[step.b])
  }

  function ApplyBuilder(locking: bool, s: State, step: Step, builder: Builder): Option<State>
    requires !step.Edit?
  {
    match (step, builder)
    case (Begin(b), Waiting) =>
      if locking && s.lock.Some? then None
      else Some(With(s, b, Started).(lock := if locking then Some(b) else s.lock))
    case (Configure(b), Started) =>
      if b in s.configured then None
      else if PROJECT !in s.live.contents.lsp then Some(Leave(s, b, Failed))
      else Some(s.(configured := s.configured[b := s.live.contents.lsp[PROJECT]]))
    case (Fingerprint(b, read), Started) =>
      if b !in s.configured then None
      else if PROJECT !in read.contents.lsp then Some(Leave(s, b, Failed))
      else Some(With(s, b, Fingerprinted(read)))
    case (Report(b, closure), Fingerprinted(before)) => Some(With(s, b, Reported(before, closure)))
    case (Stage(b, copied), Reported(before, closure)) =>
      if before.contents in s.store then None else Some(With(s, b, Staged(before, closure, copied)))
    case (UseExisting(b), Reported(before, closure)) =>
      if before.contents in s.store then Some(With(s, b, Located(before, closure))) else None
    case (Seal(b), Staged(before, closure, candidate)) =>
      if candidate == before.contents then Some(With(s, b, Sealed(before, closure, candidate)))
      else Some(Leave(s, b, Failed))
    case (Rename(b), Sealed(before, closure, candidate)) =>
      // A directory that another builder renamed into place first is kept.
      var store := if before.contents in s.store then s.store
                   else s.store[before.contents := Snapshot(candidate, true)];
      Some(With(s, b, Located(before, closure)).(store := store))
    case (Verify(b), Located(before, closure)) =>
      if before.contents !in s.store then None
      else if s.store[before.contents].contents == before.contents && before.contents.Covers(closure) then
        Some(With(s, b, Verified(before, closure)).(
             store := s.store[before.contents := s.store[before.contents].(readOnly := true)]))
      else Some(Leave(s, b, Failed))
    case (Compile(b, artifact, obj), Verified(before, closure)) =>
      if before.contents !in s.store || b !in s.configured then None
      else
        var compilation :=
          Compilation(artifact, obj, s.store[before.contents].contents, s.live.tool, s.configured[b]);
        Some(With(s, b, Compiled(before, closure, artifact, obj)).(compilations := s.compilations + {compilation}))
    case (Recheck(b, read, reread), Compiled(before, closure, artifact, obj)) =>
      // The live files are hashed once for the fingerprints and once more for the closure.
      if before.contents !in s.store then None
      else if read == before && s.store[before.contents].contents == before.contents
              && reread.Covers(closure) && before.contents.Covers(closure) then
        Some(With(s, b, Checked(Manifest(artifact, obj, before, closure))))
      else Some(Leave(s, b, Failed))
    case (MoveObject(b), Checked(manifest)) =>
      Some(With(s, b, ObjectMoved(manifest)).(obj := Some(manifest.obj)))
    case (MoveExecutable(b), ObjectMoved(manifest)) =>
      Some(With(s, b, ExecutableMoved(manifest)).(executable := Some(manifest.artifact)))
    case (MoveManifest(b), ExecutableMoved(manifest)) =>
      Some(Leave(s, b, Finished(manifest)).(manifest := Some(manifest), torn := false))
    case (Crash(b), _) =>
      if Running(builder) then Some(Leave(s, b, Failed).(torn := s.torn || Promoting(builder))) else None
    case _ => None
  }

  function Run(locking: bool, s: State, steps: seq<Step>): Option<State>
    decreases |steps|
  {
    if steps == [] then Some(s)
    else
      match Apply(locking, s, steps[0])
      case None => None
      case Some(next) => Run(locking, next, steps[1..])
  }

  /** Nothing published yet, nobody at work; the snapshot directory may hold anything. */
  predicate Initial(s: State) {
    && s.lock.None? && (forall b :: b in s.builders ==> s.builders[b].Waiting?)
    && s.configured == map[] && s.obj.None? && s.executable.None? && s.manifest.None? && s.compilations == {}
    && !s.torn
  }

  // ---- The freshness check ----

  /** Whether the recorded compiler checkout and the recorded compiler binary are still there. */
  datatype Site = Site(checkout: bool, binary: bool)

  /** The include closure that a compiler binary reports of the live trees, None when it cannot. */
  type Reporter = (Contents, Hash) -> Option<Contents>

  /** The executable and the inputs now present, judged against the manifest. */
  predicate Accepts(s: State, site: Site, report: Reporter) {
    && s.manifest.Some? && s.executable.Some?
    && var m := s.manifest.value;
    && m.artifact == s.executable.value
    && Unedited(s, m)
    && m.inputs.contents in s.store
    && s.store[m.inputs.contents] == Snapshot(m.inputs.contents, true)
    && m.inputs.contents.Covers(m.closure)
    && ToolchainAgrees(s, m, site, report)
  }

  /** The server's own sources and the build pipeline are those that were recorded. */
  predicate Unedited(s: State, m: Manifest) {
    m.inputs.contents.lsp == s.live.contents.lsp && m.inputs.pipeline == s.live.pipeline
  }

  /** What is only checked while checkout and binary are present. */
  predicate ToolchainAgrees(s: State, m: Manifest, site: Site, report: Reporter) {
    && (site.checkout && site.binary ==> report(s.live.contents, s.live.tool) == Some(m.closure))
    && (site.binary ==> m.inputs.tool == s.live.tool)
  }

  datatype Verdict = Fresh | NoManifest | NoExecutable | ArtifactDiffers | InputsDiffer | PipelineDiffers
    | SnapshotMissing | SnapshotWritable | SnapshotDiffers | ClosureDiffers | NoReport
    | LiveClosureDiffers | ToolDiffers

  /** The guards in the order of the script; the first that fails ends the check. */
  method CheckFreshness(s: State, site: Site, report: Reporter) returns (v: Verdict)
    ensures v.Fresh? <==> Accepts(s, site, report)
    // Whatever is present: each recorded thing is what is there now.
    ensures v.Fresh? <==>
      && s.manifest.Some? && s.executable.Some?
      && var m := s.manifest.value;
      && m.artifact == s.executable.value
      && m.inputs.contents.lsp == s.live.contents.lsp && m.inputs.pipeline == s.live.pipeline
      && m.inputs.contents in s.store && s.store[m.inputs.contents].readOnly
      && s.store[m.inputs.contents].contents == m.inputs.contents
      && (forall p :: p in m.closure.lsp ==>
            p in m.inputs.contents.lsp && m.inputs.contents.lsp[p] == m.closure.lsp[p])
      && (forall p :: p in m.closure.compiler ==>
            p in m.inputs.contents.compiler && m.inputs.contents.compiler[p] == m.closure.compiler[p])
      && (site.binary ==> m.inputs.tool == s.live.tool)
      && (site.checkout && site.binary ==> report(s.live.contents, s.live.tool) == Some(m.closure))
    // The verdict names the first guard that fails.
    ensures (v.NoManifest? <==> s.manifest.None?) && (v.NoExecutable? <==> s.manifest.Some? && s.executable.None?)
    ensures !v.NoManifest? && !v.NoExecutable? ==>
      var m := s.manifest.value;
      var key := m.inputs.contents;
      && (v.ArtifactDiffers? <==> m.artifact != s.executable.value)
      && (v.InputsDiffer? ==> key.lsp != s.live.contents.lsp)
      && (key.lsp != s.live.contents.lsp ==> v.InputsDiffer? || v.ArtifactDiffers?)
      && (v.PipelineDiffers? ==> key.lsp == s.live.contents.lsp && m.inputs.pipeline != s.live.pipeline)
      && (v.SnapshotMissing? ==> m.inputs.pipeline == s.live.pipeline && key !in s.store)
      && (v.SnapshotWritable? ==> key in s.store && !s.store[key].readOnly)
      && (v.SnapshotDiffers? ==> key in s.store && s.store[key].readOnly && s.store[key].contents != key)
      && (v.ClosureDiffers? ==> key in s.store && s.store[key].contents == key && !key.Covers(m.closure))
    ensures v.NoReport? ==>
      && site.checkout && site.binary && report(s.live.contents, s.live.tool) == None
      && s.manifest.value.inputs.contents.Covers(s.manifest.value.closure)
    ensures v.LiveClosureDiffers? ==>
      && site.checkout && site.binary && report(s.live.contents, s.live.tool) != None
      && report(s.live.contents, s.live.tool) != Some(s.manifest.value.closure)
    ensures v.ToolDiffers? ==>
      && site.binary && s.manifest.value.inputs.tool != s.live.tool
      && (site.checkout ==> report(s.live.contents, s.live.tool) == Some(s.manifest.value.closure))
  {
    if s.manifest.Some? {
      CoversMeaning(s.manifest.value.inputs.contents, s.manifest.value.closure);
    }
    if s.manifest.None? {
      return NoManifest;
    }
    var m := s.manifest.value;
    if s.executable.None? {
      return NoExecutable;
    }
    if m.artifact != s.executable.value {
      return ArtifactDiffers;
    }
    if m.inputs.contents.lsp != s.live.contents.lsp {
      return InputsDiffer;
    }
    if m.inputs.pipeline != s.live.pipeline {
      return PipelineDiffers;
    }
    if m.inputs.contents !in s.store {
      return SnapshotMissing;
    }
    var snapshot := s.store[m.inputs.contents];
    if !snapshot.readOnly {
      return SnapshotWritable;
    }
    if snapshot.contents != m.inputs.contents {
      return SnapshotDiffers;
    }
    if !snapshot.contents.Covers(m.closure) {
      return ClosureDiffers;
    }
    if site.checkout && site.binary {
      var current := report(s.live.contents, s.live.tool);
      if current.None? {
        return NoReport;
      }
      if current.value != m.closure {
        return LiveClosureDiffers;
      }
    }
    if site.binary {
      if m.inputs.tool != s.live.tool {
        return ToolDiffers;
      }
    }
    v := Fresh;
  }

  /** Every recorded file is there with its recorded hash. */
  lemma CoversMeaning(c: Contents, records: Contents)
    ensures c.Covers(records) <==>
      && (forall p :: p in records.lsp ==> p in c.lsp && c.lsp[p] == records.lsp[p])
      && (forall p :: p in records.compiler ==> p in c.compiler && c.compiler[p] == records.compiler[p])
  {
    ItemsMeaning(records.lsp, c.lsp);
    ItemsMeaning(records.compiler, c.compiler);
  }

  lemma ItemsMeaning(a: Tree, b: Tree)
    ensures a.Items <= b.Items <==> forall p :: p in a ==> p in b && b[p] == a[p]
  {
    if a.Items <= b.Items {
      forall p | p in a
        ensures p in b && b[p] == a[p]
      {
        assert (p, a[p]) in a.Items;
      }
    }
  }

  /** A report lists files with the hashes they have. */
  ghost predicate Truthful(report: Reporter) {
    forall c: Contents, tool: Hash :: report(c, tool).Some? ==> c.Covers(report(c, tool).value)
  }

  /**
    A report depends on the files it lists only. This is so where the compiler resolves the includes;
    the fallback that lists all source files also depends on which files there are.
   */
  ghost predicate Local(report: Reporter) {
    forall c: Contents, d: Contents, tool: Hash ::
      report(c, tool).Some? && d.Covers(report(c, tool).value) ==> report(d, tool) == report(c, tool)
  }

  /** With checkout and binary present, one edited file of the closure is enough for a rejection. */
  lemma EditedClosureIsRejected(s: State, report: Reporter)
    requires Truthful(report) && s.manifest.Some? && !s.live.contents.Covers(s.manifest.value.closure)
    ensures !Accepts(s, Site(true, true), report)
  {
    var live := report(s.live.contents, s.live.tool);
    assert live.Some? ==> s.live.contents.Covers(live.value);
  }

  // ---- What every reachable state satisfies ----

  /** The snapshot under this key holds the contents the key is the hash of, and cannot be written. */
  predicate HoldsKey(store: Store, key: Contents) {
    key in store && store[key] == Snapshot(key, true)
  }

  /** The manifest names the contents that its executable and object were compiled from. */
  ghost predicate Names(s: State, m: Manifest) {
    && HoldsKey(s.store, m.inputs.contents)
    && m.inputs.contents.Covers(m.closure)
    && exists c :: c in s.compilations && c.artifact == m.artifact && c.obj == m.obj && c.contents == m.inputs.contents
  }

  ghost predicate BuilderOk(s: State, builder: Builder) {
    match builder
    case Sealed(before, _, candidate) => candidate == before.contents
    case Located(before, _) => before.contents in s.store
    case Verified(before, closure) => HoldsKey(s.store, before.contents) && before.contents.Covers(closure)
    case Compiled(before, closure, artifact, obj) => Names(s, Manifest(artifact, obj, before, closure))
    case Checked(manifest) => Names(s, manifest)
    case ObjectMoved(manifest) => Names(s, manifest)
    case ExecutableMoved(manifest) => Names(s, manifest)
    case _ => true
  }

  /** Snapshots are only ever added, under the hash of their contents, or made read-only. */
  predicate StoreGrew(initial: Store, store: Store) {
    forall k :: k in store ==>
      store[k].contents == (if k in initial then initial[k].contents else k)
      && (k in initial || store[k].readOnly) && (k in initial && initial[k].readOnly ==> store[k].readOnly)
  }

  predicate StoreKept(initial: Store, store: Store) {
    forall k :: k in initial ==> k in store
  }

  ghost predicate Safe(initial: Store, s: State) {
    && StoreGrew(initial, s.store) && StoreKept(initial, s.store)
    && (forall b :: b in s.builders ==> BuilderOk(s, s.builders[b]))
    && (s.manifest.Some? ==> Names(s, s.manifest.value))
  }

  /** Safety facts survive any growth of the store and of the set of compilations. */
  predicate Grows(s: State, t: State) {
    && (forall k :: k in s.store ==> k in t.store && t.store[k].contents == s.store[k].contents
                                     && (s.store[k].readOnly ==> t.store[k].readOnly))
    && s.compilations <= t.compilations
  }

  lemma NamesSurvives(s: State, t: State, m: Manifest)
    requires Grows(s, t) && Names(s, m)
    ensures Names(t, m)
  {
    var c :| c in s.compilations && c.artifact == m.artifact && c.obj == m.obj && c.contents == m.inputs.contents;
    assert c in t.compilations;
  }

  lemma BuilderSurvives(s: State, t: State, builder: Builder)
    requires Grows(s, t) && BuilderOk(s, builder)
    ensures BuilderOk(t, builder)
  {
    match builder
    case Compiled(before, closure, artifact, obj) => NamesSurvives(s, t, Manifest(artifact, obj, before, closure));
    case Checked(m) => NamesSurvives(s, t, m);
    case ObjectMoved(m) => NamesSurvives(s, t, m);
    case ExecutableMoved(m) => NamesSurvives(s, t, m);
    case _ =>
  }

  /** What a step leaves alone, whatever else it does. */
  lemma StepFrame(locking: bool, s: State, step: Step)
    requires Apply(locking, s, step).Some? && !step.Edit?
    ensures
      var t := Apply(locking, s, step).value;
      && step.b in s.builders && step.b in t.builders && t.live == s.live
      && t.builders == s.builders[step.b := t.builders[step.b]]
      && (step.Begin? <==> s.builders[step.b].Waiting?)
      && (!step.Begin? ==> Running(s.builders[step.b]))
      && (step.Begin? ==> Running(t.builders[step.b]) && !Promoting(t.builders[step.b]))
  {
    StepBuilders(locking, s, step);
    StepPhases(locking, s, step);
    hide Apply;
  }

  lemma StepBuilders(locking: bool, s: State, step: Step)
    requires Apply(locking, s, step).Some? && !step.Edit?
    ensures
      var t := Apply(locking, s, step).value;
      && step.b in s.builders && step.b in t.builders && t.live == s.live
      && t.builders == s.builders[step.b := t.builders[step.b]]
  {
    hide Running, Promoting, Contents.Covers;
    // Before the candidate is complete, after that, and the promotions.
    if step.Begin? || step.Configure? || step.Fingerprint? || step.Report? || step.Stage? || step.UseExisting? {
    } else if step.Seal? || step.Rename? || step.Verify? || step.Compile? || step.Recheck? {
    }
  }

  lemma StepPhases(locking: bool, s: State, step: Step)
    requires Apply(locking, s, step).Some? && !step.Edit?
    ensures
      var t := Apply(locking, s, step).value;
      && step.b in s.builders && step.b in t.builders
      && (step.Begin? <==> s.builders[step.b].Waiting?)
      && (!step.Begin? ==> Running(s.builders[step.b]))
      && (step.Begin? ==> Running(t.builders[step.b]) && !Promoting(t.builders[step.b]))
  {}

  lemma StepLock(locking: bool, s: State, step: Step)
    requires Apply(locking, s, step).Some? && !step.Edit?
    ensures
      var t := Apply(locking, s, step).value;
      && (!step.Begin? ==> t.lock == if Running(t.builders[step.b]) || s.lock != Some(step.b) then s.lock else None)
      && (step.Begin? && locking ==> s.lock.None? && t.lock == Some(step.b))
  {}

  lemma StepFiles(locking: bool, s: State, step: Step)
    requires Apply(locking, s, step).Some? && !step.Edit?
    ensures
      var t := Apply(locking, s, step).value;
      var was, now := s.builders[step.b], t.builders[step.b];
      match step
      case MoveObject(b) =>
        was == Checked(now.manifest) && now.ObjectMoved?
        && t.obj == Some(now.manifest.obj) && (t.executable, t.manifest, t.torn) == (s.executable, s.manifest, s.torn)
      case MoveExecutable(b) =>
        was == ObjectMoved(now.manifest) && now.ExecutableMoved?
        && t.executable == Some(now.manifest.artifact) && (t.obj, t.manifest, t.torn) == (s.obj, s.manifest, s.torn)
      case MoveManifest(b) =>
        was.ExecutableMoved? && now.Finished?
        && t.manifest == Some(was.manifest) && (t.obj, t.executable, t.torn) == (s.obj, s.executable, false)
      case Crash(b) =>
        now.Failed?
        && (t.obj, t.executable, t.manifest, t.torn) == (s.obj, s.executable, s.manifest, s.torn || Promoting(was))
      case _ =>
        !Promoting(was) && !Promoting(now)
        && (t.obj, t.executable, t.manifest, t.torn) == (s.obj, s.executable, s.manifest, s.torn)
  {}

  lemma StepStore(locking: bool, s: State, step: Step)
    requires Apply(locking, s, step).Some?
    ensures
      var t := Apply(locking, s, step).value;
      match step
      case Rename(b) =>
        var sealed := s.builders[b];
        t.store == (if sealed.before.contents in s.store then s.store
                    else s.store[sealed.before.contents := Snapshot(sealed.candidate, true)])
      case Verify(b) =>
        var key := s.builders[b].before.contents;
        key in s.store
        && (t.store == s.store || t.store == s.store[key := s.store[key].(readOnly := true)])
      case _ => t.store == s.store
    ensures s.compilations <= Apply(locking, s, step).value.compilations
  {}

  lemma ApplyGrows(locking: bool, initial: Store, s: State, step: Step)
    requires Apply(locking, s, step).Some?
    requires !step.Edit? && step.b in s.builders ==> BuilderOk(s, s.builders[step.b])
    requires StoreGrew(initial, s.store) && StoreKept(initial, s.store)
    ensures
      var t := Apply(locking, s, step).value;
      Grows(s, t) && StoreGrew(initial, t.store) && StoreKept(initial, t.store)
  {
    StepStore(locking, s, step);
    StoringBuilders(locking, s, step);
    var t := Apply(locking, s, step).value;
    hide Apply, StoreGrew, StoreKept, Grows;
    if step.Rename? {
      StoreAdds(initial, s, t, s.builders[step.b].before.contents);
    } else if step.Verify? {
      StoreSeals(initial, s, t, s.builders[step.b].before.contents);
    } else {
      StoreStays(initial, s, t);
    }
  }

  lemma StoreStays(initial: Store, s: State, t: State)
    requires StoreGrew(initial, s.store) && StoreKept(initial, s.store)
    requires t.store == s.store && s.compilations <= t.compilations
    ensures Grows(s, t) && StoreGrew(initial, t.store) && StoreKept(initial, t.store)
  {}

  lemma StoreAdds(initial: Store, s: State, t: State, key: Contents)
    requires StoreGrew(initial, s.store) && StoreKept(initial, s.store) && s.compilations <= t.compilations
    requires t.store == if key in s.store then s.store else s.store[key := Snapshot(key, true)]
    ensures Grows(s, t) && StoreGrew(initial, t.store) && StoreKept(initial, t.store)
  {}

  lemma StoreSeals(initial: Store, s: State, t: State, key: Contents)
    requires StoreGrew(initial, s.store) && StoreKept(initial, s.store) && s.compilations <= t.compilations
    requires key in s.store && (t.store == s.store || t.store == s.store[key := s.store[key].(readOnly := true)])
    ensures Grows(s, t) && StoreGrew(initial, t.store) && StoreKept(initial, t.store)
  {}

  lemma StoringBuilders(locking: bool, s: State, step: Step)
    requires Apply(locking, s, step).Some?
    ensures step.Rename? ==> step.b in s.builders && s.builders[step.b].Sealed?
    ensures step.Verify? ==> step.b in s.builders && s.builders[step.b].Located?
  {}

  /** The builder that moved is in order. */
  lemma MoverOk(locking: bool, s: State, step: Step)
    requires Apply(locking, s, step).Some? && !step.Edit?
    requires step.b in s.builders && BuilderOk(s, s.builders[step.b]) && Grows(s, Apply(locking, s, step).value)
    ensures
      var t := Apply(locking, s, step).value;
      && step.b in t.builders && BuilderOk(t, t.builders[step.b])
      && (t.manifest == s.manifest || (t.manifest.Some? && Names(t, t.manifest.value)))
  {
    var t := Apply(locking, s, step).value;
    match step
    case Compile(b, artifact, obj) =>
      CompileOk(locking, s, b, artifact, obj);
    case Recheck(b, _, _) =>
      var was := s.builders[b];
      NamesSurvives(s, t, Manifest(was.artifact, was.obj, was.before, was.closure));
      hide Names;
    case _ =>
      hide Apply, BuilderOk, Names;
      if step.MoveObject? || step.MoveExecutable? || step.MoveManifest? {
        PromoterOk(locking, s, step);
      } else {
        OthersOk(locking, s, step);
      }
  }

  lemma PromoterOk(locking: bool, s: State, step: Step)
    requires step.MoveObject? || step.MoveExecutable? || step.MoveManifest?
    requires Apply(locking, s, step).Some? && step.b in s.builders
    requires BuilderOk(s, s.builders[step.b]) && Grows(s, Apply(locking, s, step).value)
    ensures
      var t := Apply(locking, s, step).value;
      && step.b in t.builders && BuilderOk(t, t.builders[step.b])
      && (t.manifest == s.manifest || (t.manifest.Some? && Names(t, t.manifest.value)))
  {
    NamesSurvives(s, Apply(locking, s, step).value, s.builders[step.b].manifest);
    hide Names;
  }

  lemma OthersOk(locking: bool, s: State, step: Step)
    requires !step.Edit? && !step.MoveObject? && !step.MoveExecutable? && !step.MoveManifest?
    requires !step.Compile? && !step.Recheck?
    requires Apply(locking, s, step).Some? && step.b in s.builders && BuilderOk(s, s.builders[step.b])
    ensures
      var t := Apply(locking, s, step).value;
      step.b in t.builders && BuilderOk(t, t.builders[step.b]) && t.manifest == s.manifest
  {
    hide Names;
  }

  lemma CompileOk(locking: bool, s: State, b: nat, artifact: Hash, obj: Hash)
    requires b in s.builders && BuilderOk(s, s.builders[b]) && Apply(locking, s, Compile(b, artifact, obj)).Some?
    ensures
      var t := Apply(locking, s, Compile(b, artifact, obj)).value;
      b in t.builders && BuilderOk(t, t.builders[b]) && t.manifest == s.manifest
  {
    var t := Apply(locking, s, Compile(b, artifact, obj)).value;
    var before := s.builders[b].before;
    var c := Compilation(artifact, obj, s.store[before.contents].contents, s.live.tool, s.configured[b]);
    assert c in t.compilations;
  }

  lemma StepIsSafe(locking: bool, initial: Store, s: State, step: Step)
    requires Safe(initial, s) && Apply(locking, s, step).Some?
    ensures Safe(initial, Apply(locking, s, step).value)
  {
    var t := Apply(locking, s, step).value;
    if step.Edit? {
      assert t.builders == s.builders && t.manifest == s.manifest;
    } else {
      StepFrame(locking, s, step);
    }
    hide Apply, BuilderOk, Names, StoreGrew, StoreKept, Grows;
    ApplyGrows(locking, initial, s, step);
    if !step.Edit? {
      MoverOk(locking, s, step);
    }
    forall b | b in t.builders
      ensures BuilderOk(t, t.builders[b])
    {
      if step.Edit? || b != step.b {
        BuilderSurvives(s, t, s.builders[b]);
      }
    }
    if t.manifest == s.manifest && t.manifest.Some? {
      NamesSurvives(s, t, t.manifest.value);
    }
  }

  // ---- Every interleaving of builders, edits and crashes ----

  lemma {:induction false} RunsAreSafe(locking: bool, initial: Store, s: State, steps: seq<Step>)
    requires Safe(initial, s) && Run(locking, s, steps).Some?
    ensures Safe(initial, Run(locking, s, steps).value)
    decreases |steps|
  {
    if steps != [] {
      StepIsSafe(locking, initial, s, steps[0]);
      hide Safe, Apply;
      RunsAreSafe(locking, initial, Apply(locking, s, steps[0]).value, steps[1..]);
    }
  }

  /**
    With or without the lock: a snapshot that a run makes visible holds the contents its key is the
    hash of, snapshots that were there keep theirs, and a published manifest names exactly the
    contents its executable was compiled from.
   */
  lemma PublishedManifestsNameTheirInputs(locking: bool, s: State, steps: seq<Step>)
    requires Initial(s) && Run(locking, s, steps).Some?
    ensures
      var t := Run(locking, s, steps).value;
      && StoreGrew(s.store, t.store) && StoreKept(s.store, t.store)
      && (t.manifest.Some? ==> Names(t, t.manifest.value))
  {
    RunsAreSafe(locking, s.store, s, steps);
  }

  /** Whatever was crashed or interleaved, an accepted executable was compiled from what the manifest names. */
  lemma AcceptedExecutablesAreNamed(locking: bool, s: State, steps: seq<Step>, site: Site, report: Reporter)
    requires Initial(s) && Run(locking, s, steps).Some? && Accepts(Run(locking, s, steps).value, site, report)
    ensures
      var t := Run(locking, s, steps).value;
      exists c :: c in t.compilations && c.artifact == t.executable.value
        && c.contents == t.manifest.value.inputs.contents && c.contents.lsp == t.live.contents.lsp
  {
    RunsAreSafe(locking, s.store, s, steps);
    hide Run;
  }

  // ---- What the lock adds ----

  /** Only the holder of the lock is at work. */
  predicate Exclusive(s: State) {
    forall b :: b in s.builders && Running(s.builders[b]) ==> s.lock == Some(b)
  }

  /** The three published files belong together. */
  predicate Matched(s: State) {
    match s.manifest
    case None => s.executable.None? && s.obj.None?
    case Some(m) => s.executable == Some(m.artifact) && s.obj == Some(m.obj)
  }

  predicate Halfway(s: State, builder: Builder) {
    && (builder.ObjectMoved? ==> s.obj == Some(builder.manifest.obj))
    && (builder.ExecutableMoved? ==>
      s.obj == Some(builder.manifest.obj) && s.executable == Some(builder.manifest.artifact))
  }

  predicate Serialized(s: State) {
    && Exclusive(s)
    && (forall b :: b in s.builders ==> Halfway(s, s.builders[b]))
    && ((forall b :: b in s.builders ==> !Promoting(s.builders[b])) && !s.torn ==> Matched(s))
  }

  lemma StepIsSerialized(s: State, step: Step)
    requires Serialized(s) && Apply(true, s, step).Some?
    ensures Serialized(Apply(true, s, step).value)
  {
    var t := Apply(true, s, step).value;
    if step.Edit? {
      assert t == s.(live := step.live);
    } else {
      StepFrame(true, s, step);
      StepLock(true, s, step);
      StepFiles(true, s, step);
    }
    hide Apply;
    if !step.Edit? {
      // Before and after the step nobody but the mover can be at work.
      assert forall b :: b in s.builders && b != step.b ==> !Running(s.builders[b]);
      assert forall b :: b in t.builders && b != step.b ==> t.builders[b] == s.builders[b] && !Promoting(t.builders[b]);
      assert Halfway(t, t.builders[step.b]);
    }
  }

  lemma {:induction false} RunsAreSerialized(s: State, steps: seq<Step>)
    requires Serialized(s) && Run(true, s, steps).Some?
    ensures Serialized(Run(true, s, steps).value)
    decreases |steps|
  {
    if steps != [] {
      StepIsSerialized(s, steps[0]);
      hide Serialized, Apply;
      RunsAreSerialized(Apply(true, s, steps[0]).value, steps[1..]);
    }
  }

  /** No builder is between its promotions, and the last one that was has finished. */
  predicate Settled(s: State) {
    !s.torn && forall b :: b in s.builders ==> !Promoting(s.builders[b])
  }

  /**
    Under the lock and outside a crash the published files belong together, so the freshness check
    answers exactly whether the inputs are still those that were recorded, as far as they are there.
   */
  lemma FreshIffInputsUnchanged(s: State, steps: seq<Step>, site: Site, report: Reporter)
    requires Initial(s) && Run(true, s, steps).Some? && Settled(Run(true, s, steps).value)
    ensures
      var t := Run(true, s, steps).value;
      && Matched(t)
      && (Accepts(t, site, report) <==>
          && t.manifest.Some?
          && var m := t.manifest.value;
          && m.inputs.contents.lsp == t.live.contents.lsp && m.inputs.pipeline == t.live.pipeline
          && (site.binary ==> m.inputs.tool == t.live.tool)
          && (site.checkout && site.binary ==> report(t.live.contents, t.live.tool) == Some(m.closure)))
  {
    RunsAreSafe(true, s.store, s, steps);
    RunsAreSerialized(s, steps);
    hide Run;
  }

  /**
    With checkout and binary present and a closure that the recorded binary has reported, the check
    accepts exactly when the sources of the server, the pipeline, the binary and every file of the
    closure are unchanged.
   */
  lemma FreshIffClosureUnchanged(s: State, steps: seq<Step>, report: Reporter, reported: Contents)
    requires Initial(s) && Run(true, s, steps).Some? && Settled(Run(true, s, steps).value)
    requires Truthful(report) && Local(report)
    requires
      var m := Run(true, s, steps).value.manifest;
      m.Some? ==> report(reported, m.value.inputs.tool) == Some(m.value.closure)
    ensures
      var t := Run(true, s, steps).value;
      Accepts(t, Site(true, true), report) <==>
        && t.manifest.Some?
        && var m := t.manifest.value;
        && m.inputs.contents.lsp == t.live.contents.lsp && m.inputs.pipeline == t.live.pipeline
        && m.inputs.tool == t.live.tool && t.live.contents.Covers(m.closure)
  {
    FreshIffInputsUnchanged(s, steps, Site(true, true), report);
    hide Run, Accepts;
    var t := Run(true, s, steps).value;
    if t.manifest.Some? {
      var m := t.manifest.value;
      var live := report(t.live.contents, t.live.tool);
      assert live.Some? ==> t.live.contents.Covers(live.value);
      if t.live.contents.Covers(m.closure) && m.inputs.tool == t.live.tool {
        assert report(reported, t.live.tool).Some?;
        assert report(t.live.contents, t.live.tool) == report(reported, t.live.tool);
      }
    }
  }

  // ---- The compiler binary ----

  /** The inputs a builder has fingerprinted and will record. */
  function BeforeOf(builder: Builder): Option<Inputs> {
    match builder
    case Waiting => None
    case Started => None
    case Failed => None
    case Checked(m) => Some(m.inputs)
    case ObjectMoved(m) => Some(m.inputs)
    case ExecutableMoved(m) => Some(m.inputs)
    case Finished(m) => Some(m.inputs)
    case _ => Some(builder.before)
  }

  /** What a builder has compiled and will promote. */
  function OutcomeOf(builder: Builder): Option<(Hash, Hash)> {
    match builder
    case Compiled(_, _, artifact, obj) => Some((artifact, obj))
    case Checked(m) => Some((m.artifact, m.obj))
    case ObjectMoved(m) => Some((m.artifact, m.obj))
    case ExecutableMoved(m) => Some((m.artifact, m.obj))
    case Finished(m) => Some((m.artifact, m.obj))
    case _ => None
  }

  /** A builder keeps what it has fingerprinted and compiled, or fails for good. */
  predicate Continues(was: Builder, now: Builder) {
    && (was.Failed? ==> now.Failed?)
    && (BeforeOf(was).Some? ==> now.Failed? || BeforeOf(now) == BeforeOf(was))
    && (OutcomeOf(was).Some? ==> now.Failed? || OutcomeOf(now) == OutcomeOf(was))
  }

  lemma StepContinues(locking: bool, s: State, step: Step, b: nat)
    requires b in s.builders && Apply(locking, s, step).Some?
    ensures b in Apply(locking, s, step).value.builders
    ensures Continues(s.builders[b], Apply(locking, s, step).value.builders[b])
    ensures Apply(locking, s, step).value.live == if step.Edit? then step.live else s.live
    ensures b in s.configured ==>
      b in Apply(locking, s, step).value.configured && Apply(locking, s, step).value.configured[b] == s.configured[b]
  {
    LiveOfStep(locking, s, step);
    StepConfigured(locking, s, step, b);
    if !step.Edit? {
      StepFrame(locking, s, step);
      if step.b == b {
        MoverContinues(locking, s, step);
      }
    }
    hide ApplyBuilder, BeforeOf, OutcomeOf;
  }

  /** A builder is configured once, from the project file there is then. */
  lemma StepConfigured(locking: bool, s: State, step: Step, b: nat)
    requires Apply(locking, s, step).Some?
    ensures
      var t := Apply(locking, s, step).value;
      && (b in s.configured ==> b in t.configured && t.configured[b] == s.configured[b])
      && (b !in s.configured && b in t.configured ==>
        step == Configure(b) && PROJECT in s.live.contents.lsp && t.configured[b] == s.live.contents.lsp[PROJECT])
  {}

  lemma MoverContinues(locking: bool, s: State, step: Step)
    requires !step.Edit? && step.b in s.builders && Apply(locking, s, step).Some?
    ensures step.b in Apply(locking, s, step).value.builders
    ensures Continues(s.builders[step.b], Apply(locking, s, step).value.builders[step.b])
  {}

  /** The live inputs after the edits among the steps. */
  function LiveAfter(live: Inputs, steps: seq<Step>): Inputs
    decreases |steps|
  {
    if steps == [] then live else LiveAfter(if steps[0].Edit? then steps[0].live else live, steps[1..])
  }

  lemma {:induction false} RunContinues(locking: bool, s: State, steps: seq<Step>, b: nat)
    requires b in s.builders && Run(locking, s, steps).Some?
    ensures
      var t := Run(locking, s, steps).value;
      && b in t.builders && Continues(s.builders[b], t.builders[b]) && t.live == LiveAfter(s.live, steps)
      && s.compilations <= t.compilations
      && (b in s.configured ==> b in t.configured && t.configured[b] == s.configured[b])
    decreases |steps|
  {
    if steps != [] {
      StepContinues(locking, s, steps[0], b);
      StepStore(locking, s, steps[0]);
      hide Apply, BeforeOf, OutcomeOf;
      RunContinues(locking, Apply(locking, s, steps[0]).value, steps[1..], b);
    }
  }

  lemma {:induction false} RunAppend(locking: bool, s: State, a: seq<Step>, c: seq<Step>)
    ensures Run(locking, s, a + c) ==
      if Run(locking, s, a).Some? then Run(locking, Run(locking, s, a).value, c) else None
    decreases |a|
  {
    hide Apply;
    if a == [] {
      assert a + c == c;
    } else {
      assert (a + c)[0] == a[0] && (a + c)[1..] == a[1..] + c;
      if Apply(locking, s, a[0]).Some? {
        RunAppend(locking, Apply(locking, s, a[0]).value, a[1..], c);
      }
    }
  }

  /** The builder's manifest, once it has one. */
  predicate HasBuilt(builder: Builder, m: Manifest) {
    builder in {Checked(m), ObjectMoved(m), ExecutableMoved(m), Finished(m)}
  }

  lemma FingerprintThen(locking: bool, s: State, b: nat, read: Inputs)
    requires Apply(locking, s, Fingerprint(b, read)).Some?
    ensures
      var t := Apply(locking, s, Fingerprint(b, read)).value;
      && b in t.builders && t.live == s.live
      && (t.builders[b].Failed? || (BeforeOf(t.builders[b]) == Some(read) && PROJECT in read.contents.lsp))
      && OutcomeOf(t.builders[b]).None?
  {}

  lemma CompileThen(locking: bool, s: State, b: nat, artifact: Hash, obj: Hash)
    requires Apply(locking, s, Compile(b, artifact, obj)).Some? && b in s.builders && BuilderOk(s, s.builders[b])
    ensures
      var t := Apply(locking, s, Compile(b, artifact, obj)).value;
      && b in t.builders && OutcomeOf(t.builders[b]) == Some((artifact, obj))
      && BeforeOf(s.builders[b]).Some? && BeforeOf(t.builders[b]) == BeforeOf(s.builders[b])
      && b in s.configured
      && Compilation(artifact, obj, BeforeOf(s.builders[b]).value.contents, s.live.tool, s.configured[b])
        in t.compilations
  {}

  lemma ConfigureThen(locking: bool, s: State, b: nat)
    requires Apply(locking, s, Configure(b)).Some?
    ensures
      var t := Apply(locking, s, Configure(b)).value;
      && b in t.builders && t.live == s.live && BeforeOf(t.builders[b]).None? && OutcomeOf(t.builders[b]).None?
      && (t.builders[b].Failed? || (PROJECT in s.live.contents.lsp && b in t.configured
                                    && t.configured[b] == s.live.contents.lsp[PROJECT]))
  {}

  /** A run in which a builder reads its configuration, fingerprints and compiles. */
  datatype Course = Course(pre: seq<Step>, early: seq<Step>, read: Inputs, mid: seq<Step>,
                           artifact: Hash, obj: Hash, post: seq<Step>)
  {
    function Steps(b: nat): seq<Step> {
      pre + ([Configure(b)] + (early + ([Fingerprint(b, read)] + (mid + ([Compile(b, artifact, obj)] + post)))))
    }

    /** The live inputs when the configuration is read, and when the compiler runs. */
    function AtStart(live: Inputs): Inputs {
      LiveAfter(live, pre)
    }

    function AtCompilation(live: Inputs): Inputs {
      LiveAfter(LiveAfter(LiveAfter(live, pre), early), mid)
    }
  }

  /** The compilation of a build: its contents are what the manifest names. */
  lemma CompilationOfBuild(locking: bool, s: State, b: nat, course: Course, m: Manifest)
    requires Initial(s)
    requires
      var t := Run(locking, s, course.Steps(b));
      t.Some? && b in t.value.builders && HasBuilt(t.value.builders[b], m)
    ensures
      var project := course.AtStart(s.live).contents.lsp;
      && m.inputs == course.read && PROJECT in course.read.contents.lsp && PROJECT in project
      && m.artifact == course.artifact && m.obj == course.obj
      && Compilation(m.artifact, m.obj, m.inputs.contents, course.AtCompilation(s.live).tool, project[PROJECT])
        in Run(locking, s, course.Steps(b)).value.compilations
  {
    var late := [Compile(b, course.artifact, course.obj)] + course.post;
    var rest := [Fingerprint(b, course.read)] + (course.mid + late);
    RunAppend(locking, s, course.pre, [Configure(b)] + (course.early + rest));
    var s1 := Run(locking, s, course.pre).value;
    RunsAreSafe(locking, s.store, s, course.pre);
    LiveOfPrefix(locking, s, course.pre);
    RunFirst(locking, s1, Configure(b), course.early + rest);
    ConfigureThen(locking, s1, b);
    StepIsSafe(locking, s.store, s1, Configure(b));
    var s2 := Apply(locking, s1, Configure(b)).value;
    hide Apply, BeforeOf, OutcomeOf, Safe;
    NotFailed(locking, s2, course.early + rest, b, m);
    RunAppend(locking, s2, course.early, rest);
    var s3 := Run(locking, s2, course.early).value;
    RunContinues(locking, s2, course.early, b);
    RunsAreSafe(locking, s.store, s2, course.early);
    RunFirst(locking, s3, Fingerprint(b, course.read), course.mid + late);
    StepIsSafe(locking, s.store, s3, Fingerprint(b, course.read));
    StepContinues(locking, s3, Fingerprint(b, course.read), b);
    FingerprintThen(locking, s3, b, course.read);
    var s4 := Apply(locking, s3, Fingerprint(b, course.read)).value;
    NotFailed(locking, s4, course.mid + late, b, m);
    CompilationAfter(locking, s.store, s4, b, course, m);
  }

  lemma NotFailed(locking: bool, s: State, steps: seq<Step>, b: nat, m: Manifest)
    requires b in s.builders && Run(locking, s, steps).Some? && b in Run(locking, s, steps).value.builders
    requires HasBuilt(Run(locking, s, steps).value.builders[b], m)
    ensures !s.builders[b].Failed?
  {
    RunContinues(locking, s, steps, b);
  }

  /** From the fingerprint on. */
  lemma CompilationAfter(locking: bool, initial: Store, s: State, b: nat, course: Course, m: Manifest)
    requires Safe(initial, s) && b in s.builders && b in s.configured
    requires BeforeOf(s.builders[b]) == Some(course.read)
    requires
      var t := Run(locking, s, course.mid + ([Compile(b, course.artifact, course.obj)] + course.post));
      t.Some? && b in t.value.builders && HasBuilt(t.value.builders[b], m)
    ensures m.inputs == course.read && m.artifact == course.artifact && m.obj == course.obj
    ensures
      Compilation(m.artifact, m.obj, m.inputs.contents, LiveAfter(s.live, course.mid).tool, s.configured[b])
      in Run(locking, s, course.mid + ([Compile(b, course.artifact, course.obj)] + course.post)).value.compilations
  {
    var compile := Compile(b, course.artifact, course.obj);
    RunAppend(locking, s, course.mid, [compile] + course.post);
    var s1 := Run(locking, s, course.mid).value;
    RunContinues(locking, s, course.mid, b);
    RunsAreSafe(locking, initial, s, course.mid);
    RunFirst(locking, s1, compile, course.post);
    CompileThen(locking, s1, b, course.artifact, course.obj);
    hide Apply, BeforeOf, OutcomeOf;
    var s2 := Apply(locking, s1, compile).value;
    RunContinues(locking, s2, course.post, b);
    ManifestOf(Run(locking, s2, course.post).value.builders[b], m);
    ManifestOf(s1.builders[b], m);
  }

  /**
    The sources are compiled from the immutable snapshot, but the compiler binary is only hashed
    before and after. In any run from the beginning, the manifest a builder makes names the binary of
    its compilation exactly when the edits between its fingerprinting and its compilation leave the
    binary that was read.
   */
  lemma BinaryIsNamedIff(locking: bool, s: State, b: nat, course: Course, m: Manifest)
    requires Initial(s)
    requires
      var t := Run(locking, s, course.Steps(b));
      t.Some? && b in t.value.builders && HasBuilt(t.value.builders[b], m)
    ensures exists c ::
      && c in Run(locking, s, course.Steps(b)).value.compilations
      && c.artifact == m.artifact && c.obj == m.obj && c.contents == m.inputs.contents
      && (m.inputs.tool == c.tool <==> course.AtCompilation(s.live).tool == course.read.tool)
  {
    CompilationOfBuild(locking, s, b, course, m);
    hide Run, LiveAfter;
  }

  /**
    Nor is the project file read again: the configuration comes from the file that was there before
    the fingerprints were taken. The manifest names the project file that the compilation was
    configured by exactly when the fingerprint has read the same one.
   */
  lemma ProjectIsNamedIff(locking: bool, s: State, b: nat, course: Course, m: Manifest)
    requires Initial(s)
    requires
      var t := Run(locking, s, course.Steps(b));
      t.Some? && b in t.value.builders && HasBuilt(t.value.builders[b], m)
    ensures PROJECT in course.read.contents.lsp && PROJECT in course.AtStart(s.live).contents.lsp
    ensures m.inputs == course.read
    ensures exists c ::
      && c in Run(locking, s, course.Steps(b)).value.compilations
      && c.artifact == m.artifact && c.obj == m.obj && c.contents == m.inputs.contents
      && (m.inputs.contents.lsp[PROJECT] == c.project <==>
          course.AtStart(s.live).contents.lsp[PROJECT] == course.read.contents.lsp[PROJECT])
  {
    CompilationOfBuild(locking, s, b, course, m);
    hide Run, LiveAfter;
  }

  // ---- Every build has such a course ----

  lemma StepFingerprints(locking: bool, s: State, step: Step, t: State, b: nat)
    requires Apply(locking, s, step) == Some(t) && b in s.builders && b in t.builders
    requires BeforeOf(s.builders[b]).None? && BeforeOf(t.builders[b]).Some?
    ensures step.Fingerprint? && step.b == b && b in s.configured && OutcomeOf(t.builders[b]).None?
  {
    if !step.Edit? {
      StepFrame(locking, s, step);
    }
  }

  lemma StepCompiles(locking: bool, s: State, step: Step, t: State, b: nat)
    requires Apply(locking, s, step) == Some(t) && b in s.builders && b in t.builders
    requires OutcomeOf(s.builders[b]).None? && OutcomeOf(t.builders[b]).Some?
    ensures step.Compile? && step.b == b
  {
    if !step.Edit? {
      StepFrame(locking, s, step);
    }
  }

  lemma {:induction false} FindConfigure(locking: bool, s: State, steps: seq<Step>, b: nat) returns (i: nat)
    requires b in s.builders && b !in s.configured && Run(locking, s, steps).Some?
    requires b in Run(locking, s, steps).value.configured
    ensures i < |steps| && steps[i] == Configure(b)
    decreases |steps|
  {
    StepContinues(locking, s, steps[0], b);
    StepConfigured(locking, s, steps[0], b);
    hide Apply, BeforeOf, OutcomeOf;
    var next := Apply(locking, s, steps[0]).value;
    if b in next.configured {
      i := 0;
    } else {
      i := FindConfigure(locking, next, steps[1..], b);
      i := i + 1;
    }
  }

  /** The fingerprint comes after the configuration and before everything that was compiled. */
  lemma {:induction false} FindFingerprint(locking: bool, s: State, steps: seq<Step>, b: nat) returns (i: nat)
    requires b in s.builders && BeforeOf(s.builders[b]).None? && Run(locking, s, steps).Some?
    requires b in Run(locking, s, steps).value.builders && BeforeOf(Run(locking, s, steps).value.builders[b]).Some?
    ensures i < |steps| && steps[i].Fingerprint? && steps[i].b == b
    ensures Run(locking, s, steps[..i]).Some? && b in Run(locking, s, steps[..i]).value.configured
    ensures Run(locking, s, steps[..i + 1]).Some? && b in Run(locking, s, steps[..i + 1]).value.builders
    ensures OutcomeOf(Run(locking, s, steps[..i + 1]).value.builders[b]).None?
    decreases |steps|
  {
    StepContinues(locking, s, steps[0], b);
    var next := Apply(locking, s, steps[0]).value;
    if BeforeOf(next.builders[b]).Some? {
      StepFingerprints(locking, s, steps[0], next, b);
      i := 0;
      assert steps[..1][1..] == [];
    } else {
      hide Apply, BeforeOf, OutcomeOf;
      var j := FindFingerprint(locking, next, steps[1..], b);
      i := j + 1;
      assert steps[..i][1..] == steps[1..][..j] && steps[..i + 1][1..] == steps[1..][..j + 1];
    }
  }

  lemma {:induction false} FindCompile(locking: bool, s: State, steps: seq<Step>, b: nat) returns (i: nat)
    requires b in s.builders && OutcomeOf(s.builders[b]).None? && Run(locking, s, steps).Some?
    requires b in Run(locking, s, steps).value.builders && OutcomeOf(Run(locking, s, steps).value.builders[b]).Some?
    ensures i < |steps| && steps[i].Compile? && steps[i].b == b
    decreases |steps|
  {
    StepContinues(locking, s, steps[0], b);
    var next := Apply(locking, s, steps[0]).value;
    if OutcomeOf(next.builders[b]).Some? {
      StepCompiles(locking, s, steps[0], next, b);
      i := 0;
    } else {
      hide Apply, BeforeOf, OutcomeOf;
      i := FindCompile(locking, next, steps[1..], b);
      i := i + 1;
    }
  }

  /** In every run from the beginning, a builder that has a manifest has configured, fingerprinted and compiled. */
  lemma BuildsHaveACourse(locking: bool, s: State, steps: seq<Step>, b: nat, m: Manifest) returns (course: Course)
    requires Initial(s) && b in s.builders && Run(locking, s, steps).Some?
    requires b in Run(locking, s, steps).value.builders && HasBuilt(Run(locking, s, steps).value.builders[b], m)
    ensures course.Steps(b) == steps
  {
    var t := Run(locking, s, steps).value;
    ManifestOf(t.builders[b], m);
    assert s.builders[b].Waiting?;
    var f := FindFingerprint(locking, s, steps, b);
    hide Apply, BeforeOf, OutcomeOf, Run;
    var i := FindConfigure(locking, s, steps[..f], b);
    assert steps == steps[..f + 1] + steps[f + 1..];
    RunAppend(locking, s, steps[..f + 1], steps[f + 1..]);
    var c := FindCompile(locking, Run(locking, s, steps[..f + 1]).value, steps[f + 1..], b);
    var rest := steps[f + 1..];
    course := Course(steps[..i], steps[i + 1..f], steps[f].read, rest[..c], rest[c].artifact, rest[c].obj,
                     rest[c + 1..]);
    SplitTwice(steps, i, f, c);
  }

  lemma SplitTwice(steps: seq<Step>, i: nat, f: nat, c: nat)
    requires i < f < |steps| && c < |steps| - f - 1
    ensures
      var rest := steps[f + 1..];
      steps == steps[..i] + ([steps[i]] + (steps[i + 1..f] + ([steps[f]] + (rest[..c] + ([rest[c]] + rest[c + 1..])))))
  {
    var rest := steps[f + 1..];
    assert rest == rest[..c] + ([rest[c]] + rest[c + 1..]);
    assert steps[f..] == [steps[f]] + rest;
    assert steps[i..] == [steps[i]] + (steps[i + 1..f] + steps[f..]);
    assert steps == steps[..i] + steps[i..];
  }

  lemma ManifestOf(builder: Builder, m: Manifest)
    ensures HasBuilt(builder, m) ==>
      BeforeOf(builder) == Some(m.inputs) && OutcomeOf(builder) == Some((m.artifact, m.obj)) && !builder.Failed?
    ensures builder.Failed? ==> BeforeOf(builder).None? && OutcomeOf(builder).None?
  {}

  lemma RunFirst(locking: bool, s: State, step: Step, rest: seq<Step>)
    ensures Run(locking, s, [step] + rest) ==
      if Apply(locking, s, step).Some? then Run(locking, Apply(locking, s, step).value, rest) else None
  {
    assert ([step] + rest)[1..] == rest;
    hide Apply;
  }

  lemma {:induction false} LiveOfPrefix(locking: bool, s: State, steps: seq<Step>)
    requires Run(locking, s, steps).Some?
    ensures Run(locking, s, steps).value.live == LiveAfter(s.live, steps)
    decreases |steps|
  {
    if steps != [] {
      LiveOfStep(locking, s, steps[0]);
      hide Apply;
      LiveOfPrefix(locking, Apply(locking, s, steps[0]).value, steps[1..]);
    }
  }

  lemma LiveOfStep(locking: bool, s: State, step: Step)
    requires Apply(locking, s, step).Some?
    ensures Apply(locking, s, step).value.live == if step.Edit? then step.live else s.live
  {}

  // ---- A binary that is replaced for the compilation only ----

  function OpeningSteps(b: nat): seq<Step> {
    [Begin(b), Configure(b)]
  }

  function StagingSteps(b: nat, live: Inputs, closure: Contents): seq<Step> {
    [Fingerprint(b, live), Report(b, closure)] + [Stage(b, live.contents), Seal(b), Rename(b), Verify(b)]
  }

  function CompilingSteps(b: nat, live: Inputs): seq<Step> {
    [Compile(b, 1, 2), Recheck(b, live, live.contents)]
  }

  function ReplacingSteps(b: nat, live: Inputs, other: Hash): seq<Step> {
    [Edit(live.(tool := other)), Compile(b, 1, 2), Edit(live), Recheck(b, live, live.contents)]
  }

  function PromotingSteps(b: nat): seq<Step> {
    [MoveObject(b), MoveExecutable(b), MoveManifest(b)]
  }

  lemma Onward(s: State, step: Step, t: State, rest: seq<Step>)
    requires Apply(true, s, step) == Some(t)
    ensures Run(true, s, [step] + rest) == Run(true, t, rest)
  {
    RunFirst(true, s, step, rest);
    hide Apply;
  }

  lemma WithTwice(s: State, b: nat, x: Builder, y: Builder)
    ensures With(With(s, b, x), b, y) == With(s, b, y)
  {
    assert s.builders[b := x][b := y] == s.builders[b := y];
  }

  /** The state in which a builder has read its configuration. */
  function Opened(s: State, b: nat): State
    requires PROJECT in s.live.contents.lsp
  {
    s.(lock := Some(b), configured := map[b := s.live.contents.lsp[PROJECT]])
  }

  lemma OpeningRun(s: State, b: nat)
    requires Initial(s) && b in s.builders && PROJECT in s.live.contents.lsp
    ensures Run(true, s, OpeningSteps(b)) == Some(With(Opened(s, b), b, Started))
  {
    var s1 := With(s.(lock := Some(b)), b, Started);
    var s2 := With(Opened(s, b), b, Started);
    assert map[][b := s.live.contents.lsp[PROJECT]] == map[b := s.live.contents.lsp[PROJECT]];
    assert Apply(true, s, Begin(b)) == Some(s1);
    assert Apply(true, s1, Configure(b)) == Some(s2);
    hide Apply, With;
    Onward(s1, Configure(b), s2, []);
    Onward(s, Begin(b), s1, [Configure(b)]);
  }

  lemma ReportingRun(s: State, b: nat, closure: Contents)
    requires b in s.builders && b in s.configured && PROJECT in s.live.contents.lsp
    ensures Run(true, With(s, b, Started), [Fingerprint(b, s.live), Report(b, closure)]) ==
      Some(With(s, b, Reported(s.live, closure)))
  {
    var live := s.live;
    var s1 := With(s, b, Started);
    var s2 := With(s, b, Fingerprinted(live));
    var s3 := With(s, b, Reported(live, closure));
    WithTwice(s, b, Started, Fingerprinted(live));
    WithTwice(s, b, Fingerprinted(live), Reported(live, closure));
    assert Apply(true, s1, Fingerprint(b, live)) == Some(s2);
    assert Apply(true, s2, Report(b, closure)) == Some(s3);
    hide Apply, With;
    Onward(s2, Report(b, closure), s3, []);
    Onward(s1, Fingerprint(b, live), s2, [Report(b, closure)]);
  }

  lemma SnapshotRun(s: State, b: nat, live: Inputs, closure: Contents)
    requires b in s.builders && live.contents !in s.store && live.contents.Covers(closure)
    ensures Run(true, With(s, b, Reported(live, closure)), [Stage(b, live.contents), Seal(b), Rename(b), Verify(b)]) ==
      Some(With(s.(store := s.store[live.contents := Snapshot(live.contents, true)]), b, Verified(live, closure)))
  {
    var stored := s.(store := s.store[live.contents := Snapshot(live.contents, true)]);
    var s3 := With(s, b, Reported(live, closure));
    var s4 := With(s, b, Staged(live, closure, live.contents));
    var s5 := With(s, b, Sealed(live, closure, live.contents));
    var s6 := With(stored, b, Located(live, closure));
    var s7 := With(stored, b, Verified(live, closure));
    WithTwice(s, b, Reported(live, closure), Staged(live, closure, live.contents));
    WithTwice(s, b, Staged(live, closure, live.contents), Sealed(live, closure, live.contents));
    WithTwice(stored, b, Sealed(live, closure, live.contents), Located(live, closure));
    WithTwice(stored, b, Located(live, closure), Verified(live, closure));
    StagingApplies(s, b, live, closure);
    assert stored.store[live.contents := stored.store[live.contents].(readOnly := true)] == stored.store;
    assert Apply(true, s6, Verify(b)) == Some(s7);
    hide Apply, With;
    Onward(s6, Verify(b), s7, []);
    Onward(s5, Rename(b), s6, [Verify(b)]);
    Onward(s4, Seal(b), s5, [Rename(b), Verify(b)]);
    Onward(s3, Stage(b, live.contents), s4, [Seal(b), Rename(b), Verify(b)]);
  }

  lemma StagingApplies(s: State, b: nat, live: Inputs, closure: Contents)
    requires b in s.builders && live.contents !in s.store
    ensures
      var stored := s.(store := s.store[live.contents := Snapshot(live.contents, true)]);
      var s4 := With(s, b, Staged(live, closure, live.contents));
      var s5 := With(s, b, Sealed(live, closure, live.contents));
      && Apply(true, With(s, b, Reported(live, closure)), Stage(b, live.contents)) == Some(s4)
      && Apply(true, s4, Seal(b)) == Some(s5)
      && Apply(true, s5, Rename(b)) == Some(With(stored, b, Located(live, closure)))
  {
    WithTwice(s, b, Reported(live, closure), Staged(live, closure, live.contents));
    WithTwice(s, b, Staged(live, closure, live.contents), Sealed(live, closure, live.contents));
    WithTwice(s, b, Sealed(live, closure, live.contents), Located(live, closure));
  }

  lemma StagingRun(s: State, b: nat, closure: Contents)
    requires b in s.builders && b in s.configured && PROJECT in s.live.contents.lsp
    requires s.live.contents !in s.store && s.live.contents.Covers(closure)
    ensures Run(true, With(s, b, Started), StagingSteps(b, s.live, closure)) ==
      Some(With(Stored(s), b, Verified(s.live, closure)))
  {
    ReportingRun(s, b, closure);
    SnapshotRun(s, b, s.live, closure);
    hide Run, With;
    RunAppend(true, With(s, b, Started), [Fingerprint(b, s.live), Report(b, closure)],
              [Stage(b, s.live.contents), Seal(b), Rename(b), Verify(b)]);
  }

  /** The live contents are in the store. */
  function Stored(s: State): State {
    s.(store := s.store[s.live.contents := Snapshot(s.live.contents, true)])
  }

  lemma CompileApplies(s: State, b: nat, before: Inputs, closure: Contents)
    requires b in s.builders && b in s.configured && HoldsKey(s.store, before.contents)
    ensures
      var c := Compilation(1, 2, before.contents, s.live.tool, s.configured[b]);
      Apply(true, With(s, b, Verified(before, closure)), Compile(b, 1, 2)) ==
        Some(With(s.(compilations := s.compilations + {c}), b, Compiled(before, closure, 1, 2)))
  {
    var c := Compilation(1, 2, before.contents, s.live.tool, s.configured[b]);
    WithTwice(s.(compilations := s.compilations + {c}), b, Verified(before, closure), Compiled(before, closure, 1, 2));
  }

  lemma RecheckApplies(s: State, b: nat, before: Inputs, closure: Contents)
    requires b in s.builders && HoldsKey(s.store, before.contents) && before.contents.Covers(closure)
    ensures Apply(true, With(s, b, Compiled(before, closure, 1, 2)), Recheck(b, before, before.contents)) ==
      Some(With(s, b, Checked(Manifest(1, 2, before, closure))))
  {
    WithTwice(s, b, Compiled(before, closure, 1, 2), Checked(Manifest(1, 2, before, closure)));
  }

  lemma ReplacingRun(s: State, b: nat, live: Inputs, closure: Contents, other: Hash)
    requires b in s.builders && b in s.configured && s.live == live && HoldsKey(s.store, live.contents)
    requires live.contents.Covers(closure)
    ensures
      var c := Compilation(1, 2, live.contents, other, s.configured[b]);
      Run(true, With(s, b, Verified(live, closure)), ReplacingSteps(b, live, other)) ==
        Some(With(s.(compilations := s.compilations + {c}), b, Checked(Manifest(1, 2, live, closure))))
  {
    var edited := live.(tool := other);
    var compiled := s.(compilations := s.compilations + {Compilation(1, 2, live.contents, other, s.configured[b])});
    var s0 := With(s, b, Verified(live, closure));
    var s1 := With(s.(live := edited), b, Verified(live, closure));
    var s2 := With(compiled.(live := edited), b, Compiled(live, closure, 1, 2));
    var s3 := With(compiled, b, Compiled(live, closure, 1, 2));
    var s4 := With(compiled, b, Checked(Manifest(1, 2, live, closure)));
    assert Apply(true, s0, Edit(edited)) == Some(s1) && Apply(true, s2, Edit(live)) == Some(s3);
    hide Apply, With;
    CompileApplies(s.(live := edited), b, live, closure);
    RecheckApplies(compiled, b, live, closure);
    Onward(s3, Recheck(b, live, live.contents), s4, []);
    Onward(s2, Edit(live), s3, [Recheck(b, live, live.contents)]);
    Onward(s1, Compile(b, 1, 2), s2, [Edit(live), Recheck(b, live, live.contents)]);
    Onward(s0, Edit(edited), s1, [Compile(b, 1, 2), Edit(live), Recheck(b, live, live.contents)]);
  }

  lemma CompilingRun(s: State, b: nat, closure: Contents)
    requires b in s.builders && b in s.configured && HoldsKey(s.store, s.live.contents)
    requires s.live.contents.Covers(closure)
    ensures
      var c := Compilation(1, 2, s.live.contents, s.live.tool, s.configured[b]);
      Run(true, With(s, b, Verified(s.live, closure)), CompilingSteps(b, s.live)) ==
        Some(With(s.(compilations := s.compilations + {c}), b, Checked(Manifest(1, 2, s.live, closure))))
  {
    var live := s.live;
    var compiled := s.(compilations :=
      s.compilations + {Compilation(1, 2, live.contents, live.tool, s.configured[b])});
    var s0 := With(s, b, Verified(live, closure));
    var s1 := With(compiled, b, Compiled(live, closure, 1, 2));
    var s2 := With(compiled, b, Checked(Manifest(1, 2, live, closure)));
    hide Apply, With;
    CompileApplies(s, b, live, closure);
    RecheckApplies(compiled, b, live, closure);
    Onward(s1, Recheck(b, live, live.contents), s2, []);
    Onward(s0, Compile(b, 1, 2), s1, [Recheck(b, live, live.contents)]);
  }

  lemma FirstMove(s: State, b: nat, m: Manifest)
    requires b in s.builders
    ensures Apply(true, With(s, b, Checked(m)), MoveObject(b)) ==
      Some(With(s.(obj := Some(m.obj)), b, ObjectMoved(m)))
  {
    WithTwice(s.(obj := Some(m.obj)), b, Checked(m), ObjectMoved(m));
  }

  lemma SecondMove(s: State, b: nat, m: Manifest)
    requires b in s.builders
    ensures Apply(true, With(s, b, ObjectMoved(m)), MoveExecutable(b)) ==
      Some(With(s.(executable := Some(m.artifact)), b, ExecutableMoved(m)))
  {
    WithTwice(s.(executable := Some(m.artifact)), b, ObjectMoved(m), ExecutableMoved(m));
  }

  lemma LastMove(s: State, b: nat, m: Manifest)
    requires b in s.builders && s.lock == Some(b)
    ensures Apply(true, With(s, b, ExecutableMoved(m)), MoveManifest(b)) ==
      Some(With(s.(lock := None, manifest := Some(m), torn := false), b, Finished(m)))
  {
    WithTwice(s.(lock := None, manifest := Some(m), torn := false), b, ExecutableMoved(m), Finished(m));
  }

  lemma PromotingRun(s: State, b: nat, m: Manifest)
    requires b in s.builders && s.lock == Some(b)
    ensures Run(true, With(s, b, Checked(m)), PromotingSteps(b)) ==
      Some(With(s.(lock := None, obj := Some(m.obj), executable := Some(m.artifact), manifest := Some(m),
                       torn := false),
                b, Finished(m)))
  {
    var first := s.(obj := Some(m.obj));
    var second := first.(executable := Some(m.artifact));
    var last := second.(lock := None, manifest := Some(m), torn := false);
    var s0 := With(s, b, Checked(m));
    var s1 := With(first, b, ObjectMoved(m));
    var s2 := With(second, b, ExecutableMoved(m));
    var s3 := With(last, b, Finished(m));
    hide Apply, With;
    FirstMove(s, b, m);
    SecondMove(first, b, m);
    LastMove(second, b, m);
    Onward(s2, MoveManifest(b), s3, []);
    Onward(s1, MoveExecutable(b), s2, [MoveManifest(b)]);
    Onward(s0, MoveObject(b), s1, [MoveExecutable(b), MoveManifest(b)]);
  }

  /**
    From the beginning, with the lock: a binary replaced before the compilation and put back before
    the recheck goes unnoticed. The only compilation is that of the other binary, the published
    manifest names the recorded one, and the freshness check accepts.
   */
  lemma ReplacedBinaryGoesUnnoticed(s: State, b: nat, other: Hash, closure: Contents, report: Reporter)
    requires Initial(s) && b in s.builders && PROJECT in s.live.contents.lsp
    requires s.live.contents !in s.store && other != s.live.tool
    requires s.live.contents.Covers(closure) && report(s.live.contents, s.live.tool) == Some(closure)
    ensures
      var r := Run(true, s, OpeningSteps(b) +
                   (StagingSteps(b, s.live, closure) + (ReplacingSteps(b, s.live, other) + PromotingSteps(b))));
      && r.Some? && Accepts(r.value, Site(true, true), report)
      && r.value.manifest.value.inputs.tool == s.live.tool
      && r.value.compilations == {Compilation(1, 2, s.live.contents, other, s.live.contents.lsp[PROJECT])}
  {
    var ready := Opened(s, b);
    OpeningRun(s, b);
    StagingRun(ready, b, closure);
    var staged := Stored(ready);
    ReplacingRun(staged, b, s.live, closure, other);
    var c := Compilation(1, 2, s.live.contents, other, s.live.contents.lsp[PROJECT]);
    var compiled := staged.(compilations := s.compilations + {c});
    PromotingRun(compiled, b, Manifest(1, 2, s.live, closure));
    hide Run, OpeningSteps, StagingSteps, ReplacingSteps, PromotingSteps;
    var late := ReplacingSteps(b, s.live, other) + PromotingSteps(b);
    RunAppend(true, s, OpeningSteps(b), StagingSteps(b, s.live, closure) + late);
    RunAppend(true, With(ready, b, Started), StagingSteps(b, s.live, closure), late);
    RunAppend(true, With(staged, b, Verified(s.live, closure)), ReplacingSteps(b, s.live, other), PromotingSteps(b));
  }

  /**
    From the beginning, with the lock: a project file edited between its reading and the fingerprints
    goes unnoticed. The only compilation is configured by the old file, the published manifest and its
    snapshot name the new one, and the freshness check accepts.
   */
  lemma EditedProjectGoesUnnoticed(s: State, b: nat, edited: Inputs, closure: Contents, report: Reporter)
    requires Initial(s) && b in s.builders && PROJECT in s.live.contents.lsp && PROJECT in edited.contents.lsp
    requires edited.contents.lsp[PROJECT] != s.live.contents.lsp[PROJECT] && edited.contents !in s.store
    requires edited.contents.Covers(closure) && report(edited.contents, edited.tool) == Some(closure)
    ensures
      var r := Run(true, s, OpeningSteps(b) + ([Edit(edited)] +
                   (StagingSteps(b, edited, closure) + (CompilingSteps(b, edited) + PromotingSteps(b)))));
      && r.Some? && Accepts(r.value, Site(true, true), report)
      && r.value.manifest.value.inputs == edited
      && r.value.compilations == {Compilation(1, 2, edited.contents, edited.tool, s.live.contents.lsp[PROJECT])}
  {
    var ready := Opened(s, b).(live := edited);
    OpeningRun(s, b);
    StagingRun(ready, b, closure);
    var staged := Stored(ready);
    CompilingRun(staged, b, closure);
    var c := Compilation(1, 2, edited.contents, edited.tool, s.live.contents.lsp[PROJECT]);
    var compiled := staged.(compilations := s.compilations + {c});
    PromotingRun(compiled, b, Manifest(1, 2, edited, closure));
    var late := CompilingSteps(b, edited) + PromotingSteps(b);
    assert Apply(true, With(Opened(s, b), b, Started), Edit(edited)) == Some(With(ready, b, Started));
    hide Run, OpeningSteps, StagingSteps, CompilingSteps, PromotingSteps;
    RunAppend(true, s, OpeningSteps(b), [Edit(edited)] + (StagingSteps(b, edited, closure) + late));
    Onward(With(Opened(s, b), b, Started), Edit(edited), With(ready, b, Started),
           StagingSteps(b, edited, closure) + late);
    RunAppend(true, With(ready, b, Started), StagingSteps(b, edited, closure), late);
    RunAppend(true, With(staged, b, Verified(edited, closure)), CompilingSteps(b, edited), PromotingSteps(b));
  }
}
