/** What every step of a deployment keeps, whatever crashes happen, and what that gives over whole runs. */
module DeploymentSafety {
  import opened Prelude
  import opened DependencyOrder
  import opened Deployment

  // ---- The invariant ------------------------------------------------------------

  ghost predicate ValidRegistry(reg: Registry) {
    forall h :: h in reg ==> AlreadyOrdered(reg[h])
  }

  /** Sorting configurations, each by its own graph, gives a valid registry. */
  lemma SortedIsValid(configs: Registry, reg: Registry)
    requires forall h :: h in reg ==> h in configs && IsOrder(ByName(configs[h]), reg[h])
    ensures ValidRegistry(reg)
  {
    hide IsOrder, AlreadyOrdered, ByName;
    forall h | h in reg
      ensures AlreadyOrdered(reg[h])
    {
      OrderIsOrdered(ByName(configs[h]), reg[h]);
    }
  }

  /** One checkpoint record against its specification, the rest of the manifest and the network. */
  ghost predicate RecordOk(m: Manifest, w: World, spec: ContractSpec) {
    var r := RecordOf(m, spec.name);
    var account, context := m.header.account, Context(m, spec);
    && (r.wasmHash.Some? ==> r.wasmHash.value == r.artifact.sha256)
    && (r.contractId.Some? <==> r.stage in {Deployed, Initialized})
    && (r.contractId.Some? ==>
          && r.wasmHash.Some? && DepsDeployed(m, spec) && r.constructorArgs.Some?
          && r.constructorArgs == Resolve(spec.constructorArgs, account, context)
          && r.contractId.value in w.instances
          && w.instances[r.contractId.value] == Instance(r.wasmHash.value, r.constructorArgs.value))
    && (r.stage == Deployed ==> spec.mode.ByInitialize?)
    && (r.stage == Initialized && spec.mode.ByInitialize? ==>
          && r.initializeArgs.Some? && r.initializeArgs == Resolve(spec.initializeArgs, account, context)
          && r.contractId.value in w.initialized)
    && (r.initializeArgs.Some? ==> r.stage == Initialized && spec.mode.ByInitialize?)
    && (forall d :: d in r.resolvedDependencies ==> d in context && context[d] == r.resolvedDependencies[d])
  }

  ghost predicate RecordsOk(m: Manifest, w: World, specs: seq<ContractSpec>) {
    && (forall n :: n in m.contracts ==> Occurs(n, specs))
    && (forall k :: 0 <= k < |specs| ==> RecordOk(m, w, specs[k]))
  }

  /** No two contracts were recorded under one id. */
  ghost predicate IdsDistinct(m: Manifest) {
    forall a, b :: HasId(m, a) && HasId(m, b) && a != b ==> m.contracts[a].contractId != m.contracts[b].contractId
  }

  ghost predicate ManifestOk(reg: Registry, m: Manifest, w: World) {
    m.header.configHash in reg && RecordsOk(m, w, reg[m.header.configHash]) && IdsDistinct(m)
  }

  ghost predicate Finished(m: Manifest, n: Name) {
    n in m.contracts && m.contracts[n].stage == Initialized
  }

  ghost predicate Complete(m: Manifest, specs: seq<ContractSpec>) {
    forall k :: 0 <= k < |specs| ==> Finished(m, specs[k].name)
  }

  /** A published manifest lists every contract, and its canonical ids are the recorded ones. */
  ghost predicate PublishedOk(reg: Registry, m: Manifest, w: World) {
    ManifestOk(reg, m, w) && Complete(m, reg[m.header.configHash]) && m.canonical == Ids(m)
  }

  /** The record without the field that is only refreshed in memory between checkpoints. */
  function Core(r: Record): Record {
    r.(resolvedDependencies := map[])
  }

  /** The memory of a run and its checkpoint agree on everything a later run relies on. */
  ghost predicate Agrees(saved: Manifest, m: Manifest) {
    && saved.header == m.header && saved.contracts.Keys == m.contracts.Keys
    && forall n :: n in m.contracts ==> Core(saved.contracts[n]) == Core(m.contracts[n])
  }

  /** Where a running process is, and what is settled by then. */
  ghost predicate PcOk(plan: Plan, m: Manifest, w: World, specs: seq<ContractSpec>, pc: Pc) {
    match pc
    case Begin(i) => DoneUpTo(m, specs, i)
    case Upload(i) => InLoop(plan, m, specs, i)
    case UploadReturned(i, _) => InLoop(plan, m, specs, i) && RecordOf(m, specs[i].name).wasmHash.None?
    case Deploy(i) => InLoop(plan, m, specs, i) && RecordOf(m, specs[i].name).wasmHash.Some?
    case DeployReturned(i, id) =>
      && InLoop(plan, m, specs, i)
      && var r := RecordOf(m, specs[i].name);
      && r.wasmHash.Some? && r.contractId.None? && id in w.instances && id !in Ids(m).Values && id !in w.initialized
      && var args := Resolve(specs[i].constructorArgs, m.header.account, Context(m, specs[i]));
      && args.Some? && w.instances[id] == Instance(r.wasmHash.value, args.value)
    case Initialize(i) => InLoop(plan, m, specs, i) && HasId(m, specs[i].name)
    case InitializeReturned(i) =>
      && InLoop(plan, m, specs, i) && HasId(m, specs[i].name) && specs[i].mode.ByInitialize?
      && RecordOf(m, specs[i].name).stage != Initialized
      && RecordOf(m, specs[i].name).contractId.value in w.initialized
      && Resolve(specs[i].initializeArgs, m.header.account, Context(m, specs[i])).Some?
    case Conclude => Complete(m, specs)
    case Verify => Complete(m, specs)
    case _ => Complete(m, specs) && m.canonical == Ids(m)
  }

  ghost predicate DoneUpTo(m: Manifest, specs: seq<ContractSpec>, i: nat) {
    i <= |specs| && forall k :: 0 <= k < i ==> Finished(m, specs[k].name)
  }

  ghost predicate InLoop(plan: Plan, m: Manifest, specs: seq<ContractSpec>, i: nat) {
    && DoneUpTo(m, specs, i) && i < |specs|
    && specs[i].name in m.contracts && specs[i].name in plan.artifacts
    && m.contracts[specs[i].name].artifact == plan.artifacts[specs[i].name]
    && DepsDeployed(m, specs[i])
  }

  ghost predicate RunningOk(reg: Registry, s: State) {
    && s.process.Running? && s.disk.partial.Some?
    && PlanReady(reg, s.process.plan) && s.process.plan.header == s.process.manifest.header
    && ManifestOk(reg, s.process.manifest, s.world)
    && Agrees(s.disk.partial.value, s.process.manifest)
    && PcOk(s.process.plan, s.process.manifest, s.world, reg[s.process.plan.header.configHash], s.process.pc)
    && (s.process.pc.WriteFrontend? || s.process.pc.Unlink? ==> s.disk.published == Some(s.process.manifest))
  }

  ghost predicate Inv(reg: Registry, s: State) {
    && ValidRegistry(reg)
    && (s.disk.partial.Some? ==> ManifestOk(reg, s.disk.partial.value, s.world))
    && (s.disk.published.Some? ==> PublishedOk(reg, s.disk.published.value, s.world))
    && (s.process.Running? ==> RunningOk(reg, s))
  }

  // ---- Growth: recorded ids stay, the network only gains instances -----------------

  ghost predicate Grows(m: Manifest, m': Manifest) {
    && m'.header == m.header
    && forall n :: HasId(m, n) ==> HasId(m', n) && m'.contracts[n].contractId == m.contracts[n].contractId
  }

  ghost predicate WorldGrows(w: World, w': World) {
    && w.initialized <= w'.initialized
    && forall id :: id in w.instances ==> id in w'.instances && w'.instances[id] == w.instances[id]
  }

  lemma ContextStable(m: Manifest, m': Manifest, spec: ContractSpec)
    requires Grows(m, m')
    ensures DepsDeployed(m, spec) ==> DepsDeployed(m', spec) && Context(m', spec) == Context(m, spec)
    ensures forall d :: d in Context(m, spec) ==> d in Context(m', spec) && Context(m', spec)[d] == Context(m, spec)[d]
  {
  }

  lemma RecordStable(m: Manifest, w: World, m': Manifest, w': World, spec: ContractSpec)
    requires RecordOk(m, w, spec) && Grows(m, m') && WorldGrows(w, w')
    requires Core(RecordOf(m', spec.name)) == Core(RecordOf(m, spec.name))
    requires forall d :: d in RecordOf(m', spec.name).resolvedDependencies ==>
               d in Context(m', spec) && Context(m', spec)[d] == RecordOf(m', spec.name).resolvedDependencies[d]
    ensures RecordOk(m', w', spec)
  {
    ContextStable(m, m', spec);
  }

  /** Replacing one record by one that is right for the new manifest keeps the manifest right. */
  lemma SetRecordOk(reg: Registry, m: Manifest, w: World, n: Name, r: Record, w': World)
    requires ManifestOk(reg, m, w) && Occurs(n, reg[m.header.configHash]) && WorldGrows(w, w')
    requires Grows(m, SetRecord(m, n, r))
    requires r.contractId.Some? ==> r.contractId == RecordOf(m, n).contractId || r.contractId.value !in Ids(m).Values
    requires forall k :: 0 <= k < |reg[m.header.configHash]| && reg[m.header.configHash][k].name == n ==>
               RecordOk(SetRecord(m, n, r), w', reg[m.header.configHash][k])
    ensures ManifestOk(reg, SetRecord(m, n, r), w')
  {
    var m' := SetRecord(m, n, r);
    var specs := reg[m.header.configHash];
    forall k | 0 <= k < |specs|
      ensures RecordOk(m', w', specs[k])
    {
      if specs[k].name != n {
        ContextStable(m, m', specs[k]);
        RecordStable(m, w, m', w', specs[k]);
      }
    }
    forall a, b | HasId(m', a) && HasId(m', b) && a != b
      ensures m'.contracts[a].contractId != m'.contracts[b].contractId
    {
      var other := if a == n then b else a;
      if HasId(m, other) {
        assert Ids(m)[other] in Ids(m).Values;
      }
    }
  }

  lemma WorldStable(reg: Registry, m: Manifest, w: World, w': World)
    requires ManifestOk(reg, m, w) && WorldGrows(w, w')
    ensures ManifestOk(reg, m, w')
  {
    var specs := reg[m.header.configHash];
    forall k | 0 <= k < |specs|
      ensures RecordOk(m, w', specs[k])
    {
      RecordStable(m, w, m, w', specs[k]);
    }
  }

  // ---- Each step keeps the invariant --------------------------------------------------

  lemma FinishedHasId(reg: Registry, m: Manifest, w: World, n: Name)
    requires ManifestOk(reg, m, w) && Finished(m, n)
    ensures HasId(m, n)
  {
    var specs := reg[m.header.configHash];
    assert Occurs(n, specs);
    var k :| 0 <= k < |specs| && specs[k].name == n;
    assert RecordOk(m, w, specs[k]);
  }

  /** When the loop reaches a contract, all its dependencies have recorded ids. */
  lemma DependenciesReady(reg: Registry, m: Manifest, w: World, i: nat)
    requires ValidRegistry(reg) && ManifestOk(reg, m, w)
    requires i < |reg[m.header.configHash]| && DoneUpTo(m, reg[m.header.configHash], i)
    ensures DepsDeployed(m, reg[m.header.configHash][i])
  {
    var specs := reg[m.header.configHash];
    forall d | d in specs[i].dependencies
      ensures HasId(m, d)
    {
      assert Occurs(d, specs[..i]);
      var k :| 0 <= k < i && specs[..i][k].name == d;
      assert Finished(m, specs[k].name);
      FinishedHasId(reg, m, w, d);
    }
  }

  lemma SameSpec(reg: Registry, h: Hash, i: nat, k: nat)
    requires ValidRegistry(reg) && h in reg && i < |reg[h]| && k < |reg[h]| && reg[h][k].name == reg[h][i].name
    ensures k == i
  {
    assert DistinctNames(reg[h]);
  }

  /** A checkpointed update of record `i` that only adds to it: everything the invariant says survives. */
  lemma UpdateRecord(reg: Registry, m: Manifest, w: World, i: nat, r: Record, w': World)
    requires ValidRegistry(reg) && ManifestOk(reg, m, w) && WorldGrows(w, w')
    requires var specs := reg[m.header.configHash];
             && i < |specs|
             && (RecordOf(m, specs[i].name).contractId.Some? ==> r.contractId == RecordOf(m, specs[i].name).contractId)
             && (r.contractId.Some? ==>
                   r.contractId == RecordOf(m, specs[i].name).contractId || r.contractId.value !in Ids(m).Values)
             && RecordOk(SetRecord(m, specs[i].name, r), w', specs[i])
    ensures ManifestOk(reg, SetRecord(m, reg[m.header.configHash][i].name, r), w')
    ensures Grows(m, SetRecord(m, reg[m.header.configHash][i].name, r))
  {
    var specs := reg[m.header.configHash];
    var n := specs[i].name;
    assert Occurs(n, specs);
    forall k | 0 <= k < |specs| && specs[k].name == n
      ensures RecordOk(SetRecord(m, n, r), w', specs[k])
    {
      SameSpec(reg, m.header.configHash, i, k);
    }
    SetRecordOk(reg, m, w, n, r, w');
  }

  lemma SelfIndependent(reg: Registry, h: Hash, i: nat)
    requires ValidRegistry(reg) && h in reg && i < |reg[h]|
    ensures reg[h][i].name !in reg[h][i].dependencies
  {
    assert DistinctNames(reg[h]) && DepsFirst(reg[h]);
  }

  /** Changing record `i` does not touch what it depends on. */
  lemma OwnContext(reg: Registry, m: Manifest, i: nat, r: Record)
    requires ValidRegistry(reg) && m.header.configHash in reg && i < |reg[m.header.configHash]|
    ensures var spec := reg[m.header.configHash][i];
            var m' := SetRecord(m, spec.name, r);
            Context(m', spec) == Context(m, spec) && (DepsDeployed(m', spec) <==> DepsDeployed(m, spec))
  {
    SelfIndependent(reg, m.header.configHash, i);
    var spec := reg[m.header.configHash][i];
    var m' := SetRecord(m, spec.name, r);
    assert forall d :: d in spec.dependencies ==> d != spec.name;
    assert forall d :: d in spec.dependencies ==> (HasId(m', d) <==> HasId(m, d));
  }

  lemma OthersFinished(m: Manifest, specs: seq<ContractSpec>, i: nat, r: Record)
    requires DistinctNames(specs) && i < |specs| && DoneUpTo(m, specs, i)
    ensures DoneUpTo(SetRecord(m, specs[i].name, r), specs, i)
    ensures r.stage == Initialized ==> DoneUpTo(SetRecord(m, specs[i].name, r), specs, i + 1)
  {
  }

  /** Adding a blank record for a contract that has none. */
  lemma ListBlank(reg: Registry, m: Manifest, w: World, i: nat, artifact: Artifact)
    requires ValidRegistry(reg) && ManifestOk(reg, m, w) && i < |reg[m.header.configHash]|
    requires reg[m.header.configHash][i].name !in m.contracts && DoneUpTo(m, reg[m.header.configHash], i)
    ensures var listed := SetRecord(m, reg[m.header.configHash][i].name, NO_RECORD.(artifact := artifact));
            ManifestOk(reg, listed, w) && DoneUpTo(listed, reg[m.header.configHash], i)
            && (DepsDeployed(listed, reg[m.header.configHash][i]) <==> DepsDeployed(m, reg[m.header.configHash][i]))
  {
    hide IdsDistinct, RecordOk, RecordsOk, AlreadyOrdered, Finished, Context, DepsDeployed;
    var specs := reg[m.header.configHash];
    var spec := specs[i];
    var blank := NO_RECORD.(artifact := artifact);
    OwnContext(reg, m, i, blank);
    PendingOk(SetRecord(m, spec.name, blank), w, spec);
    UpdateRecord(reg, m, w, i, blank, w);
    NamesDistinct(reg, m.header.configHash);
    OthersFinished(m, specs, i, blank);
  }

  /** Noting the resolved dependencies of a listed contract. */
  lemma NoteContext(reg: Registry, m: Manifest, w: World, i: nat)
    requires ValidRegistry(reg) && ManifestOk(reg, m, w) && i < |reg[m.header.configHash]|
    requires reg[m.header.configHash][i].name in m.contracts && DoneUpTo(m, reg[m.header.configHash], i)
    ensures var spec := reg[m.header.configHash][i];
            var r := m.contracts[spec.name];
            var noted := SetRecord(m, spec.name, r.(resolvedDependencies := r.resolvedDependencies + Context(m, spec)));
            ManifestOk(reg, noted, w) && DoneUpTo(noted, reg[m.header.configHash], i)
            && (DepsDeployed(noted, spec) <==> DepsDeployed(m, spec))
  {
    hide IdsDistinct, RecordOk, RecordsOk, AlreadyOrdered, Finished, Context, DepsDeployed;
    var specs := reg[m.header.configHash];
    var r := m.contracts[specs[i].name];
    var noted := r.(resolvedDependencies := r.resolvedDependencies + Context(m, specs[i]));
    OwnContext(reg, m, i, noted);
    NotedOk(reg, m, w, i, noted);
    UpdateRecord(reg, m, w, i, noted, w);
    NamesDistinct(reg, m.header.configHash);
    OthersFinished(m, specs, i, noted);
  }

  lemma KeepBegin(reg: Registry, s: State, i: nat)
    requires Inv(reg, s) && s.process.Running? && s.process.pc == Begin(i)
    requires i < |reg[s.process.plan.header.configHash]|
    ensures DepsDeployed(s.process.manifest, reg[s.process.plan.header.configHash][i])
    ensures Inv(reg, BeginStep(s, reg[s.process.plan.header.configHash][i], i))
  {
    hide ManifestOk, PublishedOk, AlreadyOrdered, Complete, Finished, DepsDeployed, Context;
    var m := s.process.manifest;
    var spec := reg[s.process.plan.header.configHash][i];
    ManifestHasPlan(reg, s);
    DependenciesReady(reg, m, s.world, i);
    var artifact := s.process.plan.artifacts[spec.name];
    var listed := m;
    if spec.name !in m.contracts {
      ListBlank(reg, m, s.world, i, artifact);
      listed := SetRecord(m, spec.name, NO_RECORD.(artifact := artifact));
    }
    NoteContext(reg, listed, s.world, i);
  }

  lemma ManifestHasPlan(reg: Registry, s: State)
    requires Inv(reg, s) && s.process.Running?
    ensures s.process.manifest.header.configHash in reg && s.process.plan.header == s.process.manifest.header
  {
  }

  lemma NamesDistinct(reg: Registry, h: Hash)
    requires ValidRegistry(reg) && h in reg
    ensures DistinctNames(reg[h])
  {
  }

  lemma PendingOk(m: Manifest, w: World, spec: ContractSpec)
    requires spec.name in m.contracts
             && m.contracts[spec.name] == NO_RECORD.(artifact := m.contracts[spec.name].artifact)
    ensures RecordOk(m, w, spec)
  {
  }

  lemma NotedOk(reg: Registry, m: Manifest, w: World, i: nat, r: Record)
    requires ValidRegistry(reg) && ManifestOk(reg, m, w) && i < |reg[m.header.configHash]|
    requires var spec := reg[m.header.configHash][i];
             && spec.name in m.contracts && Core(r) == Core(m.contracts[spec.name])
             && r.resolvedDependencies == m.contracts[spec.name].resolvedDependencies + Context(m, spec)
    ensures RecordOk(SetRecord(m, reg[m.header.configHash][i].name, r), w, reg[m.header.configHash][i])
  {
    hide RecordOk, IdsDistinct, DepsDeployed, AlreadyOrdered, Context;
    var spec := reg[m.header.configHash][i];
    var m' := SetRecord(m, spec.name, r);
    OwnContext(reg, m, i, r);
    assert RecordOk(m, w, spec);
    CoreFields(r, m.contracts[spec.name]);
    NotedInContext(m, w, spec, r);
    RecordStable(m, w, m', w, spec);
  }

  lemma CoreFields(r: Record, q: Record)
    requires Core(r) == Core(q)
    ensures r == q.(resolvedDependencies := r.resolvedDependencies)
  {
    assert Core(r).stage == r.stage && Core(r).artifact == r.artifact && Core(r).wasmHash == r.wasmHash;
    assert Core(r).contractId == r.contractId && Core(r).constructorArgs == r.constructorArgs;
    assert Core(r).initializeArgs == r.initializeArgs;
  }

  lemma NotedInContext(m: Manifest, w: World, spec: ContractSpec, r: Record)
    requires RecordOk(m, w, spec) && spec.name in m.contracts
    requires r.resolvedDependencies == m.contracts[spec.name].resolvedDependencies + Context(m, spec)
    ensures forall d :: d in r.resolvedDependencies ==>
              d in Context(m, spec) && Context(m, spec)[d] == r.resolvedDependencies[d]
  {
    hide Context, DepsDeployed, Resolve;
  }

  lemma KeepUpload(reg: Registry, s: State, i: nat, answer: Answer)
    requires Inv(reg, s) && s.process.Running? && s.process.pc == Upload(i)
    ensures Inv(reg, UploadStep(s, reg[s.process.plan.header.configHash][i], i, answer))
  {
    hide IdsDistinct, RecordOk, DistinctNames, DepsFirst, Complete, Finished, DepsDeployed;
    var w' := Calling(s, UploadCall(reg[s.process.plan.header.configHash][i].name)).world;
    KeepWorld(reg, s, w');
  }

  /** Everything that mentions the network survives its growth. */
  lemma KeepWorld(reg: Registry, s: State, w': World)
    requires Inv(reg, s) && WorldGrows(s.world, w')
    ensures s.disk.partial.Some? ==> ManifestOk(reg, s.disk.partial.value, w')
    ensures s.disk.published.Some? ==> PublishedOk(reg, s.disk.published.value, w')
    ensures s.process.Running? ==> ManifestOk(reg, s.process.manifest, w')
  {
    hide IdsDistinct, RecordOk, AlreadyOrdered, Complete;
    if s.disk.partial.Some? {
      WorldStable(reg, s.disk.partial.value, s.world, w');
    }
    if s.disk.published.Some? {
      WorldStable(reg, s.disk.published.value, s.world, w');
    }
    if s.process.Running? {
      WorldStable(reg, s.process.manifest, s.world, w');
    }
  }

  lemma UploadedOk(reg: Registry, m: Manifest, w: World, i: nat, hash: Hash)
    requires ValidRegistry(reg) && ManifestOk(reg, m, w) && i < |reg[m.header.configHash]|
    requires var r := RecordOf(m, reg[m.header.configHash][i].name); r.wasmHash.None? && r.artifact.sha256 == hash
    ensures var spec := reg[m.header.configHash][i];
            var r := RecordOf(m, spec.name).(wasmHash := Some(hash), stage := Uploaded);
            r.contractId.None? && RecordOk(SetRecord(m, spec.name, r), w, spec)
  {
    var spec := reg[m.header.configHash][i];
    assert RecordOk(m, w, spec);
    OwnContext(reg, m, i, RecordOf(m, spec.name).(wasmHash := Some(hash), stage := Uploaded));
  }

  lemma KeepUploadReturned(reg: Registry, s: State, i: nat, hash: Hash)
    requires Inv(reg, s) && s.process.Running? && s.process.pc == UploadReturned(i, hash)
    ensures Inv(reg, UploadReturnedStep(s, reg[s.process.plan.header.configHash][i], i, hash))
  {
    hide IdsDistinct, PublishedOk, RecordOk, AlreadyOrdered, Complete, Finished;
    var m := s.process.manifest;
    var specs := reg[m.header.configHash];
    var spec := specs[i];
    if hash == s.process.plan.artifacts[spec.name].sha256 {
      var r := m.contracts[spec.name].(wasmHash := Some(hash), stage := Uploaded);
      UploadedOk(reg, m, s.world, i, hash);
      OwnContext(reg, m, i, r);
      UpdateRecord(reg, m, s.world, i, r, s.world);
      NamesDistinct(reg, m.header.configHash);
      OthersFinished(m, specs, i, r);
    }
  }

  lemma KeepDeploy(reg: Registry, s: State, i: nat, answer: Answer)
    requires Inv(reg, s) && s.process.Running? && s.process.pc == Deploy(i)
    ensures Inv(reg, DeployStep(s, reg[s.process.plan.header.configHash][i], i, answer))
  {
    hide IdsDistinct, DepsFirst, Complete, Finished, DistinctNames;
    var s' := DeployStep(s, reg[s.process.plan.header.configHash][i], i, answer);
    IdsKnown(reg, s.process.manifest, s.world);
    KeepWorld(reg, s, s'.world);
  }

  /** Recorded ids exist on the network, so a fresh id is none of them. */
  lemma IdsKnown(reg: Registry, m: Manifest, w: World)
    requires ManifestOk(reg, m, w)
    ensures forall id :: id in Ids(m).Values ==> id in w.instances
  {
    var specs := reg[m.header.configHash];
    forall n | n in Ids(m)
      ensures Ids(m)[n] in w.instances
    {
      assert Occurs(n, specs);
      var k :| 0 <= k < |specs| && specs[k].name == n;
      assert RecordOk(m, w, specs[k]);
    }
  }

  function DeployedRecord(m: Manifest, spec: ContractSpec, id: ContractId): Record {
    RecordOf(m, spec.name).(
      contractId := Some(id),
      constructorArgs := Resolve(spec.constructorArgs, m.header.account, Context(m, spec)),
      stage := if spec.mode.ByConstructor? then Initialized else Deployed)
  }

  lemma DeployedOk(reg: Registry, m: Manifest, w: World, i: nat, id: ContractId)
    requires ValidRegistry(reg) && ManifestOk(reg, m, w) && i < |reg[m.header.configHash]|
    requires var spec := reg[m.header.configHash][i];
             var r := RecordOf(m, spec.name);
             var args := Resolve(spec.constructorArgs, m.header.account, Context(m, spec));
             && spec.name in m.contracts && DepsDeployed(m, spec)
             && r.contractId.None? && r.wasmHash.Some? && args.Some? && id in w.instances
             && w.instances[id] == Instance(r.wasmHash.value, args.value)
    ensures var spec := reg[m.header.configHash][i];
            RecordOk(SetRecord(m, spec.name, DeployedRecord(m, spec, id)), w, spec)
  {
    var spec := reg[m.header.configHash][i];
    assert RecordOk(m, w, spec);
    OwnContext(reg, m, i, DeployedRecord(m, spec, id));
  }

  lemma KeepDeployReturned(reg: Registry, s: State, i: nat, id: ContractId)
    requires Inv(reg, s) && s.process.Running? && s.process.pc == DeployReturned(i, id)
    ensures Inv(reg, DeployReturnedStep(s, reg[s.process.plan.header.configHash][i], i, id))
  {
    hide IdsDistinct, PublishedOk, RecordOk, AlreadyOrdered, Complete, Finished;
    var m := s.process.manifest;
    var specs := reg[m.header.configHash];
    var spec := specs[i];
    var r := DeployedRecord(m, spec, id);
    DeployedOk(reg, m, s.world, i, id);
    OwnContext(reg, m, i, r);
    UpdateRecord(reg, m, s.world, i, r, s.world);
    NamesDistinct(reg, m.header.configHash);
    OthersFinished(m, specs, i, r);
  }

  /** A deployed contract that needs no initialize call, or has had it, is finished. */
  lemma NothingToInitialize(m: Manifest, w: World, spec: ContractSpec)
    requires RecordOk(m, w, spec) && HasId(m, spec.name)
    requires spec.mode.ByConstructor? || RecordOf(m, spec.name).stage == Initialized
    ensures Finished(m, spec.name)
  {
    hide Context, DepsDeployed, Resolve;
  }

  lemma KeepInitialize(reg: Registry, s: State, i: nat, answer: Answer)
    requires Inv(reg, s) && s.process.Running? && s.process.pc == Initialize(i)
    ensures Inv(reg, InitializeStep(s, reg[s.process.plan.header.configHash][i], i, answer))
  {
    hide IdsDistinct, RecordOk, AlreadyOrdered, PublishedOk, Complete, DepsDeployed, Context, Finished;
    var s' := InitializeStep(s, reg[s.process.plan.header.configHash][i], i, answer);
    var m := s.process.manifest;
    var spec := reg[s.process.plan.header.configHash][i];
    assert RecordOk(m, s.world, spec);
    if spec.mode.ByConstructor? || RecordOf(m, spec.name).stage == Initialized {
      NothingToInitialize(m, s.world, spec);
    }
    KeepWorld(reg, s, s'.world);
  }

  function InitializedRecord(m: Manifest, spec: ContractSpec): Record {
    RecordOf(m, spec.name).(
      initializeArgs := Resolve(spec.initializeArgs, m.header.account, Context(m, spec)),
      stage := Initialized)
  }

  lemma InitializedOk(reg: Registry, m: Manifest, w: World, i: nat)
    requires ValidRegistry(reg) && ManifestOk(reg, m, w) && i < |reg[m.header.configHash]|
    requires var spec := reg[m.header.configHash][i];
             && HasId(m, spec.name) && Resolve(spec.initializeArgs, m.header.account, Context(m, spec)).Some?
             && spec.mode.ByInitialize? && RecordOf(m, spec.name).contractId.value in w.initialized
    ensures var spec := reg[m.header.configHash][i];
            RecordOk(SetRecord(m, spec.name, InitializedRecord(m, spec)), w, spec)
  {
    hide AlreadyOrdered, IdsDistinct, Resolve, Context, DepsDeployed;
    var spec := reg[m.header.configHash][i];
    assert RecordOk(m, w, spec);
    OwnContext(reg, m, i, InitializedRecord(m, spec));
  }

  lemma KeepInitializeReturned(reg: Registry, s: State, i: nat)
    requires Inv(reg, s) && s.process.Running? && s.process.pc == InitializeReturned(i)
    ensures Inv(reg, InitializeReturnedStep(s, reg[s.process.plan.header.configHash][i], i))
  {
    hide IdsDistinct, RecordOk, PublishedOk, AlreadyOrdered, Complete, Finished;
    var m := s.process.manifest;
    var specs := reg[m.header.configHash];
    var spec := specs[i];
    var r := InitializedRecord(m, spec);
    InitializedOk(reg, m, s.world, i);
    OwnContext(reg, m, i, r);
    UpdateRecord(reg, m, s.world, i, r, s.world);
    NamesDistinct(reg, m.header.configHash);
    OthersFinished(m, specs, i, r);
  }

  lemma HeaderOnly(reg: Registry, m: Manifest, w: World, status: Status, canonical: map<Name, ContractId>)
    requires ManifestOk(reg, m, w)
    ensures ManifestOk(reg, m.(status := status, canonical := canonical), w)
    ensures Ids(m.(status := status, canonical := canonical)) == Ids(m)
    ensures forall specs :: Complete(m, specs) ==> Complete(m.(status := status, canonical := canonical), specs)
  {
    var m' := m.(status := status, canonical := canonical);
    var specs := reg[m.header.configHash];
    assert Ids(m') == Ids(m);
    assert forall n :: Finished(m, n) ==> Finished(m', n);
    forall k | 0 <= k < |specs|
      ensures RecordOk(m', w, specs[k])
    {
      assert RecordOk(m, w, specs[k]);
      RecordStable(m, w, m', w, specs[k]);
    }
    assert IdsDistinct(m);
    forall a, b | HasId(m', a) && HasId(m', b) && a != b
      ensures m'.contracts[a].contractId != m'.contracts[b].contractId
    {
      assert HasId(m, a) && HasId(m, b);
    }
  }

  lemma KeepFinish(reg: Registry, s: State, answer: Answer)
    requires Inv(reg, s) && s.process.Running?
    requires var pc := s.process.pc; pc.Conclude? || pc.Verify? || pc.Publish? || pc.WriteFrontend? || pc.Unlink?
    ensures Inv(reg, FinishStep(s, SpecsOf(reg, s.process.plan.header), answer))
  {
    hide ManifestOk, HealthChecksResolve, FrontendValues, AlreadyOrdered, Complete;
    var m := s.process.manifest;
    HeaderOnly(reg, m, s.world, Verifying, m.canonical);
    HeaderOnly(reg, m, s.world, Verified, Ids(m));
  }

  lemma KeepStart(reg: Registry, s: State, plan: Plan, resume: bool)
    requires Inv(reg, s)
    ensures Inv(reg, StartStep(reg, s, plan, resume))
  {
  }

  /** Every step keeps the invariant: starts, resumes, crashes, client answers of any kind. */
  lemma KeepStep(reg: Registry, s: State, a: Action)
    requires Inv(reg, s)
    ensures Inv(reg, Step(reg, s, a))
  {
    hide ManifestOk, PublishedOk, AlreadyOrdered, Agrees, DoneUpTo, Complete, BeginStep, UploadStep, UploadReturnedStep;
    hide DeployStep, DeployReturnedStep, InitializeStep, InitializeReturnedStep, FinishStep;
    match a
    case Start(plan, resume) => KeepStart(reg, s, plan, resume);
    case Crash =>
    case Tick(answer) =>
      if s.process.Running? {
        var pc := s.process.pc;
        if pc.Conclude? || pc.Verify? || pc.Publish? || pc.WriteFrontend? || pc.Unlink? {
          KeepFinish(reg, s, answer);
        } else {
          LoopIndex(reg, s);
          if pc.i >= |reg[s.process.plan.header.configHash]| {
            LoopExit(reg, s);
          } else {
            match pc
            case Begin(i) => KeepBegin(reg, s, i);
            case Upload(i) => KeepUpload(reg, s, i, answer);
            case UploadReturned(i, hash) => KeepUploadReturned(reg, s, i, hash);
            case Deploy(i) => KeepDeploy(reg, s, i, answer);
            case DeployReturned(i, id) => KeepDeployReturned(reg, s, i, id);
            case Initialize(i) => KeepInitialize(reg, s, i, answer);
            case InitializeReturned(i) => KeepInitializeReturned(reg, s, i);
          }
        }
      }
  }

  lemma LoopIndex(reg: Registry, s: State)
    requires Inv(reg, s) && s.process.Running?
    requires var pc := s.process.pc; !(pc.Conclude? || pc.Verify? || pc.Publish? || pc.WriteFrontend? || pc.Unlink?)
    ensures s.process.pc.i <= |reg[s.process.plan.header.configHash]|
    ensures s.process.pc.i == |reg[s.process.plan.header.configHash]| ==> s.process.pc.Begin?
  {
  }

  lemma LoopExit(reg: Registry, s: State)
    requires Inv(reg, s) && s.process.Running? && s.process.pc == Begin(|reg[s.process.plan.header.configHash]|)
    ensures Inv(reg, Goto(s, s.process.manifest, Conclude))
  {
    hide ManifestOk, AlreadyOrdered, Agrees;
  }

  lemma {:induction false} RunKeeps(reg: Registry, s: State, actions: seq<Action>)
    requires Inv(reg, s)
    ensures Inv(reg, Run(reg, s, actions))
    decreases |actions|
  {
    hide Inv, Step;
    if actions != [] {
      var init := actions[..|actions| - 1];
      RunKeeps(reg, s, init);
      KeepStep(reg, Run(reg, s, init), actions[|actions| - 1]);
    }
  }
}
