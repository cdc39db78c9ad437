/** The guarantees of a resumable deployment, for every sequence of starts, crashes and client answers. */
module DeploymentTheorems {
  import opened Prelude
  import opened DependencyOrder
  import opened Deployment
  import opened DeploymentSafety

  lemma FreshOk(reg: Registry, s: State)
    requires ValidRegistry(reg) && Fresh(s)
    ensures Inv(reg, s)
  {
  }

  // ---- What is published ----------------------------------------------------------

  /** The arguments name, for every contract the template mentions, the id in `ids`. */
  ghost predicate ResolvedAgainst(args: ResolvedArgs, t: Template, account: nat, ids: map<Name, ContractId>) {
    && args.text == t.text && args.account == account && args.contracts.Keys == t.refs
    && forall n :: n in t.refs ==> n in ids && args.contracts[n] == ids[n]
  }

  /** The contract published for `spec` runs the recorded artifact, was constructed (and, where the mode asks for it,
      initialized) with arguments naming the published ids, and its recorded dependencies are the published ids. */
  ghost predicate PublishedRight(m: Manifest, w: World, spec: ContractSpec) {
    && spec.name in m.contracts && spec.name in m.canonical
    && var r := m.contracts[spec.name];
    && r.contractId == Some(m.canonical[spec.name]) && r.wasmHash == Some(r.artifact.sha256)
    && r.contractId.value in w.instances
    && w.instances[r.contractId.value].code == r.artifact.sha256
    && ResolvedAgainst(w.instances[r.contractId.value].args, spec.constructorArgs, m.header.account, m.canonical)
    && (spec.mode.ByInitialize? ==>
          && r.initializeArgs.Some? && r.contractId.value in w.initialized
          && ResolvedAgainst(r.initializeArgs.value, spec.initializeArgs, m.header.account, m.canonical))
    && (forall d :: d in r.resolvedDependencies ==> d in m.canonical && m.canonical[d] == r.resolvedDependencies[d])
  }

  lemma ContextIsCanonical(m: Manifest, spec: ContractSpec)
    requires m.canonical == Ids(m)
    ensures forall d :: d in Context(m, spec) ==> d in m.canonical && m.canonical[d] == Context(m, spec)[d]
  {
  }

  lemma ResolvedIsCanonical(m: Manifest, spec: ContractSpec, t: Template)
    requires m.canonical == Ids(m) && Resolve(t, m.header.account, Context(m, spec)).Some?
    ensures ResolvedAgainst(Resolve(t, m.header.account, Context(m, spec)).value, t, m.header.account, m.canonical)
  {
    hide Context, Ids;
    ContextIsCanonical(m, spec);
  }

  lemma PublishedMeaning(reg: Registry, m: Manifest, w: World, k: nat)
    requires PublishedOk(reg, m, w) && k < |reg[m.header.configHash]|
    ensures PublishedRight(m, w, reg[m.header.configHash][k])
  {
    hide IdsDistinct, Resolve, ResolvedAgainst, Context, DepsDeployed;
    var spec := reg[m.header.configHash][k];
    assert RecordOk(m, w, spec) && Finished(m, spec.name);
    ContextIsCanonical(m, spec);
    ResolvedIsCanonical(m, spec, spec.constructorArgs);
    if spec.mode.ByInitialize? {
      ResolvedIsCanonical(m, spec, spec.initializeArgs);
    }
  }

  /** After any run, every published contract is right, and no two of them share an id. */
  lemma PublishedContracts(reg: Registry, s: State, actions: seq<Action>)
    requires ValidRegistry(reg) && Fresh(s)
    ensures var t := Run(reg, s, actions);
            t.disk.published.Some? ==>
              var m := t.disk.published.value;
              && m.header.configHash in reg
              && (forall k :: 0 <= k < |reg[m.header.configHash]| ==>
                   PublishedRight(m, t.world, reg[m.header.configHash][k]))
              && forall a, b :: a in m.canonical && b in m.canonical && a != b ==> m.canonical[a] != m.canonical[b]
  {
    FreshOk(reg, s);
    RunKeeps(reg, s, actions);
    var t := Run(reg, s, actions);
    if t.disk.published.Some? {
      var m := t.disk.published.value;
      forall k | 0 <= k < |reg[m.header.configHash]|
        ensures PublishedRight(m, t.world, reg[m.header.configHash][k])
      {
        PublishedMeaning(reg, m, t.world, k);
      }
      assert IdsDistinct(m);
      forall a, b | a in m.canonical && b in m.canonical && a != b
        ensures m.canonical[a] != m.canonical[b]
      {
        assert HasId(m, a) && HasId(m, b);
      }
    }
  }

  /** At any moment of any run, what the checkpoint says about a contract is what the network holds. */
  lemma CheckpointedHashes(reg: Registry, s: State, actions: seq<Action>, n: Name)
    requires ValidRegistry(reg) && Fresh(s)
    ensures var t := Run(reg, s, actions);
            t.disk.partial.Some? && n in t.disk.partial.value.contracts ==>
              var r := t.disk.partial.value.contracts[n];
              && (r.wasmHash.Some? ==> r.wasmHash.value == r.artifact.sha256)
              && (r.contractId.Some? ==>
                    && r.contractId.value in t.world.instances
                    && t.world.instances[r.contractId.value].code == r.artifact.sha256)
  {
    FreshOk(reg, s);
    RunKeeps(reg, s, actions);
    var t := Run(reg, s, actions);
    if t.disk.partial.Some? && n in t.disk.partial.value.contracts {
      var m := t.disk.partial.value;
      var specs := reg[m.header.configHash];
      assert Occurs(n, specs);
      var k :| 0 <= k < |specs| && specs[k].name == n;
      assert RecordOk(m, t.world, specs[k]);
    }
  }

  /** The loop never finds a dependency without a recorded id. */
  lemma DependencyErrorsUnreachable(reg: Registry, s: State, actions: seq<Action>)
    requires ValidRegistry(reg) && Fresh(s)
    ensures var t := Run(reg, s, actions);
            t.process.Running? && t.process.pc.Begin? ==>
              var specs := SpecsOf(reg, t.process.plan.header);
              t.process.pc.i < |specs| ==> DepsDeployed(t.process.manifest, specs[t.process.pc.i])
  {
    FreshOk(reg, s);
    RunKeeps(reg, s, actions);
    var t := Run(reg, s, actions);
    if t.process.Running? && t.process.pc.Begin? && t.process.pc.i < |SpecsOf(reg, t.process.plan.header)| {
      KeepBegin(reg, t, t.process.pc.i);
    }
  }

  // ---- How often a contract is deployed -----------------------------------------------

  function Deploys(calls: seq<Call>, n: Name): nat {
    if calls == [] then 0
    else
      var last := calls[|calls| - 1];
      Deploys(calls[..|calls| - 1], n) + (if last.DeployCall? && last.name == n then 1 else 0)
  }

  predicate DeployPending(reg: Registry, s: State, n: Name) {
    s.process.Running? && s.process.pc.DeployReturned?
    && var specs := SpecsOf(reg, s.process.plan.header);
    && s.process.pc.i < |specs| && specs[s.process.pc.i].name == n
  }

  predicate Saved(s: State, n: Name) {
    s.disk.partial.Some? && HasId(s.disk.partial.value, n)
  }

  function Accounted(reg: Registry, s: State, n: Name): nat {
    (if Saved(s, n) then 1 else 0) + (if DeployPending(reg, s, n) then 1 else 0)
  }

  /** The crashes that hit between a deploy call for `n` and its checkpoint. */
  function Lost(reg: Registry, s: State, actions: seq<Action>, n: Name): nat
    decreases |actions|
  {
    if actions == [] then 0
    else
      var init := actions[..|actions| - 1];
      Lost(reg, s, init, n)
      + (if actions[|actions| - 1].Crash? && DeployPending(reg, Run(reg, s, init), n) then 1 else 0)
  }

  lemma DeploysAppend(calls: seq<Call>, c: Call, n: Name)
    ensures Deploys(calls + [c], n) == Deploys(calls, n) + (if c.DeployCall? && c.name == n then 1 else 0)
  {
    assert (calls + [c])[..|calls|] == calls;
  }

  // ---- The effect of one loop step ------------------------------------------------------

  predicate AfterLoop(pc: Pc) {
    pc.Conclude? || pc.Verify? || pc.Publish? || pc.WriteFrontend? || pc.Unlink?
  }

  lemma AgreesSame(saved: Manifest, m: Manifest)
    requires Agrees(saved, m)
    ensures Ids(saved) == Ids(m) && forall n :: Finished(saved, n) <==> Finished(m, n)
    ensures forall n :: HasId(saved, n) <==> HasId(m, n)
  {
    forall n | n in m.contracts
      ensures saved.contracts[n].contractId == m.contracts[n].contractId
              && saved.contracts[n].stage == m.contracts[n].stage
    {
      assert Core(saved.contracts[n]) == Core(m.contracts[n]);
      assert Core(m.contracts[n]).contractId == m.contracts[n].contractId
             && Core(m.contracts[n]).stage == m.contracts[n].stage;
      assert Core(saved.contracts[n]).contractId == saved.contracts[n].contractId;
      assert Core(saved.contracts[n]).stage == saved.contracts[n].stage;
    }
  }

  lemma PcAfterLoop(reg: Registry, s: State)
    requires Inv(reg, s) && s.process.Running? && AfterLoop(s.process.pc)
    ensures s.process.pc.WriteFrontend? || s.process.pc.Unlink? ==>
              s.disk.published == Some(s.process.manifest) && s.process.manifest.canonical == Ids(s.process.manifest)
    ensures s.process.pc.Publish? ==> s.process.manifest.canonical == Ids(s.process.manifest)
  {
  }

  /** A loop step writes at most the checkpoint, keeps every recorded id, accounts for every deploy call,
      and does nothing outside memory once the contract is finished. */
  ghost predicate LoopEffect(reg: Registry, s: State, s': State)
    requires s.process.Running?
  {
    var m := s.process.manifest;
    var specs := SpecsOf(reg, s.process.plan.header);
    && (s'.disk == s.disk
        || (s'.disk.partial.Some? && s'.disk == s.disk.(partial := s'.disk.partial)
            && s'.disk.partial.value.header == m.header && Grows(m, s'.disk.partial.value)))
    && (forall n :: Deploys(s'.world.calls, n) + Accounted(reg, s, n)
                    == Deploys(s.world.calls, n) + Accounted(reg, s', n))
    && (Complete(m, specs) ==> s'.disk == s.disk && s'.world == s.world)
  }

  /** What the invariant says about the stage of a record. */
  lemma RecordFacts(m: Manifest, w: World, spec: ContractSpec)
    requires RecordOk(m, w, spec)
    ensures HasId(m, spec.name) <==> spec.name in m.contracts && m.contracts[spec.name].stage in {Deployed, Initialized}
    ensures HasId(m, spec.name) ==> m.contracts[spec.name].wasmHash.Some?
    ensures Finished(m, spec.name) ==> HasId(m, spec.name)
  {
  }

  /** What the invariant says about the contract whose turn it is. */
  lemma TurnFacts(reg: Registry, s: State, i: nat)
    requires Inv(reg, s) && s.process.Running? && i < |SpecsOf(reg, s.process.plan.header)|
    ensures var m, spec := s.process.manifest, SpecsOf(reg, s.process.plan.header)[i];
            && s.process.plan.header == m.header && spec.name in s.process.plan.artifacts
            && (HasId(m, spec.name) ==> m.contracts[spec.name].wasmHash.Some?)
            && (Complete(m, SpecsOf(reg, s.process.plan.header)) ==> Finished(m, spec.name))
            && (Finished(m, spec.name) ==> HasId(m, spec.name))
  {
    hide RecordOk, AlreadyOrdered, IdsDistinct, PublishedOk, Agrees, PcOk;
    var spec := SpecsOf(reg, s.process.plan.header)[i];
    assert spec in SpecsOf(reg, s.process.plan.header);
    assert RecordOk(s.process.manifest, s.world, spec);
    RecordFacts(s.process.manifest, s.world, spec);
  }

  lemma BeginEffect(reg: Registry, s: State, i: nat)
    requires Inv(reg, s) && s.process.Running? && s.process.pc == Begin(i)
    requires s.disk.partial.Some? && s.process.pc.i < |SpecsOf(reg, s.process.plan.header)|
    requires forall n :: HasId(s.disk.partial.value, n) <==> HasId(s.process.manifest, n)
    ensures LoopEffect(reg, s, BeginStep(s, SpecsOf(reg, s.process.plan.header)[i], i))
  {
    hide Inv, Deploys, DepsDeployed, Complete, Context;
    TurnFacts(reg, s, i);
  }

  lemma UploadEffect(reg: Registry, s: State, i: nat, answer: Answer)
    requires Inv(reg, s) && s.process.Running? && s.process.pc == Upload(i)
    requires s.disk.partial.Some? && s.process.pc.i < |SpecsOf(reg, s.process.plan.header)|
    requires forall n :: HasId(s.disk.partial.value, n) <==> HasId(s.process.manifest, n)
    ensures LoopEffect(reg, s, UploadStep(s, SpecsOf(reg, s.process.plan.header)[i], i, answer))
  {
    hide RecordOk, AlreadyOrdered, IdsDistinct, PublishedOk, Agrees, Deploys, DepsDeployed;
    var m := s.process.manifest;
    var spec := SpecsOf(reg, s.process.plan.header)[i];
    var s' := UploadStep(s, spec, i, answer);
    assert RecordOk(m, s.world, spec);
    RecordFacts(m, s.world, spec);
    assert Complete(m, SpecsOf(reg, s.process.plan.header)) ==> Finished(m, spec.name);
    DeploysAppendAll(s.world.calls, UploadCall(spec.name));
  }

  lemma UploadReturnedEffect(reg: Registry, s: State, i: nat, hash: Hash)
    requires Inv(reg, s) && s.process.Running? && s.process.pc == UploadReturned(i, hash)
    requires s.disk.partial.Some? && s.process.pc.i < |SpecsOf(reg, s.process.plan.header)|
    requires forall n :: HasId(s.disk.partial.value, n) <==> HasId(s.process.manifest, n)
    ensures LoopEffect(reg, s, UploadReturnedStep(s, SpecsOf(reg, s.process.plan.header)[i], i, hash))
  {
    hide RecordOk, AlreadyOrdered, IdsDistinct, PublishedOk, Agrees, Deploys, DepsDeployed;
    var m := s.process.manifest;
    var spec := SpecsOf(reg, s.process.plan.header)[i];
    var s' := UploadReturnedStep(s, spec, i, hash);
    assert RecordOk(m, s.world, spec);
    RecordFacts(m, s.world, spec);
    assert Complete(m, SpecsOf(reg, s.process.plan.header)) ==> Finished(m, spec.name);
  }

  lemma DeployEffect(reg: Registry, s: State, i: nat, answer: Answer)
    requires Inv(reg, s) && s.process.Running? && s.process.pc == Deploy(i)
    requires s.disk.partial.Some? && s.process.pc.i < |SpecsOf(reg, s.process.plan.header)|
    requires forall n :: HasId(s.disk.partial.value, n) <==> HasId(s.process.manifest, n)
    ensures LoopEffect(reg, s, DeployStep(s, SpecsOf(reg, s.process.plan.header)[i], i, answer))
  {
    hide RecordOk, AlreadyOrdered, IdsDistinct, PublishedOk, Agrees, Deploys, DepsDeployed;
    var m := s.process.manifest;
    var spec := SpecsOf(reg, s.process.plan.header)[i];
    var s' := DeployStep(s, spec, i, answer);
    assert RecordOk(m, s.world, spec);
    RecordFacts(m, s.world, spec);
    assert Complete(m, SpecsOf(reg, s.process.plan.header)) ==> Finished(m, spec.name);
    DeploysAppendAll(s.world.calls, DeployCall(spec.name, answer.id));
  }

  lemma DeployReturnedEffect(reg: Registry, s: State, i: nat, id: ContractId)
    requires Inv(reg, s) && s.process.Running? && s.process.pc == DeployReturned(i, id)
    requires s.disk.partial.Some? && s.process.pc.i < |SpecsOf(reg, s.process.plan.header)|
    requires forall n :: HasId(s.disk.partial.value, n) <==> HasId(s.process.manifest, n)
    ensures LoopEffect(reg, s, DeployReturnedStep(s, SpecsOf(reg, s.process.plan.header)[i], i, id))
  {
    hide RecordOk, AlreadyOrdered, IdsDistinct, PublishedOk, Agrees, Deploys, DepsDeployed;
    var m := s.process.manifest;
    var spec := SpecsOf(reg, s.process.plan.header)[i];
    var s' := DeployReturnedStep(s, spec, i, id);
    assert RecordOk(m, s.world, spec);
    RecordFacts(m, s.world, spec);
    assert Complete(m, SpecsOf(reg, s.process.plan.header)) ==> Finished(m, spec.name);
  }

  lemma InitializeEffect(reg: Registry, s: State, i: nat, answer: Answer)
    requires Inv(reg, s) && s.process.Running? && s.process.pc == Initialize(i)
    requires s.disk.partial.Some? && s.process.pc.i < |SpecsOf(reg, s.process.plan.header)|
    requires forall n :: HasId(s.disk.partial.value, n) <==> HasId(s.process.manifest, n)
    ensures LoopEffect(reg, s, InitializeStep(s, SpecsOf(reg, s.process.plan.header)[i], i, answer))
  {
    hide RecordOk, AlreadyOrdered, IdsDistinct, PublishedOk, Agrees, Deploys, DepsDeployed;
    var m := s.process.manifest;
    var spec := SpecsOf(reg, s.process.plan.header)[i];
    var s' := InitializeStep(s, spec, i, answer);
    assert RecordOk(m, s.world, spec);
    RecordFacts(m, s.world, spec);
    assert Complete(m, SpecsOf(reg, s.process.plan.header)) ==> Finished(m, spec.name);
    if s'.world != s.world {
      DeploysAppendAll(s.world.calls, s'.world.calls[|s.world.calls|]);
    }
  }

  lemma InitializeReturnedEffect(reg: Registry, s: State, i: nat)
    requires Inv(reg, s) && s.process.Running? && s.process.pc == InitializeReturned(i)
    requires s.disk.partial.Some? && s.process.pc.i < |SpecsOf(reg, s.process.plan.header)|
    requires forall n :: HasId(s.disk.partial.value, n) <==> HasId(s.process.manifest, n)
    ensures LoopEffect(reg, s, InitializeReturnedStep(s, SpecsOf(reg, s.process.plan.header)[i], i))
  {
    hide RecordOk, AlreadyOrdered, IdsDistinct, PublishedOk, Agrees, Deploys, DepsDeployed;
    var m := s.process.manifest;
    var spec := SpecsOf(reg, s.process.plan.header)[i];
    var s' := InitializeReturnedStep(s, spec, i);
    assert RecordOk(m, s.world, spec);
    RecordFacts(m, s.world, spec);
    assert Complete(m, SpecsOf(reg, s.process.plan.header)) ==> Finished(m, spec.name);
  }

  lemma DeploysAppendAll(calls: seq<Call>, c: Call)
    ensures forall n :: Deploys(calls + [c], n) == Deploys(calls, n) + (if c.DeployCall? && c.name == n then 1 else 0)
  {
    forall n {
      DeploysAppend(calls, c, n);
    }
  }

  lemma LoopStepEffect(reg: Registry, s: State, answer: Answer)
    requires Inv(reg, s) && s.process.Running? && s.disk.partial.Some? && !AfterLoop(s.process.pc)
    requires s.process.pc.i < |SpecsOf(reg, s.process.plan.header)|
    requires forall n :: HasId(s.disk.partial.value, n) <==> HasId(s.process.manifest, n)
    ensures LoopEffect(reg, s, TickStep(reg, s, answer))
  {
    hide RunningOk, PublishedOk, LoopEffect, BeginStep, UploadStep, UploadReturnedStep;
    hide DeployStep, DeployReturnedStep, InitializeStep, InitializeReturnedStep;
    match s.process.pc
    case Begin(i) => BeginEffect(reg, s, i);
    case Upload(i) => UploadEffect(reg, s, i, answer);
    case UploadReturned(i, hash) => UploadReturnedEffect(reg, s, i, hash);
    case Deploy(i) => DeployEffect(reg, s, i, answer);
    case DeployReturned(i, id) => DeployReturnedEffect(reg, s, i, id);
    case Initialize(i) => InitializeEffect(reg, s, i, answer);
    case InitializeReturned(i) => InitializeReturnedEffect(reg, s, i);
  }

  // ---- Ids are never replaced --------------------------------------------------------

  /** The checkpoint file exists from the start of the run to its end: all of it is one deployment attempt. */
  ghost predicate SameAttempt(reg: Registry, s: State, actions: seq<Action>)
    decreases |actions|
  {
    && Run(reg, s, actions).disk.partial.Some?
    && (actions == [] || SameAttempt(reg, s, actions[..|actions| - 1]))
  }

  ghost predicate SavedId(s: State, n: Name, id: ContractId) {
    s.disk.partial.Some? && HasId(s.disk.partial.value, n) && s.disk.partial.value.contracts[n].contractId == Some(id)
  }

  /** One step keeps a checkpointed id, or has just published it and removed the checkpoint. */
  lemma StepKeepsId(reg: Registry, s: State, a: Action, n: Name, id: ContractId)
    requires Inv(reg, s) && SavedId(s, n, id)
    ensures var s' := Step(reg, s, a);
            || SavedId(s', n, id)
            || (s'.disk.partial.None? && s'.disk.published.Some?
                && n in s'.disk.published.value.canonical && s'.disk.published.value.canonical[n] == id)
  {
    hide ManifestOk, PublishedOk, AlreadyOrdered, Complete, DepsDeployed, PcOk, HealthChecksResolve, FrontendValues;
    if a.Tick? && s.process.Running? {
      AgreesSame(s.disk.partial.value, s.process.manifest);
      assert n in Ids(s.disk.partial.value);
      if AfterLoop(s.process.pc) {
        PcAfterLoop(reg, s);
      } else {
        LoopIndex(reg, s);
        if s.process.pc.i < |SpecsOf(reg, s.process.plan.header)| {
          LoopStepEffect(reg, s, a.answer);
        }
      }
    }
  }

  /** Over any number of crashes and resumes of one attempt, a checkpointed contract id is never replaced. */
  lemma {:induction false} IdsNeverReplaced(reg: Registry, s: State, actions: seq<Action>, n: Name, id: ContractId)
    requires Inv(reg, s) && SavedId(s, n, id) && SameAttempt(reg, s, actions)
    ensures SavedId(Run(reg, s, actions), n, id)
    decreases |actions|
  {
    hide Inv, Step;
    if actions != [] {
      var init := actions[..|actions| - 1];
      IdsNeverReplaced(reg, s, init, n, id);
      RunKeeps(reg, s, init);
      StepKeepsId(reg, Run(reg, s, init), actions[|actions| - 1], n, id);
    }
  }

  lemma StepAccounts(reg: Registry, s: State, a: Action, n: Name)
    requires Inv(reg, s) && s.disk.partial.Some? && Step(reg, s, a).disk.partial.Some?
    ensures Deploys(Step(reg, s, a).world.calls, n) + Accounted(reg, s, n)
            == Deploys(s.world.calls, n) + Accounted(reg, Step(reg, s, a), n)
               + (if a.Crash? && DeployPending(reg, s, n) then 1 else 0)
  {
    hide ManifestOk, PublishedOk, AlreadyOrdered, Complete, DepsDeployed, Deploys, PcOk;
    if a.Tick? && s.process.Running? {
      AgreesSame(s.disk.partial.value, s.process.manifest);
      if AfterLoop(s.process.pc) {
        PcAfterLoop(reg, s);
      } else {
        LoopIndex(reg, s);
        if s.process.pc.i < |SpecsOf(reg, s.process.plan.header)| {
          LoopStepEffect(reg, s, a.answer);
        }
      }
    }
  }

  /** Within one attempt the deploy calls for a contract are exactly: the one whose id is saved, the one whose answer
      has not been saved yet, and one for every crash that lost an answer. */
  lemma {:induction false} DeployCallsCounted(reg: Registry, s: State, actions: seq<Action>, n: Name)
    requires Inv(reg, s) && SameAttempt(reg, s, actions)
    ensures var t := Run(reg, s, actions);
            Deploys(t.world.calls, n) + Accounted(reg, s, n)
            == Deploys(s.world.calls, n) + Accounted(reg, t, n) + Lost(reg, s, actions, n)
    decreases |actions|
  {
    hide Inv, Step, Accounted, Deploys;
    if actions != [] {
      var init := actions[..|actions| - 1];
      DeployCallsCounted(reg, s, init, n);
      RunKeeps(reg, s, init);
      assert Run(reg, s, init).disk.partial.Some?;
      StepAccounts(reg, Run(reg, s, init), actions[|actions| - 1], n);
    }
  }

  /** From a new checkpoint on, `deploy_contract` runs at most once per contract plus once per crash between
      that call and its checkpoint. */
  lemma DeployedAtMostOnce(reg: Registry, s: State, plan: Plan, actions: seq<Action>, n: Name)
    requires Inv(reg, s) && s.process.Idle? && s.disk.partial.None? && PlanReady(reg, plan)
    requires SameAttempt(reg, Step(reg, s, Start(plan, false)), actions)
    ensures var s0 := Step(reg, s, Start(plan, false));
            Deploys(Run(reg, s0, actions).world.calls, n) <= Deploys(s.world.calls, n) + 1 + Lost(reg, s0, actions, n)
  {
    var s0 := Step(reg, s, Start(plan, false));
    KeepStep(reg, s, Start(plan, false));
    DeployCallsCounted(reg, s0, actions, n);
    RunKeeps(reg, s0, actions);
    PendingMeansUnsaved(reg, Run(reg, s0, actions), n);
  }

  lemma PendingMeansUnsaved(reg: Registry, s: State, n: Name)
    requires Inv(reg, s)
    ensures Accounted(reg, s, n) <= 1
  {
    if DeployPending(reg, s, n) {
      AgreesSame(s.disk.partial.value, s.process.manifest);
    }
  }

  // ---- After the last contract ------------------------------------------------------------

  /** The checkpoint is complete: this holds from the last contract's checkpoint until the file is removed. */
  ghost predicate Settled(reg: Registry, s: State) {
    s.disk.partial.Some? && s.disk.partial.value.header.configHash in reg
    && Complete(s.disk.partial.value, reg[s.disk.partial.value.header.configHash])
  }

  /** No call was made, the saved ids are the same, and anything newly published carries exactly them. */
  ghost predicate Quiet(s: State, s': State) {
    && s.disk.partial.Some? && s'.world == s.world
    && (s'.disk.partial.Some? ==> Ids(s'.disk.partial.value) == Ids(s.disk.partial.value))
    && (s'.disk.published == s.disk.published
        || (s'.disk.published.Some? && s'.disk.published.value.canonical == Ids(s.disk.partial.value)))
  }

  lemma SettledStep(reg: Registry, s: State, a: Action)
    requires Inv(reg, s) && Settled(reg, s)
    ensures var s' := Step(reg, s, a);
            && Quiet(s, s') && (s'.disk.partial.Some? ==> Settled(reg, s'))
            && (s'.disk.partial.None? ==>
                  s'.disk.published.Some? && s'.disk.published.value.canonical == Ids(s.disk.partial.value))
  {
    hide ManifestOk, PublishedOk, AlreadyOrdered, Finished, DepsDeployed, PcOk, HealthChecksResolve, FrontendValues;
    if a.Tick? && s.process.Running? {
      var m := s.process.manifest;
      AgreesSame(s.disk.partial.value, m);
      if AfterLoop(s.process.pc) {
        PcAfterLoop(reg, s);
        assert Ids(m.(status := Verifying)) == Ids(m);
        assert forall n :: Finished(m.(status := Verifying), n) <==> Finished(m, n) by {
          StatusIrrelevant(m, Verifying);
        }
      } else {
        LoopIndex(reg, s);
        if s.process.pc.i < |SpecsOf(reg, s.process.plan.header)| {
          LoopStepEffect(reg, s, a.answer);
        }
      }
    }
  }

  lemma StatusIrrelevant(m: Manifest, status: Status)
    ensures forall n :: Finished(m.(status := status), n) <==> Finished(m, n)
  {
  }

  /** A crash between publishing and unlinking leaves a complete checkpoint, with the ids that were published. */
  lemma CrashAfterPublishing(reg: Registry, s: State)
    requires Inv(reg, s) && s.process.Running? && (s.process.pc.WriteFrontend? || s.process.pc.Unlink?)
    ensures var s' := Step(reg, s, Crash);
            && Settled(reg, s') && s'.disk.published.Some?
            && s'.disk.published.value.canonical == Ids(s'.disk.partial.value)
  {
    hide ManifestOk, PublishedOk, AlreadyOrdered, Finished, Ids;
    PcAfterLoop(reg, s);
    AgreesSame(s.disk.partial.value, s.process.manifest);
  }

  /** From a complete checkpoint on, such as the one that this crash leaves, any number of crashes and resumes makes no
      upload, deploy or initialize call, and republishes exactly the saved ids. */
  lemma {:induction false} ResumeRepublishesSameIds(reg: Registry, s: State, actions: seq<Action>)
    requires Inv(reg, s) && Settled(reg, s) && SameAttempt(reg, s, actions)
    ensures Settled(reg, Run(reg, s, actions)) && Quiet(s, Run(reg, s, actions))
    decreases |actions|
  {
    hide Inv, Step, Settled;
    if actions != [] {
      var init := actions[..|actions| - 1];
      ResumeRepublishesSameIds(reg, s, init);
      RunKeeps(reg, s, init);
      SettledStep(reg, Run(reg, s, init), actions[|actions| - 1]);
      assert Settled(reg, Run(reg, s, init));
    } else {
      assert s.disk.partial.Some?;
    }
  }
}
