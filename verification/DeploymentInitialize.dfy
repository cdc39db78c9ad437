/** Initialize calls: a contract accepts one, and a crash that loses the answer leaves a checkpoint that no resume gets
    past. */
module DeploymentInitialize {
  import opened Prelude
  import opened DependencyOrder
  import opened Deployment
  import opened DeploymentSafety
  import opened DeploymentTheorems

  /** The manifest takes the contract for deployed only, and the network has initialized it. */
  predicate Stuck(m: Manifest, w: World, n: Name) {
    && n in m.contracts && m.contracts[n].stage == Deployed && m.contracts[n].contractId.Some?
    && m.contracts[n].contractId.value in w.initialized
  }

  /** An initialize call for the contract has returned and is not in the checkpoint yet. */
  predicate InitializePending(reg: Registry, s: State, n: Name) {
    s.process.Running? && s.process.pc.InitializeReturned?
    && var specs := SpecsOf(reg, s.process.plan.header);
    && s.process.pc.i < |specs| && specs[s.process.pc.i].name == n
  }

  /** The checkpoint has missed an initialize call, and no running process knows of it. */
  predicate Blocked(reg: Registry, s: State, n: Name) {
    s.disk.partial.Some? && Stuck(s.disk.partial.value, s.world, n) && !InitializePending(reg, s, n)
  }

  // ---- What a running process knows -----------------------------------------------------

  lemma SameRecord(saved: Manifest, m: Manifest, n: Name)
    requires Agrees(saved, m)
    ensures n in saved.contracts <==> n in m.contracts
    ensures n in m.contracts ==> Core(saved.contracts[n]) == Core(m.contracts[n])
    ensures n in m.contracts ==>
              && saved.contracts[n].stage == m.contracts[n].stage
              && saved.contracts[n].contractId == m.contracts[n].contractId
              && saved.contracts[n].initializeArgs == m.contracts[n].initializeArgs
              && saved.contracts[n].artifact == m.contracts[n].artifact
  {
    if n in m.contracts {
      CoreFields(saved.contracts[n], m.contracts[n]);
    }
  }

  /** What the invariant says about a listed contract. */
  lemma ListedFacts(reg: Registry, m: Manifest, w: World, n: Name)
    requires ManifestOk(reg, m, w) && n in m.contracts
    ensures Occurs(n, reg[m.header.configHash])
    ensures var r := m.contracts[n];
            && (r.contractId.Some? ==> r.wasmHash.Some?) && (r.contractId.Some? <==> r.stage in {Deployed, Initialized})
            && (r.initializeArgs.Some? ==> r.stage == Initialized)
    ensures var specs := reg[m.header.configHash];
            m.contracts[n].stage == Deployed ==>
              forall k :: 0 <= k < |specs| && specs[k].name == n ==> specs[k].mode.ByInitialize?
  {
    hide IdsDistinct, Resolve, Context, DepsDeployed;
    var specs := reg[m.header.configHash];
    var k :| 0 <= k < |specs| && specs[k].name == n;
    assert RecordOk(m, w, specs[k]);
    forall k' | 0 <= k' < |specs| && specs[k'].name == n && m.contracts[n].stage == Deployed
      ensures specs[k'].mode.ByInitialize?
    {
      assert RecordOk(m, w, specs[k']);
    }
  }

  lemma NotComplete(m: Manifest, w: World, reg: Registry, n: Name)
    requires ManifestOk(reg, m, w) && Stuck(m, w, n)
    ensures !Complete(m, reg[m.header.configHash])
  {
    hide IdsDistinct, RecordOk;
    var specs := reg[m.header.configHash];
    assert Occurs(n, specs);
    var k :| 0 <= k < |specs| && specs[k].name == n;
    assert !Finished(m, specs[k].name);
  }

  // ---- A missed initialize call is never made up for --------------------------------------

  /** Where a process can be while a contract is blocked: in the loop, not about to write another stage for it. */
  lemma BlockedFacts(reg: Registry, s: State, n: Name)
    requires Inv(reg, s) && Blocked(reg, s, n) && s.process.Running?
    ensures Stuck(s.process.manifest, s.world, n) && !AfterLoop(s.process.pc) && PlanReady(reg, s.process.plan)
    ensures s.process.manifest.contracts[n].wasmHash.Some?
    ensures var specs, pc := SpecsOf(reg, s.process.plan.header), s.process.pc;
            && pc.i <= |specs| && (pc.i == |specs| ==> pc.Begin?)
            && (pc.i < |specs| && specs[pc.i].name == n ==>
                  specs[pc.i].mode.ByInitialize? && !pc.UploadReturned? && !pc.DeployReturned?)
  {
    hide ManifestOk, PublishedOk, AlreadyOrdered, Agrees, Complete, DepsDeployed, Context, Resolve, DoneUpTo;
    var m := s.process.manifest;
    SameRecord(s.disk.partial.value, m, n);
    ListedFacts(reg, m, s.world, n);
    NotComplete(m, s.world, reg, n);
    if !AfterLoop(s.process.pc) {
      LoopIndex(reg, s);
    }
  }

  lemma BlockedLoop(reg: Registry, s: State, answer: Answer, n: Name)
    requires s.process.Running? && Blocked(reg, s, n) && Stuck(s.process.manifest, s.world, n)
    requires !AfterLoop(s.process.pc) && PlanReady(reg, s.process.plan)
    requires var specs, pc := SpecsOf(reg, s.process.plan.header), s.process.pc;
             && pc.i < |specs|
             && (specs[pc.i].name == n ==>
                   specs[pc.i].mode.ByInitialize? && !pc.UploadReturned? && !pc.DeployReturned?)
    ensures var s' := TickStep(reg, s, answer);
            Blocked(reg, s', n) && s'.disk.published == s.disk.published
  {
    hide DepsDeployed, Context, Resolve;
  }

  lemma BlockedTick(reg: Registry, s: State, answer: Answer, n: Name)
    requires Inv(reg, s) && Blocked(reg, s, n) && s.process.Running?
    ensures Blocked(reg, Step(reg, s, Tick(answer)), n)
    ensures Step(reg, s, Tick(answer)).disk.published == s.disk.published
  {
    hide Inv, Stuck, SpecsOf, BeginStep, UploadStep, UploadReturnedStep, DeployStep, DeployReturnedStep;
    hide InitializeStep, InitializeReturnedStep, FinishStep;
    BlockedFacts(reg, s, n);
    if s.process.pc.i < |SpecsOf(reg, s.process.plan.header)| {
      BlockedLoop(reg, s, answer, n);
    }
  }

  lemma BlockedStep(reg: Registry, s: State, a: Action, n: Name)
    requires Inv(reg, s) && Blocked(reg, s, n)
    ensures Blocked(reg, Step(reg, s, a), n) && Step(reg, s, a).disk.published == s.disk.published
  {
    if a.Tick? && s.process.Running? {
      BlockedTick(reg, s, a.answer, n);
    } else {
      hide Inv;
    }
  }

  /** Whatever is started, answered or crashed from then on, the deployment is not finished and nothing is published. */
  lemma {:induction false} BlockedForever(reg: Registry, s: State, actions: seq<Action>, n: Name)
    requires Inv(reg, s) && Blocked(reg, s, n)
    ensures var t := Run(reg, s, actions);
            Blocked(reg, t, n) && t.disk.partial.Some? && t.disk.published == s.disk.published
    decreases |actions|
  {
    hide Inv, Step, Blocked;
    if actions != [] {
      var init := actions[..|actions| - 1];
      BlockedForever(reg, s, init, n);
      RunKeeps(reg, s, init);
      BlockedStep(reg, Run(reg, s, init), actions[|actions| - 1], n);
    }
    BlockedHasCheckpoint(reg, Run(reg, s, actions), n);
  }

  lemma BlockedHasCheckpoint(reg: Registry, s: State, n: Name)
    requires Blocked(reg, s, n)
    ensures s.disk.partial.Some?
  {
  }

  /** A crash between the call and its checkpoint blocks the deployment. */
  lemma LostAnswerBlocks(reg: Registry, s: State, n: Name)
    requires Inv(reg, s) && InitializePending(reg, s, n)
    ensures Blocked(reg, Step(reg, s, Crash), n)
  {
    hide AlreadyOrdered, PublishedOk, Agrees, DepsDeployed, Context, Resolve;
    var m := s.process.manifest;
    SameRecord(s.disk.partial.value, m, n);
    ListedFacts(reg, m, s.world, n);
  }

  // ---- How often a contract is initialized --------------------------------------------------

  function Initializes(calls: seq<Call>, n: Name): nat {
    if calls == [] then 0
    else
      var last := calls[|calls| - 1];
      Initializes(calls[..|calls| - 1], n) + (if last.InitializeCall? && last.name == n then 1 else 0)
  }

  predicate InitializeSaved(s: State, n: Name) {
    s.disk.partial.Some? && n in s.disk.partial.value.contracts
    && s.disk.partial.value.contracts[n].initializeArgs.Some?
  }

  function InitializeAccounted(reg: Registry, s: State, n: Name): nat {
    (if InitializeSaved(s, n) then 1 else 0) + (if InitializePending(reg, s, n) then 1 else 0)
  }

  /** The crashes that hit between an initialize call for `n` and its checkpoint. */
  function InitializesLost(reg: Registry, s: State, actions: seq<Action>, n: Name): nat
    decreases |actions|
  {
    if actions == [] then 0
    else
      var init := actions[..|actions| - 1];
      InitializesLost(reg, s, init, n)
      + (if actions[|actions| - 1].Crash? && InitializePending(reg, Run(reg, s, init), n) then 1 else 0)
  }

  lemma InitializesAppend(calls: seq<Call>, c: Call, n: Name)
    ensures Initializes(calls + [c], n)
            == Initializes(calls, n) + (if c.InitializeCall? && c.name == n then 1 else 0)
  {
    assert (calls + [c])[..|calls|] == calls;
  }

  ghost predicate Accounts(reg: Registry, s: State, s': State, n: Name) {
    Initializes(s'.world.calls, n) + InitializeAccounted(reg, s, n)
    == Initializes(s.world.calls, n) + InitializeAccounted(reg, s', n)
  }

  /** What a running process remembers of a contract is what its checkpoint says. */
  lemma Remembered(reg: Registry, s: State, n: Name)
    requires Inv(reg, s) && s.process.Running?
    ensures var m := s.process.manifest;
            && s.disk.partial.Some? && s.process.plan.header == m.header
            && (InitializeSaved(s, n) <==> n in m.contracts && m.contracts[n].initializeArgs.Some?)
            && (n in m.contracts ==>
                  && (m.contracts[n].contractId.Some? ==> m.contracts[n].wasmHash.Some?)
                  && (m.contracts[n].initializeArgs.Some? ==> m.contracts[n].stage == Initialized))
  {
    hide ManifestOk, Agrees, PcOk, AlreadyOrdered, PublishedOk;
    SameRecord(s.disk.partial.value, s.process.manifest, n);
    if n in s.process.manifest.contracts {
      ListedFacts(reg, s.process.manifest, s.world, n);
    }
  }

  /** A step without an initialize call, after which none is pending and the same ones are saved. */
  lemma QuietAccounts(reg: Registry, s: State, s': State, n: Name)
    requires Initializes(s'.world.calls, n) == Initializes(s.world.calls, n)
    requires InitializeSaved(s', n) <==> InitializeSaved(s, n)
    requires s.process.Running? && !s.process.pc.InitializeReturned?
    requires s'.process.Idle? || !s'.process.pc.InitializeReturned?
    ensures Accounts(reg, s, s', n)
  {
  }

  /** The step saves no initialize call of the contract, drops none and publishes nothing. */
  ghost predicate SavedAlike(s: State, s': State, n: Name) {
    (InitializeSaved(s', n) <==> InitializeSaved(s, n)) && s'.disk.published == s.disk.published
  }

  lemma BeginSaves(s: State, spec: ContractSpec, i: nat, n: Name)
    requires s.process.Running? && spec.name in s.process.plan.artifacts && s.disk.partial.Some?
    requires var m := s.process.manifest;
             InitializeSaved(s, n) <==> n in m.contracts && m.contracts[n].initializeArgs.Some?
    ensures var s' := BeginStep(s, spec, i);
            && s'.world == s.world && SavedAlike(s, s', n)
            && (s'.process.Idle? || !s'.process.pc.InitializeReturned?)
  {
    hide DepsDeployed, Context;
  }

  lemma BeginAccounts(reg: Registry, s: State, i: nat, n: Name)
    requires Inv(reg, s) && s.process.Running? && s.process.pc == Begin(i)
    requires i < |SpecsOf(reg, s.process.plan.header)| && PlanReady(reg, s.process.plan)
    ensures Accounts(reg, s, BeginStep(s, SpecsOf(reg, s.process.plan.header)[i], i), n)
  {
    hide Inv, Accounts, BeginStep, InitializeSaved;
    var spec := SpecsOf(reg, s.process.plan.header)[i];
    assert spec in SpecsOf(reg, s.process.plan.header);
    Remembered(reg, s, n);
    BeginSaves(s, spec, i, n);
    QuietAccounts(reg, s, BeginStep(s, spec, i), n);
  }

  lemma UploadSaves(s: State, spec: ContractSpec, i: nat, hash: Hash, answer: Answer, n: Name)
    requires s.process.Running? && spec.name in s.process.plan.artifacts && s.disk.partial.Some?
    requires var m := s.process.manifest;
             InitializeSaved(s, n) <==> n in m.contracts && m.contracts[n].initializeArgs.Some?
    ensures var s' := UploadStep(s, spec, i, answer);
            && Initializes(s'.world.calls, n) == Initializes(s.world.calls, n)
            && SavedAlike(s, s', n)
            && (s'.process.Idle? || !s'.process.pc.InitializeReturned?)
    ensures var s' := UploadReturnedStep(s, spec, i, hash);
            && s'.world == s.world && SavedAlike(s, s', n)
            && (s'.process.Idle? || !s'.process.pc.InitializeReturned?)
  {
    InitializesAppend(s.world.calls, UploadCall(spec.name), n);
    hide Initializes;
  }

  lemma DeploySaves(s: State, spec: ContractSpec, i: nat, id: ContractId, answer: Answer, n: Name)
    requires s.process.Running? && s.disk.partial.Some? && !s.process.pc.InitializeReturned?
    requires var m := s.process.manifest;
             InitializeSaved(s, n) <==> n in m.contracts && m.contracts[n].initializeArgs.Some?
    ensures var s' := DeployStep(s, spec, i, answer);
            && Initializes(s'.world.calls, n) == Initializes(s.world.calls, n)
            && SavedAlike(s, s', n)
            && (s'.process.Idle? || !s'.process.pc.InitializeReturned?)
    ensures var s' := DeployReturnedStep(s, spec, i, id);
            && s'.world == s.world && SavedAlike(s, s', n)
            && (s'.process.Idle? || !s'.process.pc.InitializeReturned?)
  {
    InitializesAppend(s.world.calls, DeployCall(spec.name, answer.id), n);
    hide Initializes, Resolve, Context;
  }

  lemma DeployingAccounts(reg: Registry, s: State, answer: Answer, n: Name)
    requires Inv(reg, s) && s.process.Running? && PlanReady(reg, s.process.plan)
    requires s.process.pc.Upload? || s.process.pc.UploadReturned? || s.process.pc.Deploy?
             || s.process.pc.DeployReturned?
    requires s.process.pc.i < |SpecsOf(reg, s.process.plan.header)|
    ensures Accounts(reg, s, TickStep(reg, s, answer), n)
  {
    hide Inv, Accounts, InitializeSaved, UploadStep, UploadReturnedStep, DeployStep, DeployReturnedStep;
    var spec := SpecsOf(reg, s.process.plan.header)[s.process.pc.i];
    assert spec in SpecsOf(reg, s.process.plan.header);
    Remembered(reg, s, n);
    var hash := if s.process.pc.UploadReturned? then s.process.pc.hash else 0;
    var id := if s.process.pc.DeployReturned? then s.process.pc.id else 0;
    UploadSaves(s, spec, s.process.pc.i, hash, answer, n);
    DeploySaves(s, spec, s.process.pc.i, id, answer, n);
    QuietAccounts(reg, s, TickStep(reg, s, answer), n);
  }

  lemma CallSaves(s: State, spec: ContractSpec, i: nat, answer: Answer, n: Name)
    requires s.process.Running? && s.disk.partial.Some? && s.process.pc == Initialize(i)
    ensures var s' := InitializeStep(s, spec, i, answer);
            && SavedAlike(s, s', n)
            && (s'.process.Running? && s'.process.pc.InitializeReturned? ==>
                  s'.process.pc.i == i && s'.process.plan == s.process.plan)
            && Initializes(s'.world.calls, n)
               == Initializes(s.world.calls, n)
                  + (if s'.process.Running? && s'.process.pc.InitializeReturned? && spec.name == n then 1 else 0)
  {
    var m, r := s.process.manifest, RecordOf(s.process.manifest, spec.name);
    var args := Resolve(spec.initializeArgs, m.header.account, Context(m, spec));
    if args.Some? && r.contractId.Some? {
      InitializesAppend(s.world.calls, InitializeCall(spec.name, r.contractId.value, args.value), n);
    }
    hide Initializes, Resolve, Context;
  }

  lemma CallAccounts(reg: Registry, s: State, i: nat, answer: Answer, n: Name)
    requires Inv(reg, s) && s.process.Running? && s.process.pc == Initialize(i)
    requires i < |SpecsOf(reg, s.process.plan.header)|
    ensures Accounts(reg, s, InitializeStep(s, SpecsOf(reg, s.process.plan.header)[i], i, answer), n)
  {
    hide Inv, Initializes, InitializeStep, InitializeSaved;
    Remembered(reg, s, n);
    CallSaves(s, SpecsOf(reg, s.process.plan.header)[i], i, answer, n);
  }

  /** The returned call moves from the process to the checkpoint. */
  lemma SavingAccounts(reg: Registry, s: State, i: nat, n: Name)
    requires Inv(reg, s) && s.process.Running? && s.process.pc == InitializeReturned(i)
    requires i < |SpecsOf(reg, s.process.plan.header)|
    ensures Accounts(reg, s, InitializeReturnedStep(s, SpecsOf(reg, s.process.plan.header)[i], i), n)
  {
    Remembered(reg, s, n);
    ReturnedArgs(reg, s, i);
    hide Inv, Initializes, Context, Resolve;
  }

  lemma ReturnedArgs(reg: Registry, s: State, i: nat)
    requires Inv(reg, s) && s.process.Running? && s.process.pc == InitializeReturned(i)
    requires i < |SpecsOf(reg, s.process.plan.header)|
    ensures var m, spec := s.process.manifest, SpecsOf(reg, s.process.plan.header)[i];
            && RecordOf(m, spec.name).stage != Initialized
            && Resolve(spec.initializeArgs, m.header.account, Context(m, spec)).Some?
  {
    hide ManifestOk, Agrees, AlreadyOrdered, PublishedOk, Context, Resolve, DoneUpTo, DepsDeployed;
  }

  lemma FinishAccounts(reg: Registry, s: State, answer: Answer, n: Name)
    requires Inv(reg, s) && s.process.Running? && AfterLoop(s.process.pc)
    requires FinishStep(s, SpecsOf(reg, s.process.plan.header), answer).disk.partial.Some?
    ensures Accounts(reg, s, FinishStep(s, SpecsOf(reg, s.process.plan.header), answer), n)
  {
    Remembered(reg, s, n);
    hide Inv, Initializes, HealthChecksResolve, FrontendValues;
  }

  /** A tick makes at most one initialize call that takes effect, and remembers it. */
  lemma TickAccounts(reg: Registry, s: State, answer: Answer, n: Name)
    requires Inv(reg, s) && s.process.Running? && Step(reg, s, Tick(answer)).disk.partial.Some?
    ensures Accounts(reg, s, Step(reg, s, Tick(answer)), n)
  {
    hide PcOk, ManifestOk, Agrees, PublishedOk, AlreadyOrdered, Accounts, BeginStep, UploadStep, UploadReturnedStep;
    hide DeployStep, DeployReturnedStep, InitializeStep, InitializeReturnedStep, FinishStep;
    if AfterLoop(s.process.pc) {
      FinishAccounts(reg, s, answer, n);
    } else {
      LoopIndex(reg, s);
      if s.process.pc.i == |SpecsOf(reg, s.process.plan.header)| {
        LeavingAccounts(reg, s, n);
      } else {
        match s.process.pc
        case Begin(i) => BeginAccounts(reg, s, i, n);
        case Initialize(i) => CallAccounts(reg, s, i, answer, n);
        case InitializeReturned(i) => SavingAccounts(reg, s, i, n);
        case _ => DeployingAccounts(reg, s, answer, n);
      }
    }
  }

  lemma LeavingAccounts(reg: Registry, s: State, n: Name)
    requires s.process.Running? && s.process.pc.Begin?
    ensures Accounts(reg, s, Goto(s, s.process.manifest, Conclude), n)
  {
  }

  lemma InitializeStepAccounts(reg: Registry, s: State, a: Action, n: Name)
    requires Inv(reg, s) && s.disk.partial.Some? && Step(reg, s, a).disk.partial.Some?
    ensures Initializes(Step(reg, s, a).world.calls, n) + InitializeAccounted(reg, s, n)
            == Initializes(s.world.calls, n) + InitializeAccounted(reg, Step(reg, s, a), n)
               + (if a.Crash? && InitializePending(reg, s, n) then 1 else 0)
  {
    hide Inv, Initializes;
    if a.Tick? && s.process.Running? {
      TickAccounts(reg, s, a.answer, n);
    }
  }

  /** Within one attempt the initialize calls for a contract that took effect are exactly: the saved one, the one whose
      answer has not been saved yet, and one for every crash that lost an answer. */
  lemma {:induction false} InitializeCallsCounted(reg: Registry, s: State, actions: seq<Action>, n: Name)
    requires Inv(reg, s) && SameAttempt(reg, s, actions)
    ensures var t := Run(reg, s, actions);
            Initializes(t.world.calls, n) + InitializeAccounted(reg, s, n)
            == Initializes(s.world.calls, n) + InitializeAccounted(reg, t, n) + InitializesLost(reg, s, actions, n)
    decreases |actions|
  {
    hide Inv, Step, InitializeAccounted, Initializes;
    if actions != [] {
      var init := actions[..|actions| - 1];
      InitializeCallsCounted(reg, s, init, n);
      RunKeeps(reg, s, init);
      assert Run(reg, s, init).disk.partial.Some?;
      InitializeStepAccounts(reg, Run(reg, s, init), actions[|actions| - 1], n);
    }
  }

  lemma AccountedOnce(reg: Registry, s: State, n: Name)
    requires Inv(reg, s)
    ensures InitializeAccounted(reg, s, n) <= 1
    ensures Blocked(reg, s, n) ==> InitializeAccounted(reg, s, n) == 0
  {
    hide AlreadyOrdered, PublishedOk, Agrees, DepsDeployed, Context, Resolve, ManifestOk, Complete, DoneUpTo;
    if InitializeSaved(s, n) {
      ListedFacts(reg, s.disk.partial.value, s.world, n);
      if InitializePending(reg, s, n) {
        SameRecord(s.disk.partial.value, s.process.manifest, n);
      }
    }
  }

  /** At most one answer is ever lost, and then the deployment is blocked. */
  lemma {:induction false} LostAtMostOnce(reg: Registry, s: State, actions: seq<Action>, n: Name)
    requires Inv(reg, s)
    ensures InitializesLost(reg, s, actions, n) <= 1
    ensures InitializesLost(reg, s, actions, n) == 1 ==> Blocked(reg, Run(reg, s, actions), n)
    decreases |actions|
  {
    hide Inv, Step, Stuck;
    if actions != [] {
      var init := actions[..|actions| - 1];
      var before := Run(reg, s, init);
      LostAtMostOnce(reg, s, init, n);
      RunKeeps(reg, s, init);
      if Blocked(reg, before, n) {
        BlockedStep(reg, before, actions[|actions| - 1], n);
      } else if InitializePending(reg, before, n) && actions[|actions| - 1].Crash? {
        LostAnswerBlocks(reg, before, n);
      }
    }
  }

  /** Within one attempt a contract is initialized at most once: the network refuses a second call. */
  lemma InitializedAtMostOnce(reg: Registry, s: State, actions: seq<Action>, n: Name)
    requires Inv(reg, s) && SameAttempt(reg, s, actions)
    ensures Initializes(Run(reg, s, actions).world.calls, n) + InitializeAccounted(reg, s, n)
            <= Initializes(s.world.calls, n) + 1
  {
    hide Inv, Step, InitializeAccounted, Initializes, Blocked, SameAttempt;
    InitializeCallsCounted(reg, s, actions, n);
    LostAtMostOnce(reg, s, actions, n);
    RunKeeps(reg, s, actions);
    AccountedOnce(reg, Run(reg, s, actions), n);
  }
}
