/** Every contract with an initialize call can lose the deployment: a run that a crash stops for good. */
module DeploymentLoss {
  import opened Prelude
  import opened DependencyOrder
  import opened Deployment
  import opened DeploymentSafety
  import opened DeploymentTheorems
  import opened DeploymentInitialize
  import opened DeploymentResume

  /** A process that has not initialized a contract is still in the loop. */
  lemma StillInLoop(reg: Registry, s: State, k: nat)
    requires Inv(reg, s) && s.process.Running? && k < |SpecsOf(reg, s.process.plan.header)|
    requires SpecsOf(reg, s.process.plan.header)[k].mode.ByInitialize?
    requires !InitializeSaved(s, SpecsOf(reg, s.process.plan.header)[k].name)
    ensures !AfterLoop(s.process.pc) && s.process.pc.i < |SpecsOf(reg, s.process.plan.header)|
  {
    var m, specs := s.process.manifest, SpecsOf(reg, s.process.plan.header);
    Remembered(reg, s, specs[k].name);
    NotFinished(reg, m, s.world, k);
    hide ManifestOk, Agrees, PublishedOk, AlreadyOrdered, Resolve, Context, DepsDeployed, Finished;
    if !AfterLoop(s.process.pc) {
      LoopIndex(reg, s);
    }
  }

  lemma NotFinished(reg: Registry, m: Manifest, w: World, k: nat)
    requires ManifestOk(reg, m, w) && k < |reg[m.header.configHash]|
    requires reg[m.header.configHash][k].mode.ByInitialize?
    requires var n := reg[m.header.configHash][k].name;
             !(n in m.contracts && m.contracts[n].initializeArgs.Some?)
    ensures !Finished(m, reg[m.header.configHash][k].name)
  {
    assert RecordOk(m, w, reg[m.header.configHash][k]);
  }

  lemma InitializeSaves(s: State, spec: ContractSpec, i: nat, answer: Answer, n: Name)
    requires s.process.Running? && s.disk.partial.Some?
    requires var m := s.process.manifest;
             InitializeSaved(s, n) <==> n in m.contracts && m.contracts[n].initializeArgs.Some?
    ensures SavedAlike(s, InitializeStep(s, spec, i, answer), n)
    ensures spec.name != n ==> SavedAlike(s, InitializeReturnedStep(s, spec, i), n)
  {
    hide Resolve, Context;
  }

  /** One step in the loop neither saves another contract's call nor publishes. */
  lemma StillUnsaved(reg: Registry, s: State, answer: Answer, n: Name)
    requires Inv(reg, s) && s.process.Running? && !AfterLoop(s.process.pc) && PlanReady(reg, s.process.plan)
    requires s.process.pc.i < |SpecsOf(reg, s.process.plan.header)|
    requires !InitializeSaved(s, n) && !InitializePending(reg, s, n)
    ensures SavedAlike(s, TickStep(reg, s, answer), n)
  {
    hide Inv, InitializeSaved, SavedAlike, BeginStep, UploadStep, UploadReturnedStep, DeployStep, DeployReturnedStep;
    hide InitializeStep, InitializeReturnedStep;
    Remembered(reg, s, n);
    var spec := SpecsOf(reg, s.process.plan.header)[s.process.pc.i];
    assert spec in SpecsOf(reg, s.process.plan.header);
    match s.process.pc
    case Begin(i) => BeginSaves(s, spec, i, n);
    case Upload(i) => UploadSaves(s, spec, i, 0, answer, n);
    case UploadReturned(i, hash) => UploadSaves(s, spec, i, hash, answer, n);
    case Deploy(i) => DeploySaves(s, spec, i, 0, answer, n);
    case DeployReturned(i, id) => DeploySaves(s, spec, i, id, answer, n);
    case Initialize(i) => InitializeSaves(s, spec, i, answer, n);
    case InitializeReturned(i) => InitializeSaves(s, spec, i, answer, n);
  }

  /** Answers that bring a process to the initialize call of a contract. */
  lemma {:induction false} DriveToCall(reg: Registry, s: State, k: nat) returns (actions: seq<Action>)
    requires Inv(reg, s) && Driven(reg, s) && Unstuck(reg, s) && Resolvable(SpecsOf(reg, s.process.plan.header))
    requires k < |SpecsOf(reg, s.process.plan.header)|
    requires SpecsOf(reg, s.process.plan.header)[k].mode.ByInitialize?
    requires !InitializeSaved(s, SpecsOf(reg, s.process.plan.header)[k].name)
    ensures var t := Run(reg, s, actions);
            && Inv(reg, t) && InitializePending(reg, t, SpecsOf(reg, s.process.plan.header)[k].name)
            && t.disk.published == s.disk.published
    ensures forall i :: 0 <= i < |actions| ==> !actions[i].Crash?
    decreases Rank(|SpecsOf(reg, s.process.plan.header)|, s.process.pc)
  {
    hide Inv, Matches, Resolvable, Rank, Unstuck, InitializeSaved, InitializePending, TickStep, SpecsOf;
    var n := SpecsOf(reg, s.process.plan.header)[k].name;
    if InitializePending(reg, s, n) {
      actions := [];
    } else {
      StillInLoop(reg, s, k);
      var answer := Advance(reg, s);
      RunningPlan(reg, s);
      StillUnsaved(reg, s, answer, n);
      KeepStep(reg, s, Tick(answer));
      var rest := DriveToCall(reg, Step(reg, s, Tick(answer)), k);
      actions := [Tick(answer)] + rest;
      RunAppend(reg, s, Tick(answer), rest);
    }
  }

  lemma RunningPlan(reg: Registry, s: State)
    requires Inv(reg, s) && s.process.Running?
    ensures PlanReady(reg, s.process.plan)
  {
  }

  lemma NewRun(reg: Registry, s: State, plan: Plan)
    requires ValidRegistry(reg) && Fresh(s) && PlanReady(reg, plan)
    ensures var t := Step(reg, s, Start(plan, false));
            && Inv(reg, t) && Driven(reg, t) && Unstuck(reg, t) && t.process.Running? && t.process.plan == plan
            && t.disk.published.None? && forall n :: !InitializeSaved(t, n)
  {
    FreshOk(reg, s);
    KeepStep(reg, s, Start(plan, false));
    hide Inv;
  }

  lemma {:induction false} RunConcat(reg: Registry, s: State, actions: seq<Action>, more: seq<Action>)
    ensures Run(reg, s, actions + more) == Run(reg, Run(reg, s, actions), more)
    decreases |more|
  {
    hide Step;
    if more == [] {
      assert actions + more == actions;
    } else {
      var last := |more| - 1;
      RunConcat(reg, s, actions, more[..last]);
      assert (actions + more)[..|actions| + last] == actions + more[..last];
    }
  }

  /** The only crash is the last action. */
  predicate EndsInFirstCrash(actions: seq<Action>) {
    && actions != [] && actions[|actions| - 1] == Crash
    && forall i :: 0 <= i < |actions| - 1 ==> !actions[i].Crash?
  }

  /** Whatever follows, nothing is published and the checkpoint stays. */
  ghost predicate StoppedForGood(reg: Registry, s: State, actions: seq<Action>) {
    forall more :: var t := Run(reg, s, actions + more); t.disk.partial.Some? && t.disk.published.None?
  }

  lemma LoseCall(reg: Registry, s: State, plan: Plan, k: nat) returns (actions: seq<Action>)
    requires ValidRegistry(reg) && Fresh(s) && PlanReady(reg, plan) && Resolvable(SpecsOf(reg, plan.header))
    requires k < |SpecsOf(reg, plan.header)| && SpecsOf(reg, plan.header)[k].mode.ByInitialize?
    ensures EndsInFirstCrash(actions) && StoppedForGood(reg, s, actions)
    ensures Blocked(reg, Run(reg, s, actions), SpecsOf(reg, plan.header)[k].name)
  {
    hide Inv, Resolvable, PlanReady, SpecsOf, Step, Driven, Unstuck, InitializeSaved, InitializePending, Fresh, Blocked;
    var s0 := Step(reg, s, Start(plan, false));
    NewRun(reg, s, plan);
    var n := SpecsOf(reg, plan.header)[k].name;
    var drive := DriveToCall(reg, s0, k);
    var called := Run(reg, s0, drive);
    var crashed := Step(reg, called, Crash);
    LostAnswerBlocks(reg, called, n);
    KeepStep(reg, called, Crash);
    var before := [Start(plan, false)] + drive;
    RunAppend(reg, s, Start(plan, false), drive);
    actions := before + [Crash];
    assert actions[..|actions| - 1] == before;
    CrashKeepsDisk(reg, called);
    forall more
      ensures var t := Run(reg, s, actions + more); t.disk.partial.Some? && t.disk.published.None?
    {
      RunConcat(reg, s, actions, more);
      BlockedForever(reg, crashed, more, n);
    }
  }

  /** For every configuration and each of its contracts with an initialize call there is a first run, ended by one crash
      that blocks the contract, after which no start, resume, answer or crash publishes anything or gets rid of the
      checkpoint. */
  lemma LostInitializeNeverPublishes(reg: Registry, s: State, plan: Plan, k: nat)
    requires ValidRegistry(reg) && Fresh(s) && PlanReady(reg, plan) && Resolvable(SpecsOf(reg, plan.header))
    requires k < |SpecsOf(reg, plan.header)| && SpecsOf(reg, plan.header)[k].mode.ByInitialize?
    ensures exists actions ::
              && EndsInFirstCrash(actions) && StoppedForGood(reg, s, actions)
              && Blocked(reg, Run(reg, s, actions), SpecsOf(reg, plan.header)[k].name)
  {
    hide *;
    var actions := LoseCall(reg, s, plan, k);
  }

  lemma CrashKeepsDisk(reg: Registry, s: State)
    ensures Step(reg, s, Crash).disk == s.disk
  {
  }
}
