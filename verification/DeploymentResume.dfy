/** Which stopped deployments can be resumed to the end. */
module DeploymentResume {
  import opened Prelude
  import opened DependencyOrder
  import opened Deployment
  import opened DeploymentSafety
  import opened DeploymentTheorems
  import opened DeploymentInitialize

  /** Templates mention only declared dependencies, health checks only deployed contracts. */
  ghost predicate Resolvable(specs: seq<ContractSpec>) {
    forall k :: 0 <= k < |specs| ==>
      && (forall n :: n in specs[k].constructorArgs.refs ==> n in specs[k].dependencies)
      && (forall n :: n in specs[k].initializeArgs.refs ==> n in specs[k].dependencies)
      && (specs[k].healthCheck.Some? ==> forall n :: n in specs[k].healthCheck.value.refs ==> Occurs(n, specs))
  }

  /** The artifact files are still the ones the checkpoint was written for. */
  ghost predicate Matches(plan: Plan, m: Manifest) {
    forall n :: n in m.contracts ==> n in plan.artifacts && m.contracts[n].artifact == plan.artifacts[n]
  }

  function Rank(count: nat, pc: Pc): int {
    match pc
    case Begin(i) => 10 * (count - i) + 6
    case Upload(i) => 10 * (count - i) + 5
    case UploadReturned(i, _) => 10 * (count - i) + 4
    case Deploy(i) => 10 * (count - i) + 3
    case DeployReturned(i, _) => 10 * (count - i) + 2
    case Initialize(i) => 10 * (count - i) + 1
    case InitializeReturned(i) => 10 * (count - i)
    case Conclude => 5
    case Verify => 4
    case Publish => 3
    case WriteFrontend => 2
    case Unlink => 1
  }

  lemma FreshId(ids: set<ContractId>) returns (id: ContractId)
    ensures forall x :: x in ids ==> x < id
    decreases |ids|
  {
    id := 0;
    if ids != {} {
      var x :| x in ids;
      var rest := FreshId(ids - {x});
      id := if x < rest then rest else x + 1;
      assert ids == (ids - {x}) + {x};
    }
  }

  lemma TemplateResolves(m: Manifest, spec: ContractSpec, t: Template)
    requires DepsDeployed(m, spec) && forall n :: n in t.refs ==> n in spec.dependencies
    ensures Resolve(t, m.header.account, Context(m, spec)).Some?
  {
    assert forall n :: n in t.refs ==> n in Context(m, spec);
  }

  lemma HealthResolves(reg: Registry, m: Manifest, w: World)
    requires ManifestOk(reg, m, w) && Resolvable(reg[m.header.configHash]) && Complete(m, reg[m.header.configHash])
    ensures HealthChecksResolve(m, reg[m.header.configHash])
  {
    var specs := reg[m.header.configHash];
    forall n | Occurs(n, specs)
      ensures n in Ids(m)
    {
      var k :| 0 <= k < |specs| && specs[k].name == n;
      assert Finished(m, specs[k].name);
      FinishedHasId(reg, m, w, n);
    }
    forall spec | spec in specs
      ensures spec.name in m.contracts
      ensures spec.healthCheck.Some? ==> Resolve(spec.healthCheck.value, m.header.account, Ids(m)).Some?
    {
      var k :| 0 <= k < |specs| && specs[k] == spec;
      assert Occurs(spec.name, specs);
    }
  }

  /** A running process that nothing will refuse: artifacts unchanged and a returned upload hash that fits. */
  ghost predicate Driven(reg: Registry, s: State) {
    && s.process.Running? && Matches(s.process.plan, s.process.manifest)
    && (s.process.pc.UploadReturned? ==>
          var specs := SpecsOf(reg, s.process.plan.header);
          s.process.pc.i < |specs| ==>
            specs[s.process.pc.i].name in s.process.plan.artifacts
            && s.process.pc.hash == s.process.plan.artifacts[specs[s.process.pc.i].name].sha256)
  }

  ghost predicate Nearer(reg: Registry, s: State, s': State)
    requires s.process.Running?
  {
    var count := |SpecsOf(reg, s.process.plan.header)|;
    Driven(reg, s') && s'.process.plan == s.process.plan && 0 <= Rank(count, s'.process.pc) < Rank(count, s.process.pc)
  }

  /** The answers that keep a process going inside the loop. */
  ghost predicate Helpful(reg: Registry, s: State, answer: Answer) {
    && s.process.Running? && !AfterLoop(s.process.pc)
    && s.process.pc.i < |SpecsOf(reg, s.process.plan.header)|
    && var name := SpecsOf(reg, s.process.plan.header)[s.process.pc.i].name;
    && name in s.process.plan.artifacts && answer.hash == s.process.plan.artifacts[name].sha256
    && answer.ok && answer.id !in s.world.instances.Keys + s.world.initialized
  }

  lemma AdvanceBegin(reg: Registry, s: State, answer: Answer)
    requires Inv(reg, s) && Driven(reg, s) && Helpful(reg, s, answer) && s.process.pc.Begin?
    ensures Nearer(reg, s, TickStep(reg, s, answer))
  {
    hide AlreadyOrdered, IdsDistinct, PublishedOk, Agrees, RecordOk, RecordsOk, Complete, Context, PcOk;
    DependenciesReadyAt(reg, s);
  }

  lemma DependenciesReadyAt(reg: Registry, s: State)
    requires Inv(reg, s) && s.process.Running? && s.process.pc.Begin?
    requires s.process.pc.i < |SpecsOf(reg, s.process.plan.header)|
    ensures DepsDeployed(s.process.manifest, SpecsOf(reg, s.process.plan.header)[s.process.pc.i])
  {
    hide AlreadyOrdered, IdsDistinct, PublishedOk, Agrees, RecordOk, Complete;
    DependenciesReady(reg, s.process.manifest, s.world, s.process.pc.i);
  }

  lemma AdvanceUpload(reg: Registry, s: State, answer: Answer)
    requires Inv(reg, s) && Driven(reg, s) && Helpful(reg, s, answer)
    requires s.process.pc.Upload? || s.process.pc.UploadReturned? || s.process.pc.DeployReturned?
             || s.process.pc.InitializeReturned?
    ensures Nearer(reg, s, TickStep(reg, s, answer))
  {
    hide AlreadyOrdered, IdsDistinct, PublishedOk, Agrees, RecordOk, RecordsOk, Complete, Resolve, Context;
  }

  /** No initialize call has been missed, except one that has just returned. */
  ghost predicate Unstuck(reg: Registry, s: State) {
    s.process.Running? ==> forall n :: Stuck(s.process.manifest, s.world, n) ==> InitializePending(reg, s, n)
  }

  lemma AdvanceDeploy(reg: Registry, s: State, answer: Answer)
    requires Inv(reg, s) && Driven(reg, s) && Helpful(reg, s, answer) && Unstuck(reg, s)
    requires s.process.pc.Deploy? || s.process.pc.Initialize?
    requires Resolvable(SpecsOf(reg, s.process.plan.header))
    ensures Nearer(reg, s, TickStep(reg, s, answer))
  {
    hide AlreadyOrdered, IdsDistinct, PublishedOk, Agrees, RecordOk, Complete, Resolve, Context;
    var m := s.process.manifest;
    var spec := SpecsOf(reg, s.process.plan.header)[s.process.pc.i];
    if s.process.pc.Deploy? {
      TemplateResolves(m, spec, spec.constructorArgs);
    } else {
      TemplateResolves(m, spec, spec.initializeArgs);
      ListedFacts(reg, m, s.world, spec.name);
      assert !Stuck(m, s.world, spec.name);
    }
  }

  lemma AdvanceInLoop(reg: Registry, s: State, answer: Answer)
    requires Inv(reg, s) && Driven(reg, s) && Helpful(reg, s, answer) && Unstuck(reg, s)
    requires Resolvable(SpecsOf(reg, s.process.plan.header))
    ensures Nearer(reg, s, TickStep(reg, s, answer))
  {
    hide Inv, Driven, Resolvable, Nearer, TickStep, Unstuck;
    match s.process.pc
    case Begin(_) => AdvanceBegin(reg, s, answer);
    case Deploy(_) => AdvanceDeploy(reg, s, answer);
    case Initialize(_) => AdvanceDeploy(reg, s, answer);
    case _ => AdvanceUpload(reg, s, answer);
  }

  lemma UnstuckLoop(reg: Registry, s: State, answer: Answer, n: Name)
    requires Inv(reg, s) && Unstuck(reg, s) && s.process.Running? && !AfterLoop(s.process.pc)
    requires s.process.pc.i < |SpecsOf(reg, s.process.plan.header)|
    ensures var s' := TickStep(reg, s, answer);
            s'.process.Running? && Stuck(s'.process.manifest, s'.world, n) ==> InitializePending(reg, s', n)
  {
    hide AlreadyOrdered, PublishedOk, Agrees, RecordOk, RecordsOk, DepsDeployed, Context, Resolve, DoneUpTo, Complete;
    assert Stuck(s.process.manifest, s.world, n) ==> InitializePending(reg, s, n);
  }

  lemma StaysUnstuck(reg: Registry, s: State, answer: Answer)
    requires Inv(reg, s) && Unstuck(reg, s) && s.process.Running?
    ensures Unstuck(reg, Step(reg, s, Tick(answer)))
  {
    hide RunningOk, PublishedOk, HealthChecksResolve, FrontendValues, BeginStep, UploadStep, UploadReturnedStep;
    hide DeployStep, DeployReturnedStep, InitializeStep, InitializeReturnedStep;
    if !AfterLoop(s.process.pc) {
      LoopIndex(reg, s);
      if s.process.pc.i < |SpecsOf(reg, s.process.plan.header)| {
        forall n {
          UnstuckLoop(reg, s, answer, n);
        }
        return;
      }
    }
    var s' := Step(reg, s, Tick(answer));
    forall n | s'.process.Running? && Stuck(s'.process.manifest, s'.world, n)
      ensures InitializePending(reg, s', n)
    {
      assert Stuck(s.process.manifest, s.world, n);
    }
  }

  /** Some answer moves the process on, or finishes the deployment. */
  lemma Advance(reg: Registry, s: State) returns (answer: Answer)
    requires Inv(reg, s) && Driven(reg, s) && Unstuck(reg, s) && Resolvable(SpecsOf(reg, s.process.plan.header))
    ensures Unstuck(reg, Step(reg, s, Tick(answer)))
    ensures var s' := Step(reg, s, Tick(answer));
            if s.process.pc.Unlink? then
              && s'.disk.partial.None? && s'.disk.published.Some?
              && s'.disk.published.value.header == s.process.plan.header
            else Nearer(reg, s, s')
  {
    hide AlreadyOrdered, IdsDistinct, PublishedOk, Agrees, RecordOk, Resolvable, HealthChecksResolve, FrontendValues;
    hide Unstuck;
    var specs := SpecsOf(reg, s.process.plan.header);
    var m := s.process.manifest;
    var pc := s.process.pc;
    var id := FreshId(s.world.instances.Keys + s.world.initialized);
    answer := Answer(0, id, true);
    if AfterLoop(pc) {
      if pc.Conclude? {
        HealthResolves(reg, m, s.world);
      }
    } else {
      LoopIndex(reg, s);
      if pc.i < |specs| {
        assert specs[pc.i] in specs;
        answer := answer.(hash := s.process.plan.artifacts[specs[pc.i].name].sha256);
        AdvanceInLoop(reg, s, answer);
      }
    }
    StaysUnstuck(reg, s, answer);
  }

  /** The deployment of `plan` is over: its manifest is published, and keeps every id that `before` had saved. */
  ghost predicate Finishes(before: State, after: State, plan: Plan) {
    && after.disk.partial.None? && after.disk.published.Some? && after.disk.published.value.header == plan.header
    && forall n, id :: SavedId(before, n, id) ==>
         n in after.disk.published.value.canonical && after.disk.published.value.canonical[n] == id
  }

  lemma {:induction false} RunAppend(reg: Registry, s: State, a: Action, rest: seq<Action>)
    ensures Run(reg, s, [a] + rest) == Run(reg, Step(reg, s, a), rest)
    decreases |rest|
  {
    var all := [a] + rest;
    if rest == [] {
      assert Run(reg, s, all[..0]) == s;
    } else {
      assert all[..|all| - 1] == [a] + rest[..|rest| - 1];
      RunAppend(reg, s, a, rest[..|rest| - 1]);
    }
  }

  lemma {:induction false} DriveToEnd(reg: Registry, s: State) returns (actions: seq<Action>)
    requires Inv(reg, s) && Driven(reg, s) && Unstuck(reg, s) && Resolvable(SpecsOf(reg, s.process.plan.header))
    ensures Finishes(s, Run(reg, s, actions), s.process.plan)
    decreases Rank(|SpecsOf(reg, s.process.plan.header)|, s.process.pc)
  {
    hide Inv, Step, Matches, Resolvable, Rank, Unstuck;
    var answer := Advance(reg, s);
    var a := Tick(answer);
    var s' := Step(reg, s, a);
    var rest: seq<Action> := [];
    if s.process.pc.Unlink? {
      assert Run(reg, s', []) == s';
    } else {
      KeepStep(reg, s, a);
      rest := DriveToEnd(reg, s');
    }
    actions := [a] + rest;
    RunAppend(reg, s, a, rest);
    var after := Run(reg, s, actions);
    forall n, id | SavedId(s, n, id)
      ensures n in after.disk.published.value.canonical && after.disk.published.value.canonical[n] == id
    {
      StepKeepsId(reg, s, a, n, id);
      if !s.process.pc.Unlink? {
        StillSaved(reg, s, a);
      }
    }
  }

  /** Only the last step removes the checkpoint. */
  lemma StillSaved(reg: Registry, s: State, a: Action)
    requires Inv(reg, s) && s.process.Running? && a.Tick? && !s.process.pc.Unlink? && Step(reg, s, a).process.Running?
    ensures Step(reg, s, a).disk.partial.Some?
  {
    KeepStep(reg, s, a);
  }

  /** A checkpoint that has missed no initialize call can be resumed to the end, which publishes every saved id. */
  lemma ResumeCompletes(reg: Registry, s: State, plan: Plan) returns (actions: seq<Action>)
    requires Inv(reg, s) && s.disk.partial.Some? && s.disk.partial.value.header == plan.header
    requires PlanReady(reg, plan) && Matches(plan, s.disk.partial.value) && Resolvable(SpecsOf(reg, plan.header))
    requires forall n :: !Stuck(s.disk.partial.value, s.world, n)
    ensures Finishes(s, Run(reg, s, [Crash, Start(plan, true)] + actions), plan)
  {
    hide Inv, Resolvable, PlanReady, Stuck;
    var s1 := Step(reg, s, Crash);
    KeepStep(reg, s, Crash);
    var s2 := Step(reg, s1, Start(plan, true));
    KeepStep(reg, s1, Start(plan, true));
    actions := DriveToEnd(reg, s2);
    TwoFirst(reg, s, Crash, Start(plan, true), actions);
    assert forall n, id :: SavedId(s, n, id) ==> SavedId(s2, n, id);
  }

  lemma TwoFirst(reg: Registry, s: State, a: Action, b: Action, rest: seq<Action>)
    ensures Run(reg, s, [a, b] + rest) == Run(reg, Step(reg, Step(reg, s, a), b), rest)
  {
    hide Step;
    RunAppend(reg, Step(reg, s, a), b, rest);
    RunAppend(reg, s, a, [b] + rest);
    assert [a] + ([b] + rest) == [a, b] + rest;
  }

  lemma BlockedNeverFinishes(reg: Registry, s: State, actions: seq<Action>, plan: Plan, n: Name)
    requires Inv(reg, s) && Blocked(reg, s, n)
    ensures !Finishes(s, Run(reg, s, actions), plan)
  {
    hide Inv, Blocked;
    BlockedForever(reg, s, actions, n);
  }

  /** Crashing and resuming with unchanged artifacts can finish the deployment, keeping every saved id, exactly when no
      contract that the checkpoint takes for deployed only has been initialized on the network. */
  lemma ResumeCompletesExactly(reg: Registry, s: State, plan: Plan)
    requires Inv(reg, s) && s.disk.partial.Some? && s.disk.partial.value.header == plan.header
    requires PlanReady(reg, plan) && Matches(plan, s.disk.partial.value) && Resolvable(SpecsOf(reg, plan.header))
    ensures (exists actions :: Finishes(s, Run(reg, s, [Crash, Start(plan, true)] + actions), plan))
            <==> forall n :: !Stuck(s.disk.partial.value, s.world, n)
  {
    hide Inv, Resolvable, PlanReady, Stuck, Step, Finishes;
    if forall n :: !Stuck(s.disk.partial.value, s.world, n) {
      var actions := ResumeCompletes(reg, s, plan);
    } else {
      var n :| Stuck(s.disk.partial.value, s.world, n);
      forall actions
        ensures !Finishes(s, Run(reg, s, [Crash, Start(plan, true)] + actions), plan)
      {
        CrashedIsBlocked(reg, s, n);
        KeepStep(reg, s, Crash);
        RunAppend(reg, s, Crash, [Start(plan, true)] + actions);
        assert [Crash] + ([Start(plan, true)] + actions) == [Crash, Start(plan, true)] + actions;
        BlockedNeverFinishes(reg, Step(reg, s, Crash), [Start(plan, true)] + actions, plan, n);
        SameSaved(reg, s, Run(reg, s, [Crash, Start(plan, true)] + actions), plan);
      }
    }
  }

  lemma CrashedIsBlocked(reg: Registry, s: State, n: Name)
    requires s.disk.partial.Some? && Stuck(s.disk.partial.value, s.world, n)
    ensures Blocked(reg, Step(reg, s, Crash), n)
  {
  }

  lemma SameSaved(reg: Registry, s: State, after: State, plan: Plan)
    ensures Finishes(s, after, plan) <==> Finishes(Step(reg, s, Crash), after, plan)
  {
    assert forall n, id :: SavedId(s, n, id) <==> SavedId(Step(reg, s, Crash), n, id);
  }

  lemma NoneBlocked(reg: Registry, s: State)
    requires Inv(reg, s) && s.disk.partial.Some? && forall n :: !Blocked(reg, s, n)
    ensures Unstuck(reg, s)
    ensures forall n :: Stuck(s.disk.partial.value, s.world, n) ==> InitializePending(reg, s, n)
  {
    hide ManifestOk, PublishedOk, AlreadyOrdered, Agrees, PcOk;
    forall n | s.process.Running? && Stuck(s.process.manifest, s.world, n)
      ensures InitializePending(reg, s, n)
    {
      SameRecord(s.disk.partial.value, s.process.manifest, n);
      assert !Blocked(reg, s, n);
    }
    forall n | Stuck(s.disk.partial.value, s.world, n)
      ensures InitializePending(reg, s, n)
    {
      assert !Blocked(reg, s, n);
    }
  }

  /** A call that has returned reaches the checkpoint with the next step. */
  lemma SavesPending(reg: Registry, s: State, plan: Plan, n: Name)
    requires Inv(reg, s) && s.disk.partial.Some? && Unstuck(reg, s) && InitializePending(reg, s, n)
    requires s.disk.partial.value.header == plan.header && Matches(plan, s.disk.partial.value)
    ensures var s' := Step(reg, s, Tick(Answer(0, 0, true)));
            && s'.disk.partial.Some? && s'.disk.partial.value.header == plan.header
            && Matches(plan, s'.disk.partial.value) && forall x :: !Stuck(s'.disk.partial.value, s'.world, x)
  {
    hide ManifestOk, PublishedOk, AlreadyOrdered, Resolve, Context, DepsDeployed, DoneUpTo, Stuck;
    var s' := Step(reg, s, Tick(Answer(0, 0, true)));
    StaysUnstuck(reg, s, Answer(0, 0, true));
    assert s'.disk.partial == Some(s'.process.manifest);
    forall x | x in s'.process.manifest.contracts
      ensures x in plan.artifacts && s'.process.manifest.contracts[x].artifact == plan.artifacts[x]
    {
      SameRecord(s.disk.partial.value, s.process.manifest, x);
    }
    forall x
      ensures !Stuck(s'.disk.partial.value, s'.world, x)
    {
      assert !InitializePending(reg, s', x);
    }
  }

  lemma PendingCompletes(reg: Registry, s: State, plan: Plan, n: Name) returns (actions: seq<Action>)
    requires Inv(reg, s) && s.disk.partial.Some? && Unstuck(reg, s) && InitializePending(reg, s, n)
    requires s.disk.partial.value.header == plan.header && Matches(plan, s.disk.partial.value)
    requires PlanReady(reg, plan) && Resolvable(SpecsOf(reg, plan.header))
    ensures Finishes(s, Run(reg, s, actions), plan)
  {
    hide Inv, Unstuck, InitializePending, Resolvable, PlanReady, Stuck, Matches, Step, SpecsOf;
    var a := Tick(Answer(0, 0, true));
    var s' := Step(reg, s, a);
    SavesPending(reg, s, plan, n);
    KeepStep(reg, s, a);
    var rest := ResumeCompletes(reg, s', plan);
    actions := [a] + ([Crash, Start(plan, true)] + rest);
    RunAppend(reg, s, a, [Crash, Start(plan, true)] + rest);
    forall x, id | SavedId(s, x, id)
      ensures SavedId(s', x, id)
    {
      StepKeepsId(reg, s, a, x, id);
    }
  }

  /** From every state a run can reach with a checkpoint on disk, some sequence of starts, answers and crashes finishes
      the deployment with unchanged artifacts and keeps every saved id, exactly when no contract is blocked. */
  lemma FinishesExactly(reg: Registry, s: State, plan: Plan)
    requires Inv(reg, s) && s.disk.partial.Some? && s.disk.partial.value.header == plan.header
    requires PlanReady(reg, plan) && Matches(plan, s.disk.partial.value) && Resolvable(SpecsOf(reg, plan.header))
    ensures (exists actions :: Finishes(s, Run(reg, s, actions), plan)) <==> forall n :: !Blocked(reg, s, n)
  {
    hide Inv, Resolvable, PlanReady, Stuck, Step, Finishes, Blocked, Matches, SpecsOf, InitializePending, Unstuck;
    if forall n :: !Blocked(reg, s, n) {
      NoneBlocked(reg, s);
      if n :| Stuck(s.disk.partial.value, s.world, n) {
        var actions := PendingCompletes(reg, s, plan, n);
      } else {
        var actions := ResumeCompletes(reg, s, plan);
        assert Finishes(s, Run(reg, s, [Crash, Start(plan, true)] + actions), plan);
      }
    } else {
      var n :| Blocked(reg, s, n);
      forall actions
        ensures !Finishes(s, Run(reg, s, actions), plan)
      {
        BlockedNeverFinishes(reg, s, actions, plan, n);
      }
    }
  }
}
