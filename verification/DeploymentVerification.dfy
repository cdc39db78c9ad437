/** Nothing is published without a verification that succeeded, and no refused answer has an effect. */
module DeploymentVerification {
  import opened Prelude
  import opened DependencyOrder
  import opened Deployment
  import opened DeploymentSafety
  import opened DeploymentTheorems

  /** The answer on which verification succeeds. */
  predicate Verifies(s: State, a: Action) {
    a.Tick? && a.answer.ok && s.process.Running? && s.process.pc.Verify?
  }

  /** A process that may publish, or has published. */
  predicate PastVerify(s: State) {
    s.process.Running? && (s.process.pc.Publish? || s.process.pc.WriteFrontend? || s.process.pc.Unlink?)
  }

  /** Action `j` is a verification that succeeded, and the process that made it runs until after action `k`. */
  ghost predicate VerifiedBefore(reg: Registry, s: State, actions: seq<Action>, j: nat, k: nat) {
    && j < k <= |actions| && Verifies(Run(reg, s, actions[..j]), actions[j])
    && forall i :: j <= i <= k ==>
         Run(reg, s, actions[..i]).process.Running?
         && Run(reg, s, actions[..i]).process.plan == Run(reg, s, actions[..j]).process.plan
  }

  // ---- One step ------------------------------------------------------------------------------

  /** A process is past verification only by a verification that succeeded, or because it was already. */
  lemma PassesVerify(reg: Registry, s: State, a: Action)
    requires Inv(reg, s) && PastVerify(Step(reg, s, a))
    ensures s.process.Running? && Step(reg, s, a).process.plan == s.process.plan
    ensures Verifies(s, a) || PastVerify(s)
  {
    hide ManifestOk, PublishedOk, AlreadyOrdered, Agrees, Complete, DoneUpTo, InLoop, HealthChecksResolve;
    hide FrontendValues;
    if a.Tick? && s.process.Running? && !AfterLoop(s.process.pc) {
      LoopIndex(reg, s);
    }
  }

  /** Only a process past verification changes what is published. */
  lemma PublishesPastVerify(reg: Registry, s: State, a: Action)
    requires Inv(reg, s) && Step(reg, s, a).disk.published != s.disk.published
    ensures PastVerify(s)
  {
    hide ManifestOk, PublishedOk, AlreadyOrdered, Agrees, Complete, DoneUpTo, InLoop, HealthChecksResolve;
    hide FrontendValues;
    if a.Tick? && s.process.Running? && !AfterLoop(s.process.pc) {
      LoopIndex(reg, s);
    }
  }

  // ---- Runs -----------------------------------------------------------------------------------

  lemma RunSnoc(reg: Registry, s: State, actions: seq<Action>, k: nat)
    requires k < |actions|
    ensures Run(reg, s, actions[..k + 1]) == Step(reg, Run(reg, s, actions[..k]), actions[k])
  {
    hide Step;
    assert actions[..k + 1][..k] == actions[..k];
  }

  lemma {:induction false} PastMeansVerified(reg: Registry, s: State, actions: seq<Action>, k: nat) returns (j: nat)
    requires Inv(reg, s) && !PastVerify(s) && k <= |actions| && PastVerify(Run(reg, s, actions[..k]))
    ensures VerifiedBefore(reg, s, actions, j, k)
  {
    hide Inv, Step, PastVerify, Verifies, Run;
    j := 0;
    NoActions(reg, s, actions);
    if k > 0 {
      var before := Run(reg, s, actions[..k - 1]);
      RunKeeps(reg, s, actions[..k - 1]);
      RunSnoc(reg, s, actions, k - 1);
      PassesVerify(reg, before, actions[k - 1]);
      PastIsRunning(Run(reg, s, actions[..k]));
      if Verifies(before, actions[k - 1]) {
        j := k - 1;
      } else {
        j := PastMeansVerified(reg, s, actions, k - 1);
      }
    }
  }

  lemma NoActions(reg: Registry, s: State, actions: seq<Action>)
    ensures Run(reg, s, actions[..0]) == s
  {
  }

  lemma PastIsRunning(s: State)
    requires PastVerify(s)
    ensures s.process.Running?
  {
  }

  lemma {:induction false} PublishedChanges(reg: Registry, s: State, actions: seq<Action>, m: nat, n: nat)
    returns (k: nat)
    requires m <= n <= |actions|
    requires Run(reg, s, actions[..m]).disk.published != Run(reg, s, actions[..n]).disk.published
    ensures m <= k < n
    ensures Run(reg, s, actions[..k]).disk.published != Run(reg, s, actions[..k + 1]).disk.published
    decreases n
  {
    k := n - 1;
    if Run(reg, s, actions[..k]).disk.published == Run(reg, s, actions[..n]).disk.published {
      k := PublishedChanges(reg, s, actions, m, n - 1);
    }
  }

  /** From every state in which no process is past verification, in particular from a new one and after every crash: if
      what is published differs between two moments, then one action between them wrote it, and before that action the
      same process had a verification that succeeded. */
  lemma PublishedMeansVerified(reg: Registry, s: State, actions: seq<Action>, m: nat, n: nat)
    requires Inv(reg, s) && !PastVerify(s) && m <= n <= |actions|
    requires Run(reg, s, actions[..m]).disk.published != Run(reg, s, actions[..n]).disk.published
    ensures exists j, k ::
              && m <= k < n && VerifiedBefore(reg, s, actions, j, k)
              && Run(reg, s, actions[..k]).disk.published != Run(reg, s, actions[..k + 1]).disk.published
  {
    hide Inv, Step, PastVerify, VerifiedBefore, Run;
    var k := PublishedChanges(reg, s, actions, m, n);
    RunKeeps(reg, s, actions[..k]);
    RunSnoc(reg, s, actions, k);
    PublishesPastVerify(reg, Run(reg, s, actions[..k]), actions[k]);
    var j := PastMeansVerified(reg, s, actions, k);
  }

  // ---- Refused answers ------------------------------------------------------------------------

  /** A verification that fails ends the process and changes neither disk nor network. */
  lemma FailedVerificationStops(reg: Registry, s: State, answer: Answer)
    requires Inv(reg, s) && s.process.Running? && s.process.pc.Verify? && !answer.ok
    ensures Step(reg, s, Tick(answer)) == s.(process := Idle)
  {
  }

  /** Every later publication has a successful verification of its own. */
  lemma FailedVerificationIsRepeated(reg: Registry, s: State, answer: Answer, actions: seq<Action>)
    requires Inv(reg, s) && s.process.Running? && s.process.pc.Verify? && !answer.ok
    requires var stopped := Step(reg, s, Tick(answer));
             Run(reg, stopped, actions).disk.published != s.disk.published
    ensures var stopped := Step(reg, s, Tick(answer));
            exists j, k :: VerifiedBefore(reg, stopped, actions, j, k)
  {
    hide Inv, Step, PastVerify, VerifiedBefore, Run;
    var stopped := Step(reg, s, Tick(answer));
    FailedVerificationStops(reg, s, answer);
    KeepStep(reg, s, Tick(answer));
    NotPast(stopped);
    assert actions[..|actions|] == actions;
    NoActions(reg, stopped, actions);
    PublishedMeansVerified(reg, stopped, actions, 0, |actions|);
  }

  lemma NotPast(s: State)
    ensures s.process.Idle? ==> !PastVerify(s)
  {
  }

  /** A running process that asks the client something and is refused ends, and changes neither disk nor network: an
      upload that is needed, a deployment or the comparison of a recorded contract's code, an initialize call that is
      needed, the verification. */
  lemma RefusedAnswerStops(reg: Registry, s: State, answer: Answer)
    requires Inv(reg, s) && s.process.Running? && !answer.ok
    requires var specs, m, pc := SpecsOf(reg, s.process.plan.header), s.process.manifest, s.process.pc;
             || pc.Verify?
             || (pc.Upload? && pc.i < |specs| && RecordOf(m, specs[pc.i].name).wasmHash.None?)
             || (pc.Deploy? && pc.i < |specs|)
             || (pc.Initialize? && pc.i < |specs| && specs[pc.i].mode.ByInitialize?
                 && RecordOf(m, specs[pc.i].name).stage == Deployed)
    ensures Step(reg, s, Tick(answer)) == s.(process := Idle)
  {
    hide PublishedOk, AlreadyOrdered, Agrees, IdsDistinct, Resolve, Context, DepsDeployed, DoneUpTo, Complete;
    if s.process.pc.Deploy? {
      ListedStage(reg, s.process.manifest, s.world, s.process.pc.i);
    }
  }

  lemma ListedStage(reg: Registry, m: Manifest, w: World, i: nat)
    requires ManifestOk(reg, m, w) && i < |reg[m.header.configHash]|
    ensures var r := RecordOf(m, reg[m.header.configHash][i].name);
            r.contractId.Some? ==> r.stage in {Deployed, Initialized}
  {
    assert RecordOk(m, w, reg[m.header.configHash][i]);
  }

  // ---- What is settled by then ------------------------------------------------------------------

  /** Every health check mentions only contracts with a recorded id. */
  ghost predicate ChecksResolve(m: Manifest, specs: seq<ContractSpec>) {
    forall k, n :: 0 <= k < |specs| && specs[k].healthCheck.Some? && n in specs[k].healthCheck.value.refs ==>
      HasId(m, n)
  }

  /** No later contract has the environment key of contract `k`. */
  ghost predicate OwnsKey(specs: seq<ContractSpec>, k: nat) {
    k < |specs| && forall j :: k < j < |specs| ==> specs[j].envKey != specs[k].envKey
  }

  /** The front end has the id of contract `k` under its environment key. */
  ghost predicate HasValue(frontend: map<string, ContractId>, m: Manifest, spec: ContractSpec) {
    && spec.envKey in frontend && HasId(m, spec.name)
    && Some(frontend[spec.envKey]) == m.contracts[spec.name].contractId
  }

  ghost predicate FrontendRight(frontend: map<string, ContractId>, m: Manifest, specs: seq<ContractSpec>) {
    forall k: nat :: OwnsKey(specs, k) ==> HasValue(frontend, m, specs[k])
  }

  ghost predicate Checked(reg: Registry, s: State) {
    && (s.disk.published.Some? ==>
          var m := s.disk.published.value;
          m.status == Verified && ChecksResolve(m, SpecsOf(reg, m.header)))
    && (s.process.Running? ==>
          var m, specs, pc := s.process.manifest, SpecsOf(reg, s.process.plan.header), s.process.pc;
          && (pc.Verify? || PastVerify(s) ==> ChecksResolve(m, specs))
          && (PastVerify(s) ==> m.status == Verified)
          && (pc.Unlink? ==> FrontendRight(s.disk.frontend, m, specs)))
  }

  lemma TemplateKeys(t: Template, account: nat, m: Manifest)
    requires Resolve(t, account, Ids(m)).Some?
    ensures forall n :: n in t.refs ==> HasId(m, n)
  {
  }

  lemma HealthChecked(m: Manifest, specs: seq<ContractSpec>)
    requires HealthChecksResolve(m, specs)
    ensures ChecksResolve(m, specs)
  {
    forall k, n | 0 <= k < |specs| && specs[k].healthCheck.Some? && n in specs[k].healthCheck.value.refs
      ensures HasId(m, n)
    {
      assert specs[k] in specs;
      TemplateKeys(specs[k].healthCheck.value, m.header.account, m);
    }
  }

  lemma {:induction false} FrontendAt(m: Manifest, specs: seq<ContractSpec>, k: nat)
    requires OwnsKey(specs, k) && forall j :: 0 <= j < |specs| ==> HasId(m, specs[j].name)
    ensures HasValue(FrontendValues(m, specs), m, specs[k])
    decreases |specs|
  {
    var last := |specs| - 1;
    assert HasId(m, specs[last].name);
    if k < last {
      var init := specs[..last];
      assert OwnsKey(init, k) && init[k] == specs[k];
      assert forall j :: 0 <= j < last ==> init[j] == specs[j];
      FrontendAt(m, init, k);
      assert specs[last].envKey != specs[k].envKey;
    }
  }

  lemma {:induction false} FrontendKeys(m: Manifest, specs: seq<ContractSpec>, key: string)
    requires forall spec :: spec in specs ==> spec.envKey != key
    ensures key !in FrontendValues(m, specs)
  {
    hide HasId;
    if specs != [] {
      FrontendKeys(m, specs[..|specs| - 1], key);
    }
  }

  lemma FrontendMerged(frontend: map<string, ContractId>, m: Manifest, specs: seq<ContractSpec>)
    requires forall j :: 0 <= j < |specs| ==> HasId(m, specs[j].name)
    ensures FrontendRight(frontend + FrontendValues(m, specs), m, specs)
  {
    hide FrontendValues, HasId;
    forall k: nat | OwnsKey(specs, k)
      ensures HasValue(frontend + FrontendValues(m, specs), m, specs[k])
    {
      FrontendAt(m, specs, k);
    }
  }

  lemma CompleteHasIds(reg: Registry, s: State)
    requires Inv(reg, s) && s.process.Running? && AfterLoop(s.process.pc)
    ensures var specs := SpecsOf(reg, s.process.plan.header);
            forall k :: 0 <= k < |specs| ==> HasId(s.process.manifest, specs[k].name)
  {
    hide RecordOk, AlreadyOrdered, PublishedOk, Agrees, IdsDistinct;
    var m, specs := s.process.manifest, SpecsOf(reg, s.process.plan.header);
    forall k | 0 <= k < |specs|
      ensures HasId(m, specs[k].name)
    {
      assert Finished(m, specs[k].name);
      FinishedHasId(reg, m, s.world, specs[k].name);
    }
  }

  lemma SameChecks(m: Manifest, m': Manifest, specs: seq<ContractSpec>)
    requires m'.contracts == m.contracts
    ensures ChecksResolve(m', specs) <==> ChecksResolve(m, specs)
  {
    assert forall n :: HasId(m', n) <==> HasId(m, n);
    hide HasId;
  }

  lemma CheckedFinish(reg: Registry, s: State, answer: Answer)
    requires Inv(reg, s) && Checked(reg, s) && s.process.Running? && AfterLoop(s.process.pc)
    ensures Checked(reg, Step(reg, s, Tick(answer)))
  {
    hide Inv, HealthChecksResolve, FrontendValues, Ids, ChecksResolve, FrontendRight, PlanReady, SpecsOf;
    var m, specs := s.process.manifest, SpecsOf(reg, s.process.plan.header);
    CompleteHasIds(reg, s);
    FrontendMerged(s.disk.frontend, m, specs);
    PlanIsReady(reg, s);
    if HealthChecksResolve(m, specs) {
      HealthChecked(m, specs);
    }
    SameChecks(m, m.(status := Verifying), specs);
    SameChecks(m, m.(status := Verified, canonical := Ids(m)), specs);
  }

  lemma PlanIsReady(reg: Registry, s: State)
    requires Inv(reg, s) && s.process.Running?
    ensures PlanReady(reg, s.process.plan) && s.process.plan.header == s.process.manifest.header
  {
  }

  lemma CheckedStep(reg: Registry, s: State, a: Action)
    requires Inv(reg, s) && Checked(reg, s)
    ensures Checked(reg, Step(reg, s, a))
  {
    if a.Tick? && s.process.Running? && AfterLoop(s.process.pc) {
      CheckedFinish(reg, s, a.answer);
    } else if a.Tick? && s.process.Running? {
      StaysInLoop(reg, s, a.answer);
    } else {
      hide Inv;
    }
  }

  /** The loop neither publishes nor reaches verification. */
  lemma StaysInLoop(reg: Registry, s: State, answer: Answer)
    requires Inv(reg, s) && s.process.Running? && !AfterLoop(s.process.pc)
    ensures var s' := Step(reg, s, Tick(answer));
            && s'.disk.published == s.disk.published
            && (s'.process.Running? ==> !s'.process.pc.Verify? && !PastVerify(s'))
  {
    hide ManifestOk, PublishedOk, AlreadyOrdered, Agrees, Complete, DoneUpTo, InLoop, HealthChecksResolve;
    hide FrontendValues;
    LoopIndex(reg, s);
  }

  lemma {:induction false} RunChecked(reg: Registry, s: State, actions: seq<Action>)
    requires Inv(reg, s) && Checked(reg, s)
    ensures Checked(reg, Run(reg, s, actions))
    decreases |actions|
  {
    hide Inv, Step, Checked;
    if actions != [] {
      var init := actions[..|actions| - 1];
      RunChecked(reg, s, init);
      RunKeeps(reg, s, init);
      CheckedStep(reg, Run(reg, s, init), actions[|actions| - 1]);
    }
  }

  /** The health checks of a contract mention published contracts only. */
  ghost predicate CheckIsPublished(m: Manifest, spec: ContractSpec) {
    spec.healthCheck.Some? ==> forall n :: n in spec.healthCheck.value.refs ==> n in m.canonical
  }

  /** After any run, what is published is marked as verified and its health checks mention published contracts only; and
      when a process is about to remove the checkpoint, the front end has every published id. */
  lemma PublishedIsChecked(reg: Registry, s: State, actions: seq<Action>)
    requires ValidRegistry(reg) && Fresh(s)
    ensures var t := Run(reg, s, actions);
            && (t.disk.published.Some? ==>
                  var m := t.disk.published.value;
                  && m.status == Verified && m.header.configHash in reg
                  && forall spec :: spec in reg[m.header.configHash] ==> CheckIsPublished(m, spec))
            && (t.process.Running? && t.process.pc.Unlink? ==>
                  t.disk.published == Some(t.process.manifest)
                  && FrontendRight(t.disk.frontend, t.process.manifest, SpecsOf(reg, t.process.plan.header)))
  {
    hide ManifestOk, AlreadyOrdered, Agrees, Complete, FrontendRight, Run, Fresh, CheckIsPublished, ChecksResolve;
    FreshOk(reg, s);
    FreshChecked(reg, s);
    RunKeeps(reg, s, actions);
    RunChecked(reg, s, actions);
    var t := Run(reg, s, actions);
    if t.disk.published.Some? {
      PublishedHeader(reg, t);
      PublishedChecks(t.disk.published.value, reg[t.disk.published.value.header.configHash]);
    }
  }

  lemma PublishedChecks(m: Manifest, specs: seq<ContractSpec>)
    requires ChecksResolve(m, specs) && m.canonical == Ids(m)
    ensures forall spec :: spec in specs ==> CheckIsPublished(m, spec)
  {
    forall spec | spec in specs
      ensures CheckIsPublished(m, spec)
    {
      var k :| 0 <= k < |specs| && specs[k] == spec;
      if spec.healthCheck.Some? {
        forall n | n in spec.healthCheck.value.refs
          ensures n in m.canonical
        {
          assert HasId(m, n);
        }
      }
    }
  }

  lemma FreshChecked(reg: Registry, s: State)
    requires Fresh(s)
    ensures Checked(reg, s)
  {
  }

  lemma PublishedHeader(reg: Registry, s: State)
    requires Inv(reg, s) && s.disk.published.Some?
    ensures var m := s.disk.published.value; m.header.configHash in reg && m.canonical == Ids(m)
  {
  }

  lemma FrontendStep(reg: Registry, s: State, answer: Answer)
    requires Inv(reg, s) && s.process.Running?
    ensures var s' := Step(reg, s, Tick(answer));
            || s'.disk.frontend == s.disk.frontend
            || s'.disk.frontend
               == s.disk.frontend + FrontendValues(s.process.manifest, SpecsOf(reg, s.process.plan.header))
  {
    hide ManifestOk, PublishedOk, AlreadyOrdered, Agrees, Complete, DoneUpTo, InLoop, HealthChecksResolve;
    hide FrontendValues;
    if !AfterLoop(s.process.pc) {
      LoopIndex(reg, s);
    }
  }

  /** The other keys of the front end stay as they were. */
  lemma FrontendKeepsOthers(reg: Registry, s: State, a: Action, key: string)
    requires Inv(reg, s)
    requires s.process.Running? ==>
               forall spec :: spec in SpecsOf(reg, s.process.plan.header) ==> spec.envKey != key
    ensures var s' := Step(reg, s, a);
            && (key in s'.disk.frontend <==> key in s.disk.frontend)
            && (key in s.disk.frontend ==> s'.disk.frontend[key] == s.disk.frontend[key])
  {
    hide Inv, FrontendValues, SpecsOf, TickStep;
    if a.Tick? && s.process.Running? {
      FrontendStep(reg, s, a.answer);
      FrontendKeys(s.process.manifest, SpecsOf(reg, s.process.plan.header), key);
    }
  }
}
