/** The checkpointed deployment as a step system (scripts/deployment/orchestrator.py): what is on disk, what is in
    the memory of a running process, and what the network holds. A crash, or any exception that leaves `deploy`,
    erases the memory and nothing else. */
module Deployment {
  import opened Prelude
  import opened DependencyOrder

  type Hash = nat
  type ContractId = nat

  datatype Stage = Pending | Uploaded | Deployed | Initialized

  datatype Artifact = Artifact(sha256: Hash, metadata: Hash)

  /** A template together with everything its resolution read. */
  datatype ResolvedArgs = ResolvedArgs(text: string, account: nat, contracts: map<Name, ContractId>)

  datatype Record = Record(
    stage: Stage,
    artifact: Artifact,
    wasmHash: Option<Hash>,
    contractId: Option<ContractId>,
    constructorArgs: Option<ResolvedArgs>,
    initializeArgs: Option<ResolvedArgs>,
    resolvedDependencies: map<Name, ContractId>)

  /** The fields that a resumed run compares with its own inputs. */
  datatype Header = Header(identity: string, account: nat, network: string, configHash: Hash)

  datatype Status = InProgress | Verifying | Verified

  datatype Manifest = Manifest(
    header: Header,
    status: Status,
    contracts: map<Name, Record>,
    canonical: map<Name, ContractId>)

  datatype Disk = Disk(partial: Option<Manifest>, published: Option<Manifest>, frontend: map<string, ContractId>)

  datatype Instance = Instance(code: Hash, args: ResolvedArgs)

  datatype Call =
    | UploadCall(name: Name)
    | DeployCall(name: Name, id: ContractId)
    | InitializeCall(name: Name, id: ContractId, args: ResolvedArgs)

  /** The network: what runs under each id, which ids have been initialized, and the calls that took effect. */
  datatype World = World(instances: map<ContractId, Instance>, initialized: set<ContractId>, calls: seq<Call>)

  /** The inputs of one run; the artifact files are hashed before the first checkpoint is read. */
  datatype Plan = Plan(header: Header, artifacts: map<Name, Artifact>)

  datatype Pc =
    | Begin(i: nat)
    | Upload(i: nat)
    | UploadReturned(i: nat, hash: Hash)
    | Deploy(i: nat)
    | DeployReturned(i: nat, id: ContractId)
    | Initialize(i: nat)
    | InitializeReturned(i: nat)
    | Conclude
    | Verify
    | Publish
    | WriteFrontend
    | Unlink

  datatype Process = Idle | Running(plan: Plan, manifest: Manifest, pc: Pc)

  datatype State = State(disk: Disk, process: Process, world: World)

  /** What the client answers at the next step: an uploaded hash, a new id, success or failure. */
  datatype Answer = Answer(hash: Hash, id: ContractId, ok: bool)

  datatype Action = Start(plan: Plan, resume: bool) | Tick(answer: Answer) | Crash

  /** The dependency-ordered contracts of each configuration, by its (injective) hash. */
  type Registry = map<Hash, seq<ContractSpec>>

  // ---- Helpers of the loop body -------------------------------------------------

  function Resolve(t: Template, account: nat, context: map<Name, ContractId>): Option<ResolvedArgs> {
    if t.refs <= context.Keys then Some(ResolvedArgs(t.text, account, map n | n in t.refs :: context[n])) else None
  }

  predicate HasId(m: Manifest, n: Name) {
    n in m.contracts && m.contracts[n].contractId.Some?
  }

  /** The ids recorded so far, by contract name. */
  function Ids(m: Manifest): map<Name, ContractId> {
    map n | n in m.contracts && m.contracts[n].contractId.Some? :: m.contracts[n].contractId.value
  }

  predicate DepsDeployed(m: Manifest, spec: ContractSpec) {
    forall d :: d in spec.dependencies ==> HasId(m, d)
  }

  function Context(m: Manifest, spec: ContractSpec): map<Name, ContractId> {
    map d | d in spec.dependencies && HasId(m, d) :: m.contracts[d].contractId.value
  }

  function SetRecord(m: Manifest, n: Name, r: Record): Manifest {
    m.(contracts := m.contracts[n := r])
  }

  /** The process ends; disk and network keep what they have. */
  function Stop(s: State): State {
    s.(process := Idle)
  }

  function Goto(s: State, m: Manifest, pc: Pc): State
    requires s.process.Running?
  {
    s.(process := s.process.(manifest := m, pc := pc))
  }

  /** An in-memory update followed by the atomic write of the checkpoint file. */
  function Checkpoint(s: State, m: Manifest, pc: Pc): State
    requires s.process.Running?
  {
    Goto(s, m, pc).(disk := s.disk.(partial := Some(m)))
  }

  function Calling(s: State, call: Call): State {
    s.(world := s.world.(calls := s.world.calls + [call]))
  }

  const NO_RECORD := Record(Pending, Artifact(0, 0), None, None, None, None, map[])

  function RecordOf(m: Manifest, n: Name): Record {
    if n in m.contracts then m.contracts[n] else NO_RECORD
  }

  // ---- The steps of one loop iteration --------------------------------------------

  function BeginStep(s: State, spec: ContractSpec, i: nat): State
    requires s.process.Running? && spec.name in s.process.plan.artifacts
  {
    var m := s.process.manifest;
    var artifact := s.process.plan.artifacts[spec.name];
    var isNew := spec.name !in m.contracts;
    if !isNew && m.contracts[spec.name].artifact != artifact then Stop(s)
    else
      var listed := if isNew then SetRecord(m, spec.name, NO_RECORD.(artifact := artifact)) else m;
      var saved := if isNew then Checkpoint(s, listed, Begin(i)) else s;
      if !DepsDeployed(listed, spec) then Stop(saved)
      else
        var r := listed.contracts[spec.name];
        var noted := r.(resolvedDependencies := r.resolvedDependencies + Context(listed, spec));
        Goto(saved, SetRecord(listed, spec.name, noted), Upload(i))
  }

  function UploadStep(s: State, spec: ContractSpec, i: nat, answer: Answer): State
    requires s.process.Running?
  {
    var m := s.process.manifest;
    if RecordOf(m, spec.name).wasmHash.Some? then Goto(s, m, Deploy(i))
    else if !answer.ok then Stop(s)
    else Goto(Calling(s, UploadCall(spec.name)), m, UploadReturned(i, answer.hash))
  }

  function UploadReturnedStep(s: State, spec: ContractSpec, i: nat, hash: Hash): State
    requires s.process.Running? && spec.name in s.process.plan.artifacts
  {
    var m := s.process.manifest;
    if hash != s.process.plan.artifacts[spec.name].sha256 then Stop(s)
    else
      var r := RecordOf(m, spec.name);
      Checkpoint(s, SetRecord(m, spec.name, r.(wasmHash := Some(hash), stage := Uploaded)), Deploy(i))
  }

  function DeployStep(s: State, spec: ContractSpec, i: nat, answer: Answer): State
    requires s.process.Running?
  {
    var m := s.process.manifest;
    var r := RecordOf(m, spec.name);
    if r.contractId.Some? then
      // The recorded contract is asked for its code hash; a mismatch raises.
      if r.stage in {Deployed, Initialized} && !answer.ok then Stop(s) else Goto(s, m, Initialize(i))
    else
      var args := Resolve(spec.constructorArgs, m.header.account, Context(m, spec));
      if args.None? || r.wasmHash.None? || !answer.ok then Stop(s)
      else if answer.id in s.world.instances.Keys + s.world.initialized then s  // no id is handed out twice
      else
        var instance := Instance(r.wasmHash.value, args.value);
        var called := Calling(s, DeployCall(spec.name, answer.id));
        Goto(called.(world := called.world.(instances := s.world.instances[answer.id := instance])),
             m, DeployReturned(i, answer.id))
  }

  function DeployReturnedStep(s: State, spec: ContractSpec, i: nat, id: ContractId): State
    requires s.process.Running?
  {
    var m := s.process.manifest;
    var r := RecordOf(m, spec.name);
    Checkpoint(
      s,
      SetRecord(m, spec.name, r.(
        contractId := Some(id),
        constructorArgs := Resolve(spec.constructorArgs, m.header.account, Context(m, spec)),
        stage := if spec.mode.ByConstructor? then Initialized else Deployed)),
      Initialize(i))
  }

  /** A contract that has been initialized refuses to be initialized again, which ends the run. */
  function InitializeStep(s: State, spec: ContractSpec, i: nat, answer: Answer): State
    requires s.process.Running?
  {
    var m := s.process.manifest;
    var r := RecordOf(m, spec.name);
    if spec.mode.ByConstructor? || r.stage == Initialized then Goto(s, m, Begin(i + 1))
    else
      var args := Resolve(spec.initializeArgs, m.header.account, Context(m, spec));
      if args.None? || r.contractId.None? || !answer.ok || r.contractId.value in s.world.initialized then Stop(s)
      else
        var called := Calling(s, InitializeCall(spec.name, r.contractId.value, args.value));
        Goto(called.(world := called.world.(initialized := s.world.initialized + {r.contractId.value})),
             m, InitializeReturned(i))
  }

  function InitializeReturnedStep(s: State, spec: ContractSpec, i: nat): State
    requires s.process.Running?
  {
    var m := s.process.manifest;
    var r := RecordOf(m, spec.name);
    var args := Resolve(spec.initializeArgs, m.header.account, Context(m, spec));
    Checkpoint(s, SetRecord(m, spec.name, r.(initializeArgs := args, stage := Initialized)), Begin(i + 1))
  }

  // ---- The steps after the loop -----------------------------------------------------

  predicate HealthChecksResolve(m: Manifest, specs: seq<ContractSpec>) {
    forall spec :: spec in specs ==>
      spec.name in m.contracts
      && (spec.healthCheck.Some? ==> Resolve(spec.healthCheck.value, m.header.account, Ids(m)).Some?)
  }

  function FrontendValues(m: Manifest, specs: seq<ContractSpec>): map<string, ContractId> {
    if specs == [] then map[]
    else
      var last := specs[|specs| - 1];
      var init := FrontendValues(m, specs[..|specs| - 1]);
      if HasId(m, last.name) then init[last.envKey := m.contracts[last.name].contractId.value] else init
  }

  function FinishStep(s: State, specs: seq<ContractSpec>, answer: Answer): State
    requires s.process.Running?
  {
    var m := s.process.manifest;
    match s.process.pc
    case Conclude =>
      if !HealthChecksResolve(m, specs) then Stop(s)
      else Checkpoint(s, m.(status := Verifying), Verify)
    case Verify =>
      if !answer.ok then Stop(s)
      else Goto(s, m.(status := Verified, canonical := Ids(m)), Publish)
    case Publish => Goto(s.(disk := s.disk.(published := Some(m))), m, WriteFrontend)
    case WriteFrontend =>
      Goto(s.(disk := s.disk.(frontend := s.disk.frontend + FrontendValues(m, specs))), m, Unlink)
    case _ => Stop(s.(disk := s.disk.(partial := None)))
  }

  // ---- One step, and runs -------------------------------------------------------------

  function SpecsOf(reg: Registry, header: Header): seq<ContractSpec> {
    if header.configHash in reg then reg[header.configHash] else []
  }

  predicate PlanReady(reg: Registry, plan: Plan) {
    plan.header.configHash in reg
    && forall spec :: spec in reg[plan.header.configHash] ==> spec.name in plan.artifacts
  }

  function StartStep(reg: Registry, s: State, plan: Plan, resume: bool): State {
    if s.process.Running? || !PlanReady(reg, plan) then s
    else if s.disk.partial.None? then
      var m := Manifest(plan.header, InProgress, map[], map[]);
      s.(disk := s.disk.(partial := Some(m)), process := Running(plan, m, Begin(0)))
    else if !resume || s.disk.partial.value.header != plan.header then s
    else s.(process := Running(plan, s.disk.partial.value, Begin(0)))
  }

  function TickStep(reg: Registry, s: State, answer: Answer): State
    requires s.process.Running? && PlanReady(reg, s.process.plan)
  {
    var specs := SpecsOf(reg, s.process.plan.header);
    var pc := s.process.pc;
    if pc.Conclude? || pc.Verify? || pc.Publish? || pc.WriteFrontend? || pc.Unlink? then FinishStep(s, specs, answer)
    else if pc.i >= |specs| then Goto(s, s.process.manifest, Conclude)
    else
      var spec := specs[pc.i];
      match pc
      case Begin(i) => BeginStep(s, spec, i)
      case Upload(i) => UploadStep(s, spec, i, answer)
      case UploadReturned(i, hash) => UploadReturnedStep(s, spec, i, hash)
      case Deploy(i) => DeployStep(s, spec, i, answer)
      case DeployReturned(i, id) => DeployReturnedStep(s, spec, i, id)
      case Initialize(i) => InitializeStep(s, spec, i, answer)
      case InitializeReturned(i) => InitializeReturnedStep(s, spec, i)
  }

  function Step(reg: Registry, s: State, a: Action): State {
    match a
    case Start(plan, resume) => StartStep(reg, s, plan, resume)
    case Crash => Stop(s)
    case Tick(answer) =>
      if s.process.Running? && PlanReady(reg, s.process.plan) then TickStep(reg, s, answer) else s
  }

  function Run(reg: Registry, s: State, actions: seq<Action>): State
    decreases |actions|
  {
    if actions == [] then s
    else Step(reg, Run(reg, s, actions[..|actions| - 1]), actions[|actions| - 1])
  }

  /** Before the first deployment: nothing on disk, nothing running, any earlier network state. */
  predicate Fresh(s: State) {
    s.disk.partial.None? && s.disk.published.None? && s.process.Idle?
  }
}
