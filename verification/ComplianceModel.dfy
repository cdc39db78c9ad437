/** The compliance engine (contracts/compliance-engine/src/lib.rs): rules and their history, holders, lists, tier
    policies, and the decision on a transfer. A call either fails, leaving everything as it was, or yields the new
    state. */
module ComplianceModel {
  import opened Prelude
  import opened MemberLists

  datatype ComplianceError =
    | MinHoldingPeriodExceeds365Days
    | NegativeMaxTransferAmount
    | MaxHoldersBelowCurrentCount
    | NoRulesPending
    | TooEarlyToActivate
    | AlreadyAtSchemaVersion
    | MigrationVersionNotSequential
    | BlocklistedAddressOnAllowlist
    | NegativeTierTransferAmount
    | EmptyDescription
    | InvalidHolderSince
    | InvalidTierPolicy
    | EmptyGovernanceComment
    | NotAllowed(reason: DenyReason)  // the calling token turns a denial into its own error
    | Trap

  datatype DenyReason =
    | CompliancePaused
    | FromBlocklisted
    | ToBlocklisted
    | FromNotAllowlisted
    | ToNotAllowlisted
    | FromKyc(state: KycState)
    | ToKyc(state: KycState)
    | FromJurisdictionBlocked
    | ToJurisdictionBlocked
    | SameJurisdictionRequired
    | AmountExceeded
    | HoldingPeriodNotMet
    | RecipientHoldingPeriodExceeded
    | MaxHoldersReached
    | TierPolicyBlocked
    | TierFromBelowMin
    | TierToBelowMin
    | TierAmountExceeded
    | RiskScoreTooHigh

  datatype KycState = Missing | Approved | Expired | Revoked | Rejected | Pending

  datatype Decision = Allow | Deny(reason: DenyReason)

  datatype Rules = Rules(
    maxTransferAmount: int,
    minHoldingPeriod: nat,
    maxHolders: nat,
    requireSameJurisdiction: bool,
    paused: bool,
    allowlistMode: bool,
    maxHoldingPeriod: nat)

  datatype ChangeKind =
    | ImmediateRuleUpdate
    | DelayedRuleActivation
    | Pause
    | Unpause
    | BlocklistAdd
    | BlocklistRemove
    | AllowlistAdd
    | AllowlistRemove

  datatype PolicyRecord = PolicyRecord(version: nat, activation: nat, rules: Rules, kind: ChangeKind,
                                       description: string)

  datatype Proposal = Proposal(rules: Rules, activateAt: nat, description: string)

  datatype TierPolicy = TierPolicy(blocked: bool, maxTransferAmount: int, minFromTier: nat, minToTier: nat)

  datatype RiskConfig = RiskConfig(maxScore: nat, defaultScore: nat)

  datatype Migration = Migration(fromVersion: nat, toVersion: nat, timestamp: nat, description: string)

  /** Settings that the decision reads and that carry no invariant. */
  datatype Settings = Settings(blockedJurisdictions: set<string>, risk: Option<RiskConfig>,
                               jurisdictionRisk: map<string, nat>)

  datatype Engine = Engine(
    rules: Rules,
    pending: Option<Proposal>,
    delay: nat,
    history: seq<PolicyRecord>,
    holderSince: map<Address, nat>,
    holderCount: nat,
    blocklist: seq<Address>,
    allowlist: seq<Address>,
    legacyBlocklist: seq<Address>,
    legacyAllowlist: seq<Address>,
    tierPolicies: map<(nat, nat), TierPolicy>,
    tierCount: nat,
    settings: Settings,
    schema: nat,
    migrations: seq<Migration>)

  /** The registry's answers and the clock seen by one call. */
  datatype Host = Host(
    kyc: Address -> KycState,
    jurisdiction: Address -> Option<string>,
    tier: Address -> nat,
    now: nat)

  type Outcome = Result<Engine, ComplianceError>

  const MAX_HOLDING_PERIOD := 365 * 86_400
  const DEFAULT_RULES := Rules(0, 0, 0, false, false, false, 0)

  // ---- Policy history --------------------------------------------------------------

  function DefaultText(kind: ChangeKind): string {
    match kind
    case ImmediateRuleUpdate => "Immediate rule update"
    case DelayedRuleActivation => "Delayed rule activation"
    case Pause => "Compliance paused"
    case Unpause => "Compliance unpaused"
    case BlocklistAdd => "Address added to blocklist"
    case BlocklistRemove => "Address removed from blocklist"
    case AllowlistAdd => "Address added to allowlist"
    case AllowlistRemove => "Address removed from allowlist"
  }

  function Described(kind: ChangeKind, description: string): string {
    if description == "" then DefaultText(kind) else description
  }

  /** List records do not name the address, so they are always kept. */
  predicate Dedupable(kind: ChangeKind) {
    kind.ImmediateRuleUpdate? || kind.DelayedRuleActivation? || kind.Pause? || kind.Unpause?
  }

  predicate SameTransition(last: PolicyRecord, rules: Rules, kind: ChangeKind, text: string) {
    last.rules == rules && last.kind == kind && last.description == text
  }

  /** Appends a record of the rules in force, unless the last record already says the same; a full counter traps. */
  function Recorded(e: Engine, now: nat, kind: ChangeKind, description: string): Outcome {
    var text := Described(kind, description);
    var n := |e.history|;
    if Dedupable(kind) && n > 0 && SameTransition(e.history[n - 1], e.rules, kind, text) then Ok(e)
    else if n >= U32_MAX then Err(Trap)
    else Ok(e.(history := e.history + [PolicyRecord(n, now, e.rules, kind, text)]))
  }

  // ---- Rule management ----------------------------------------------------------------

  function ValidateRules(e: Engine, rules: Rules): Option<ComplianceError> {
    if rules.minHoldingPeriod > MAX_HOLDING_PERIOD then Some(MinHoldingPeriodExceeds365Days)
    else if rules.maxTransferAmount < 0 then Some(NegativeMaxTransferAmount)
    else if rules.maxHolders > 0 && rules.maxHolders < e.holderCount then Some(MaxHoldersBelowCurrentCount)
    else None
  }

  function SetRules(e: Engine, now: nat, rules: Rules): Outcome {
    if ValidateRules(e, rules).Some? then Err(ValidateRules(e, rules).value)
    else Recorded(e.(rules := rules), now, ImmediateRuleUpdate, "")
  }

  function ProposeRules(e: Engine, now: nat, rules: Rules, description: string): Outcome {
    if description == "" then Err(EmptyDescription)
    else if ValidateRules(e, rules).Some? then Err(ValidateRules(e, rules).value)
    else if now + e.delay > U64_MAX then Err(Trap)
    else Ok(e.(pending := Some(Proposal(rules, now + e.delay, description))))
  }

  /** The holder cap is not validated again here. */
  function ActivateRules(e: Engine, now: nat): Outcome {
    if e.pending.None? then Err(NoRulesPending)
    else if now < e.pending.value.activateAt then Err(TooEarlyToActivate)
    else
      var proposal := e.pending.value;
      Recorded(e.(rules := proposal.rules, pending := None), now, DelayedRuleActivation, proposal.description)
  }

  function SetPaused(e: Engine, now: nat, paused: bool): Outcome {
    Recorded(e.(rules := e.rules.(paused := paused)), now, if paused then Pause else Unpause, "")
  }

  function Note(e: Engine, now: nat, comment: string): Outcome {
    if comment == "" then Err(EmptyGovernanceComment) else Recorded(e, now, ImmediateRuleUpdate, comment)
  }

  // ---- Lists ------------------------------------------------------------------------------

  function Block(e: Engine, now: nat, a: Address): Outcome {
    if a in e.blocklist then Ok(e)
    else if |e.blocklist| >= U32_MAX then Err(Trap)
    else Recorded(e.(blocklist := Added(e.blocklist, a)), now, BlocklistAdd, "")
  }

  function Unblock(e: Engine, now: nat, a: Address): Outcome {
    if a !in e.blocklist then Ok(e)
    else Recorded(e.(blocklist := Removed(e.blocklist, a)), now, BlocklistRemove, "")
  }

  function AllowListed(e: Engine, now: nat, a: Address): Outcome {
    if a in e.blocklist then Err(BlocklistedAddressOnAllowlist)
    else if a in e.allowlist then Ok(e)
    else if |e.allowlist| >= U32_MAX then Err(Trap)
    else Recorded(e.(allowlist := Added(e.allowlist, a)), now, AllowlistAdd, "")
  }

  function Disallow(e: Engine, now: nat, a: Address): Outcome {
    if a !in e.allowlist then Ok(e)
    else Recorded(e.(allowlist := Removed(e.allowlist, a)), now, AllowlistRemove, "")
  }

  function Migrate(e: Engine, now: nat, toVersion: nat, description: string): Outcome {
    if description == "" then Err(EmptyDescription)
    else if toVersion == e.schema then Err(AlreadyAtSchemaVersion)
    else if e.schema >= U32_MAX then Err(Trap)
    else if toVersion != e.schema + 1 then Err(MigrationVersionNotSequential)
    else
      var blocklist := if toVersion == 2 then Migrated(e.blocklist, e.legacyBlocklist) else e.blocklist;
      var allowlist := if toVersion == 2 then Migrated(e.allowlist, e.legacyAllowlist) else e.allowlist;
      if |blocklist| > U32_MAX || |allowlist| > U32_MAX || |e.migrations| >= U32_MAX then Err(Trap)
      else
        Ok(e.(blocklist := blocklist, allowlist := allowlist,
              legacyBlocklist := if toVersion == 2 then [] else e.legacyBlocklist,
              legacyAllowlist := if toVersion == 2 then [] else e.legacyAllowlist,
              migrations := e.migrations + [Migration(e.schema, toVersion, now, description)],
              schema := toVersion))
  }

  // ---- Holders -------------------------------------------------------------------------------

  /** Writes the time of an address, counting the address when it is new. */
  function SetSince(e: Engine, a: Address, since: nat): Outcome {
    if a in e.holderSince then Ok(e.(holderSince := e.holderSince[a := since]))
    else if e.holderCount >= U32_MAX then Err(Trap)
    else Ok(e.(holderSince := e.holderSince[a := since], holderCount := e.holderCount + 1))
  }

  function UpdateSince(e: Engine, a: Address, since: int): Outcome {
    if since <= 0 then Err(InvalidHolderSince) else SetSince(e, a, since)
  }

  function Unregister(e: Engine, a: Address): Outcome {
    if a in e.holderSince then
      Ok(e.(holderSince := e.holderSince - {a}, holderCount := if e.holderCount == 0 then 0 else e.holderCount - 1))
    else Ok(e)
  }

  // ---- Tier policies ----------------------------------------------------------------------------

  function SetTier(e: Engine, key: (nat, nat), policy: TierPolicy): Outcome {
    if policy.maxTransferAmount < 0 then Err(NegativeTierTransferAmount)
    else if policy.minFromTier > 100 || policy.minToTier > 100 then Err(InvalidTierPolicy)
    else if key in e.tierPolicies then Ok(e.(tierPolicies := e.tierPolicies[key := policy]))
    else if e.tierCount >= U32_MAX then Err(Trap)
    else Ok(e.(tierPolicies := e.tierPolicies[key := policy], tierCount := e.tierCount + 1))
  }

  function ClearTier(e: Engine, key: (nat, nat)): Outcome {
    if key in e.tierPolicies then
      Ok(e.(tierPolicies := e.tierPolicies - {key}, tierCount := if e.tierCount == 0 then 0 else e.tierCount - 1))
    else Ok(e)
  }

  // ---- The decision --------------------------------------------------------------------------------

  const WILDCARD := U32_MAX

  /** The most specific policy for a pair of tiers: exact, any sender, any recipient, any pair. */
  function FindPolicy(policies: map<(nat, nat), TierPolicy>, from: nat, to: nat): Option<TierPolicy> {
    if (from, to) in policies then Some(policies[(from, to)])
    else if (WILDCARD, to) in policies then Some(policies[(WILDCARD, to)])
    else if (from, WILDCARD) in policies then Some(policies[(from, WILDCARD)])
    else if (WILDCARD, WILDCARD) in policies then Some(policies[(WILDCARD, WILDCARD)])
    else None
  }

  function KycCheck(host: Host, from: Address, to: Address): Option<DenyReason> {
    if host.kyc(from) != Approved then Some(FromKyc(host.kyc(from)))
    else if host.kyc(to) != Approved then Some(ToKyc(host.kyc(to)))
    else None
  }

  predicate InBlockedJurisdiction(e: Engine, host: Host, a: Address) {
    host.jurisdiction(a).None? || host.jurisdiction(a).value in e.settings.blockedJurisdictions
  }

  function JurisdictionCheck(e: Engine, host: Host, from: Address, to: Address): Option<DenyReason> {
    if e.settings.blockedJurisdictions != {} && InBlockedJurisdiction(e, host, from) then Some(FromJurisdictionBlocked)
    else if e.settings.blockedJurisdictions != {} && InBlockedJurisdiction(e, host, to) then Some(ToJurisdictionBlocked)
    else if e.rules.requireSameJurisdiction
         && (host.jurisdiction(from).None? || host.jurisdiction(from) != host.jurisdiction(to)) then
      Some(SameJurisdictionRequired)
    else None
  }

  function SaturatingElapsed(now: nat, since: nat): nat {
    if now < since then 0 else now - since
  }

  /** The sender-side holding rule. */
  predicate HeldTooShort(e: Engine, now: nat, from: Address) {
    && e.rules.minHoldingPeriod > 0 && from in e.holderSince
    && SaturatingElapsed(now, e.holderSince[from]) < e.rules.minHoldingPeriod
  }

  predicate HeldTooLong(e: Engine, now: nat, to: Address) {
    && e.rules.maxHoldingPeriod > 0 && to in e.holderSince
    && SaturatingElapsed(now, e.holderSince[to]) >= e.rules.maxHoldingPeriod
  }

  function HoldingCheck(e: Engine, now: nat, from: Address, to: Address, amount: int): Option<DenyReason> {
    if e.rules.maxTransferAmount > 0 && amount > e.rules.maxTransferAmount then Some(AmountExceeded)
    else if HeldTooShort(e, now, from) then Some(HoldingPeriodNotMet)
    else if HeldTooLong(e, now, to) then Some(RecipientHoldingPeriodExceeded)
    else if e.rules.maxHolders > 0 && to !in e.holderSince && e.holderCount >= e.rules.maxHolders then
      Some(MaxHoldersReached)
    else None
  }

  /** What the policy found for the two tiers says. */
  function TierLookup(e: Engine, host: Host, from: Address, to: Address, amount: int): Option<DenyReason> {
    var policy := FindPolicy(e.tierPolicies, host.tier(from), host.tier(to));
    if policy.None? then None
    else
      var p := policy.value;
      var cap :=
        if e.rules.maxTransferAmount > 0 then Min(p.maxTransferAmount, e.rules.maxTransferAmount)
        else p.maxTransferAmount;
      if p.blocked then Some(TierPolicyBlocked)
      else if host.tier(from) < p.minFromTier then Some(TierFromBelowMin)
      else if host.tier(to) < p.minToTier then Some(TierToBelowMin)
      else if p.maxTransferAmount > 0 && amount > cap then Some(TierAmountExceeded)
      else None
  }

  function TierCheck(e: Engine, host: Host, from: Address, to: Address, amount: int): Option<DenyReason> {
    if e.tierCount > 0 then TierLookup(e, host, from, to, amount) else None
  }

  function RiskScore(settings: Settings, jurisdiction: string, otherwise: nat): nat {
    if jurisdiction in settings.jurisdictionRisk then settings.jurisdictionRisk[jurisdiction] else otherwise
  }

  function JurisdictionText(host: Host, a: Address): string {
    if host.jurisdiction(a).Some? then host.jurisdiction(a).value else ""
  }

  function RiskCheck(e: Engine, host: Host, from: Address, to: Address): Option<DenyReason> {
    if e.settings.risk.None? || e.settings.risk.value.maxScore == 0 then None
    else
      var c := e.settings.risk.value;
      if RiskScore(e.settings, JurisdictionText(host, from), c.defaultScore) > c.maxScore
         || RiskScore(e.settings, JurisdictionText(host, to), c.defaultScore) > c.maxScore then
        Some(RiskScoreTooHigh)
      else None
  }

  function ListCheck(e: Engine, from: Address, to: Address): Option<DenyReason> {
    if e.rules.paused then Some(CompliancePaused)
    else if from in e.blocklist then Some(FromBlocklisted)
    else if to in e.blocklist then Some(ToBlocklisted)
    else if e.rules.allowlistMode && from !in e.allowlist then Some(FromNotAllowlisted)
    else if e.rules.allowlistMode && to !in e.allowlist then Some(ToNotAllowlisted)
    else None
  }

  function OrElse(first: Option<DenyReason>, second: Option<DenyReason>): Option<DenyReason> {
    if first.Some? then first else second
  }

  /** The first rule that fails, in the order in which they are evaluated. */
  function FirstFailure(e: Engine, host: Host, from: Address, to: Address, amount: int, checkKyc: bool,
                        tiers: Option<DenyReason>): Option<DenyReason> {
    OrElse(ListCheck(e, from, to),
    OrElse(if checkKyc then KycCheck(host, from, to) else None,
    OrElse(JurisdictionCheck(e, host, from, to),
    OrElse(HoldingCheck(e, host.now, from, to, amount),
    OrElse(tiers,
           RiskCheck(e, host, from, to))))))
  }

  function Evaluate(e: Engine, host: Host, from: Address, to: Address, amount: int, checkKyc: bool): Decision {
    match FirstFailure(e, host, from, to, amount, checkKyc, TierCheck(e, host, from, to, amount))
    case None => Allow
    case Some(reason) => Deny(reason)
  }

  function CanTransfer(e: Engine, host: Host, from: Address, to: Address, amount: int): bool {
    Evaluate(e, host, from, to, amount, false).Allow?
  }

  function EvaluateTransfer(e: Engine, host: Host, from: Address, to: Address, amount: int): Decision {
    Evaluate(e, host, from, to, amount, true)
  }

  /** What a carbon mint or transfer does here: evaluate, and on success register the recipient. */
  function Join(e: Engine, host: Host, from: Address, to: Address, amount: int): Outcome {
    match EvaluateTransfer(e, host, from, to, amount)
    case Deny(reason) => Err(NotAllowed(reason))
    case Allow => SetSince(e, to, host.now)
  }

  // ---- The lockup view ----------------------------------------------------------------------------------

  datatype Lockup = Lockup(
    isHolder: bool,
    holderSince: nat,
    minHoldingPeriod: nat,
    maxHoldingPeriod: nat,
    minReleaseAt: nat,
    maxReleaseAt: nat,
    locked: bool,
    secondsUntilUnlock: nat)

  function SaturatingAdd(x: nat, y: nat): nat {
    if x + y > U64_MAX then U64_MAX else x + y
  }

  function LockupStatus(e: Engine, now: nat, a: Address): Lockup {
    var isHolder := a in e.holderSince;
    var since := if isHolder then e.holderSince[a] else 0;
    var minAt := if isHolder && e.rules.minHoldingPeriod > 0 then SaturatingAdd(since, e.rules.minHoldingPeriod) else 0;
    var maxAt := if isHolder && e.rules.maxHoldingPeriod > 0 then SaturatingAdd(since, e.rules.maxHoldingPeriod) else 0;
    var locked := minAt > 0 && now < minAt;
    Lockup(isHolder, since, e.rules.minHoldingPeriod, e.rules.maxHoldingPeriod, minAt, maxAt, locked,
           if locked then minAt - now else 0)
  }

  // ---- Runs ------------------------------------------------------------------------------------------------

  datatype Op =
    | OpSetRules(rules: Rules)
    | OpProposeRules(rules: Rules, description: string)
    | OpActivateRules
    | OpSetPaused(paused: bool)
    | OpNote(comment: string)
    | OpBlock(a: Address)
    | OpUnblock(a: Address)
    | OpAllow(a: Address)
    | OpDisallow(a: Address)
    | OpMigrate(toVersion: nat, description: string)
    | OpRegister(a: Address)
    | OpUpdateSince(a: Address, since: int)
    | OpUnregister(a: Address)
    | OpSetTier(key: (nat, nat), policy: TierPolicy)
    | OpClearTier(key: (nat, nat))
    | OpConfigure(settings: Settings)
    | OpJoin(from: Address, to: Address, amount: int)

  datatype Event = Event(host: Host, op: Op)

  function Apply(e: Engine, event: Event): Outcome {
    var now := event.host.now;
    match event.op
    case OpSetRules(rules) => SetRules(e, now, rules)
    case OpProposeRules(rules, description) => ProposeRules(e, now, rules, description)
    case OpActivateRules => ActivateRules(e, now)
    case OpSetPaused(paused) => SetPaused(e, now, paused)
    case OpNote(comment) => Note(e, now, comment)
    case OpBlock(a) => Block(e, now, a)
    case OpUnblock(a) => Unblock(e, now, a)
    case OpAllow(a) => AllowListed(e, now, a)
    case OpDisallow(a) => Disallow(e, now, a)
    case OpMigrate(toVersion, description) => Migrate(e, now, toVersion, description)
    case OpRegister(a) => SetSince(e, a, now)
    case OpUpdateSince(a, since) => UpdateSince(e, a, since)
    case OpUnregister(a) => Unregister(e, a)
    case OpSetTier(key, policy) => SetTier(e, key, policy)
    case OpClearTier(key) => ClearTier(e, key)
    case OpConfigure(settings) => Ok(e.(settings := settings))
    case OpJoin(from, to, amount) => Join(e, event.host, from, to, amount)
  }

  function Next(e: Engine, event: Event): Engine {
    match Apply(e, event)
    case Ok(after) => after
    case Err(_) => e
  }

  /** The engine right after initialization at time `t0`, which records version 0. The legacy lists are what an older
      release left in storage. */
  function Initial(t0: nat, delay: nat, legacyBlocklist: seq<Address>, legacyAllowlist: seq<Address>): Engine {
    Engine(DEFAULT_RULES, None, delay, [PolicyRecord(0, t0, DEFAULT_RULES, ImmediateRuleUpdate, "initial")],
           map[], 0, [], [], legacyBlocklist, legacyAllowlist, map[], 0, Settings({}, None, map[]), 1, [])
  }

  function Run(e: Engine, events: seq<Event>): Engine
    decreases |events|
  {
    if events == [] then e else Next(Run(e, events[..|events| - 1]), events[|events| - 1])
  }
}
