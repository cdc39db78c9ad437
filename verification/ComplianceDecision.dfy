/** The structure of the transfer decision, and the lockup view against the rule it reports on. */
module ComplianceDecision {
  import opened Prelude
  import opened ComplianceModel
  import Proofs = ComplianceProofs

  // ---- The rules, one by one -----------------------------------------------------------

  /** A policy is stored for a pair of tiers, where the greatest 32-bit number stands for any tier. */
  predicate Matches(key: (nat, nat), from: nat, to: nat) {
    (key.0 == from || key.0 == 4294967295) && (key.1 == to || key.1 == 4294967295)
  }

  /** The rank of a matching pair: the exact one, any sender, any recipient, any pair. */
  function Generality(key: (nat, nat), from: nat, to: nat): nat {
    if key == (from, to) then 0 else if key.1 == to then 1 else if key.0 == from then 2 else 3
  }

  /** The policy stored for a pair of tiers governs two parties: it matches them, and none that does is more specific.
      */
  predicate Governs(policies: map<(nat, nat), TierPolicy>, from: nat, to: nat, key: (nat, nat)) {
    && key in policies && Matches(key, from, to)
    && forall other :: other in policies && Matches(other, from, to) ==>
         Generality(key, from, to) <= Generality(other, from, to)
  }

  predicate TierRuleFails(e: Engine, host: Host, from: Address, to: Address, amount: int, r: DenyReason) {
    e.tierCount > 0
    && exists key :: key in e.tierPolicies && Governs(e.tierPolicies, host.tier(from), host.tier(to), key)
                     && PolicyFails(e.tierPolicies[key], e.rules, host.tier(from), host.tier(to), amount, r)
  }

  predicate PolicyFails(p: TierPolicy, rules: Rules, from: nat, to: nat, amount: int, r: DenyReason) {
    match r
    case TierPolicyBlocked => p.blocked
    case TierFromBelowMin => from < p.minFromTier
    case TierToBelowMin => to < p.minToTier
    case TierAmountExceeded =>
      p.maxTransferAmount > 0 && (amount > p.maxTransferAmount || 0 < rules.maxTransferAmount < amount)
    case _ => false
  }

  /** The score of an address's jurisdiction, or else the default one, is above a positive limit. An address without a
      record counts under the empty name. */
  predicate TooRisky(e: Engine, host: Host, a: Address) {
    e.settings.risk.Some?
    && var limit, scores := e.settings.risk.value, e.settings.jurisdictionRisk;
       var name := if host.jurisdiction(a).Some? then host.jurisdiction(a).value else "";
       limit.maxScore > 0 && (if name in scores then scores[name] else limit.defaultScore) > limit.maxScore
  }

  /** An address without a record, or with a blocked jurisdiction, where any jurisdiction is blocked. */
  predicate Barred(e: Engine, host: Host, a: Address) {
    e.settings.blockedJurisdictions != {}
    && (host.jurisdiction(a).Some? ==> host.jurisdiction(a).value in e.settings.blockedJurisdictions)
  }

  /** A holder that has not held for the least period. */
  predicate Fresh(e: Engine, now: nat, a: Address) {
    e.rules.minHoldingPeriod > 0 && a in e.holderSince && now < e.holderSince[a] + e.rules.minHoldingPeriod
  }

  /** A holder that has held for the greatest period. */
  predicate Stale(e: Engine, now: nat, a: Address) {
    e.rules.maxHoldingPeriod > 0 && a in e.holderSince && now >= e.holderSince[a] + e.rules.maxHoldingPeriod
  }

  lemma HoldingTimes(e: Engine, now: nat, a: Address)
    ensures HeldTooShort(e, now, a) <==> Fresh(e, now, a)
    ensures HeldTooLong(e, now, a) <==> Stale(e, now, a)
  {
  }

  /** Whether the rule behind a reason is broken, regardless of all other rules. */
  predicate Breaks(e: Engine, host: Host, from: Address, to: Address, amount: int, checkKyc: bool, r: DenyReason) {
    match r
    case CompliancePaused => e.rules.paused
    case FromBlocklisted => from in e.blocklist
    case ToBlocklisted => to in e.blocklist
    case FromNotAllowlisted => e.rules.allowlistMode && from !in e.allowlist
    case ToNotAllowlisted => e.rules.allowlistMode && to !in e.allowlist
    case FromKyc(state) => checkKyc && host.kyc(from) == state != Approved
    case ToKyc(state) => checkKyc && host.kyc(to) == state != Approved
    case FromJurisdictionBlocked => Barred(e, host, from)
    case ToJurisdictionBlocked => Barred(e, host, to)
    case SameJurisdictionRequired =>
      e.rules.requireSameJurisdiction
        && !(host.jurisdiction(from).Some? && host.jurisdiction(from) == host.jurisdiction(to))
    case AmountExceeded => 0 < e.rules.maxTransferAmount < amount
    case HoldingPeriodNotMet => Fresh(e, host.now, from)
    case RecipientHoldingPeriodExceeded => Stale(e, host.now, to)
    case MaxHoldersReached => 0 < e.rules.maxHolders <= e.holderCount && to !in e.holderSince
    case RiskScoreTooHigh => TooRisky(e, host, from) || TooRisky(e, host, to)
    case _ => TierRuleFails(e, host, from, to, amount, r)
  }

  // ---- The policy that governs ---------------------------------------------------------

  /** The policy found is the one stored for the most specific pair that matches, and none is found exactly when no pair
      matches. */
  lemma FoundPolicyGoverns(policies: map<(nat, nat), TierPolicy>, from: nat, to: nat, key: (nat, nat))
    ensures Governs(policies, from, to, key) ==> FindPolicy(policies, from, to) == Some(policies[key])
    ensures FindPolicy(policies, from, to).Some? <==> exists k :: k in policies && Governs(policies, from, to, k)
    ensures FindPolicy(policies, from, to).None? <==> forall k :: k in policies ==> !Matches(k, from, to)
  {
    var w: nat := 4294967295;
    forall k | k in policies && Matches(k, from, to)
      ensures k in [(from, to), (w, to), (from, w), (w, w)]
    {
      assert k == (k.0, k.1);
    }
    if FindPolicy(policies, from, to).Some? {
      var found := if (from, to) in policies then (from, to) else if (w, to) in policies then (w, to)
                   else if (from, w) in policies then (from, w) else (w, w);
      assert Governs(policies, from, to, found);
    }
  }

  /** An exact policy decides whatever the wildcards say. */
  lemma ExactPolicyGoverns(policies: map<(nat, nat), TierPolicy>, from: nat, to: nat, key: (nat, nat))
    requires (from, to) in policies
    ensures Governs(policies, from, to, key) <==> key == (from, to)
    ensures FindPolicy(policies, from, to) == Some(policies[(from, to)])
  {
    assert key == (key.0, key.1);
    assert Generality((from, to), from, to) == 0;
  }

  /** The place of a rule in the evaluation. */
  function Place(r: DenyReason): nat {
    match r
    case CompliancePaused => 0
    case FromBlocklisted => 1
    case ToBlocklisted => 2
    case FromNotAllowlisted => 3
    case ToNotAllowlisted => 4
    case FromKyc(_) => 5
    case ToKyc(_) => 6
    case FromJurisdictionBlocked => 7
    case ToJurisdictionBlocked => 8
    case SameJurisdictionRequired => 9
    case AmountExceeded => 10
    case HoldingPeriodNotMet => 11
    case RecipientHoldingPeriodExceeded => 12
    case MaxHoldersReached => 13
    case TierPolicyBlocked => 14
    case TierFromBelowMin => 15
    case TierToBelowMin => 16
    case TierAmountExceeded => 17
    case RiskScoreTooHigh => 18
  }

  /** `found` is the first broken rule among those in places `lo` to `hi`. */
  ghost predicate FirstBroken(e: Engine, host: Host, from: Address, to: Address, amount: int, checkKyc: bool,
                              lo: nat, hi: nat, found: Option<DenyReason>) {
    if found.Some? then
      && Breaks(e, host, from, to, amount, checkKyc, found.value) && lo <= Place(found.value) < hi
      && forall r :: lo <= Place(r) < hi && Breaks(e, host, from, to, amount, checkKyc, r) ==>
           Place(found.value) < Place(r) || r == found.value
    else forall r :: lo <= Place(r) < hi ==> !Breaks(e, host, from, to, amount, checkKyc, r)
  }

  lemma ListRules(e: Engine, host: Host, from: Address, to: Address, amount: int, checkKyc: bool)
    ensures FirstBroken(e, host, from, to, amount, checkKyc, 0, 5, ListCheck(e, from, to))
  {
  }

  lemma KycRules(e: Engine, host: Host, from: Address, to: Address, amount: int, checkKyc: bool)
    ensures FirstBroken(e, host, from, to, amount, checkKyc, 5, 7, if checkKyc then KycCheck(host, from, to) else None)
  {
  }

  lemma JurisdictionRules(e: Engine, host: Host, from: Address, to: Address, amount: int, checkKyc: bool)
    ensures FirstBroken(e, host, from, to, amount, checkKyc, 7, 10, JurisdictionCheck(e, host, from, to))
  {
  }

  lemma HoldingRules(e: Engine, host: Host, from: Address, to: Address, amount: int, checkKyc: bool)
    ensures FirstBroken(e, host, from, to, amount, checkKyc, 10, 14, HoldingCheck(e, host.now, from, to, amount))
  {
    hide HeldTooShort, HeldTooLong, Fresh, Stale;
    HoldingTimes(e, host.now, from);
    HoldingTimes(e, host.now, to);
  }

  lemma TierRules(e: Engine, host: Host, from: Address, to: Address, amount: int, checkKyc: bool)
    ensures FirstBroken(e, host, from, to, amount, checkKyc, 14, 18, TierCheck(e, host, from, to, amount))
  {
    hide FindPolicy, Governs;
    var fromTier, toTier := host.tier(from), host.tier(to);
    forall key
      ensures key in e.tierPolicies && Governs(e.tierPolicies, fromTier, toTier, key) ==>
                FindPolicy(e.tierPolicies, fromTier, toTier) == Some(e.tierPolicies[key])
    {
      FoundPolicyGoverns(e.tierPolicies, fromTier, toTier, key);
    }
    FoundPolicyGoverns(e.tierPolicies, fromTier, toTier, (fromTier, toTier));
  }

  lemma RiskRules(e: Engine, host: Host, from: Address, to: Address, amount: int, checkKyc: bool)
    ensures FirstBroken(e, host, from, to, amount, checkKyc, 18, 19, RiskCheck(e, host, from, to))
  {
  }

  lemma JoinPlaces(e: Engine, host: Host, from: Address, to: Address, amount: int, checkKyc: bool,
                   lo: nat, mid: nat, hi: nat, first: Option<DenyReason>, second: Option<DenyReason>)
    requires lo <= mid <= hi
    requires FirstBroken(e, host, from, to, amount, checkKyc, lo, mid, first)
    requires FirstBroken(e, host, from, to, amount, checkKyc, mid, hi, second)
    ensures FirstBroken(e, host, from, to, amount, checkKyc, lo, hi, OrElse(first, second))
  {
    hide Breaks, Place;
  }

  /** A transfer is denied with a reason exactly when that rule is broken and no rule in an earlier place is, and
      allowed exactly when no rule is broken. */
  lemma FirstBrokenRuleDecides(e: Engine, host: Host, from: Address, to: Address, amount: int, checkKyc: bool,
                               r: DenyReason)
    ensures Evaluate(e, host, from, to, amount, checkKyc) == Deny(r) <==>
              && Breaks(e, host, from, to, amount, checkKyc, r)
              && forall q :: Breaks(e, host, from, to, amount, checkKyc, q) ==> Place(r) < Place(q) || q == r
    ensures Evaluate(e, host, from, to, amount, checkKyc).Allow? <==>
              forall q :: !Breaks(e, host, from, to, amount, checkKyc, q)
  {
    hide FirstBroken, Breaks, ListCheck, KycCheck, JurisdictionCheck, HoldingCheck, TierCheck, RiskCheck;
    var kyc := if checkKyc then KycCheck(host, from, to) else None;
    var tiers, risk := TierCheck(e, host, from, to, amount), RiskCheck(e, host, from, to);
    var holding, jurisdiction := HoldingCheck(e, host.now, from, to, amount), JurisdictionCheck(e, host, from, to);
    ListRules(e, host, from, to, amount, checkKyc);
    KycRules(e, host, from, to, amount, checkKyc);
    JurisdictionRules(e, host, from, to, amount, checkKyc);
    HoldingRules(e, host, from, to, amount, checkKyc);
    TierRules(e, host, from, to, amount, checkKyc);
    RiskRules(e, host, from, to, amount, checkKyc);
    JoinPlaces(e, host, from, to, amount, checkKyc, 14, 18, 19, tiers, risk);
    var fromTiers := OrElse(tiers, risk);
    JoinPlaces(e, host, from, to, amount, checkKyc, 10, 14, 19, holding, fromTiers);
    var fromHolding := OrElse(holding, fromTiers);
    JoinPlaces(e, host, from, to, amount, checkKyc, 7, 10, 19, jurisdiction, fromHolding);
    var fromJurisdiction := OrElse(jurisdiction, fromHolding);
    JoinPlaces(e, host, from, to, amount, checkKyc, 5, 7, 19, kyc, fromJurisdiction);
    JoinPlaces(e, host, from, to, amount, checkKyc, 0, 5, 19, ListCheck(e, from, to), OrElse(kyc, fromJurisdiction));
    Decided(e, host, from, to, amount, checkKyc, FirstFailure(e, host, from, to, amount, checkKyc, tiers), r);
  }

  lemma Decided(e: Engine, host: Host, from: Address, to: Address, amount: int, checkKyc: bool,
                found: Option<DenyReason>, r: DenyReason)
    requires FirstBroken(e, host, from, to, amount, checkKyc, 0, 19, found)
    ensures found == Some(r) <==>
              && Breaks(e, host, from, to, amount, checkKyc, r)
              && forall q :: Breaks(e, host, from, to, amount, checkKyc, q) ==> Place(r) < Place(q) || q == r
    ensures found.None? <==> forall q :: !Breaks(e, host, from, to, amount, checkKyc, q)
  {
    hide Breaks;
    forall q: DenyReason
      ensures 0 <= Place(q) < 19
    {
    }
  }

  /** A blocking policy for exactly the two tiers denies, whatever the other policies allow, unless an earlier rule is
      broken. */
  lemma ExactBlockDenies(e: Engine, host: Host, from: Address, to: Address, amount: int, checkKyc: bool)
    requires e.tierCount > 0 && (host.tier(from), host.tier(to)) in e.tierPolicies
    requires e.tierPolicies[(host.tier(from), host.tier(to))].blocked
    requires forall q :: Place(q) < 14 ==> !Breaks(e, host, from, to, amount, checkKyc, q)
    ensures Evaluate(e, host, from, to, amount, checkKyc) == Deny(TierPolicyBlocked)
  {
    ExactPolicyGoverns(e.tierPolicies, host.tier(from), host.tier(to), (host.tier(from), host.tier(to)));
    assert Breaks(e, host, from, to, amount, checkKyc, TierPolicyBlocked);
    OnlyBlocked();
    hide Breaks, Evaluate;
    FirstBrokenRuleDecides(e, host, from, to, amount, checkKyc, TierPolicyBlocked);
  }

  lemma OnlyBlocked()
    ensures forall q :: Place(q) >= 14 && q != TierPolicyBlocked ==> Place(q) > 14
  {
  }

  /** Between two approved parties of tier one, an open policy for any pair and a blocking one for their own. */
  lemma BlockedPairOverridesAnyPair(a: Address, b: Address)
    ensures var open, blocking := TierPolicy(false, 0, 0, 0), TierPolicy(true, 0, 0, 0);
            var start := Initial(0, 0, [], []);
            var e := start.(tierPolicies := map[(4294967295, 4294967295) := open, (1, 1) := blocking], tierCount := 2);
            EvaluateTransfer(e, Host(_ => Approved, _ => None, _ => 1, 0), a, b, 5) == Deny(TierPolicyBlocked)
  {
  }

  predicate OnlyHolders(events: seq<Event>) {
    forall i :: 0 <= i < |events| ==>
      events[i].op.OpRegister? || events[i].op.OpUpdateSince? || events[i].op.OpUnregister? || events[i].op.OpJoin?
  }

  lemma {:induction false} HoldersOnly(e: Engine, events: seq<Event>)
    requires OnlyHolders(events)
    ensures Run(e, events) == e.(holderSince := Run(e, events).holderSince, holderCount := Run(e, events).holderCount)
    decreases |events|
  {
    hide Evaluate;
    if events != [] {
      HoldersOnly(e, events[..|events| - 1]);
    }
  }

  /** After initialization, whoever becomes a holder and when, every transfer between two approved parties is allowed,
      whatever the amount: no rule is in force. */
  lemma NewEngineAllows(t0: nat, delay: nat, legacyBlocklist: seq<Address>, legacyAllowlist: seq<Address>,
                        events: seq<Event>, host: Host, from: Address, to: Address, amount: int)
    requires OnlyHolders(events)
    ensures var e := Run(Initial(t0, delay, legacyBlocklist, legacyAllowlist), events);
            EvaluateTransfer(e, host, from, to, amount).Allow?
            <==> host.kyc(from) == Approved && host.kyc(to) == Approved
  {
    HoldersOnly(Initial(t0, delay, legacyBlocklist, legacyAllowlist), events);
    hide Run;
  }

  /** The full evaluation allows exactly what the evaluation without KYC allows between two approved parties. */
  lemma AllowNeedsApproval(e: Engine, host: Host, from: Address, to: Address, amount: int)
    ensures EvaluateTransfer(e, host, from, to, amount).Allow? <==>
              CanTransfer(e, host, from, to, amount) && host.kyc(from) == Approved && host.kyc(to) == Approved
  {
    hide ListCheck, JurisdictionCheck, HoldingCheck, TierCheck, RiskCheck;
  }

  /** The evaluation without KYC does not depend on the KYC states of anyone. */
  lemma CanTransferIgnoresKyc(e: Engine, host: Host, kyc: Address -> KycState, from: Address, to: Address, amount: int)
    ensures CanTransfer(e, host.(kyc := kyc), from, to, amount) == CanTransfer(e, host, from, to, amount)
  {
    hide ListCheck, HoldingCheck;
  }

  /** In every reachable state the policy counter decides nothing: looking a policy up always gives the same decision as
      skipping the lookup while the counter is zero. */
  lemma CounterOnlySkips(t0: nat, delay: nat, legacyBlocklist: seq<Address>, legacyAllowlist: seq<Address>,
                         events: seq<Event>, host: Host, from: Address, to: Address, amount: int, checkKyc: bool)
    ensures var e := Run(Initial(t0, delay, legacyBlocklist, legacyAllowlist), events);
            Evaluate(e, host, from, to, amount, checkKyc)
            == (match FirstFailure(e, host, from, to, amount, checkKyc, TierLookup(e, host, from, to, amount))
                case None => Allow
                case Some(reason) => Deny(reason))
  {
    hide ListCheck, KycCheck, JurisdictionCheck, HoldingCheck, RiskCheck;
    var start := Initial(t0, delay, legacyBlocklist, legacyAllowlist);
    Proofs.InitialGood(t0, delay, legacyBlocklist, legacyAllowlist);
    Proofs.RunGood(start, events);
    var e := Run(start, events);
    if e.tierCount == 0 {
      assert e.tierPolicies == map[];
    }
  }

  /** Every smaller amount is allowed when an amount is. */
  lemma SmallerAmountsAllowed(e: Engine, host: Host, from: Address, to: Address, amount: int, smaller: int,
                              checkKyc: bool)
    requires Evaluate(e, host, from, to, amount, checkKyc).Allow? && smaller <= amount
    ensures Evaluate(e, host, from, to, smaller, checkKyc).Allow?
  {
    hide ListCheck, KycCheck, JurisdictionCheck, RiskCheck, HeldTooShort, HeldTooLong, FindPolicy;
  }

  // ---- Lockup --------------------------------------------------------------------------

  /** The view says locked exactly when the sender-side holding rule denies, except at the last representable second
      when the release time saturates. */
  lemma LockupAgrees(e: Engine, now: nat, a: Address)
    requires now <= U64_MAX
    requires a in e.holderSince ==> e.holderSince[a] <= U64_MAX
    ensures var saturates := a in e.holderSince && e.rules.minHoldingPeriod > 0
                             && e.holderSince[a] + e.rules.minHoldingPeriod > U64_MAX;
            (LockupStatus(e, now, a).locked <==> HeldTooShort(e, now, a)) <==> !saturates || now < U64_MAX
  {
  }

  /** A holder registered six seconds before the end of representable time, under a ten-second rule: in the last second
      the rule still denies, and the view says unlocked. */
  lemma SaturatedViewUnlocks(a: Address)
    ensures var rules := DEFAULT_RULES.(minHoldingPeriod := 10);
            var events := [Event(At(0), OpSetRules(rules)), Event(At(U64_MAX - 6), OpRegister(a))];
            var e := Run(Initial(0, 0, [], []), events);
            HeldTooShort(e, U64_MAX, a) && !LockupStatus(e, U64_MAX, a).locked
  {
    var rules := DEFAULT_RULES.(minHoldingPeriod := 10);
    var first, second := Event(At(0), OpSetRules(rules)), Event(At(U64_MAX - 6), OpRegister(a));
    var events := [first, second];
    assert events[..1] == [first] && [first][..0] == [];
    assert Run(Initial(0, 0, [], []), [first]) == Next(Initial(0, 0, [], []), first);
  }

  function At(now: nat): Host {
    Host(_ => Approved, _ => None, _ => 0, now)
  }

  /** While the release time fits, the reported wait is the least one after which the rule no longer denies. */
  lemma WaitIsLeast(e: Engine, now: nat, a: Address, wait: nat)
    requires a in e.holderSince ==> e.holderSince[a] + e.rules.minHoldingPeriod <= U64_MAX
    ensures !HeldTooShort(e, now + wait, a) <==> wait >= LockupStatus(e, now, a).secondsUntilUnlock
  {
  }

  /** While it fits, the reported deadline is the first moment at which the recipient-side holding rule denies. */
  lemma DeadlineAgrees(e: Engine, now: nat, a: Address)
    requires a in e.holderSince ==> e.holderSince[a] + e.rules.maxHoldingPeriod <= U64_MAX
    ensures var view := LockupStatus(e, now, a);
            HeldTooLong(e, now, a) <==> 0 < view.maxReleaseAt <= now
  {
  }

  /** While it fits, the reported release time is the first moment at which the sender-side rule no longer denies, and a
      time is reported for holders only. */
  lemma ReleaseAgrees(e: Engine, now: nat, t: nat, a: Address)
    requires a in e.holderSince ==> e.holderSince[a] + e.rules.minHoldingPeriod <= U64_MAX
    ensures var view := LockupStatus(e, now, a);
            && (HeldTooShort(e, t, a) <==> t < view.minReleaseAt)
            && view.isHolder == (a in e.holderSince)
            && view.holderSince == (if a in e.holderSince then e.holderSince[a] else 0)
            && view.minHoldingPeriod == e.rules.minHoldingPeriod && view.maxHoldingPeriod == e.rules.maxHoldingPeriod
  {
  }
}
