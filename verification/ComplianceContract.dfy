/** The compliance engine's entry points over its stored keys: numbered policy records, two member lists and counters.
    Each one is tied to the specification in `ComplianceModel`. */
module ComplianceContract {
  import opened Prelude
  import opened MemberLists
  import opened ComplianceModel
  import Proofs = ComplianceProofs

  const HISTORY_PAGE := 20

  ghost predicate Follows(before: Engine, event: Event, error: Option<ComplianceError>, after: Engine) {
    match Apply(before, event)
    case Err(e) => error == Some(e) && after == before
    case Ok(expected) => error.None? && after == expected
  }

  predicate RecordsStored(records: map<nat, PolicyRecord>, count: nat) {
    forall i :: 0 <= i < count ==> i in records
  }

  function History(records: map<nat, PolicyRecord>, count: nat): seq<PolicyRecord>
    requires RecordsStored(records, count)
  {
    seq(count, i requires 0 <= i < count => records[i])
  }

  lemma StoreRecord(records: map<nat, PolicyRecord>, count: nat, r: PolicyRecord)
    requires RecordsStored(records, count)
    ensures RecordsStored(records[count := r], count + 1)
    ensures History(records[count := r], count + 1) == History(records, count) + [r]
  {
  }

  class ComplianceEngine {
    var rules: Rules
    var pending: Option<Proposal>
    var delay: nat
    var records: map<nat, PolicyRecord>
    var versions: nat
    var holderSince: map<Address, nat>
    var holderCount: nat
    const blocklist: MemberList
    const allowlist: MemberList
    var legacyBlocklist: seq<Address>
    var legacyAllowlist: seq<Address>
    var tierPolicies: map<(nat, nat), TierPolicy>
    var tierCount: nat
    var settings: Settings
    var schema: nat
    var migrations: seq<Migration>

    ghost predicate Valid()
      reads this, blocklist, allowlist
    {
      && blocklist != allowlist && blocklist.Valid() && allowlist.Valid()
      && RecordsStored(records, versions) && versions <= U32_MAX
    }

    ghost function View(): Engine
      requires RecordsStored(records, versions)
      reads this, blocklist, allowlist
    {
      Engine(rules, pending, delay, History(records, versions), holderSince, holderCount, blocklist.contents,
             allowlist.contents, legacyBlocklist, legacyAllowlist, tierPolicies, tierCount, settings, schema,
             migrations)
    }

    constructor (now: nat, ruleChangeDelay: nat, oldBlocklist: seq<Address>, oldAllowlist: seq<Address>)
      ensures Valid() && fresh(blocklist) && fresh(allowlist)
      ensures View() == Initial(now, ruleChangeDelay, oldBlocklist, oldAllowlist)
    {
      blocklist := new MemberList();
      allowlist := new MemberList();
      rules, pending, delay := DEFAULT_RULES, None, ruleChangeDelay;
      records := map[0 := PolicyRecord(0, now, DEFAULT_RULES, ImmediateRuleUpdate, "initial")];
      versions := 1;
      holderSince, holderCount, legacyBlocklist, legacyAllowlist := map[], 0, oldBlocklist, oldAllowlist;
      tierPolicies, tierCount, settings, schema, migrations := map[], 0, Settings({}, None, map[]), 1, [];
    }

    // ---- Policy history ----------------------------------------------------------------

    /** The single write path of the history. */
    method WritePolicyRecord(now: nat, kind: ChangeKind, description: string) returns (trap: bool)
      requires Valid()
      modifies `records, `versions
      ensures Valid()
      ensures match Recorded(old(View()), now, kind, description)
              case Err(e) => trap && e == Trap && View() == old(View())
              case Ok(after) => !trap && View() == after
    {
      hide Dedupable, DefaultText;
      var text := Described(kind, description);
      if Dedupable(kind) && versions > 0 {
        var last := records[versions - 1];
        assert last == View().history[versions - 1];
        if last.rules == rules && last.kind == kind && last.description == text {
          return false;
        }
      }
      if versions == U32_MAX {
        return true;
      }
      var r := PolicyRecord(versions, now, rules, kind, text);
      StoreRecord(records, versions, r);
      records := records[versions := r];
      versions := versions + 1;
      trap := false;
    }

    /** A page of the history, at most 20 records. */
    method GetPolicyHistory(start: nat, limit: nat) returns (page: Option<seq<PolicyRecord>>)
      requires Valid()
      ensures var history := View().history; var end := start + Min(limit, 20);
              page == if end > U32_MAX then None
                      else Some(if start < Min(end, |history|) then history[start..Min(end, |history|)] else [])
    {
      var capped := Min(limit, HISTORY_PAGE);
      if start + capped > U32_MAX {
        return None;
      }
      var end := Min(start + capped, versions);
      var out: seq<PolicyRecord> := [];
      var i := start;
      ghost var history := History(records, versions);
      while i < end
        invariant i == start || start < i <= end
        invariant out == if start < i then history[start..i] else []
      {
        assert records[i] == history[i];
        out := out + [records[i]];
        i := i + 1;
      }
      page := Some(out);
    }

    // ---- Rules -----------------------------------------------------------------------------

    /** What passes covers the present holders. */
    method CheckRules(r: Rules) returns (error: Option<ComplianceError>)
      requires Valid()
      ensures error == ValidateRules(View(), r)
      ensures error.None? ==> Proofs.WithinCap(View().(rules := r)) && r.minHoldingPeriod <= MAX_HOLDING_PERIOD
    {
      if r.minHoldingPeriod > MAX_HOLDING_PERIOD {
        return Some(MinHoldingPeriodExceeds365Days);
      }
      if r.maxTransferAmount < 0 {
        return Some(NegativeMaxTransferAmount);
      }
      if r.maxHolders > 0 {
        if r.maxHolders < holderCount {
          return Some(MaxHoldersBelowCurrentCount);
        }
      }
      error := None;
    }

    method SetRules(host: Host, newRules: Rules) returns (error: Option<ComplianceError>)
      requires Valid()
      modifies this
      ensures Valid() && Follows(old(View()), Event(host, OpSetRules(newRules)), error, View())
    {
      hide Recorded, ValidateRules, History, RecordsStored;
      error := CheckRules(newRules);
      if error.Some? {
        return;
      }
      var rules0 := rules;
      rules := newRules;
      RecordedTraps(View(), host.now, ImmediateRuleUpdate, "");
      var trap := WritePolicyRecord(host.now, ImmediateRuleUpdate, "");
      if trap {
        rules := rules0;
        error := Some(Trap);
      }
    }

    method ProposeRules(host: Host, newRules: Rules, description: string) returns (error: Option<ComplianceError>)
      requires Valid()
      modifies this
      ensures Valid() && Follows(old(View()), Event(host, OpProposeRules(newRules, description)), error, View())
    {
      hide ValidateRules, History, RecordsStored;
      if |description| == 0 {
        return Some(EmptyDescription);
      }
      error := CheckRules(newRules);
      if error.Some? {
        return;
      }
      if host.now + delay > U64_MAX {
        return Some(Trap);
      }
      pending := Some(Proposal(newRules, host.now + delay, description));
    }

    method ActivateRules(host: Host) returns (error: Option<ComplianceError>)
      requires Valid()
      modifies this
      ensures Valid() && Follows(old(View()), Event(host, OpActivateRules), error, View())
    {
      hide Recorded, History, RecordsStored;
      if pending.None? {
        return Some(NoRulesPending);
      }
      var proposal := pending.value;
      if host.now < proposal.activateAt {
        return Some(TooEarlyToActivate);
      }
      var rules0, pending0 := rules, pending;
      rules := proposal.rules;
      pending := None;
      RecordedTraps(View(), host.now, DelayedRuleActivation, proposal.description);
      var trap := WritePolicyRecord(host.now, DelayedRuleActivation, proposal.description);
      if trap {
        rules, pending := rules0, pending0;
        return Some(Trap);
      }
      error := None;
    }

    method SetPaused(host: Host, paused: bool) returns (error: Option<ComplianceError>)
      requires Valid()
      modifies this
      ensures Valid() && Follows(old(View()), Event(host, OpSetPaused(paused)), error, View())
    {
      hide Recorded, History, RecordsStored;
      var rules0 := rules;
      rules := rules.(paused := paused);
      var kind := if paused then Pause else Unpause;
      RecordedTraps(View(), host.now, kind, "");
      var trap := WritePolicyRecord(host.now, kind, "");
      if trap {
        rules := rules0;
        return Some(Trap);
      }
      error := None;
    }

    method AppendPolicyRecord(host: Host, comment: string) returns (error: Option<ComplianceError>)
      requires Valid()
      modifies this
      ensures Valid() && Follows(old(View()), Event(host, OpNote(comment)), error, View())
    {
      hide Recorded, History, RecordsStored;
      if |comment| == 0 {
        return Some(EmptyGovernanceComment);
      }
      RecordedTraps(View(), host.now, ImmediateRuleUpdate, comment);
      var trap := WritePolicyRecord(host.now, ImmediateRuleUpdate, comment);
      error := if trap then Some(Trap) else None;
    }

    // ---- Lists --------------------------------------------------------------------------------

    method AddToBlocklist(host: Host, a: Address) returns (error: Option<ComplianceError>)
      requires Valid()
      modifies this, blocklist
      ensures Valid() && Follows(old(View()), Event(host, OpBlock(a)), error, View())
    {
      hide Recorded, History, RecordsStored, Added;
      if a in blocklist.entries {
        return None;
      }
      var entries0, size0, members0 := blocklist.entries, blocklist.size, blocklist.members;
      ghost var contents0 := blocklist.contents;
      var full := blocklist.Add(a);
      if full {
        blocklist.Restore(entries0, size0, members0, contents0);
        return Some(Trap);
      }
      RecordedTraps(View(), host.now, BlocklistAdd, "");
      var trap := WritePolicyRecord(host.now, BlocklistAdd, "");
      if trap {
        blocklist.Restore(entries0, size0, members0, contents0);
        return Some(Trap);
      }
      error := None;
    }

    method RemoveFromBlocklist(host: Host, a: Address) returns (error: Option<ComplianceError>)
      requires Valid()
      modifies this, blocklist
      ensures Valid() && Follows(old(View()), Event(host, OpUnblock(a)), error, View())
    {
      hide Recorded, History, RecordsStored, Removed;
      if a !in blocklist.entries {
        return None;
      }
      var entries0, size0, members0 := blocklist.entries, blocklist.size, blocklist.members;
      ghost var contents0 := blocklist.contents;
      blocklist.Remove(a);
      RecordedTraps(View(), host.now, BlocklistRemove, "");
      var trap := WritePolicyRecord(host.now, BlocklistRemove, "");
      if trap {
        blocklist.Restore(entries0, size0, members0, contents0);
        return Some(Trap);
      }
      error := None;
    }

    method AddToAllowlist(host: Host, a: Address) returns (error: Option<ComplianceError>)
      requires Valid()
      modifies this, allowlist
      ensures Valid() && Follows(old(View()), Event(host, OpAllow(a)), error, View())
    {
      hide Recorded, History, RecordsStored, Added;
      if a in blocklist.entries {
        return Some(BlocklistedAddressOnAllowlist);
      }
      if a in allowlist.entries {
        return None;
      }
      var entries0, size0, members0 := allowlist.entries, allowlist.size, allowlist.members;
      ghost var contents0 := allowlist.contents;
      var full := allowlist.Add(a);
      if full {
        allowlist.Restore(entries0, size0, members0, contents0);
        return Some(Trap);
      }
      RecordedTraps(View(), host.now, AllowlistAdd, "");
      var trap := WritePolicyRecord(host.now, AllowlistAdd, "");
      if trap {
        allowlist.Restore(entries0, size0, members0, contents0);
        return Some(Trap);
      }
      error := None;
    }

    method RemoveFromAllowlist(host: Host, a: Address) returns (error: Option<ComplianceError>)
      requires Valid()
      modifies this, allowlist
      ensures Valid() && Follows(old(View()), Event(host, OpDisallow(a)), error, View())
    {
      hide Recorded, History, RecordsStored, Removed;
      if a !in allowlist.entries {
        return None;
      }
      var entries0, size0, members0 := allowlist.entries, allowlist.size, allowlist.members;
      ghost var contents0 := allowlist.contents;
      allowlist.Remove(a);
      RecordedTraps(View(), host.now, AllowlistRemove, "");
      var trap := WritePolicyRecord(host.now, AllowlistRemove, "");
      if trap {
        allowlist.Restore(entries0, size0, members0, contents0);
        return Some(Trap);
      }
      error := None;
    }

    /** Moves both legacy lists; when one of them does not fit, the host rolls both back. */
    method MigrateLists() returns (trap: bool)
      requires Valid()
      modifies `legacyBlocklist, `legacyAllowlist, blocklist, allowlist
      ensures Valid()
      ensures var blocked := Migrated(old(blocklist.contents), old(legacyBlocklist));
              var allowed := Migrated(old(allowlist.contents), old(legacyAllowlist));
              && trap == (|blocked| > U32_MAX || |allowed| > U32_MAX)
              && View() == if trap then old(View())
                           else old(View()).(blocklist := blocked, allowlist := allowed,
                                             legacyBlocklist := [], legacyAllowlist := [])
    {
      hide History, RecordsStored, Migrated;
      var blockEntries, blockSize, blockMembers := blocklist.entries, blocklist.size, blocklist.members;
      var allowEntries, allowSize, allowMembers := allowlist.entries, allowlist.size, allowlist.members;
      ghost var blocked, allowed := blocklist.contents, allowlist.contents;
      trap := blocklist.Migrate(legacyBlocklist);
      if !trap {
        trap := allowlist.Migrate(legacyAllowlist);
      }
      if trap {
        blocklist.Restore(blockEntries, blockSize, blockMembers, blocked);
        allowlist.Restore(allowEntries, allowSize, allowMembers, allowed);
        return;
      }
      legacyBlocklist, legacyAllowlist := [], [];
    }

    method MigrateSchema(host: Host, toVersion: nat, description: string) returns (error: Option<ComplianceError>)
      requires Valid()
      modifies this, blocklist, allowlist
      ensures Valid() && Follows(old(View()), Event(host, OpMigrate(toVersion, description)), error, View())
    {
      hide History, RecordsStored, Migrated;
      if |description| == 0 {
        return Some(EmptyDescription);
      }
      var current := schema;
      if toVersion == current {
        return Some(AlreadyAtSchemaVersion);
      }
      if current >= U32_MAX {
        return Some(Trap);
      }
      if toVersion != current + 1 {
        return Some(MigrationVersionNotSequential);
      }
      if |migrations| >= U32_MAX {
        return Some(Trap);
      }
      if toVersion == 2 {
        var trap := MigrateLists();
        if trap {
          return Some(Trap);
        }
      }
      migrations := migrations + [Migration(current, toVersion, host.now, description)];
      schema := toVersion;
      error := None;
    }

    // ---- Holders ---------------------------------------------------------------------------------

    method WriteSince(a: Address, since: nat) returns (error: Option<ComplianceError>)
      requires Valid()
      modifies `holderSince, `holderCount
      ensures Valid()
      ensures match SetSince(old(View()), a, since)
              case Err(e) => error == Some(e) && View() == old(View())
              case Ok(after) => error.None? && View() == after
    {
      var isNew := a !in holderSince;
      if isNew && holderCount >= U32_MAX {
        return Some(Trap);
      }
      holderSince := holderSince[a := since];
      if isNew {
        holderCount := holderCount + 1;
      }
      error := None;
    }

    method RegisterHolder(host: Host, a: Address) returns (error: Option<ComplianceError>)
      requires Valid()
      modifies `holderSince, `holderCount
      ensures Valid() && Follows(old(View()), Event(host, OpRegister(a)), error, View())
    {
      hide SetSince, History, RecordsStored;
      error := WriteSince(a, host.now);
    }

    method UpdateHolderSince(host: Host, a: Address, since: int) returns (error: Option<ComplianceError>)
      requires Valid()
      modifies `holderSince, `holderCount
      ensures Valid() && Follows(old(View()), Event(host, OpUpdateSince(a, since)), error, View())
    {
      hide SetSince, History, RecordsStored;
      if since <= 0 {
        return Some(InvalidHolderSince);
      }
      error := WriteSince(a, since);
    }

    method UnregisterHolder(host: Host, a: Address)
      requires Valid()
      modifies `holderSince, `holderCount
      ensures Valid() && View() == Next(old(View()), Event(host, OpUnregister(a)))
    {
      if a in holderSince {
        holderSince := holderSince - {a};
        holderCount := if holderCount == 0 then 0 else holderCount - 1;
      }
    }

    // ---- Tier policies -------------------------------------------------------------------------------

    method SetTierPolicy(host: Host, from: nat, to: nat, policy: TierPolicy) returns (error: Option<ComplianceError>)
      requires Valid()
      modifies `tierPolicies, `tierCount
      ensures Valid() && Follows(old(View()), Event(host, OpSetTier((from, to), policy)), error, View())
    {
      if policy.maxTransferAmount < 0 {
        return Some(NegativeTierTransferAmount);
      }
      if policy.minFromTier > 100 || policy.minToTier > 100 {
        return Some(InvalidTierPolicy);
      }
      var isNew := (from, to) !in tierPolicies;
      if isNew && tierCount >= U32_MAX {
        return Some(Trap);
      }
      tierPolicies := tierPolicies[(from, to) := policy];
      if isNew {
        tierCount := tierCount + 1;
      }
      error := None;
    }

    method ClearTierPolicy(host: Host, from: nat, to: nat)
      requires Valid()
      modifies `tierPolicies, `tierCount
      ensures Valid() && View() == Next(old(View()), Event(host, OpClearTier((from, to))))
    {
      if (from, to) in tierPolicies {
        tierPolicies := tierPolicies - {(from, to)};
        tierCount := if tierCount == 0 then 0 else tierCount - 1;
      }
    }

    // ---- The decision -------------------------------------------------------------------------------

    method CheckLists(from: Address, to: Address) returns (reason: Option<DenyReason>)
      requires Valid()
      ensures reason == ListCheck(View(), from, to)
    {
      hide History, RecordsStored;
      if rules.paused {
        return Some(CompliancePaused);
      }
      if from in blocklist.entries {
        return Some(FromBlocklisted);
      }
      if to in blocklist.entries {
        return Some(ToBlocklisted);
      }
      if rules.allowlistMode {
        if from !in allowlist.entries {
          return Some(FromNotAllowlisted);
        }
        if to !in allowlist.entries {
          return Some(ToNotAllowlisted);
        }
      }
      reason := None;
    }

    method CheckKycStates(host: Host, from: Address, to: Address) returns (reason: Option<DenyReason>)
      ensures reason == KycCheck(host, from, to)
    {
      var state := host.kyc(from);
      if state != Approved {
        return Some(FromKyc(state));
      }
      state := host.kyc(to);
      if state != Approved {
        return Some(ToKyc(state));
      }
      reason := None;
    }

    method CheckJurisdictions(host: Host, from: Address, to: Address) returns (reason: Option<DenyReason>)
      requires Valid()
      ensures reason == JurisdictionCheck(View(), host, from, to)
    {
      hide History, RecordsStored;
      if settings.blockedJurisdictions != {} {
        match host.jurisdiction(from) {
          case None => return Some(FromJurisdictionBlocked);
          case Some(j) =>
            if j in settings.blockedJurisdictions {
              return Some(FromJurisdictionBlocked);
            }
        }
        match host.jurisdiction(to) {
          case None => return Some(ToJurisdictionBlocked);
          case Some(j) =>
            if j in settings.blockedJurisdictions {
              return Some(ToJurisdictionBlocked);
            }
        }
      }
      if rules.requireSameJurisdiction {
        var fromJ, toJ := host.jurisdiction(from), host.jurisdiction(to);
        if fromJ.None? || toJ.None? {
          return Some(SameJurisdictionRequired);
        }
        if fromJ.value != toJ.value {
          return Some(SameJurisdictionRequired);
        }
      }
      reason := None;
    }

    method CheckHolding(host: Host, from: Address, to: Address, amount: int) returns (reason: Option<DenyReason>)
      requires Valid()
      ensures reason == HoldingCheck(View(), host.now, from, to, amount)
    {
      hide History, RecordsStored;
      if rules.maxTransferAmount > 0 && amount > rules.maxTransferAmount {
        return Some(AmountExceeded);
      }
      if rules.minHoldingPeriod > 0 && from in holderSince {
        var since := holderSince[from];
        var held := if host.now > since then host.now - since else 0;
        if held < rules.minHoldingPeriod {
          return Some(HoldingPeriodNotMet);
        }
      }
      if rules.maxHoldingPeriod > 0 && to in holderSince {
        var since := holderSince[to];
        var held := if host.now > since then host.now - since else 0;
        if held >= rules.maxHoldingPeriod {
          return Some(RecipientHoldingPeriodExceeded);
        }
      }
      if rules.maxHolders > 0 && to !in holderSince && holderCount >= rules.maxHolders {
        return Some(MaxHoldersReached);
      }
      reason := None;
    }

    /** Looks a policy up by exact pair first and by wildcards after that, each only when nothing was found yet. */
    method CheckTiers(host: Host, from: Address, to: Address, amount: int) returns (reason: Option<DenyReason>)
      requires Valid()
      ensures reason == TierCheck(View(), host, from, to, amount)
    {
      hide History, RecordsStored;
      if tierCount == 0 {
        return None;
      }
      var fromTier, toTier := host.tier(from), host.tier(to);
      var key: (nat, nat) := (fromTier, toTier);
      if key !in tierPolicies {
        key := (WILDCARD, toTier);
        if key !in tierPolicies {
          key := (fromTier, WILDCARD);
          if key !in tierPolicies {
            key := (WILDCARD, WILDCARD);
            if key !in tierPolicies {
              return None;
            }
          }
        }
      }
      var p := tierPolicies[key];
      assert FindPolicy(tierPolicies, fromTier, toTier) == Some(p);
      if p.blocked {
        return Some(TierPolicyBlocked);
      }
      if fromTier < p.minFromTier {
        return Some(TierFromBelowMin);
      }
      if toTier < p.minToTier {
        return Some(TierToBelowMin);
      }
      if p.maxTransferAmount > 0 {
        var cap := p.maxTransferAmount;
        if rules.maxTransferAmount > 0 && rules.maxTransferAmount < cap {
          cap := rules.maxTransferAmount;
        }
        if amount > cap {
          return Some(TierAmountExceeded);
        }
      }
      reason := None;
    }

    method CheckRisk(host: Host, from: Address, to: Address) returns (reason: Option<DenyReason>)
      requires Valid()
      ensures reason == RiskCheck(View(), host, from, to)
    {
      hide History, RecordsStored;
      reason := None;
      if settings.risk.Some? {
        var config := settings.risk.value;
        if config.maxScore > 0 {
          var fromJ, toJ := JurisdictionText(host, from), JurisdictionText(host, to);
          var fromScore, toScore := config.defaultScore, config.defaultScore;
          if fromJ in settings.jurisdictionRisk {
            fromScore := settings.jurisdictionRisk[fromJ];
          }
          if toJ in settings.jurisdictionRisk {
            toScore := settings.jurisdictionRisk[toJ];
          }
          if fromScore > config.maxScore || toScore > config.maxScore {
            reason := Some(RiskScoreTooHigh);
          }
        }
      }
    }

    /** The evaluation: the first rule that fails ends it. */
    method EvaluateTransferInner(host: Host, from: Address, to: Address, amount: int, checkKyc: bool)
      returns (d: Decision)
      requires Valid()
      ensures d == Evaluate(View(), host, from, to, amount, checkKyc)
    {
      hide History, RecordsStored, ListCheck, KycCheck, JurisdictionCheck, HoldingCheck, TierCheck, RiskCheck;
      var reason := CheckLists(from, to);
      if reason.Some? {
        return Deny(reason.value);
      }
      if checkKyc {
        reason := CheckKycStates(host, from, to);
        if reason.Some? {
          return Deny(reason.value);
        }
      }
      reason := CheckJurisdictions(host, from, to);
      if reason.Some? {
        return Deny(reason.value);
      }
      reason := CheckHolding(host, from, to, amount);
      if reason.Some? {
        return Deny(reason.value);
      }
      reason := CheckTiers(host, from, to, amount);
      if reason.Some? {
        return Deny(reason.value);
      }
      reason := CheckRisk(host, from, to);
      d := if reason.Some? then Deny(reason.value) else Allow;
    }
  }

  /** The only way a record fails. */
  lemma RecordedTraps(e: Engine, now: nat, kind: ChangeKind, description: string)
    ensures Recorded(e, now, kind, description).Err? ==> Recorded(e, now, kind, description) == Err(Trap)
  {
  }
}
