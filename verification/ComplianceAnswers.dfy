/** What every call of the compliance engine checks, in which order, and what it changes when it succeeds, with the
    numbers and texts written out. */
module ComplianceAnswers {
  import opened Prelude
  import opened Checklists
  import opened MemberLists
  import opened ComplianceModel

  type Checking = seq<Check<ComplianceError>>

  // ---- Records ----------------------------------------------------------------------------

  /** The record that a call makes: the rules after it, its kind and its text. */
  datatype Statement = Statement(rules: Rules, kind: ChangeKind, text: string)

  function TextOr(given: string, otherwise: string): string {
    if given == "" then otherwise else given
  }

  /** What a call records. */
  function StatementOf(e: Engine, op: Op): Option<Statement> {
    match op
    case OpSetRules(rules) => Some(Statement(rules, ImmediateRuleUpdate, "Immediate rule update"))
    case OpActivateRules =>
      if e.pending.None? then None
      else
        var proposal := e.pending.value;
        Some(Statement(proposal.rules, DelayedRuleActivation, TextOr(proposal.description, "Delayed rule activation")))
    case OpSetPaused(paused) =>
      var rules := e.rules.(paused := paused);
      Some(if paused then Statement(rules, Pause, "Compliance paused")
           else Statement(rules, Unpause, "Compliance unpaused"))
    case OpNote(comment) => Some(Statement(e.rules, ImmediateRuleUpdate, TextOr(comment, "Immediate rule update")))
    case OpBlock(a) =>
      if a in e.blocklist then None else Some(Statement(e.rules, BlocklistAdd, "Address added to blocklist"))
    case OpUnblock(a) =>
      if a in e.blocklist then Some(Statement(e.rules, BlocklistRemove, "Address removed from blocklist")) else None
    case OpAllow(a) =>
      if a in e.allowlist then None else Some(Statement(e.rules, AllowlistAdd, "Address added to allowlist"))
    case OpDisallow(a) =>
      if a in e.allowlist then Some(Statement(e.rules, AllowlistRemove, "Address removed from allowlist")) else None
    case _ => None
  }

  /** A record that is not about a list and says the same as the last one is not made. */
  predicate Repeats(history: seq<PolicyRecord>, note: Statement) {
    && note.kind in {ImmediateRuleUpdate, DelayedRuleActivation, Pause, Unpause} && history != []
    && var last := history[|history| - 1];
       last.rules == note.rules && last.kind == note.kind && last.description == note.text
  }

  // ---- The checks ---------------------------------------------------------------------------

  /** The counter of the history has room for what the call records. */
  function RecordRoom(e: Engine, op: Op): Checking {
    var note := StatementOf(e, op);
    [Check(note.None? || Repeats(e.history, note.value) || |e.history| < 4294967295, Trap)]
  }

  function RuleChecks(e: Engine, rules: Rules): Checking {
    [Check(rules.minHoldingPeriod <= 31_536_000, MinHoldingPeriodExceeds365Days),
     Check(rules.maxTransferAmount >= 0, NegativeMaxTransferAmount),
     Check(rules.maxHolders == 0 || e.holderCount <= rules.maxHolders, MaxHoldersBelowCurrentCount)]
  }

  function Counted(known: bool, count: nat): Checking {
    [Check(known || count < 4294967295, Trap)]
  }

  /** The migrated lists and the log fit their counters. */
  predicate Migratable(e: Engine, toVersion: nat) {
    && |e.migrations| < 4294967295
    && (if toVersion == 2 then |Migrated(e.blocklist, e.legacyBlocklist)| <= 4294967295
                               && |Migrated(e.allowlist, e.legacyAllowlist)| <= 4294967295
        else |e.blocklist| <= 4294967295 && |e.allowlist| <= 4294967295)
  }

  /** Everything a call checks, in order. */
  function Checks(e: Engine, event: Event): Checking {
    var op := event.op;
    match op
    case OpSetRules(rules) => RuleChecks(e, rules) + RecordRoom(e, op)
    case OpProposeRules(rules, description) =>
      [Check(description != "", EmptyDescription)]
      + (RuleChecks(e, rules) + [Check(event.host.now + e.delay <= 18446744073709551615, Trap)])
    case OpActivateRules =>
      [Check(e.pending.Some?, NoRulesPending),
       Check(e.pending.Some? ==> event.host.now >= e.pending.value.activateAt, TooEarlyToActivate)]
      + RecordRoom(e, op)
    case OpSetPaused(_) => RecordRoom(e, op)
    case OpNote(comment) => [Check(comment != "", EmptyGovernanceComment)] + RecordRoom(e, op)
    case OpBlock(a) => Counted(a in e.blocklist, |e.blocklist|) + RecordRoom(e, op)
    case OpUnblock(_) => RecordRoom(e, op)
    case OpAllow(a) =>
      [Check(a !in e.blocklist, BlocklistedAddressOnAllowlist)]
      + (Counted(a in e.allowlist, |e.allowlist|) + RecordRoom(e, op))
    case OpDisallow(_) => RecordRoom(e, op)
    case OpMigrate(toVersion, description) =>
      [Check(description != "", EmptyDescription), Check(toVersion != e.schema, AlreadyAtSchemaVersion),
       Check(e.schema < 4294967295, Trap)]
      + [Check(toVersion == e.schema + 1, MigrationVersionNotSequential), Check(Migratable(e, toVersion), Trap)]
    case OpRegister(a) => Counted(a in e.holderSince, e.holderCount)
    case OpUpdateSince(a, since) =>
      [Check(since >= 1, InvalidHolderSince)] + Counted(a in e.holderSince, e.holderCount)
    case OpSetTier(key, policy) =>
      [Check(policy.maxTransferAmount >= 0, NegativeTierTransferAmount),
       Check(policy.minFromTier <= 100 && policy.minToTier <= 100, InvalidTierPolicy)]
      + Counted(key in e.tierPolicies, e.tierCount)
    case OpJoin(from, to, amount) =>
      var decision := EvaluateTransfer(e, event.host, from, to, amount);
      [Check(decision.Allow?, if decision.Deny? then NotAllowed(decision.reason) else Trap)]
      + Counted(to in e.holderSince, e.holderCount)
    case _ => []
  }

  function Failure(r: Outcome): Option<ComplianceError> {
    if r.Err? then Some(r.error) else None
  }

  // ---- The first failing check decides ----------------------------------------------------------

  predicate OnRules(op: Op) {
    op.OpSetRules? || op.OpProposeRules? || op.OpActivateRules? || op.OpSetPaused? || op.OpNote?
  }

  predicate OnLists(op: Op) {
    op.OpBlock? || op.OpUnblock? || op.OpAllow? || op.OpDisallow? || op.OpMigrate?
  }

  predicate OnHoldersOrPolicies(op: Op) {
    op.OpRegister? || op.OpUpdateSince? || op.OpUnregister? || op.OpJoin? || op.OpSetTier? || op.OpClearTier?
    || op.OpConfigure?
  }

  lemma RulesFirst(e: Engine, rules: Rules)
    ensures First(RuleChecks(e, rules)) == ValidateRules(e, rules)
  {
    hide First;
    var cs := RuleChecks(e, rules);
    FirstOfThree(cs[0], cs[1], cs[2]);
  }

  lemma RuleAnswers(e: Engine, event: Event)
    requires OnRules(event.op)
    ensures First(Checks(e, event)) == Failure(Apply(e, event))
  {
    hide First, RuleChecks, ValidateRules;
    var op, now, room := event.op, event.host.now, RecordRoom(e, event.op);
    FirstOfOne(room[0]);
    match op
    case OpSetRules(rules) =>
      RulesFirst(e, rules);
      FirstJoin(RuleChecks(e, rules), room);
    case OpProposeRules(rules, description) =>
      RulesFirst(e, rules);
      var fits := Check(now + e.delay <= 18446744073709551615, Trap);
      FirstOfOne(fits);
      FirstOfOne(Check(description != "", EmptyDescription));
      FirstJoin(RuleChecks(e, rules), [fits]);
      FirstJoin([Check(description != "", EmptyDescription)], RuleChecks(e, rules) + [fits]);
    case OpActivateRules =>
      var gates: Checking := [Check(e.pending.Some?, NoRulesPending),
                              Check(e.pending.Some? ==> now >= e.pending.value.activateAt, TooEarlyToActivate)];
      FirstOfTwo(gates[0], gates[1]);
      FirstJoin(gates, room);
    case OpSetPaused(_) =>
    case OpNote(comment) =>
      FirstOfOne(Check(comment != "", EmptyGovernanceComment));
      FirstJoin([Check(comment != "", EmptyGovernanceComment)], room);
  }

  lemma ListAnswers(e: Engine, event: Event)
    requires OnLists(event.op)
    ensures First(Checks(e, event)) == Failure(Apply(e, event))
  {
    hide First, Added, Removed, Migrated;
    var op, now, room := event.op, event.host.now, RecordRoom(e, event.op);
    FirstOfOne(room[0]);
    match op
    case OpBlock(a) =>
      FirstOfOne(Counted(a in e.blocklist, |e.blocklist|)[0]);
      FirstJoin(Counted(a in e.blocklist, |e.blocklist|), room);
    case OpAllow(a) =>
      var counted := Counted(a in e.allowlist, |e.allowlist|);
      FirstOfOne(counted[0]);
      FirstOfOne(Check(a !in e.blocklist, BlocklistedAddressOnAllowlist));
      FirstJoin(counted, room);
      FirstJoin([Check(a !in e.blocklist, BlocklistedAddressOnAllowlist)], counted + room);
    case OpMigrate(toVersion, description) =>
      var gates: Checking := [Check(description != "", EmptyDescription),
                              Check(toVersion != e.schema, AlreadyAtSchemaVersion), Check(e.schema < 4294967295, Trap)];
      var rest: Checking := [Check(toVersion == e.schema + 1, MigrationVersionNotSequential),
                             Check(Migratable(e, toVersion), Trap)];
      FirstOfThree(gates[0], gates[1], gates[2]);
      FirstOfTwo(rest[0], rest[1]);
      FirstJoin(gates, rest);
    case _ =>
  }

  lemma CountAnswers(e: Engine, event: Event)
    requires event.op.OpRegister? || event.op.OpUpdateSince? || event.op.OpSetTier? || event.op.OpJoin?
    ensures First(Checks(e, event)) == Failure(Apply(e, event))
  {
    hide First, EvaluateTransfer;
    match event.op
    case OpRegister(a) => FirstOfOne(Counted(a in e.holderSince, e.holderCount)[0]);
    case OpUpdateSince(a, since) =>
      FirstOfOne(Counted(a in e.holderSince, e.holderCount)[0]);
      FirstOfOne(Check(since >= 1, InvalidHolderSince));
      FirstJoin([Check(since >= 1, InvalidHolderSince)], Counted(a in e.holderSince, e.holderCount));
    case OpSetTier(key, policy) =>
      var gates: Checking := [Check(policy.maxTransferAmount >= 0, NegativeTierTransferAmount),
                              Check(policy.minFromTier <= 100 && policy.minToTier <= 100, InvalidTierPolicy)];
      FirstOfTwo(gates[0], gates[1]);
      FirstOfOne(Counted(key in e.tierPolicies, e.tierCount)[0]);
      FirstJoin(gates, Counted(key in e.tierPolicies, e.tierCount));
    case OpJoin(from, to, amount) =>
      var decision := EvaluateTransfer(e, event.host, from, to, amount);
      var allowed: Check<ComplianceError> :=
        Check(decision.Allow?, if decision.Deny? then NotAllowed(decision.reason) else Trap);
      FirstOfOne(allowed);
      FirstOfOne(Counted(to in e.holderSince, e.holderCount)[0]);
      FirstJoin([allowed], Counted(to in e.holderSince, e.holderCount));
  }

  lemma NothingChecked(e: Engine, event: Event)
    requires event.op.OpUnregister? || event.op.OpClearTier? || event.op.OpConfigure?
    ensures First(Checks(e, event)) == None == Failure(Apply(e, event))
  {
  }

  /** Every call fails with the error of the first check that fails, and succeeds exactly when all of them pass. */
  lemma FirstFailedCheckDecides(e: Engine, event: Event, error: ComplianceError)
    ensures Apply(e, event) == Err(error) <==> FailsFirst(Checks(e, event), error)
    ensures Apply(e, event).Ok? <==> AllPass(Checks(e, event))
  {
    hide First, Checks, FailsFirst, AllPass, Apply;
    FirstMeaning(Checks(e, event), error);
    match event.op
    case OpBlock(_) => ListAnswers(e, event);
    case OpUnblock(_) => ListAnswers(e, event);
    case OpAllow(_) => ListAnswers(e, event);
    case OpDisallow(_) => ListAnswers(e, event);
    case OpMigrate(_, _) => ListAnswers(e, event);
    case OpRegister(_) => CountAnswers(e, event);
    case OpUpdateSince(_, _) => CountAnswers(e, event);
    case OpSetTier(_, _) => CountAnswers(e, event);
    case OpJoin(_, _, _) => CountAnswers(e, event);
    case OpUnregister(_) => NothingChecked(e, event);
    case OpClearTier(_) => NothingChecked(e, event);
    case OpConfigure(_) => NothingChecked(e, event);
    case _ => RuleAnswers(e, event);
  }

  // ---- What a success changes ----------------------------------------------------------------------

  function RulesAfter(e: Engine, op: Op): Rules {
    match op
    case OpSetRules(rules) => rules
    case OpActivateRules => if e.pending.Some? then e.pending.value.rules else e.rules
    case OpSetPaused(paused) => e.rules.(paused := paused)
    case _ => e.rules
  }

  /** Versions count up from zero. */
  function Appended(history: seq<PolicyRecord>, now: nat, note: Statement): seq<PolicyRecord> {
    if Repeats(history, note) then history
    else history + [PolicyRecord(|history|, now, note.rules, note.kind, note.text)]
  }

  /** The records after the call. */
  function HistoryAfter(e: Engine, event: Event): seq<PolicyRecord> {
    var note := StatementOf(e, event.op);
    if note.None? then e.history else Appended(e.history, event.host.now, note.value)
  }

  /** The time that the call writes for an address, if it does. */
  function Since(event: Event, a: Address): Option<int> {
    match event.op
    case OpRegister(b) => if a == b then Some(event.host.now) else None
    case OpUpdateSince(b, since) => if a == b then Some(since) else None
    case OpJoin(_, to, _) => if a == to then Some(event.host.now) else None
    case _ => None
  }

  ghost predicate HoldersAfter(e: Engine, event: Event, after: Engine) {
    && (forall a :: a in after.holderSince <==>
          Since(event, a).Some? || (a in e.holderSince && event.op != OpUnregister(a)))
    && (forall a :: a in after.holderSince ==>
          after.holderSince[a] == if Since(event, a).Some? then Since(event, a).value else e.holderSince[a])
  }

  ghost predicate ListsAfter(e: Engine, op: Op, after: Engine) {
    var migrates := op.OpMigrate? && op.toVersion == 2;
    && (forall a :: a in after.blocklist <==>
          (a in e.blocklist && op != OpUnblock(a)) || op == OpBlock(a) || (migrates && a in e.legacyBlocklist))
    && (forall a :: a in after.allowlist <==>
          (a in e.allowlist && op != OpDisallow(a)) || op == OpAllow(a) || (migrates && a in e.legacyAllowlist))
    && after.legacyBlocklist == (if migrates then [] else e.legacyBlocklist)
    && after.legacyAllowlist == (if migrates then [] else e.legacyAllowlist)
  }

  ghost predicate PoliciesAfter(e: Engine, op: Op, after: Engine) {
    forall k ::
      && (k in after.tierPolicies <==> (k in e.tierPolicies && op != OpClearTier(k)) || (op.OpSetTier? && op.key == k))
      && (k in after.tierPolicies ==>
            after.tierPolicies[k] == if op.OpSetTier? && op.key == k then op.policy else e.tierPolicies[k])
  }

  /** Everything after a successful call, the two counters aside. */
  ghost predicate Changed(e: Engine, event: Event, after: Engine) {
    var op, now := event.op, event.host.now;
    && after.rules == RulesAfter(e, op) && after.history == HistoryAfter(e, event)
    && after.pending == (match op
                         case OpProposeRules(rules, description) => Some(Proposal(rules, now + e.delay, description))
                         case OpActivateRules => None
                         case _ => e.pending)
    && HoldersAfter(e, event, after) && ListsAfter(e, op, after) && PoliciesAfter(e, op, after)
    && after.delay == e.delay
    && after.settings == (if op.OpConfigure? then op.settings else e.settings)
    && after.schema == (if op.OpMigrate? then op.toVersion else e.schema)
    && after.migrations == e.migrations + (if op.OpMigrate? then
                                             [Migration(e.schema, op.toVersion, now, op.description)] else [])
  }

  lemma SameHolders(e: Engine, event: Event, after: Engine)
    requires after.holderSince == e.holderSince
    requires !event.op.OpRegister? && !event.op.OpUpdateSince? && !event.op.OpUnregister? && !event.op.OpJoin?
    ensures HoldersAfter(e, event, after)
  {
  }

  lemma SameLists(e: Engine, op: Op, after: Engine)
    requires after.blocklist == e.blocklist && after.legacyBlocklist == e.legacyBlocklist
    requires after.allowlist == e.allowlist && after.legacyAllowlist == e.legacyAllowlist
    requires !op.OpBlock? && !op.OpUnblock? && !op.OpAllow? && !op.OpDisallow? && !op.OpMigrate?
    ensures ListsAfter(e, op, after)
  {
  }

  lemma SamePolicies(e: Engine, op: Op, after: Engine)
    requires after.tierPolicies == e.tierPolicies && !op.OpSetTier? && !op.OpClearTier?
    ensures PoliciesAfter(e, op, after)
  {
  }

  lemma RecordedHistory(e: Engine, now: nat, kind: ChangeKind, given: string)
    ensures var r := Recorded(e, now, kind, given);
            r.Ok? ==>
              && r.value.history == Appended(e.history, now, Statement(e.rules, kind, Described(kind, given)))
              && r.value == e.(history := r.value.history)
  {
    hide Described;
  }

  lemma RuleHistory(e: Engine, event: Event)
    requires Apply(e, event).Ok?
    requires OnRules(event.op)
    ensures Apply(e, event).value.history == HistoryAfter(e, event)
  {
    hide ValidateRules, Recorded, Repeats;
    var now := event.host.now;
    match event.op
    case OpSetRules(rules) => RecordedHistory(e.(rules := rules), now, ImmediateRuleUpdate, "");
    case OpProposeRules(_, _) =>
    case OpActivateRules =>
      var proposal := e.pending.value;
      RecordedHistory(e.(rules := proposal.rules, pending := None), now, DelayedRuleActivation, proposal.description);
    case OpSetPaused(paused) =>
      RecordedHistory(e.(rules := e.rules.(paused := paused)), now, if paused then Pause else Unpause, "");
    case OpNote(comment) => RecordedHistory(e, now, ImmediateRuleUpdate, comment);
  }

  lemma ListHistory(e: Engine, event: Event)
    requires Apply(e, event).Ok?
    requires OnLists(event.op)
    ensures Apply(e, event).value.history == HistoryAfter(e, event)
  {
    hide Recorded, Repeats, Added, Removed, Migrated;
    var now := event.host.now;
    match event.op
    case OpBlock(a) => RecordedHistory(e.(blocklist := Added(e.blocklist, a)), now, BlocklistAdd, "");
    case OpUnblock(a) => RecordedHistory(e.(blocklist := Removed(e.blocklist, a)), now, BlocklistRemove, "");
    case OpAllow(a) => RecordedHistory(e.(allowlist := Added(e.allowlist, a)), now, AllowlistAdd, "");
    case OpDisallow(a) => RecordedHistory(e.(allowlist := Removed(e.allowlist, a)), now, AllowlistRemove, "");
    case OpMigrate(_, _) =>
  }

  lemma CountHistory(e: Engine, event: Event)
    requires Apply(e, event).Ok?
    requires OnHoldersOrPolicies(event.op)
    ensures Apply(e, event).value.history == HistoryAfter(e, event)
  {
    hide EvaluateTransfer;
  }

  lemma RulesChange(e: Engine, event: Event)
    requires Apply(e, event).Ok?
    requires OnRules(event.op)
    ensures Changed(e, event, Apply(e, event).value)
  {
    hide ValidateRules, HoldersAfter, ListsAfter, PoliciesAfter, HistoryAfter;
    RuleHistory(e, event);
    var after := Apply(e, event).value;
    SameHolders(e, event, after);
    SameLists(e, event.op, after);
    SamePolicies(e, event.op, after);
  }

  lemma ListMembers(s: seq<Address>, a: Address, legacy: seq<Address>)
    requires Distinct(s)
    ensures forall b :: b in Added(s, a) <==> b in s || b == a
    ensures forall b :: b in Removed(s, a) <==> b in s && b != a
    ensures forall b :: b in Migrated(s, legacy) <==> b in s || b in legacy
  {
    RemovedElements(s, a);
    MigratedElements(s, legacy);
    forall b
      ensures b in Removed(s, a) <==> b in s && b != a
      ensures b in Migrated(s, legacy) <==> b in s || b in legacy
    {
      assert b in Removed(s, a) <==> b in Elements(Removed(s, a));
      assert b in Migrated(s, legacy) <==> b in Elements(Migrated(s, legacy));
      assert b in s <==> b in Elements(s);
      assert b in legacy <==> b in Elements(legacy);
    }
  }

  lemma ListsChange(e: Engine, event: Event)
    requires Apply(e, event).Ok? && Distinct(e.blocklist) && Distinct(e.allowlist)
    requires OnLists(event.op)
    ensures Changed(e, event, Apply(e, event).value)
  {
    hide Added, Removed, Migrated, Distinct, HoldersAfter, ListsAfter, PoliciesAfter, HistoryAfter;
    ListHistory(e, event);
    var after := Apply(e, event).value;
    SameHolders(e, event, after);
    SamePolicies(e, event.op, after);
    MembersChange(e, event);
  }

  lemma MembersChange(e: Engine, event: Event)
    requires Apply(e, event).Ok? && Distinct(e.blocklist) && Distinct(e.allowlist)
    requires OnLists(event.op)
    ensures ListsAfter(e, event.op, Apply(e, event).value)
  {
    hide Added, Removed, Migrated, Distinct;
    if event.op.OpMigrate? {
      ListMembers(e.blocklist, Address(0), e.legacyBlocklist);
      ListMembers(e.allowlist, Address(0), e.legacyAllowlist);
    } else {
      ListMembers(e.blocklist, event.op.a, []);
      ListMembers(e.allowlist, event.op.a, []);
    }
  }

  lemma HoldersChange(e: Engine, event: Event)
    requires Apply(e, event).Ok?
    requires OnHoldersOrPolicies(event.op)
    ensures HoldersAfter(e, event, Apply(e, event).value)
  {
    hide EvaluateTransfer;
  }

  lemma PoliciesChange(e: Engine, event: Event)
    requires Apply(e, event).Ok?
    requires OnHoldersOrPolicies(event.op)
    ensures PoliciesAfter(e, event.op, Apply(e, event).value)
  {
    hide EvaluateTransfer;
  }

  lemma CountsChange(e: Engine, event: Event)
    requires Apply(e, event).Ok?
    requires OnHoldersOrPolicies(event.op)
    ensures Changed(e, event, Apply(e, event).value)
  {
    hide EvaluateTransfer, ListsAfter, HoldersAfter, PoliciesAfter, HistoryAfter;
    SameLists(e, event.op, Apply(e, event).value);
    CountHistory(e, event);
    HoldersChange(e, event);
    PoliciesChange(e, event);
  }

  /** A successful call changes rules, history, proposal, holders, lists, policies, settings and schema by exactly
      this. */
  lemma SuccessChanges(e: Engine, event: Event)
    requires Apply(e, event).Ok? && Distinct(e.blocklist) && Distinct(e.allowlist)
    ensures Changed(e, event, Apply(e, event).value)
  {
    hide Apply, Changed, Distinct;
    match event.op
    case OpBlock(_) => ListsChange(e, event);
    case OpUnblock(_) => ListsChange(e, event);
    case OpAllow(_) => ListsChange(e, event);
    case OpDisallow(_) => ListsChange(e, event);
    case OpMigrate(_, _) => ListsChange(e, event);
    case OpSetRules(_) => RulesChange(e, event);
    case OpProposeRules(_, _) => RulesChange(e, event);
    case OpActivateRules => RulesChange(e, event);
    case OpSetPaused(_) => RulesChange(e, event);
    case OpNote(_) => RulesChange(e, event);
    case _ => CountsChange(e, event);
  }

  /** The first migration goes to version 2. */
  lemma FirstMigration(t0: nat, delay: nat, legacyBlocklist: seq<Address>, legacyAllowlist: seq<Address>, host: Host,
                       toVersion: nat, description: string)
    ensures var start := Initial(t0, delay, legacyBlocklist, legacyAllowlist);
            Apply(start, Event(host, OpMigrate(toVersion, description))).Ok?
            <==> && description != "" && toVersion == 2
                 && |Migrated([], legacyBlocklist)| <= 4294967295 && |Migrated([], legacyAllowlist)| <= 4294967295
  {
    hide Migrated;
  }
}
