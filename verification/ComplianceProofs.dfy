/** What the compliance engine keeps over every sequence of calls. */
module ComplianceProofs {
  import opened Prelude
  import opened MemberLists
  import opened ComplianceModel

  // ---- The invariant -----------------------------------------------------------------

  /** Versions count up from zero, the last one holds the rules in force, and no record repeats the one before it. */
  ghost predicate HistoryOk(history: seq<PolicyRecord>, rules: Rules) {
    && 0 < |history| <= U32_MAX
    && (forall i :: 0 <= i < |history| ==> history[i].version == i)
    && history[|history| - 1].rules == rules
    && forall i :: 0 < i < |history| && Dedupable(history[i].kind) ==>
         !SameTransition(history[i - 1], history[i].rules, history[i].kind, history[i].description)
  }

  ghost predicate Good(e: Engine) {
    && HistoryOk(e.history, e.rules)
    && e.holderCount == |e.holderSince|
    && e.tierCount == |e.tierPolicies|
    && Distinct(e.blocklist) && Distinct(e.allowlist)
  }

  /** Whatever rules are in force, recording them restores the link between history and rules. */
  lemma RecordedKeeps(e: Engine, rules: Rules, now: nat, kind: ChangeKind, description: string)
    requires HistoryOk(e.history, rules) && Recorded(e, now, kind, description).Ok?
    requires Dedupable(kind) || e.rules == rules
    ensures var after := Recorded(e, now, kind, description).value;
            && HistoryOk(after.history, e.rules) && after == e.(history := after.history)
            && e.history <= after.history && |after.history| <= |e.history| + 1
            && (|after.history| > |e.history| ==> after.history[|e.history|].activation == now)
  {
    hide Described, Dedupable;
  }

  lemma ListsKeep(e: Engine, a: Address)
    requires Distinct(e.blocklist) && Distinct(e.allowlist)
    ensures Distinct(Added(e.blocklist, a)) && Distinct(Removed(e.blocklist, a))
    ensures Distinct(Added(e.allowlist, a)) && Distinct(Removed(e.allowlist, a))
  {
    AddedElements(e.blocklist, a);
    AddedElements(e.allowlist, a);
    RemovedElements(e.blocklist, a);
    RemovedElements(e.allowlist, a);
  }

  /** How one call extends the history. */
  ghost predicate Extends(before: seq<PolicyRecord>, after: seq<PolicyRecord>, now: nat) {
    && before <= after && |after| <= |before| + 1
    && (|after| > |before| ==> after[|before|].activation == now)
  }

  lemma RulesStep(e: Engine, event: Event)
    requires Good(e) && Apply(e, event).Ok?
    requires event.op.OpSetRules? || event.op.OpProposeRules? || event.op.OpActivateRules? || event.op.OpSetPaused?
             || event.op.OpNote?
    ensures Good(Apply(e, event).value) && Extends(e.history, Apply(e, event).value.history, event.host.now)
  {
    hide HistoryOk, Recorded, Distinct;
    var now := event.host.now;
    match event.op
    case OpSetRules(rules) => RecordedKeeps(e.(rules := rules), e.rules, now, ImmediateRuleUpdate, "");
    case OpActivateRules =>
      var p := e.pending.value;
      RecordedKeeps(e.(rules := p.rules, pending := None), e.rules, now, DelayedRuleActivation, p.description);
    case OpSetPaused(paused) =>
      RecordedKeeps(e.(rules := e.rules.(paused := paused)), e.rules, now, if paused then Pause else Unpause, "");
    case OpNote(comment) => RecordedKeeps(e, e.rules, now, ImmediateRuleUpdate, comment);
    case OpProposeRules(_, _) =>
  }

  lemma ListStep(e: Engine, event: Event)
    requires Good(e) && Apply(e, event).Ok?
    requires event.op.OpBlock? || event.op.OpUnblock? || event.op.OpAllow? || event.op.OpDisallow?
             || event.op.OpMigrate?
    ensures Good(Apply(e, event).value) && Extends(e.history, Apply(e, event).value.history, event.host.now)
  {
    hide HistoryOk, Recorded, Distinct, Added, Removed, Migrated, DefaultText;
    var now := event.host.now;
    match event.op
    case OpBlock(a) =>
      ListsKeep(e, a);
      if a !in e.blocklist {
        RecordedKeeps(e.(blocklist := Added(e.blocklist, a)), e.rules, now, BlocklistAdd, "");
      }
    case OpUnblock(a) =>
      ListsKeep(e, a);
      if a in e.blocklist {
        RecordedKeeps(e.(blocklist := Removed(e.blocklist, a)), e.rules, now, BlocklistRemove, "");
      }
    case OpAllow(a) =>
      ListsKeep(e, a);
      if a !in e.allowlist {
        RecordedKeeps(e.(allowlist := Added(e.allowlist, a)), e.rules, now, AllowlistAdd, "");
      }
    case OpDisallow(a) =>
      ListsKeep(e, a);
      if a in e.allowlist {
        RecordedKeeps(e.(allowlist := Removed(e.allowlist, a)), e.rules, now, AllowlistRemove, "");
      }
    case OpMigrate(_, _) =>
      MigratedElements(e.blocklist, e.legacyBlocklist);
      MigratedElements(e.allowlist, e.legacyAllowlist);
  }

  lemma NewKey<K, V>(m: map<K, V>, k: K, v: V)
    ensures |m[k := v]| == if k in m then |m| else |m| + 1
    ensures |m - {k}| == if k in m then |m| - 1 else |m|
  {
    var n := m[k := v];
    assert n.Keys == m.Keys + {k};
    assert (m - {k}).Keys == m.Keys - {k};
    assert |n.Keys| == |n| && |m.Keys| == |m| && |(m - {k}).Keys| == |m - {k}|;
  }

  lemma SinceKeeps(e: Engine, a: Address, since: nat)
    requires Good(e) && SetSince(e, a, since).Ok?
    ensures Good(SetSince(e, a, since).value) && SetSince(e, a, since).value.history == e.history
  {
    hide HistoryOk, Distinct;
    NewKey(e.holderSince, a, since);
  }

  lemma UnregisterKeeps(e: Engine, a: Address)
    requires Good(e)
    ensures Good(Unregister(e, a).value) && Unregister(e, a).value.history == e.history
  {
    hide HistoryOk, Distinct;
    NewKey(e.holderSince, a, 0);
  }

  lemma SetTierKeeps(e: Engine, key: (nat, nat), policy: TierPolicy)
    requires Good(e) && SetTier(e, key, policy).Ok?
    ensures Good(SetTier(e, key, policy).value) && SetTier(e, key, policy).value.history == e.history
  {
    hide HistoryOk, Distinct;
    NewKey(e.tierPolicies, key, policy);
  }

  lemma ClearTierKeeps(e: Engine, key: (nat, nat))
    requires Good(e)
    ensures Good(ClearTier(e, key).value) && ClearTier(e, key).value.history == e.history
  {
    hide HistoryOk, Distinct;
    NewKey(e.tierPolicies, key, TierPolicy(false, 0, 0, 0));
  }

  lemma CountStep(e: Engine, event: Event)
    requires Good(e) && Apply(e, event).Ok?
    requires event.op.OpRegister? || event.op.OpUpdateSince? || event.op.OpUnregister? || event.op.OpSetTier?
             || event.op.OpClearTier? || event.op.OpConfigure? || event.op.OpJoin?
    ensures Good(Apply(e, event).value) && Extends(e.history, Apply(e, event).value.history, event.host.now)
  {
    hide HistoryOk, Distinct, EvaluateTransfer, SetSince, Unregister, SetTier, ClearTier;
    match event.op
    case OpRegister(a) => SinceKeeps(e, a, event.host.now);
    case OpUpdateSince(a, since) =>
      if since > 0 {
        SinceKeeps(e, a, since);
      }
    case OpUnregister(a) => UnregisterKeeps(e, a);
    case OpSetTier(key, policy) => SetTierKeeps(e, key, policy);
    case OpClearTier(key) => ClearTierKeeps(e, key);
    case OpJoin(_, to, _) => SinceKeeps(e, to, event.host.now);
    case OpConfigure(_) =>
  }

  lemma GoodStep(e: Engine, event: Event)
    requires Good(e)
    ensures Good(Next(e, event)) && Extends(e.history, Next(e, event).history, event.host.now)
  {
    hide Good, Apply;
    if Apply(e, event).Ok? {
      match event.op
      case OpSetRules(_) => RulesStep(e, event);
      case OpProposeRules(_, _) => RulesStep(e, event);
      case OpActivateRules => RulesStep(e, event);
      case OpSetPaused(_) => RulesStep(e, event);
      case OpNote(_) => RulesStep(e, event);
      case OpBlock(_) => ListStep(e, event);
      case OpUnblock(_) => ListStep(e, event);
      case OpAllow(_) => ListStep(e, event);
      case OpDisallow(_) => ListStep(e, event);
      case OpMigrate(_, _) => ListStep(e, event);
      case OpRegister(_) => CountStep(e, event);
      case OpUpdateSince(_, _) => CountStep(e, event);
      case OpUnregister(_) => CountStep(e, event);
      case OpSetTier(_, _) => CountStep(e, event);
      case OpClearTier(_) => CountStep(e, event);
      case OpConfigure(_) => CountStep(e, event);
      case OpJoin(_, _, _) => CountStep(e, event);
    }
  }

  lemma InitialGood(t0: nat, delay: nat, legacyBlocklist: seq<Address>, legacyAllowlist: seq<Address>)
    ensures Good(Initial(t0, delay, legacyBlocklist, legacyAllowlist))
  {
  }

  lemma {:induction false} RunGood(e: Engine, events: seq<Event>)
    requires Good(e)
    ensures Good(Run(e, events))
    decreases |events|
  {
    hide Good, Next;
    if events != [] {
      RunGood(e, events[..|events| - 1]);
      GoodStep(Run(e, events[..|events| - 1]), events[|events| - 1]);
    }
  }

  // ---- Replaying the history ------------------------------------------------------------

  /** The rules of the highest version activated at or before a time. */
  function InForce(history: seq<PolicyRecord>, t: nat): Option<Rules> {
    if history == [] then None
    else if history[|history| - 1].activation <= t then Some(history[|history| - 1].rules)
    else InForce(history[..|history| - 1], t)
  }

  /** How many calls were made up to the last one at or before a time. */
  function CallsUntil(events: seq<Event>, t: nat): (n: nat)
    ensures n <= |events|
  {
    if events == [] || events[|events| - 1].host.now <= t then |events| else CallsUntil(events[..|events| - 1], t)
  }

  /** Ledger time does not run backwards. */
  ghost predicate Ordered(t0: nat, events: seq<Event>) {
    && (forall i :: 0 <= i < |events| ==> t0 <= events[i].host.now)
    && (forall i, j :: 0 <= i < j < |events| ==> events[i].host.now <= events[j].host.now)
  }

  ghost predicate LastBy(history: seq<PolicyRecord>, now: nat) {
    history != [] && history[|history| - 1].activation <= now
  }

  lemma {:induction false} LastRecordBy(t0: nat, e: Engine, events: seq<Event>, now: nat)
    requires Good(e) && LastBy(e.history, t0) && Ordered(t0, events) && t0 <= now
    requires events != [] ==> events[|events| - 1].host.now <= now
    ensures LastBy(Run(e, events).history, now)
    decreases |events|
  {
    hide Good, Next;
    if events != [] {
      var init, last := events[..|events| - 1], events[|events| - 1];
      LastRecordBy(t0, e, init, now);
      RunGood(e, init);
      GoodStep(Run(e, init), last);
    }
  }

  lemma CurrentRules(e: Engine, t: nat)
    requires Good(e) && LastBy(e.history, t)
    ensures InForce(e.history, t) == Some(e.rules)
  {
  }

  /** At every time the rules in force are those of the highest version activated by then. */
  lemma {:induction false} HistoryReplays(t0: nat, e: Engine, events: seq<Event>, t: nat)
    requires Good(e) && LastBy(e.history, t0) && Ordered(t0, events) && t0 <= t
    ensures InForce(Run(e, events).history, t) == Some(Run(e, events[..CallsUntil(events, t)]).rules)
    decreases |events|
  {
    hide Good, Next;
    if events == [] || events[|events| - 1].host.now <= t {
      assert events[..|events|] == events;
      LastRecordBy(t0, e, events, t);
      RunGood(e, events);
      CurrentRules(Run(e, events), t);
    } else {
      var init, last := events[..|events| - 1], events[|events| - 1];
      HistoryReplays(t0, e, init, t);
      RunGood(e, init);
      GoodStep(Run(e, init), last);
      LaterRecord(Run(e, init).history, Next(Run(e, init), last).history, last.host.now, t);
      assert init[..CallsUntil(init, t)] == events[..CallsUntil(init, t)];
    }
  }

  lemma LaterRecord(before: seq<PolicyRecord>, after: seq<PolicyRecord>, now: nat, t: nat)
    requires Extends(before, after, now) && t < now
    ensures InForce(after, t) == InForce(before, t)
  {
    if |after| > |before| {
      assert after[..|after| - 1] == before;
    } else {
      assert after == before;
    }
  }

  /** Records are never rewritten: the history after some of the calls is a prefix of the history after all of them. */
  lemma {:induction false} HistoryOnlyGrows(e: Engine, events: seq<Event>, k: nat)
    requires Good(e) && k <= |events|
    ensures Run(e, events[..k]).history <= Run(e, events).history
    decreases |events|
  {
    hide Good, Next;
    if k < |events| {
      var init := events[..|events| - 1];
      HistoryOnlyGrows(e, init, k);
      assert init[..k] == events[..k];
      RunGood(e, init);
      GoodStep(Run(e, init), events[|events| - 1]);
    } else {
      assert events[..k] == events;
    }
  }

  /** Every history starts with the same record: no rule in force, made at initialization. */
  lemma FirstRecord(t0: nat, delay: nat, legacyBlocklist: seq<Address>, legacyAllowlist: seq<Address>,
                    events: seq<Event>)
    ensures var history := Run(Initial(t0, delay, legacyBlocklist, legacyAllowlist), events).history;
            && history != []
            && history[0] == PolicyRecord(0, t0, Rules(0, 0, 0, false, false, false, 0), ImmediateRuleUpdate, "initial")
  {
    var start := Initial(t0, delay, legacyBlocklist, legacyAllowlist);
    InitialGood(t0, delay, legacyBlocklist, legacyAllowlist);
    HistoryOnlyGrows(start, events, 0);
    assert events[..0] == [] && Run(start, []) == start;
    assert start.history[0] == Run(start, events).history[0];
  }

  /** From initialization on, versions are numbered without gaps, the last one holds the rules in force although
      repeated records are dropped, no rule record repeats the one before it, and the history replays. */
  lemma PolicyHistory(t0: nat, delay: nat, legacyBlocklist: seq<Address>, legacyAllowlist: seq<Address>,
                      events: seq<Event>, t: nat)
    requires Ordered(t0, events) && t0 <= t
    ensures var start := Initial(t0, delay, legacyBlocklist, legacyAllowlist);
            var e := Run(start, events);
            && e.history != [] && e.history[|e.history| - 1].rules == e.rules
            && (forall i :: 0 <= i < |e.history| ==> e.history[i].version == i)
            && (forall i :: 0 < i < |e.history| && Dedupable(e.history[i].kind) ==>
                  !SameTransition(e.history[i - 1], e.history[i].rules, e.history[i].kind, e.history[i].description))
            && InForce(e.history, t) == Some(Run(start, events[..CallsUntil(events, t)]).rules)
  {
    var start := Initial(t0, delay, legacyBlocklist, legacyAllowlist);
    InitialGood(t0, delay, legacyBlocklist, legacyAllowlist);
    RunGood(start, events);
    HistoryReplays(t0, start, events, t);
  }

  // ---- The time lock ------------------------------------------------------------------------

  /** Call `j` succeeded and changed the pending proposal. */
  ghost predicate ChangesProposal(e: Engine, events: seq<Event>, j: nat)
    requires j < |events|
  {
    Apply(Run(e, events[..j]), events[j]).Ok? && (events[j].op.OpProposeRules? || events[j].op.OpActivateRules?)
  }

  /** Call `i` made the proposal that is pending after all the calls. */
  ghost predicate PendingSince(e: Engine, events: seq<Event>, i: nat) {
    && i < |events| && events[i].op.OpProposeRules? && ChangesProposal(e, events, i)
    && Run(e, events).pending
       == Some(Proposal(events[i].op.rules, events[i].host.now + e.delay, events[i].op.description))
    && forall j :: i < j < |events| ==> !ChangesProposal(e, events, j)
  }

  lemma RecordedFrame(e: Engine, now: nat, kind: ChangeKind, description: string)
    ensures var r := Recorded(e, now, kind, description); r.Ok? ==> r.value == e.(history := r.value.history)
  {
    hide Described, SameTransition;
  }

  lemma PendingFrame(e: Engine, event: Event)
    ensures Next(e, event).delay == e.delay
    ensures Apply(e, event).Err? || !(event.op.OpProposeRules? || event.op.OpActivateRules?) ==>
              Next(e, event).pending == e.pending
    ensures Apply(e, event).Ok? && event.op.OpActivateRules? ==> Next(e, event).pending == None
    ensures Apply(e, event).Ok? && event.op.OpProposeRules? ==>
              Next(e, event).pending == Some(Proposal(event.op.rules, event.host.now + e.delay, event.op.description))
  {
    hide ValidateRules, EvaluateTransfer, Recorded, Added, Removed, Migrated;
    var now := event.host.now;
    match event.op
    case OpSetRules(rules) => RecordedFrame(e.(rules := rules), now, ImmediateRuleUpdate, "");
    case OpActivateRules =>
      if e.pending.Some? {
        var p := e.pending.value;
        RecordedFrame(e.(rules := p.rules, pending := None), now, DelayedRuleActivation, p.description);
      }
    case OpSetPaused(paused) =>
      RecordedFrame(e.(rules := e.rules.(paused := paused)), now, if paused then Pause else Unpause, "");
    case OpNote(comment) => RecordedFrame(e, now, ImmediateRuleUpdate, comment);
    case OpBlock(a) => RecordedFrame(e.(blocklist := Added(e.blocklist, a)), now, BlocklistAdd, "");
    case OpUnblock(a) => RecordedFrame(e.(blocklist := Removed(e.blocklist, a)), now, BlocklistRemove, "");
    case OpAllow(a) => RecordedFrame(e.(allowlist := Added(e.allowlist, a)), now, AllowlistAdd, "");
    case OpDisallow(a) => RecordedFrame(e.(allowlist := Removed(e.allowlist, a)), now, AllowlistRemove, "");
    case _ =>
  }

  lemma {:induction false} DelayIsFixed(e: Engine, events: seq<Event>)
    ensures Run(e, events).delay == e.delay
    decreases |events|
  {
    hide Next;
    if events != [] {
      DelayIsFixed(e, events[..|events| - 1]);
      PendingFrame(Run(e, events[..|events| - 1]), events[|events| - 1]);
    }
  }

  lemma {:induction false} LatestProposal(e: Engine, events: seq<Event>) returns (i: nat)
    requires e.pending.None? && Run(e, events).pending.Some?
    ensures PendingSince(e, events, i)
    decreases |events|
  {
    hide Next, Apply;
    i := 0;
    if events != [] {
      var n := |events| - 1;
      var init, last := events[..n], events[n];
      PendingFrame(Run(e, init), last);
      DelayIsFixed(e, init);
      if ChangesProposal(e, events, n) {
        i := n;
      } else {
        i := LatestProposal(e, init);
        assert init[..i] == events[..i];
        forall j | i < j < |events|
          ensures !ChangesProposal(e, events, j)
        {
          if j < n {
            assert init[..j] == events[..j];
            assert !ChangesProposal(e, init, j);
          }
        }
      }
    }
  }

  /** Every successful activation installs the latest proposal, which was made at least the delay earlier. */
  lemma ActivationInstallsLatest(e: Engine, events: seq<Event>, k: nat) returns (i: nat)
    requires e.pending.None? && k < |events|
    requires events[k].op.OpActivateRules? && Apply(Run(e, events[..k]), events[k]).Ok?
    ensures PendingSince(e, events[..k], i)
    ensures Run(e, events[..k + 1]).rules == events[i].op.rules
    ensures events[i].host.now + e.delay <= events[k].host.now
  {
    i := LatestProposal(e, events[..k]);
    assert events[..k + 1][..k] == events[..k];
  }

  // ---- Holders ----------------------------------------------------------------------------------

  ghost predicate WithinCap(e: Engine) {
    e.rules.maxHolders > 0 ==> e.holderCount <= e.rules.maxHolders
  }

  /** Calls that do not bypass the cap: holders join through an evaluated transfer, and rules change with validation. */
  predicate Guarded(op: Op) {
    !op.OpActivateRules? && !op.OpRegister? && !op.OpUpdateSince?
  }

  lemma JoinWithinCap(e: Engine, host: Host, from: Address, to: Address, amount: int)
    requires WithinCap(e) && Join(e, host, from, to, amount).Ok?
    ensures WithinCap(Join(e, host, from, to, amount).value)
  {
    hide KycCheck, JurisdictionCheck, TierCheck, RiskCheck, ListCheck, HeldTooShort, HeldTooLong;
  }

  lemma CapStep(e: Engine, event: Event)
    requires WithinCap(e) && Guarded(event.op)
    ensures WithinCap(Next(e, event))
  {
    hide Recorded, Added, Removed, Migrated, Join;
    var now := event.host.now;
    match event.op
    case OpSetRules(rules) => RecordedFrame(e.(rules := rules), now, ImmediateRuleUpdate, "");
    case OpSetPaused(paused) =>
      RecordedFrame(e.(rules := e.rules.(paused := paused)), now, if paused then Pause else Unpause, "");
    case OpNote(comment) => RecordedFrame(e, now, ImmediateRuleUpdate, comment);
    case OpBlock(a) => RecordedFrame(e.(blocklist := Added(e.blocklist, a)), now, BlocklistAdd, "");
    case OpUnblock(a) => RecordedFrame(e.(blocklist := Removed(e.blocklist, a)), now, BlocklistRemove, "");
    case OpAllow(a) => RecordedFrame(e.(allowlist := Added(e.allowlist, a)), now, AllowlistAdd, "");
    case OpDisallow(a) => RecordedFrame(e.(allowlist := Removed(e.allowlist, a)), now, AllowlistRemove, "");
    case OpJoin(from, to, amount) =>
      if Join(e, event.host, from, to, amount).Ok? {
        JoinWithinCap(e, event.host, from, to, amount);
      }
    case _ =>
  }

  lemma {:induction false} CapOverRun(e: Engine, events: seq<Event>)
    requires Good(e) && WithinCap(e) && forall i :: 0 <= i < |events| ==> Guarded(events[i].op)
    ensures WithinCap(Run(e, events))
    decreases |events|
  {
    hide Good, Next, WithinCap;
    if events != [] {
      CapOverRun(e, events[..|events| - 1]);
      RunGood(e, events[..|events| - 1]);
      CapStep(Run(e, events[..|events| - 1]), events[|events| - 1]);
    }
  }

  /** Counters are exact in every reachable state, and a positive holder cap is never exceeded while holders join only
      through evaluated transfers and rules change only with validation. */
  lemma HolderCap(t0: nat, delay: nat, legacyBlocklist: seq<Address>, legacyAllowlist: seq<Address>, events: seq<Event>)
    ensures var e := Run(Initial(t0, delay, legacyBlocklist, legacyAllowlist), events);
            && e.holderCount == |e.holderSince| && e.tierCount == |e.tierPolicies|
            && ((forall i :: 0 <= i < |events| ==> Guarded(events[i].op)) && e.rules.maxHolders > 0 ==>
                  |e.holderSince| <= e.rules.maxHolders)
  {
    var start := Initial(t0, delay, legacyBlocklist, legacyAllowlist);
    InitialGood(t0, delay, legacyBlocklist, legacyAllowlist);
    RunGood(start, events);
    if forall i :: 0 <= i < |events| ==> Guarded(events[i].op) {
      CapOverRun(start, events);
    }
  }

  /** Activation keeps the cap exactly when the proposed cap still covers the holders at that time. */
  lemma ActivationAndCap(e: Engine, now: nat)
    requires ActivateRules(e, now).Ok?
    ensures WithinCap(ActivateRules(e, now).value)
            <==> e.pending.value.rules.maxHolders == 0 || e.holderCount <= e.pending.value.rules.maxHolders
  {
  }

  /** Registering directly keeps the cap exactly when the address is a holder already or there is room. */
  lemma RegistrationAndCap(e: Engine, a: Address, since: nat)
    requires WithinCap(e) && SetSince(e, a, since).Ok?
    ensures WithinCap(SetSince(e, a, since).value)
            <==> a in e.holderSince || e.rules.maxHolders == 0 || e.holderCount < e.rules.maxHolders
  {
  }

  /** The call leaves the cap respected: an activated cap covers the holders, a direct registration has room. */
  predicate Covers(e: Engine, event: Event) {
    Apply(e, event).Ok? ==>
      match event.op
      case OpActivateRules =>
        e.pending.Some? && (e.pending.value.rules.maxHolders == 0 || e.holderCount <= e.pending.value.rules.maxHolders)
      case OpRegister(a) => a in e.holderSince || e.rules.maxHolders == 0 || e.holderCount < e.rules.maxHolders
      case OpUpdateSince(a, _) => a in e.holderSince || e.rules.maxHolders == 0 || e.holderCount < e.rules.maxHolders
      case _ => true
  }

  lemma CapStepExactly(e: Engine, event: Event)
    requires WithinCap(e)
    ensures WithinCap(Next(e, event)) <==> Covers(e, event)
  {
    if Guarded(event.op) {
      CapStep(e, event);
    } else if Apply(e, event).Ok? {
      hide Recorded, Added, Removed, Migrated, Join;
      var now := event.host.now;
      match event.op
      case OpActivateRules =>
        var p := e.pending.value;
        RecordedFrame(e.(rules := p.rules, pending := None), now, DelayedRuleActivation, p.description);
      case OpRegister(a) => RegistrationAndCap(e, a, now);
      case OpUpdateSince(a, since) => RegistrationAndCap(e, a, since);
    }
  }

  lemma RunSnoc(e: Engine, events: seq<Event>, k: nat)
    requires k < |events|
    ensures Run(e, events[..k + 1]) == Next(Run(e, events[..k]), events[k])
  {
    hide Next;
    assert events[..k + 1][..k] == events[..k];
  }

  lemma CoversFollows(e: Engine, events: seq<Event>, k: nat)
    requires k < |events| && WithinCap(Run(e, events[..k])) && WithinCap(Run(e, events[..k + 1]))
    ensures Covers(Run(e, events[..k]), events[k])
  {
    hide *;
    RunSnoc(e, events, k);
    CapStepExactly(Run(e, events[..k]), events[k]);
  }

  lemma {:induction false} CapFollows(e: Engine, events: seq<Event>, k: nat)
    requires WithinCap(e) && k <= |events|
    requires forall j :: 0 <= j < k ==> Covers(Run(e, events[..j]), events[j])
    ensures WithinCap(Run(e, events[..k]))
  {
    hide WithinCap, Covers, Next;
    if k == 0 {
      assert events[..0] == [];
    } else {
      CapFollows(e, events, k - 1);
      RunSnoc(e, events, k - 1);
      CapStepExactly(Run(e, events[..k - 1]), events[k - 1]);
    }
  }

  /** The cap holds at every moment of a run exactly when every successful activation's cap covers the holders at that
      time and every direct registration has room. */
  lemma CapOverRunExactly(e: Engine, events: seq<Event>)
    requires WithinCap(e)
    ensures (forall k :: 0 <= k <= |events| ==> WithinCap(Run(e, events[..k])))
            <==> forall k :: 0 <= k < |events| ==> Covers(Run(e, events[..k]), events[k])
  {
    hide *;
    if forall k :: 0 <= k <= |events| ==> WithinCap(Run(e, events[..k])) {
      forall k | 0 <= k < |events|
        ensures Covers(Run(e, events[..k]), events[k])
      {
        assert WithinCap(Run(e, events[..k + 1]));
        CoversFollows(e, events, k);
      }
    }
    if forall k :: 0 <= k < |events| ==> Covers(Run(e, events[..k]), events[k]) {
      forall k | 0 <= k <= |events|
        ensures WithinCap(Run(e, events[..k]))
      {
        CapFollows(e, events, k);
      }
    }
  }

  /** From initialization on. */
  lemma HolderCapExactly(t0: nat, delay: nat, legacyBlocklist: seq<Address>, legacyAllowlist: seq<Address>,
                         events: seq<Event>)
    ensures var start := Initial(t0, delay, legacyBlocklist, legacyAllowlist);
            (forall k :: 0 <= k <= |events| ==> WithinCap(Run(start, events[..k])))
            <==> forall k :: 0 <= k < |events| ==> Covers(Run(start, events[..k]), events[k])
  {
    CapOverRunExactly(Initial(t0, delay, legacyBlocklist, legacyAllowlist), events);
  }

  const OPEN_HOST := Host(_ => Approved, _ => None, _ => 0, 0)

  /** A cap of one proposed before anyone joins is exceeded when it is activated after two holders have joined. */
  lemma ActivationCanExceedCap(a: Address, b: Address)
    requires a != b
    ensures var rules := DEFAULT_RULES.(maxHolders := 1);
            var e0 := Initial(0, 0, [], []);
            var e1 := Next(e0, Event(OPEN_HOST, OpProposeRules(rules, "cap")));
            var e2 := Next(e1, Event(OPEN_HOST, OpJoin(a, a, 1)));
            var e3 := Next(e2, Event(OPEN_HOST, OpJoin(b, b, 1)));
            var e4 := Next(e3, Event(OPEN_HOST, OpActivateRules));
            e4.rules.maxHolders == 1 && e4.holderCount == 2
  {
  }
}
