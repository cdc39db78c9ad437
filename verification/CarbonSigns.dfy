/** Signs in the carbon token: `mint`, `transfer` and `retire_on_behalf` take any amount, so balances can become
    negative and the retired total can fall. What follows says exactly when. */
module CarbonSigns {
  import opened Prelude
  import opened CarbonModel
  import opened CarbonProofs

  ghost predicate Solvent(t: Token) {
    forall a :: a in t.balances ==> t.balances[a] >= 0
  }

  /** If the call succeeds, what its recipient is given does not take the recipient below zero. */
  predicate Covered(t: Token, call: Call) {
    Apply(t, call).Ok? ==>
      match call
      case CallMint(_, to, amount) => Lookup(t.balances, to) + amount >= 0
      case CallTransfer(_, from, to, amount) => from == to || Lookup(t.balances, to) + amount >= 0
      case _ => true
  }

  /** A retirement of fewer than no credits, which only `retire_on_behalf` lets through. */
  predicate Unretires(t: Token, call: Call) {
    call.CallRetireOnBehalf? && call.amount < 0 && Apply(t, call).Ok?
  }

  // ---- One call ------------------------------------------------------------------------------

  lemma MintSigns(t: Token, host: Host, to: Address, amount: int)
    requires Solvent(t) && Mint(t, host, to, amount).Ok?
    ensures Solvent(Mint(t, host, to, amount).value) <==> Lookup(t.balances, to) + amount >= 0
  {
    var after := Mint(t, host, to, amount).value;
    assert to in after.balances;
  }

  lemma TransferSigns(t: Token, host: Host, from: Address, to: Address, amount: int)
    requires Solvent(t) && Transfer(t, host, from, to, amount).Ok?
    ensures Solvent(Transfer(t, host, from, to, amount).value) <==> from == to || Lookup(t.balances, to) + amount >= 0
  {
    var after := Transfer(t, host, from, to, amount).value;
    assert to in after.balances;
  }

  lemma BurnSigns(t: Token, retiree: Address, amount: int)
    requires Solvent(t) && CheckedBurn(t, retiree, amount).Ok?
    ensures Solvent(Burn(t, retiree, amount))
  {
  }

  lemma RetireOneSigns(t: Token, r: Receipt)
    requires Solvent(t) && RetireOne(t, r).Ok?
    ensures Solvent(RetireOne(t, r).value)
  {
    hide Solvent;
    BurnSigns(t, r.retiree, r.amount);
    SameBalances(Burn(t, r.retiree, r.amount), Record(Burn(t, r.retiree, r.amount), r));
  }

  lemma SameBalances(t: Token, after: Token)
    requires Solvent(t) && after.balances == t.balances
    ensures Solvent(after)
  {
  }

  lemma {:induction false} RecordAllKeepsSums(t: Token, host: Host, retiree: Address, requests: seq<Request>)
    requires RecordAll(t, host, retiree, requests).Ok?
    ensures var after := RecordAll(t, host, retiree, requests).value;
            after.balances == t.balances && after.retired == t.retired
  {
    if requests != [] {
      RecordAllKeepsSums(t, host, retiree, requests[..|requests| - 1]);
    }
  }

  lemma {:induction false} RequestsPositive(host: Host, requests: seq<Request>)
    requires CheckRequests(host, requests).Ok?
    ensures CheckRequests(host, requests).value >= 0
  {
    if requests != [] {
      RequestsPositive(host, requests[..|requests| - 1]);
    }
  }

  lemma {:induction false} RetirementsPositive(items: seq<Retirement>)
    requires CheckRetirements(items).Ok?
    ensures CheckRetirements(items).value >= 0
  {
    if items != [] {
      RetirementsPositive(items[..|items| - 1]);
    }
  }

  lemma BatchesSigns(t: Token, call: Call)
    requires Solvent(t) && (call.CallBatchRetire? || call.CallBatchRetireOnBehalf?)
    ensures Solvent(Next(t, call))
  {
    hide Solvent, RecordAll, CheckRequests, CheckRetirements;
    if Apply(t, call).Ok? {
      match call
      case CallBatchRetire(host, retiree, items) =>
        var total := CheckRetirements(items).value;
        BurnSigns(t, retiree, total);
        SameBalances(Burn(t, retiree, total), Next(t, call));
      case CallBatchRetireOnBehalf(host, retiree, requests) =>
        var total := CheckRequests(host, requests).value;
        BurnSigns(t, retiree, total);
        RecordAllKeepsSums(Burn(t, retiree, total), host, retiree, requests);
        SameBalances(Burn(t, retiree, total), Next(t, call));
    }
  }

  /** A call keeps all balances non-negative exactly when what its recipient is given does not take it below zero. */
  lemma BalanceSigns(t: Token, call: Call)
    requires Solvent(t)
    ensures Solvent(Next(t, call)) <==> Covered(t, call)
  {
    hide Solvent, RetireOne, BatchRetire, BatchRetireOnBehalf;
    if Apply(t, call).Ok? {
      match call
      case CallMint(host, to, amount) => MintSigns(t, host, to, amount);
      case CallTransfer(host, from, to, amount) => TransferSigns(t, host, from, to, amount);
      case CallRetire(host, retiree, amount, beneficiary, reason) =>
        RetireOneSigns(t, Receipt(retiree, amount, host.now, beneficiary, reason, None));
      case CallRetireOnBehalf(host, retiree, onBehalfOf, amount, reason) =>
        RetireOneSigns(t, Receipt(retiree, amount, host.now, [], reason, Some(onBehalfOf)));
      case CallAppendReceipt(_, _, _, _, _, _) => SameBalances(t, Next(t, call));
      case _ => BatchesSigns(t, call);
    }
  }

  /** A call lowers the retired total exactly when it retires a negative amount on behalf of another. */
  lemma RetiredSign(t: Token, call: Call)
    ensures Next(t, call).retired < t.retired <==> Unretires(t, call)
  {
    hide RecordAll, CheckRequests, CheckRetirements, Record;
    if Apply(t, call).Ok? {
      match call
      case CallBatchRetire(_, _, items) => RetirementsPositive(items);
      case CallBatchRetireOnBehalf(host, retiree, requests) =>
        var total := CheckRequests(host, requests).value;
        RequestsPositive(host, requests);
        RecordAllKeepsSums(Burn(t, retiree, total), host, retiree, requests);
      case CallRetire(host, retiree, amount, beneficiary, reason) =>
        RecordSums(Burn(t, retiree, amount), Receipt(retiree, amount, host.now, beneficiary, reason, None));
      case CallRetireOnBehalf(host, retiree, onBehalfOf, amount, reason) =>
        RecordSums(Burn(t, retiree, amount), Receipt(retiree, amount, host.now, [], reason, Some(onBehalfOf)));
      case CallAppendReceipt(host, retiree, amount, beneficiary, reason, address) =>
        RecordSums(t, Receipt(retiree, amount, host.now, beneficiary, reason, address));
      case _ =>
    }
  }

  lemma RecordSums(t: Token, r: Receipt)
    ensures Record(t, r).balances == t.balances && Record(t, r).retired == t.retired
  {
  }

  // ---- Whole runs --------------------------------------------------------------------------------

  lemma {:induction false} SolventSoFar(calls: seq<Call>, k: nat)
    requires k <= |calls| && forall j :: 0 <= j < k ==> Covered(Run(EMPTY, calls[..j]), calls[j])
    ensures Solvent(Run(EMPTY, calls[..k]))
  {
    hide Covered, Next;
    if k == 0 {
      assert calls[..0] == [];
    } else {
      SolventSoFar(calls, k - 1);
      RunSnoc(EMPTY, calls, k - 1);
      BalanceSigns(Run(EMPTY, calls[..k - 1]), calls[k - 1]);
    }
  }

  /** Balances are non-negative at every moment of a run exactly when no recipient of a mint or a transfer is ever taken
      below zero. */
  lemma BalancesOverRun(calls: seq<Call>)
    ensures (forall k :: 0 <= k <= |calls| ==> Solvent(Run(EMPTY, calls[..k])))
            <==> forall k :: 0 <= k < |calls| ==> Covered(Run(EMPTY, calls[..k]), calls[k])
  {
    hide *;
    if forall k :: 0 <= k <= |calls| ==> Solvent(Run(EMPTY, calls[..k])) {
      forall k | 0 <= k < |calls|
        ensures Covered(Run(EMPTY, calls[..k]), calls[k])
      {
        assert Solvent(Run(EMPTY, calls[..k + 1]));
        RunSnoc(EMPTY, calls, k);
        BalanceSigns(Run(EMPTY, calls[..k]), calls[k]);
      }
    }
    if forall k :: 0 <= k < |calls| ==> Covered(Run(EMPTY, calls[..k]), calls[k]) {
      forall k | 0 <= k <= |calls|
        ensures Solvent(Run(EMPTY, calls[..k]))
      {
        SolventSoFar(calls, k);
      }
    }
  }

  lemma {:induction false} RetiredRises(calls: seq<Call>, j: nat, k: nat)
    requires j <= k <= |calls| && forall i :: j <= i < k ==> !Unretires(Run(EMPTY, calls[..i]), calls[i])
    ensures Run(EMPTY, calls[..j]).retired <= Run(EMPTY, calls[..k]).retired
    decreases k
  {
    hide Unretires, Next, Run;
    if j < k {
      RetiredRises(calls, j, k - 1);
      RunSnoc(EMPTY, calls, k - 1);
      RetiredSign(Run(EMPTY, calls[..k - 1]), calls[k - 1]);
    }
  }

  /** The retired total never falls between two moments of a run exactly when no call between them retires a negative
      amount on behalf of another. */
  lemma RetiredOverRun(calls: seq<Call>, from: nat, to: nat)
    requires from <= to <= |calls|
    ensures (forall j, k :: from <= j <= k <= to ==> Run(EMPTY, calls[..j]).retired <= Run(EMPTY, calls[..k]).retired)
            <==> forall i :: from <= i < to ==> !Unretires(Run(EMPTY, calls[..i]), calls[i])
  {
    hide *;
    if forall j, k :: from <= j <= k <= to ==> Run(EMPTY, calls[..j]).retired <= Run(EMPTY, calls[..k]).retired {
      forall i | from <= i < to
        ensures !Unretires(Run(EMPTY, calls[..i]), calls[i])
      {
        RunSnoc(EMPTY, calls, i);
        RetiredSign(Run(EMPTY, calls[..i]), calls[i]);
      }
    }
    if forall i :: from <= i < to ==> !Unretires(Run(EMPTY, calls[..i]), calls[i]) {
      forall j, k | from <= j <= k <= to
        ensures Run(EMPTY, calls[..j]).retired <= Run(EMPTY, calls[..k]).retired
      {
        RetiredRises(calls, j, k);
      }
    }
  }

  /** The call names no negative amount where the contract would let one through. */
  predicate NamesNoNegative(call: Call) {
    match call
    case CallMint(_, _, amount) => amount >= 0
    case CallTransfer(_, _, _, amount) => amount >= 0
    case CallRetireOnBehalf(_, _, _, amount, _) => amount >= 0
    case _ => true
  }

  lemma {:induction false} SignsOfNonNegativeRun(calls: seq<Call>)
    requires forall i :: 0 <= i < |calls| ==> NamesNoNegative(calls[i])
    ensures Solvent(Run(EMPTY, calls)) && Run(EMPTY, calls).retired >= 0
    decreases |calls|
  {
    hide Next;
    if calls != [] {
      var init, call := calls[..|calls| - 1], calls[|calls| - 1];
      SignsOfNonNegativeRun(init);
      BalanceSigns(Run(EMPTY, init), call);
      RetiredSign(Run(EMPTY, init), call);
    }
  }

  // ---- Inputs ------------------------------------------------------------------------------------

  /** A negative transfer moves credits from `to` to `from`, whatever `to` has. */
  lemma NegativeTransferReverses(t: Token, host: Host, from: Address, to: Address, amount: int)
    requires from != to && amount < 0 && Transfer(t, host, from, to, amount).Ok?
    ensures Transfer(t, host, from, to, amount).value
            == t.(balances := Credit(Credit(t.balances, to, amount), from, -amount))
  {
  }

  lemma FirstCall(call: Call)
    ensures Run(EMPTY, [call]) == Next(EMPTY, call)
  {
    assert [call][..0] == [];
  }

  /** Five credits leave an address that has none. */
  lemma NegativeTransferOverdraws(a: Address, b: Address)
    requires a != b
    ensures var t := Run(EMPTY, [CallTransfer(OPEN_HOST, a, b, -5)]);
            t.balances == map[a := 5, b := -5] && !Solvent(t)
  {
    FirstCall(CallTransfer(OPEN_HOST, a, b, -5));
    assert b in Run(EMPTY, [CallTransfer(OPEN_HOST, a, b, -5)]).balances;
  }

  /** Retiring five credits less than none creates five and takes them from the retired total. */
  lemma NegativeRetirementCreates(a: Address)
    ensures var t := Run(EMPTY, [CallRetireOnBehalf(OPEN_HOST, a, a, -5, [])]);
            t.balances == map[a := 5] && t.supply == 5 && t.retired == -5
  {
    FirstCall(CallRetireOnBehalf(OPEN_HOST, a, a, -5, []));
  }
}
