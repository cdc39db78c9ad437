/** Which stored receipts have a certificate: every entry point checks other limits on its texts than the printer has.
    */
module CarbonCertificates {
  import opened Prelude
  import opened CarbonModel
  import opened CarbonProofs
  import Answers = CarbonAnswers
  import opened Certificate
  import opened Json

  /** The project metadata that a certificate shows. */
  datatype Project = Project(
    projectId: seq<byte>,
    standard: seq<byte>,
    vintageYear: u32,
    registryUrl: seq<byte>,
    registryProjectId: seq<byte>)

  predicate ProjectPrints(p: Project) {
    && FieldPrints(p.projectId) && FieldPrints(p.standard)
    && FieldPrints(p.registryUrl) && FieldPrints(p.registryProjectId)
  }

  /** The certificate of a receipt, given the textual form of addresses. */
  function CertificateOf(r: Receipt, p: Project, text: Address -> seq<byte>): Certificate {
    Certificate(p.projectId, p.standard, p.vintageYear, text(r.retiree), r.amount, r.timestamp, r.beneficiary, r.reason,
                p.registryUrl, p.registryProjectId)
  }

  /** The texts of a receipt fit the printer. */
  predicate ReceiptPrints(r: Receipt) {
    FieldPrints(r.beneficiary) && FieldPrints(r.reason)
  }

  predicate AllPrint(receipts: seq<Receipt>) {
    forall i :: 0 <= i < |receipts| ==> ReceiptPrints(receipts[i])
  }

  /** The texts that the call stores, if it succeeds, fit the printer. A single retirement has checked their length, so
      that only control bytes matter; the batches have not. */
  predicate TextsPrint(t: Token, call: Call) {
    Apply(t, call).Ok? ==>
      match call
      case CallRetire(_, _, _, beneficiary, reason) => Escapable(beneficiary) && Escapable(reason)
      case CallRetireOnBehalf(_, _, _, _, reason) => Escapable(reason)
      case CallAppendReceipt(_, _, _, beneficiary, reason, _) => Escapable(beneficiary) && Escapable(reason)
      case CallBatchRetire(_, _, items) =>
        forall i :: 0 <= i < |items| ==> FieldPrints(items[i].beneficiary) && FieldPrints(items[i].reason)
      case CallBatchRetireOnBehalf(_, _, requests) =>
        forall i :: 0 <= i < |requests| ==> FieldPrints(requests[i].memo)
      case _ => true
  }

  // ---- One call ------------------------------------------------------------------------------

  /** The log only grows, by exactly the receipts of the call. */
  lemma LogGrows(t: Token, call: Call)
    requires Apply(t, call).Ok?
    ensures Next(t, call).receipts == t.receipts + Answers.Stores(call)
  {
    hide Apply, Answers.Stores;
    Answers.SuccessChanges(t, call);
  }

  lemma EmptyPrints()
    ensures FieldPrints([])
  {
  }

  lemma StoredPrints(t: Token, call: Call)
    requires Apply(t, call).Ok?
    ensures AllPrint(Answers.Stores(call)) <==> TextsPrint(t, call)
  {
    hide Escapable, RecordAll, CheckRequests, CheckRetirements, RetireOne, Record, CheckedBurn;
    EmptyPrints();
    match call
    case CallBatchRetire(host, retiree, items) =>
      forall i | 0 <= i < |items|
        ensures ReceiptPrints(Answers.Stores(call)[i])
                <==> FieldPrints(items[i].beneficiary) && FieldPrints(items[i].reason)
      {
      }
    case CallBatchRetireOnBehalf(host, retiree, requests) =>
      forall i | 0 <= i < |requests|
        ensures ReceiptPrints(Answers.Stores(call)[i]) <==> FieldPrints(requests[i].memo)
      {
      }
    case CallMint(_, _, _) =>
    case CallTransfer(_, _, _, _) =>
    case _ => assert ReceiptPrints(Answers.Stores(call)[0]) <==> TextsPrint(t, call);
  }

  lemma AllPrintConcat(a: seq<Receipt>, b: seq<Receipt>)
    ensures AllPrint(a + b) <==> AllPrint(a) && AllPrint(b)
  {
    if AllPrint(a + b) {
      forall i | 0 <= i < |b|
        ensures ReceiptPrints(b[i])
      {
        assert (a + b)[|a| + i] == b[i];
      }
      forall i | 0 <= i < |a|
        ensures ReceiptPrints(a[i])
      {
        assert (a + b)[i] == a[i];
      }
    }
  }

  lemma PrintStep(t: Token, call: Call)
    ensures AllPrint(Next(t, call).receipts) <==> AllPrint(t.receipts) && TextsPrint(t, call)
  {
    hide AllPrint, Apply, Answers.Stores;
    if Apply(t, call).Ok? {
      LogGrows(t, call);
      StoredPrints(t, call);
      AllPrintConcat(t.receipts, Answers.Stores(call));
    }
  }

  // ---- Whole runs ------------------------------------------------------------------------------

  lemma {:induction false} PrintSoFar(calls: seq<Call>, k: nat)
    requires k <= |calls| && forall j :: 0 <= j < k ==> TextsPrint(Run(EMPTY, calls[..j]), calls[j])
    ensures AllPrint(Run(EMPTY, calls[..k]).receipts)
  {
    hide AllPrint, TextsPrint, Next;
    if k == 0 {
      NonePrint();
      assert calls[..0] == [];
    } else {
      PrintSoFar(calls, k - 1);
      RunSnoc(EMPTY, calls, k - 1);
      PrintStep(Run(EMPTY, calls[..k - 1]), calls[k - 1]);
    }
  }

  lemma {:induction false} PrintedBefore(calls: seq<Call>, k: nat)
    requires k < |calls| && AllPrint(Run(EMPTY, calls).receipts)
    ensures AllPrint(Run(EMPTY, calls[..k + 1]).receipts) && TextsPrint(Run(EMPTY, calls[..k]), calls[k])
    decreases |calls| - k
  {
    hide AllPrint, TextsPrint, Next, Run;
    if k + 1 == |calls| {
      assert calls[..k + 1] == calls;
    } else {
      PrintedBefore(calls, k + 1);
      RunSnoc(EMPTY, calls, k + 1);
      PrintStep(Run(EMPTY, calls[..k + 1]), calls[k + 1]);
    }
    RunSnoc(EMPTY, calls, k);
    PrintStep(Run(EMPTY, calls[..k]), calls[k]);
  }

  lemma PrintOverRun(calls: seq<Call>)
    ensures AllPrint(Run(EMPTY, calls).receipts)
            <==> forall k :: 0 <= k < |calls| ==> TextsPrint(Run(EMPTY, calls[..k]), calls[k])
  {
    hide *;
    if AllPrint(Run(EMPTY, calls).receipts) {
      forall k | 0 <= k < |calls|
        ensures TextsPrint(Run(EMPTY, calls[..k]), calls[k])
      {
        PrintedBefore(calls, k);
      }
    }
    if forall k :: 0 <= k < |calls| ==> TextsPrint(Run(EMPTY, calls[..k]), calls[k]) {
      PrintSoFar(calls, |calls|);
      assert calls[..|calls|] == calls;
    }
  }

  lemma NonePrint()
    ensures AllPrint(EMPTY.receipts)
  {
  }

  // ---- Sizes -----------------------------------------------------------------------------------

  predicate SizedReceipts(receipts: seq<Receipt>) {
    forall i :: 0 <= i < |receipts| ==> InI128(receipts[i].amount) && receipts[i].timestamp <= U64_MAX
  }

  lemma StoredSized(call: Call)
    ensures SizedReceipts(Answers.Stores(call))
  {
  }

  /** Amounts and times of stored receipts keep the sizes that they had in the calls. */
  lemma {:induction false} ReceiptsSized(calls: seq<Call>)
    ensures SizedReceipts(Run(EMPTY, calls).receipts)
    decreases |calls|
  {
    hide Apply, Answers.Stores;
    if calls != [] {
      var init, call := calls[..|calls| - 1], calls[|calls| - 1];
      ReceiptsSized(init);
      if Apply(Run(EMPTY, init), call).Ok? {
        LogGrows(Run(EMPTY, init), call);
        StoredSized(call);
      }
    }
  }

  /** The printer takes the certificate and prints it. */
  predicate Certified(c: Certificate) {
    WellTyped(c) && Prints(c)
  }

  /** Every receipt of a run has a certificate exactly when the metadata prints and so do the texts that each successful
      call stored: for single retirements, texts without control bytes that have no short escape. */
  lemma EveryReceiptCertified(calls: seq<Call>, p: Project, text: Address -> seq<byte>)
    requires forall a :: IsAddressText(text(a))
    ensures var receipts := Run(EMPTY, calls).receipts;
            (forall i :: 0 <= i < |receipts| ==> Certified(CertificateOf(receipts[i], p, text)))
            <==> (receipts == [] || ProjectPrints(p))
                 && forall k :: 0 <= k < |calls| ==> TextsPrint(Run(EMPTY, calls[..k]), calls[k])
  {
    hide TextsPrint, Run, FieldPrints, IsAddressText;
    PrintOverRun(calls);
    ReceiptsSized(calls);
    var receipts := Run(EMPTY, calls).receipts;
    forall i | 0 <= i < |receipts|
      ensures Certified(CertificateOf(receipts[i], p, text)) <==> ProjectPrints(p) && ReceiptPrints(receipts[i])
    {
    }
    if receipts != [] && forall i :: 0 <= i < |receipts| ==> Certified(CertificateOf(receipts[i], p, text)) {
      assert Certified(CertificateOf(receipts[0], p, text));
    }
  }

  /** What a JSON reader gets from the certificate of a receipt: each field under its key. */
  lemma ReceiptIsRead(r: Receipt, p: Project, text: Address -> seq<byte>)
    requires Certified(CertificateOf(r, p, text))
    ensures ReadObject(Text(CertificateOf(r, p, text)))
            == Some([Member(PROJECT_ID, Str(p.projectId)), Member(STANDARD, Str(p.standard)),
                     Member(VINTAGE_YEAR, Num(p.vintageYear)), Member(RETIREE, Str(text(r.retiree))),
                     Member(AMOUNT, Num(r.amount)), Member(TIMESTAMP, Num(r.timestamp)),
                     Member(BENEFICIARY, Str(r.beneficiary)),
                     Member(RETIREMENT_REASON, Str(r.reason)),
                     Member(REGISTRY_URL, Str(p.registryUrl)),
                     Member(REGISTRY_PROJECT_ID, Str(p.registryProjectId))])
  {
    hide ReadObject, Text, Prints, WellTyped, Ascii;
    CertificateRoundTrip(CertificateOf(r, p, text));
  }

  // ---- Inputs ------------------------------------------------------------------------------------

  lemma TwoCalls(first: Call, second: Call)
    ensures Run(EMPTY, [first, second]) == Next(Next(EMPTY, first), second)
  {
    assert [first, second][..1] == [first] && [first][..0] == [];
    assert Run(EMPTY, []) == EMPTY;
  }

  /** A reason of one control byte is accepted and burnt for, and its receipt never has a certificate. */
  lemma ControlByteIsNotCertified(a: Address, p: Project, text: Address -> seq<byte>)
    ensures var t := Run(EMPTY, [CallMint(OPEN_HOST, a, 1), CallRetire(OPEN_HOST, a, 1, [], [1])]);
            t.retired == 1 && |t.receipts| == 1 && !Prints(CertificateOf(t.receipts[0], p, text))
  {
    var mint, retire := CallMint(OPEN_HOST, a, 1), CallRetire(OPEN_HOST, a, 1, [], [1]);
    TwoCalls(mint, retire);
    Answers.RecordFrame(Burn(Next(EMPTY, mint), a, 1), Answers.Stores(retire)[0]);
    var reason: seq<byte> := [1];
    assert !FieldPrints(reason) by {
      assert Escape(reason[0]).None?;
    }
  }

  /** A batch accepts a reason of 129 bytes, which the certificate of its receipt has no room for. */
  lemma LongReasonIsNotCertified(a: Address, p: Project, text: Address -> seq<byte>)
    ensures var reason := seq(129, _ => 65);
            var batch := CallBatchRetire(OPEN_HOST, a, [Retirement(1, [], reason)]);
            var t := Run(EMPTY, [CallMint(OPEN_HOST, a, 1), batch]);
            t.retired == 1 && |t.receipts| == 1 && !Prints(CertificateOf(t.receipts[0], p, text))
  {
    var items := [Retirement(1, [], seq(129, _ => 65))];
    TwoCalls(CallMint(OPEN_HOST, a, 1), CallBatchRetire(OPEN_HOST, a, items));
    assert items[..0] == [] && CheckRetirements([]) == Ok(0);
    assert CheckRetirements(items) == Ok(1);
  }
}
