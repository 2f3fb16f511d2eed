// What runs of the payment ledger conserve, what an applied request does, and
// exactly when the two expectations hold that nothing checks: amounts whose
// sum fits u64, and inputs that no other request spends in between.
module NullPayConservation {
  import opened Options
  import opened Text
  import opened Sums
  import opened SourceIds
  import opened NullPayLedger
  import opened PaymentRequests
  import opened NullPayRuns

  // ---- every run ----

  // Over any interleaving of any requests, unspent value plus what settled
  // requests took in and did not give out is exactly what was minted.
  lemma ValueIsConserved(t: System)
    requires Reached(t)
    ensures Total(t.ledger.balances) + t.surplus == t.minted
  {
    ReachedInv(t);
  }

  // What an applied request has done: it took out its inputs, each of which its
  // check had found, and put in one new source for each output, with a receipt.
  ghost predicate Exchanged(s: System, t: System, r: Request, receipts: seq<Receipt>)
    requires r.Live()
  {
    var seqNo := AsI32(r.Ticket().value);
    var made := OutputMap(r.outputs, seqNo);
    && Elements(r.inputs) <= s.known.Keys
    && t.ledger.balances == s.ledger.balances - Elements(r.inputs) + made
    && (forall id :: id in made ==> id !in s.known)
    && (forall i :: 0 <= i < |r.outputs| ==>
          var id := ToSource(r.outputs[i].recipient, seqNo);
          id.Some? && id.value in made && made[id.value] == r.outputs[i].amount)
    && ReceiptsFor(receipts, r.outputs, seqNo)
    && Total(t.ledger.balances) + Taken(s, r.inputs) == Total(s.ledger.balances) + Sum(Amounts(r.outputs))
  }

  lemma {:induction false} OutputMapHolds(outputs: seq<Output>, seqNo: int, i: nat)
    requires IsI32(seqNo) && DistinctRecipients(outputs) && AllWellFormed(outputs) && i < |outputs|
    ensures ToSource(outputs[i].recipient, seqNo).Some?
    ensures ToSource(outputs[i].recipient, seqNo).value in OutputMap(outputs, seqNo)
    ensures OutputMap(outputs, seqNo)[ToSource(outputs[i].recipient, seqNo).value] == outputs[i].amount
  {
    var k := |outputs| - 1;
    assert outputs[k] in outputs && outputs[i] in outputs;
    if i < k {
      assert forall o :: o in outputs[..k] ==> o in outputs;
      OutputMapHolds(outputs[..k], seqNo, i);
      if ToSource(outputs[i].recipient, seqNo) == ToSource(outputs[k].recipient, seqNo) {
        SourceInjective(outputs[i].recipient, seqNo, outputs[k].recipient, seqNo);
      }
    }
  }

  lemma SettleReceipts(l: Ledger, inputs: seq<string>, outputs: seq<Output>, seqNo: int)
    requires AllReadable(inputs) && IsI32(seqNo) && AllWellFormed(outputs) && DistinctRecipients(outputs)
    requires seqNo in l.txns && l.txns[seqNo].outputs == outputs
    ensures Settle(l, inputs, outputs, seqNo).1.Applied?
    ensures ReceiptsFor(Settle(l, inputs, outputs, seqNo).1.receipts, outputs, seqNo)
  {
    ProcessInputsBalances(l, inputs);
    ProcessOutputsReceipts(ProcessInputs(l, inputs), outputs, seqNo);
  }

  lemma VerdictIsSettle(s: System, e: Event)
    requires Inv(s) && Enabled(s, e) && Settles(s, e)
    ensures var r := s.pending[e.id];
            VerdictOf(s, e) == Settle(s.ledger, r.inputs, r.outputs, AsI32(r.Ticket().value)).1
  {
  }

  lemma AppliedIsExchanged(s: System, e: Event)
    requires Inv(s) && Enabled(s, e) && Settles(s, e) && AllWellFormed(s.pending[e.id].outputs)
    ensures VerdictOf(s, e).Applied?
    ensures Exchanged(s, Next(s, e), s.pending[e.id], VerdictOf(s, e).receipts)
  {
    var r := s.pending[e.id];
    var seqNo := AsI32(r.Ticket().value);
    assert RequestOk(s, r);
    SettlingMoves(s, e);
    AddedIsPrefix(r.outputs);
    MintedAll(r.outputs);
    VerdictIsSettle(s, e);
    SettleReceipts(s.ledger, r.inputs, r.outputs, seqNo);
    NewSourcesAreNew(s.known, r.outputs, r.Ticket().value);
    forall i | 0 <= i < |r.outputs|
      ensures var id := ToSource(r.outputs[i].recipient, seqNo);
              id.Some? && id.value in OutputMap(r.outputs, seqNo)
              && OutputMap(r.outputs, seqNo)[id.value] == r.outputs[i].amount
    {
      OutputMapHolds(r.outputs, seqNo, i);
    }
  }

  // In every run, a fee request is applied exactly when the calling wallet owns
  // all its inputs and every recipient is well formed. Applied, it exchanges
  // exactly its inputs for exactly its outputs; refused, it changes nothing;
  // otherwise it panics.
  lemma FeesAreAllOrNothing(s: System, id: nat, addresses: Option<seq<string>>)
    requires Reached(s) && Enabled(s, FeesListed(id, addresses))
    ensures var e := FeesListed(id, addresses);
            var r, v, t := s.pending[id], VerdictOf(s, e), Next(s, e);
            var owned := addresses.Some? && CheckInputs(r.inputs, addresses.value);
            && (v.Applied? <==> owned && AllWellFormed(r.outputs))
            && (v.Panicked? <==> owned && !AllWellFormed(r.outputs))
            && (!owned ==> t.ledger == s.ledger)
            && (v.Applied? ==> Exchanged(s, t, r, v.receipts))
  {
    var e := FeesListed(id, addresses);
    ReachedInv(s);
    if Settles(s, e) {
      SettlingMoves(s, e);
      if AllWellFormed(s.pending[id].outputs) {
        AppliedIsExchanged(s, e);
      }
    }
  }

  // Likewise for payments, whose inputs the calling wallet owned at the check.
  lemma PaymentsAreAllOrNothing(s: System, id: nat, ok: bool)
    requires Reached(s) && Enabled(s, PaymentDone(id, ok))
    ensures var e := PaymentDone(id, ok);
            var r, v, t := s.pending[id], VerdictOf(s, e), Next(s, e);
            && CheckInputs(r.inputs, r.addresses)
            && (v.Applied? <==> ok && r.Live() && AllWellFormed(r.outputs))
            && (v.Panicked? <==> ok && r.Live() && !AllWellFormed(r.outputs))
            && (!(ok && r.Live()) ==> t.ledger == s.ledger)
            && (v.Applied? ==> Exchanged(s, t, r, v.receipts))
  {
    var e := PaymentDone(id, ok);
    ReachedInv(s);
    assert RequestOk(s, s.pending[id]);
    if Settles(s, e) {
      SettlingMoves(s, e);
      if AllWellFormed(s.pending[id].outputs) {
        AppliedIsExchanged(s, e);
      }
    }
  }

  // The addresses a pending payment holds are the ones its check was given.
  lemma CheckRecordsOwner(s: System, id: nat, addresses: seq<string>)
    requires Enabled(s, PaymentListed(id, Some(addresses))) && CheckInputs(s.pending[id].inputs, addresses)
    ensures var t := Next(s, PaymentListed(id, Some(addresses)));
            id in t.pending && t.pending[id].PaymentPending? && t.pending[id].addresses == addresses
            && t.pending[id].inputs == s.pending[id].inputs
  {
    CheckedPaymentMovesOn(s, id, addresses);
  }

  // ---- exactly when a settlement keeps what it should ----

  // What the inputs of a request hold, spent by now or not.
  function Value(s: System, inputs: seq<string>): nat { Sum(BalancesOf(s.known, inputs)) }

  predicate StillUnspent(s: System, inputs: seq<string>) {
    forall i :: i in inputs && i in s.known && s.known[i] > 0 ==> i in s.ledger.balances
  }

  lemma SingleSum(b: nat)
    ensures Sum([b]) == b
  {
    assert [b][..0] == [];
  }

  lemma ValueOfLast(b: map<string, u64>, inputs: seq<string>)
    requires inputs != []
    ensures var k := |inputs| - 1;
            Sum(BalancesOf(b, inputs)) == Sum(BalancesOf(b, inputs[..k])) + if inputs[k] in b then b[inputs[k]] else 0
  {
    var x := inputs[|inputs| - 1];
    SumAppend(BalancesOf(b, inputs[..|inputs| - 1]), if x in b then [b[x]] else []);
    SingleSum(if x in b then b[x] else 0);
  }

  // A spent input is missed, unless it held nothing.
  lemma {:induction false} SpentInputsAreMissed(s: System, inputs: seq<string>)
    requires Within(s.ledger.balances, s.known)
    ensures Taken(s, inputs) <= Value(s, inputs)
    ensures Taken(s, inputs) == Value(s, inputs) <==> StillUnspent(s, inputs)
  {
    if inputs != [] {
      var k := |inputs| - 1;
      var x := inputs[k];
      assert inputs == inputs[..k] + [x];
      SpentInputsAreMissed(s, inputs[..k]);
      ValueOfLast(s.ledger.balances, inputs);
      ValueOfLast(s.known, inputs);
      assert StillUnspent(s, inputs) <==>
        StillUnspent(s, inputs[..k]) && (x in s.known && s.known[x] > 0 ==> x in s.ledger.balances);
    }
  }

  lemma ModuloOrder(a: nat, b: nat)
    requires a % U64_BOUND <= b % U64_BOUND
    ensures a <= b <==> a / U64_BOUND <= b / U64_BOUND
    ensures a < U64_BOUND ==> a <= b
    ensures b < U64_BOUND ==> (a <= b <==> a < U64_BOUND)
  {
  }

  lemma ModuloSum(a: nat, b: nat)
    ensures (a % U64_BOUND + b) % U64_BOUND == (a + b) % U64_BOUND
  {
  }

  lemma FoldsOrder(sum: nat, floor: nat, held: nat)
    requires (sum % U64_BOUND + floor) % U64_BOUND <= held % U64_BOUND
    ensures sum + floor <= held <==> (sum + floor) / U64_BOUND <= held / U64_BOUND
    ensures sum + floor < U64_BOUND ==> sum + floor <= held
    ensures held < U64_BOUND ==> (sum + floor <= held <==> sum + floor < U64_BOUND)
  {
    ModuloSum(sum, floor);
    ModuloOrder(sum + floor, held);
  }

  // What amounts and fee come to.
  function Price(r: Request): nat
    requires r.Live()
  {
    Sum(Amounts(r.outputs)) + r.Floor()
  }

  // The check is as good as the folds: what it accepted is covered by the
  // inputs exactly when it comes to no more multiples of 2^64 than they do.
  lemma CheckedIsCoveredIff(known: map<string, u64>, r: Request)
    requires CheckedOk(known, r) && r.Live()
    ensures var held := Sum(BalancesOf(known, r.inputs));
            && (Price(r) <= held <==> Price(r) / U64_BOUND <= held / U64_BOUND)
            && (Price(r) < U64_BOUND ==> Price(r) <= held)
            && (held < U64_BOUND ==> (Price(r) <= held <==> Price(r) < U64_BOUND))
  {
    WrapSumIsSumModulo(BalancesOf(known, r.inputs));
    WrapSumIsSumModulo(Amounts(r.outputs));
    FoldsOrder(Sum(Amounts(r.outputs)), r.Floor(), Sum(BalancesOf(known, r.inputs)));
  }

  // In every run, a request whose inputs are still unspent pays at least its
  // fee, or nothing for a payment, exactly when amounts and fee come to no more
  // multiples of 2^64 than the inputs hold: always when they stay below 2^64,
  // and only then if the inputs hold less than that.
  lemma PriceIsPaidIff(s: System, e: Event)
    requires Reached(s) && Enabled(s, e) && Settles(s, e)
    requires AllWellFormed(s.pending[e.id].outputs) && StillUnspent(s, s.pending[e.id].inputs)
    ensures var r, t := s.pending[e.id], Next(s, e);
            var paid := Total(t.ledger.balances) + r.Floor() <= Total(s.ledger.balances);
            && r.Live()
            && (paid <==> Price(r) / U64_BOUND <= Value(s, r.inputs) / U64_BOUND)
            && (Price(r) < U64_BOUND ==> paid)
            && (Value(s, r.inputs) < U64_BOUND ==> (paid <==> Price(r) < U64_BOUND))
  {
    ReachedInv(s);
    AppliedMovesValue(s, e);
    SpentInputsAreMissed(s, s.pending[e.id].inputs);
    CheckedIsCoveredIff(s.known, s.pending[e.id]);
  }

  lemma AppliedMovesValue(s: System, e: Event)
    requires Inv(s) && Enabled(s, e) && Settles(s, e) && AllWellFormed(s.pending[e.id].outputs)
    ensures var r, t := s.pending[e.id], Next(s, e);
            && r.Live() && CheckedOk(s.known, r)
            && Total(t.ledger.balances) + Taken(s, r.inputs) == Total(s.ledger.balances) + Sum(Amounts(r.outputs))
  {
    assert RequestOk(s, s.pending[e.id]);
    AppliedIsExchanged(s, e);
  }

  // In every run, a settlement, one that panics included, keeps the difference
  // of what its inputs held and what it gives out, exactly when none of them
  // that held anything was spent between its check and now.
  lemma LateSettlementConservesIff(s: System, e: Event)
    requires Reached(s) && Enabled(s, e) && Settles(s, e)
    ensures var r, t := s.pending[e.id], Next(s, e);
            && (Total(t.ledger.balances) + (Value(s, r.inputs) - Given(r.outputs)) == Total(s.ledger.balances)
                <==> StillUnspent(s, r.inputs))
            && (AllWellFormed(r.outputs) ==> Given(r.outputs) == Sum(Amounts(r.outputs)))
  {
    var r := s.pending[e.id];
    ReachedInv(s);
    assert RequestOk(s, r);
    SettlingMoves(s, e);
    if AllWellFormed(r.outputs) {
      AddedIsPrefix(r.outputs);
      MintedAll(r.outputs);
    }
    SpentInputsAreMissed(s, s.pending[e.id].inputs);
  }

  // What the inputs held when the request was checked is what they hold in any
  // later state of the run, as long as they are there.
  lemma ValueIsFixed(s: System, es: seq<Event>, t: System, inputs: seq<string>)
    requires Reached(s) && Run(s, es, t) && t.ledger.counter <= WRAP
    requires InputsExist(s.ledger, inputs)
    ensures Value(t, inputs) == Taken(s, inputs)
  {
    ReachedInv(s);
    RunLasts(s, es, t);
    SameBalances(s.ledger.balances, t.known, inputs);
  }

  // ---- counting ----

  lemma DistinctBound(b: map<string, u64>, inputs: seq<string>)
    requires Distinct(inputs)
    ensures Sum(BalancesOf(b, inputs)) <= Total(b)
  {
    RepeatedValueZero(b, inputs);
    RemovingInputsTotal(b, inputs);
  }

  // Every source once: a list that counts the whole total.
  lemma {:induction false} AllSources(b: map<string, u64>) returns (ids: seq<string>)
    ensures Distinct(ids) && Elements(ids) == b.Keys && Sum(BalancesOf(b, ids)) == Total(b)
    decreases |b|
  {
    if b == map[] {
      ids := [];
    } else {
      var k :| k in b;
      DropShrinks(b, k);
      var rest := AllSources(b - {k});
      ids := rest + [k];
      assert ids[..|rest|] == rest;
      assert forall i :: i in rest ==> i in Elements(rest);
      SameBalances(b - {k}, b, rest);
      ValueOfLast(b, ids);
      TotalWithout(b, k);
      assert Elements(ids) == Elements(rest) + {k};
    }
  }

  // Counting distinct inputs is true for every list of them exactly when the
  // unspent total fits u64, and then no addition on the way overflows.
  lemma CountingIsExactIff(l: Ledger)
    ensures (forall inputs :: Distinct(inputs) ==> CountInputs(l, inputs) == Sum(BalancesOf(l.balances, inputs)))
            <==> Total(l.balances) < U64_BOUND
    ensures Total(l.balances) < U64_BOUND ==>
      forall inputs, k | Distinct(inputs) && 0 <= k <= |BalancesOf(l.balances, inputs)| ::
        Sum(BalancesOf(l.balances, inputs)[..k]) < U64_BOUND
  {
    forall inputs | Distinct(inputs)
      ensures Sum(BalancesOf(l.balances, inputs)) <= Total(l.balances)
      ensures CountInputs(l, inputs) == Sum(BalancesOf(l.balances, inputs))
              <==> Sum(BalancesOf(l.balances, inputs)) < U64_BOUND
    {
      DistinctBound(l.balances, inputs);
      WrapSumExact(BalancesOf(l.balances, inputs));
    }
    forall inputs, k | Distinct(inputs) && 0 <= k <= |BalancesOf(l.balances, inputs)|
      ensures Sum(BalancesOf(l.balances, inputs)[..k]) <= Sum(BalancesOf(l.balances, inputs))
    {
      PrefixSumsFit(BalancesOf(l.balances, inputs), k);
    }
    var all := AllSources(l.balances);
    assert Distinct(all);
  }

  // ---- runs that are careful about the two unchecked expectations ----

  ghost predicate Unclaimed(s: System, inputs: seq<string>) {
    forall i :: i in s.pending && s.pending[i].Live() ==> Elements(inputs) !! Elements(s.pending[i].inputs)
  }

  // When a check accepts, amounts and fee fit u64 and no live request names an
  // input.
  ghost predicate Careful(s: System, e: Event)
    requires Enabled(s, e)
  {
    match e
    case AskFees(inputs, outputs, txnType, _) =>
      AcceptsFees(s, e) ==> Sum(Amounts(outputs)) + FeeOf(s.ledger, txnType) < U64_BOUND && Unclaimed(s, inputs)
    case PaymentListed(id, addresses) =>
      var r := s.pending[id];
      addresses.Some? && CheckInputs(r.inputs, addresses.value) && CheckedPayment(s, id, addresses.value).Live() ==>
        Sum(Amounts(r.outputs)) < U64_BOUND && Unclaimed(s, r.inputs)
    case _ => true
  }

  ghost predicate CarefulRun(s: System, es: seq<Event>, t: System)
    decreases |es|
  {
    if es == [] then s == t
    else Enabled(s, es[0]) && Careful(s, es[0]) && CarefulRun(Next(s, es[0]), es[1..], t)
  }

  ghost predicate LiveOk(s: System, r: Request) {
    r.Live() ==> Sum(Amounts(r.outputs)) + r.Floor() < U64_BOUND && InputsExist(s.ledger, r.inputs)
  }

  ghost predicate Disjoint(s: System) {
    forall i, j :: i in s.pending && j in s.pending && i != j && s.pending[i].Live() && s.pending[j].Live() ==>
      Elements(s.pending[i].inputs) !! Elements(s.pending[j].inputs)
  }

  ghost predicate CarefulInv(s: System) {
    && Inv(s) && (forall i :: i in s.pending ==> LiveOk(s, s.pending[i])) && Disjoint(s) && s.surplus >= 0
  }

  lemma GivenAtMostAsked(outputs: seq<Output>)
    requires ThreeParts(outputs)
    ensures Given(outputs) <= Sum(Amounts(outputs))
  {
    AddedIsPrefix(outputs);
    MintedPrefix(AddedOutputs(outputs), outputs);
    MintedAll(outputs);
  }

  lemma PresentValue(s: System, inputs: seq<string>)
    requires Within(s.ledger.balances, s.known) && InputsExist(s.ledger, inputs) && Distinct(inputs)
    ensures Sum(BalancesOf(s.known, inputs)) == Taken(s, inputs) <= Total(s.ledger.balances)
  {
    SameBalances(s.ledger.balances, s.known, inputs);
    DistinctBound(s.ledger.balances, inputs);
  }

  // A live request in good standing keeps at least its floor when it settles.
  lemma CarefulSettlementKeeps(s: System, e: Event)
    requires CarefulInv(s) && Enabled(s, e) && Settles(s, e)
    ensures var r := s.pending[e.id];
            r.Live() && Given(r.outputs) + r.Floor() <= Taken(s, r.inputs)
  {
    var r := s.pending[e.id];
    assert RequestOk(s, r) && LiveOk(s, r);
    PresentValue(s, r.inputs);
    CheckedIsCoveredIff(s.known, r);
    GivenAtMostAsked(r.outputs);
  }

  lemma LiveOkKept(s: System, t: System, r: Request)
    requires LiveOk(s, r)
    requires r.Live() ==> forall i :: i in r.inputs ==> i in s.ledger.balances ==> i in t.ledger.balances
    ensures LiveOk(t, r)
  {
  }

  lemma CarefulSettling(s: System, e: Event)
    requires CarefulInv(s) && Enabled(s, e) && Settles(s, e)
    requires s.ledger.counter <= WRAP
    ensures CarefulInv(Next(s, e))
  {
    var r, t := s.pending[e.id], Next(s, e);
    SettlingKeepsInv(s, e);
    SettlingMoves(s, e);
    SettlingMovesOnly(s, e);
    CarefulSettlementKeeps(s, e);
    forall i | i in t.pending
      ensures LiveOk(t, t.pending[i])
    {
      var q := t.pending[i];
      if q.Live() {
        assert forall x :: x in q.inputs ==> x in Elements(q.inputs) && x !in Elements(r.inputs);
      }
      LiveOkKept(s, t, q);
    }
  }

  // A new live request joins the others.
  lemma CarefulJoining(s: System, t: System, id: nat, r: Request)
    requires CarefulInv(s) && Inv(t)
    requires t.pending == s.pending[id := r] && t.ledger.balances == s.ledger.balances && t.surplus == s.surplus
    requires LiveOk(t, r) && (r.Live() ==> Unclaimed(s, r.inputs))
    requires id in s.pending ==> !s.pending[id].Live()
    ensures CarefulInv(t)
  {
    forall i | i in t.pending
      ensures LiveOk(t, t.pending[i])
    {
      if i != id {
        LiveOkKept(s, t, t.pending[i]);
      }
    }
  }

  lemma CarefulLeaving(s: System, t: System, id: nat)
    requires CarefulInv(s) && Inv(t)
    requires t.pending == s.pending - {id} && t.surplus >= s.surplus
    requires s.ledger.balances.Keys <= t.ledger.balances.Keys
    ensures CarefulInv(t)
  {
    forall i | i in t.pending
      ensures LiveOk(t, t.pending[i])
    {
      LiveOkKept(s, t, t.pending[i]);
    }
  }

  lemma CarefulFees(s: System, e: Event)
    requires CarefulInv(s) && e.AskFees? && Careful(s, e) && Next(s, e).ledger.counter <= WRAP
    ensures CarefulInv(Next(s, e))
  {
    AskFeesKeepsInv(s, e);
    AcceptedFeesJoin(s, e);
    if AcceptsFees(s, e) {
      CarefulJoining(s, Next(s, e), s.nextId, AcceptedFees(s, e));
    }
  }

  lemma CarefulPaymentCheck(s: System, e: Event)
    requires CarefulInv(s) && e.PaymentListed? && Enabled(s, e) && Careful(s, e) && Next(s, e).ledger.counter <= WRAP
    ensures CarefulInv(Next(s, e))
  {
    PaymentListedKeepsInv(s, e);
    if e.addresses.Some? && CheckInputs(s.pending[e.id].inputs, e.addresses.value) {
      CheckedPaymentMovesOn(s, e.id, e.addresses.value);
      CarefulJoining(s, Next(s, e), e.id, CheckedPayment(s, e.id, e.addresses.value));
    } else {
      CarefulLeaving(s, Next(s, e), e.id);
    }
  }

  lemma CarefulMint(s: System, e: Event)
    requires CarefulInv(s) && e.MintDone? && e.ok && Enabled(s, e) && Next(s, e).ledger.counter <= WRAP
    ensures CarefulInv(Next(s, e))
  {
    MintCounts(s, e.id);
    MintKeepsInv(s, e.id);
    MintLedger(s.ledger, s.pending[e.id].outputs);
    CarefulLeaving(s, Next(s, e), e.id);
  }

  lemma CarefulStep(s: System, e: Event)
    requires CarefulInv(s) && Enabled(s, e) && Careful(s, e)
    requires Next(s, e).ledger.counter <= WRAP
    ensures CarefulInv(Next(s, e))
  {
    StepGrows(s, e);
    if Settles(s, e) {
      CarefulSettling(s, e);
    } else if e.AskFees? {
      CarefulFees(s, e);
    } else if e.PaymentListed? {
      CarefulPaymentCheck(s, e);
    } else if e.MintDone? && e.ok {
      CarefulMint(s, e);
    } else {
      StepKeepsInv(s, e);
      CarefulOther(s, e);
    }
  }

  lemma CarefulOther(s: System, e: Event)
    requires CarefulInv(s) && Enabled(s, e) && Inv(Next(s, e)) && !Settles(s, e)
    requires !e.AskFees? && !e.PaymentListed? && !(e.MintDone? && e.ok)
    ensures CarefulInv(Next(s, e))
  {
    var t := Next(s, e);
    if e.AskMint? || e.AskPayment? || e.AskSetFees? {
      if t != s {
        CarefulJoining(s, t, s.nextId, t.pending[s.nextId]);
      }
    } else {
      if e.SetFeesDone? {
        SetFeesKeepsSources(s.ledger, s.pending[e.id].table);
      } else {
        DroppingDropsOnly(s, e);
      }
      CarefulLeaving(s, t, e.id);
    }
  }

  lemma {:induction false} CarefulIsRun(s: System, es: seq<Event>, t: System)
    requires CarefulRun(s, es, t)
    ensures Run(s, es, t)
    decreases |es|
  {
    if es != [] {
      CarefulIsRun(Next(s, es[0]), es[1..], t);
    }
  }

  lemma {:induction false} CarefulRunKeeps(s: System, es: seq<Event>, t: System)
    requires CarefulInv(s) && CarefulRun(s, es, t)
    requires t.ledger.counter <= WRAP
    ensures CarefulInv(t)
    decreases |es|
  {
    if es != [] {
      CarefulIsRun(Next(s, es[0]), es[1..], t);
      RunGrows(Next(s, es[0]), es[1..], t);
      StepGrows(s, es[0]);
      CarefulStep(s, es[0]);
      CarefulRunKeeps(Next(s, es[0]), es[1..], t);
    }
  }

  // In a careful run unspent value never exceeds minted value; so while that is
  // below 2^64, counting distinct inputs never overflows at any addition.
  lemma UnspentNeverExceedsMinted(s: System, es: seq<Event>, t: System, inputs: seq<string>, k: nat)
    requires Init(s) && CarefulRun(s, es, t) && t.ledger.counter <= WRAP
    ensures Total(t.ledger.balances) <= t.minted && t.surplus >= 0
    ensures t.minted < U64_BOUND && Distinct(inputs) && k <= |BalancesOf(t.ledger.balances, inputs)| ==>
      Sum(BalancesOf(t.ledger.balances, inputs)[..k]) < U64_BOUND
      && CountInputs(t.ledger, inputs) == Sum(BalancesOf(t.ledger.balances, inputs))
  {
    CarefulRunKeeps(s, es, t);
    CountingIsExactIff(t.ledger);
  }

  // In a careful run every settlement finds all its inputs unspent and lowers
  // the total by at least the fee read at its check, payments by at least zero.
  lemma CarefulSettlementsPay(s: System, es: seq<Event>, t: System, e: Event)
    requires Init(s) && CarefulRun(s, es, t) && t.ledger.counter <= WRAP
    requires Enabled(t, e) && Settles(t, e)
    ensures var r, u := t.pending[e.id], Next(t, e);
            && r.Live() && InputsExist(t.ledger, r.inputs)
            && Total(u.ledger.balances) + r.Floor() <= Total(t.ledger.balances)
  {
    CarefulRunKeeps(s, es, t);
    assert LiveOk(t, t.pending[e.id]);
    SettlingMoves(t, e);
    CarefulSettlementKeeps(t, e);
  }
}
