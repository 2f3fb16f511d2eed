// The fee of a request: the last one set for its transaction type, under
// whichever of its two names, and exactly when a request can pay it.
module NullPayFees {
  import opened Options
  import opened Text
  import opened Sums
  import opened SourceIds
  import opened NullPayLedger
  import opened PaymentRequests
  import opened NullPayRuns
  import opened NullPayConservation

  // Types with a name and a code.
  const TYPES: seq<(string, string)> := [("NYM", "1"), ("ATTRIB", "100"), ("SCHEMA", "101"), ("CRED_DEF", "102")]

  predicate Pair(a: string, b: string) { exists i :: 0 <= i < |TYPES| && TYPES[i] == (a, b) }

  // Both are the same text, or one is the code of the other.
  predicate SameType(a: string, b: string) { a == b || Pair(a, b) || Pair(b, a) }

  lemma PairsAre(a: string, b: string)
    ensures Pair(a, b) <==> (a, b) == ("NYM", "1") || (a, b) == ("ATTRIB", "100") || (a, b) == ("SCHEMA", "101")
                            || (a, b) == ("CRED_DEF", "102")
  {
    assert TYPES[0] == ("NYM", "1") && TYPES[1] == ("ATTRIB", "100");
    assert TYPES[2] == ("SCHEMA", "101") && TYPES[3] == ("CRED_DEF", "102");
  }

  lemma SameCodeIsSameType(a: string, b: string)
    ensures TxnCode(a) == TxnCode(b) <==> SameType(a, b)
  {
    PairsAre(a, b);
    PairsAre(b, a);
  }

  // The last entry of the table for the type.
  function LastFee(table: seq<(string, u64)>, txnType: string): Option<u64> {
    if table == [] then None
    else
      var (name, fee) := table[|table| - 1];
      if SameType(name, txnType) then Some(fee) else LastFee(table[..|table| - 1], txnType)
  }

  function Or(fee: Option<u64>, otherwise: u64): u64 { if fee.Some? then fee.value else otherwise }

  // Setting fees changes the fee of the types named, by name or code, to the
  // last one given for each, and of no other type.
  lemma {:induction false} FeeIsLastSet(l: Ledger, table: seq<(string, u64)>, txnType: string)
    ensures FeeOf(SetFees(l, table), txnType) == Or(LastFee(table, txnType), FeeOf(l, txnType))
  {
    if table != [] {
      FeeIsLastSet(l, table[..|table| - 1], txnType);
      SameCodeIsSameType(table[|table| - 1].0, txnType);
    }
  }

  lemma {:induction false} LastFeeOfBoth(first: seq<(string, u64)>, second: seq<(string, u64)>, txnType: string)
    ensures LastFee(first + second, txnType)
            == if LastFee(second, txnType).Some? then LastFee(second, txnType) else LastFee(first, txnType)
  {
    if second == [] {
      assert first + second == first;
    } else {
      var k := |second| - 1;
      LastFeeOfBoth(first, second[..k], txnType);
      assert (first + second)[..|first + second| - 1] == first + second[..k];
    }
  }

  // What was set in a run, in its order.
  ghost function FeesSet(s: System, es: seq<Event>, t: System): seq<(string, u64)>
    requires Run(s, es, t)
    decreases |es|
  {
    if es == [] then []
    else
      (if es[0].SetFeesDone? && es[0].ok then s.pending[es[0].id].table else [])
      + FeesSet(Next(s, es[0]), es[1..], t)
  }

  lemma {:induction false} ProcessInputsFees(l: Ledger, inputs: seq<string>)
    ensures ProcessInputs(l, inputs).fees == l.fees
  {
    if inputs != [] {
      ProcessInputsFees(l, inputs[..|inputs| - 1]);
    }
  }

  lemma {:induction false} ProcessOutputsFees(l: Ledger, outputs: seq<Output>, seqNo: int)
    ensures ProcessOutputs(l, outputs, seqNo).0.fees == l.fees
  {
    if outputs != [] {
      ProcessOutputsFees(l, outputs[..|outputs| - 1], seqNo);
    }
  }

  lemma OtherStepsKeepFees(s: System, e: Event)
    requires Enabled(s, e) && !e.SetFeesDone?
    ensures Next(s, e).ledger.fees == s.ledger.fees
  {
    if e.MintDone? {
      var outputs := s.pending[e.id].outputs;
      MintOutputsBalances(AddTxn(s.ledger, [], outputs), outputs, AsI32(s.ledger.counter + 1));
    } else if e.FeesListed? || e.PaymentDone? {
      var r := s.pending[e.id];
      ProcessInputsFees(s.ledger, r.inputs);
      ProcessOutputsFees(ProcessInputs(s.ledger, r.inputs), r.outputs, AsI32(r.Ticket().value));
    }
  }

  // In every run, a type's fee is the last one set for it, or what it was.
  lemma {:induction false} FeeOfRun(s: System, es: seq<Event>, t: System, txnType: string)
    requires Run(s, es, t)
    ensures FeeOf(t.ledger, txnType) == Or(LastFee(FeesSet(s, es, t), txnType), FeeOf(s.ledger, txnType))
    decreases |es|
  {
    if es != [] {
      var e, u := es[0], Next(s, es[0]);
      FeeOfRun(u, es[1..], t, txnType);
      var now := if e.SetFeesDone? && e.ok then s.pending[e.id].table else [];
      LastFeeOfBoth(now, FeesSet(u, es[1..], t), txnType);
      if e.SetFeesDone? {
        FeeIsLastSet(s.ledger, now, txnType);
      } else {
        OtherStepsKeepFees(s, e);
      }
    }
  }

  // So the fee that an accepted request must pay is the last one set for its
  // type before its check, or nothing from an empty table.
  lemma AcceptedFeeIsLastSet(s: System, es: seq<Event>, t: System, e: Event)
    requires Init(s) && s.ledger.fees == map[] && Run(s, es, t) && e.AskFees? && AcceptsFees(t, e)
    ensures AcceptedFees(t, e).Live()
    ensures AcceptedFees(t, e).Floor() == Or(LastFee(FeesSet(s, es, t), e.txnType), 0)
  {
    FeeOfRun(s, es, t, e.txnType);
  }

  // ---- exactly which requests are accepted ----

  // Sums that fit u64, so that the folds are true.
  ghost predicate Fits(l: Ledger, inputs: seq<string>, outputs: seq<Output>, fee: nat) {
    Sum(BalancesOf(l.balances, inputs)) < U64_BOUND && Sum(Amounts(outputs)) + fee < U64_BOUND
  }

  lemma FoldsAreTrue(l: Ledger, inputs: seq<string>, outputs: seq<Output>, fee: nat)
    requires Fits(l, inputs, outputs, fee)
    ensures CountInputs(l, inputs) == Sum(BalancesOf(l.balances, inputs))
    ensures CountPayments(outputs) == Sum(Amounts(outputs)) == Sum(Amounts(outputs)) % U64_BOUND
    ensures (CountPayments(outputs) + fee) % U64_BOUND == Sum(Amounts(outputs)) + fee
  {
    WrapSumExact(BalancesOf(l.balances, inputs));
    WrapSumExact(Amounts(outputs));
  }

  predicate Unspent(l: Ledger, inputs: seq<string>) { Elements(inputs) <= l.balances.Keys }

  predicate Covered(l: Ledger, inputs: seq<string>, price: nat) { Sum(BalancesOf(l.balances, inputs)) >= price }

  lemma UnspentExist(l: Ledger, inputs: seq<string>)
    ensures Unspent(l, inputs) <==> InputsExist(l, inputs)
  {
    assert forall i :: i in inputs <==> i in Elements(inputs);
  }

  // A fee request is accepted exactly if all its inputs are unspent, they hold
  // amounts and fee, and it has an id; otherwise it says which of these fails,
  // the first one first, and nothing changes.
  lemma FeesAcceptedExactly(l: Ledger, inputs: seq<string>, outputs: seq<Output>, txnType: string, hasReqId: bool)
    requires Fits(l, inputs, outputs, FeeOf(l, txnType))
    ensures var (m, check) := CheckFees(l, inputs, outputs, txnType, hasReqId);
            var unspent := Unspent(l, inputs);
            var covered := Covered(l, inputs, Sum(Amounts(outputs)) + FeeOf(l, txnType));
            && (check.FeesAccepted? <==> unspent && covered && hasReqId)
            && (check == FeesRefused(NoSource) <==> !unspent)
            && (check == FeesRefused(Insufficient) <==> unspent && !covered)
            && (check == FeesRefused(BadRequest) <==> unspent && covered && !hasReqId)
            && (!check.FeesAccepted? ==> m == l)
  {
    FoldsAreTrue(l, inputs, outputs, FeeOf(l, txnType));
    UnspentExist(l, inputs);
  }

  // A payment is live after its check, and so applied if the library call
  // succeeds, exactly if all its inputs are unspent and hold its amounts.
  lemma PaymentLiveExactly(s: System, id: nat, addresses: seq<string>)
    requires id in s.pending && s.pending[id].PaymentAsked? && CheckInputs(s.pending[id].inputs, addresses)
    requires Fits(s.ledger, s.pending[id].inputs, s.pending[id].outputs, 0)
    ensures var r := s.pending[id];
            CheckedPayment(s, id, addresses).Live() <==>
              Unspent(s.ledger, r.inputs) && Covered(s.ledger, r.inputs, Sum(Amounts(r.outputs)))
  {
    var r := s.pending[id];
    FoldsAreTrue(s.ledger, r.inputs, r.outputs, 0);
    UnspentExist(s.ledger, r.inputs);
  }

  // The check of a payment: what it refuses, and what it notes for later.
  lemma PaymentCheckedExactly(l: Ledger, inputs: seq<string>, outputs: seq<Output>, addresses: Option<seq<string>>)
    requires Fits(l, inputs, outputs, 0)
    ensures var (m, check) := CheckPayment(l, inputs, outputs, addresses);
            var owned := addresses.Some? && CheckInputs(inputs, addresses.value);
            && (check.PaymentChecked? <==> owned)
            && (check == PaymentRefused(LibraryError) <==> addresses.None?)
            && (check == PaymentRefused(NotOwner) <==> addresses.Some? && !owned)
            && (!owned ==> m == l)
            && (owned ==> check == PaymentChecked(l.counter + 1, Sum(BalancesOf(l.balances, inputs)),
                                                  Sum(Amounts(outputs)), Unspent(l, inputs)))
  {
    FoldsAreTrue(l, inputs, outputs, 0);
    UnspentExist(l, inputs);
  }

  // Why a checked payment is not applied, the first reason first.
  lemma PaymentRefusedExactly(l: Ledger, inputs: seq<string>, outputs: seq<Output>, check: PaymentCheck, ok: bool)
    requires check.PaymentChecked?
    ensures var (m, v) := ApplyPayment(l, inputs, outputs, check, ok);
            && (v == LibraryError <==> !ok)
            && (v == NoSource <==> ok && !check.exist)
            && (v == Insufficient <==> ok && check.exist && check.counted < check.payments)
            && (v.LibraryError? || v.NoSource? || v.Insufficient? ==> m == l)
  {
  }
}
