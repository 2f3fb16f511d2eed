// Runs in which conservation fails or a source comes back: one for each of the
// expectations that neither the library nor the plugin checks.
module NullPayFailures {
  import opened Options
  import opened Text
  import opened Sums
  import opened SourceIds
  import opened NullPayLedger
  import opened PaymentRequests
  import opened NullPayRuns
  import opened NullPayConservation

  // An address of the null method whose sources can be read back.
  predicate NullAddress(address: string) { WellFormed(address) && MethodOf(address) == Some(NULL_METHOD) }

  lemma {:induction false} RunConcat(s: System, es: seq<Event>, t: System, fs: seq<Event>, u: System)
    requires Run(s, es, t) && Run(t, fs, u)
    ensures Run(s, es + fs, u)
    decreases |es|
  {
    if es == [] {
      assert es + fs == fs;
    } else {
      RunConcat(Next(s, es[0]), es[1..], t, fs, u);
      assert (es + fs)[1..] == es[1..] + fs;
    }
  }

  lemma RunOne(s: System, e: Event)
    requires Enabled(s, e)
    ensures Run(s, [e], Next(s, e))
  {
    assert [e][1..] == [];
    assert Run(Next(s, e), [], Next(s, e));
  }

  lemma RunTwo(s: System, e: Event, f: Event)
    requires Enabled(s, e) && Enabled(Next(s, e), f)
    ensures Run(s, [e, f], Next(Next(s, e), f))
  {
    RunOne(s, e);
    RunOne(Next(s, e), f);
    RunConcat(s, [e], Next(s, e), [f], Next(Next(s, e), f));
    assert [e] + [f] == [e, f];
  }

  // ---- the requests these runs are made of reach the plugin ----

  lemma SourceOfNullAddress(address: string, seqNo: int)
    requires NullAddress(address) && IsI32(seqNo)
    ensures ToSource(address, seqNo).Some?
    ensures var id := ToSource(address, seqNo).value;
            FromSource(id) == Some((seqNo, address)) && MethodOf(id) == Some(NULL_METHOD)
  {
    SourceRoundTrip(address, seqNo);
    SourceParts(address, seqNo);
  }

  lemma OneInputIsListed(id: string)
    requires MethodOf(id) == Some(NULL_METHOD)
    ensures Listed([id])
  {
  }

  lemma OutputsAreListed(outputs: seq<Output>)
    requires DistinctRecipients(outputs) && forall i :: 0 <= i < |outputs| ==> NullAddress(outputs[i].recipient)
    ensures Listed(Recipients(outputs))
  {
    ListedRecipients(outputs);
  }

  // ---- one mint ----

  lemma OneMint(l: Ledger, address: string, amount: u64)
    requires WellFormed(address)
    ensures var m := ApplyMint(l, [Output(address, amount)], true);
            var id := ToSource(address, AsI32(l.counter + 1));
            && m.counter == l.counter + 1 && m.fees == l.fees
            && id.Some? && m.balances == l.balances[id.value := amount]
    ensures Minted([Output(address, amount)]) == amount
  {
    var outputs := [Output(address, amount)];
    var logged := AddTxn(l, [], outputs);
    var seqNo := AsI32(l.counter + 1);
    assert outputs[..0] == [];
    assert MintOutputs(logged, outputs[..0], seqNo) == logged;
    assert MintOutputs(logged, outputs, seqNo) == AddSource(logged, address, seqNo, amount).0;
  }

  // From asking to done, when nothing else is in progress.
  lemma MintRun(s: System, address: string, amount: u64) returns (es: seq<Event>, t: System)
    requires s.pending == map[] && NullAddress(address)
    ensures Run(s, es, t) && t.pending == map[] && t.nextId == s.nextId + 1 && t.surplus == s.surplus
    ensures var id := ToSource(address, AsI32(s.ledger.counter + 1));
            && id.Some? && t.ledger.balances == s.ledger.balances[id.value := amount]
    ensures t.known == s.known + t.ledger.balances
    ensures t.ledger.counter == s.ledger.counter + 1 && t.minted == s.minted + amount && t.ledger.fees == s.ledger.fees
  {
    var outputs := [Output(address, amount)];
    OutputsAreListed(outputs);
    ReachingRequests([], outputs);
    OneMint(s.ledger, address, amount);
    var asked := Next(s, AskMint(outputs));
    assert asked == Queue(s, MintPending(outputs));
    t := Next(asked, MintDone(s.nextId, true));
    assert t.pending == map[];
    es := [AskMint(outputs), MintDone(s.nextId, true)];
    RunTwo(s, AskMint(outputs), MintDone(s.nextId, true));
  }

  // ---- the counter wraps ----

  lemma OneInputCounts(l: Ledger, id: string)
    requires id in l.balances
    ensures BalancesOf(l.balances, [id]) == [l.balances[id]]
    ensures Sum(BalancesOf(l.balances, [id])) == l.balances[id]
    ensures CountInputs(l, [id]) == l.balances[id]
  {
    assert [id][..0] == [];
    SingleSum(l.balances[id]);
    WrapSumExact(BalancesOf(l.balances, [id]));
  }

  lemma SpendAccepted(s: System, id: string, txnType: string)
    requires id in s.ledger.balances && FeeOf(s.ledger, txnType) <= s.ledger.balances[id]
    requires MethodOf(id) == Some(NULL_METHOD)
    ensures AcceptsFees(s, AskFees([id], [], txnType, true))
  {
    OneInputIsListed(id);
    ListedRecipients([]);
    ReachingRequests([id], []);
    OneInputCounts(s.ledger, id);
  }

  lemma SpendDone(s: System, n: nat, id: string, address: string)
    requires Enabled(s, FeesListed(n, Some([address]))) && id in s.known
    requires s.pending.Keys == {n} && s.pending[n].inputs == [id] && s.pending[n].outputs == []
    requires FromSource(id).Some? && FromSource(id).value.1 == address
    ensures var t := Next(s, FeesListed(n, Some([address])));
            t.pending == map[] && t.ledger.counter == s.ledger.counter && id in Spent(t)
  {
    SpendSettles(s.ledger, id, address, AsI32(s.pending[n].fees.ticket));
  }

  // A fee request that spends one source and pays out nothing.
  lemma SpendRun(s: System, id: string, address: string, txnType: string) returns (es: seq<Event>, t: System)
    requires s.pending == map[] && id in s.known
    requires id in s.ledger.balances && FeeOf(s.ledger, txnType) <= s.ledger.balances[id]
    requires FromSource(id).Some? && FromSource(id).value.1 == address && MethodOf(id) == Some(NULL_METHOD)
    ensures Run(s, es, t) && t.pending == map[] && t.ledger.counter == s.ledger.counter + 1 && id in Spent(t)
  {
    var ask, listed := AskFees([id], [], txnType, true), FeesListed(s.nextId, Some([address]));
    SpendAccepted(s, id, txnType);
    AcceptedFeesJoin(s, ask);
    var asked := Next(s, ask);
    assert asked.pending == map[s.nextId := AcceptedFees(s, ask)];
    SpendDone(asked, s.nextId, id, address);
    t := Next(asked, listed);
    es := [ask, listed];
    RunTwo(s, ask, listed);
  }

  lemma SpendSettles(l: Ledger, id: string, address: string, seqNo: int)
    requires FromSource(id).Some? && FromSource(id).value.1 == address && IsI32(seqNo)
    ensures CheckInputs([id], [address])
    ensures Settle(l, [id], [], seqNo).0.balances == l.balances - {id}
    ensures Settle(l, [id], [], seqNo).0.counter == l.counter
    ensures Settle(l, [id], [], seqNo).1 == Applied([])
  {
    ProcessInputsBalances(l, [id]);
    assert Elements([id]) == {id} by {
      assert forall x :: x in [id] <==> x == id;
    }
  }

  // n mints of nothing, each to the same address.
  lemma {:induction false} IdleMintsRun(s: System, address: string, n: nat) returns (es: seq<Event>, t: System)
    requires s.pending == map[] && NullAddress(address)
    ensures Run(s, es, t) && t.pending == map[] && t.ledger.counter == s.ledger.counter + n
    decreases n
  {
    if n == 0 {
      es, t := [], s;
    } else {
      var fs, u := MintRun(s, address, 0);
      var gs;
      gs, t := IdleMintsRun(u, address, n - 1);
      es := fs + gs;
      RunConcat(s, fs, u, gs, t);
    }
  }

  // The first two transactions: the source is made and spent.
  lemma MakeAndSpendRun(s: System, address: string, amount: u64, txnType: string) returns (es: seq<Event>, t: System)
    requires Init(s) && NullAddress(address) && FeeOf(s.ledger, txnType) <= amount
    ensures Run(s, es, t) && t.pending == map[] && t.ledger.counter == 2
    ensures ToSource(address, 1).Some? && ToSource(address, 1).value in Spent(t)
  {
    var id := ToSource(address, 1).value;
    SourceOfNullAddress(address, 1);
    assert AsI32(s.ledger.counter + 1) == 1;
    var fs, minted := MintRun(s, address, amount);
    var gs;
    gs, t := SpendRun(minted, id, address, txnType);
    RunConcat(s, fs, minted, gs, t);
    es := fs + gs;
  }

  lemma MintWrapped(s: System, address: string, amount: u64) returns (es: seq<Event>, t: System)
    requires s.pending == map[] && s.ledger.counter == WRAP && NullAddress(address)
    ensures Run(s, es, t) && t.ledger.counter == WRAP + 1
    ensures ToSource(address, 1).Some? && ToSource(address, 1).value in t.ledger.balances
  {
    assert AsI32(s.ledger.counter + 1) == 1;
    es, t := MintRun(s, address, amount);
  }

  // Past 2^32 transactions the counter repeats: for every null address there is
  // a run in which its first source is spent, and unspent again when the
  // transaction after the 2^32nd mints for it.
  lemma SpentSourceReturnsAfterWrap(s: System, address: string, amount: u64, txnType: string)
    requires Init(s) && NullAddress(address) && FeeOf(s.ledger, txnType) <= amount
    ensures exists es, t, fs, u ::
      && Run(s, es, t) && Run(t, fs, u) && u.ledger.counter == WRAP + 1
      && ToSource(address, 1).Some? && ToSource(address, 1).value in Spent(t)
      && ToSource(address, 1).value in u.ledger.balances
  {
    var first, spent := MakeAndSpendRun(s, address, amount, txnType);
    var idle, full := IdleMintsRun(spent, address, WRAP - 2);
    var again, u := MintWrapped(full, address, amount);
    RunConcat(spent, idle, full, again, u);
  }

  // ---- payments ----

  lemma AskRun(s: System, inputs: seq<string>, outputs: seq<Output>)
    requires PaymentReaches(inputs, outputs)
    ensures Next(s, AskPayment(inputs, outputs)) == Queue(s, PaymentAsked(inputs, outputs))
  {
  }

  lemma PaymentFromOneReaches(id: string, outputs: seq<Output>)
    requires MethodOf(id) == Some(NULL_METHOD) && outputs != [] && Listed(Recipients(outputs))
    ensures PaymentReaches([id], outputs)
  {
    OneInputIsListed(id);
    ReachingRequests([id], outputs);
  }

  // A payment asked for and checked, beside whatever is in progress.
  lemma CheckRun(s: System, id: string, owner: string, outputs: seq<Output>) returns (es: seq<Event>, t: System)
    requires FromSource(id).Some? && FromSource(id).value.1 == owner && MethodOf(id) == Some(NULL_METHOD)
    requires outputs != [] && Listed(Recipients(outputs))
    ensures Run(s, es, t) && s.nextId in t.pending && t.nextId == s.nextId + 1
    ensures var q := PaymentPending([id], outputs, CheckPayment(s.ledger, [id], outputs, Some([owner])).1, [owner]);
            && CheckInputs([id], [owner]) && q.payment.PaymentChecked?
            && t == s.(ledger := AddTxn(s.ledger, [id], outputs), pending := s.pending[s.nextId := q],
                       nextId := s.nextId + 1)
  {
    var ask, listed := AskPayment([id], outputs), PaymentListed(s.nextId, Some([owner]));
    PaymentFromOneReaches(id, outputs);
    AskRun(s, [id], outputs);
    var asked := Queue(s, PaymentAsked([id], outputs));
    assert CheckInputs([id], [owner]);
    CheckedPaymentMovesOn(asked, s.nextId, [owner]);
    t := Next(asked, listed);
    es := [ask, listed];
    RunTwo(s, ask, listed);
    assert s.pending[s.nextId := PaymentAsked([id], outputs)][s.nextId := t.pending[s.nextId]]
        == s.pending[s.nextId := t.pending[s.nextId]];
  }

  lemma InitInv(s: System, es: seq<Event>, t: System)
    requires Init(s) && Run(s, es, t) && t.ledger.counter <= WRAP
    ensures Inv(t)
  {
    assert Reached(t);
    ReachedInv(t);
  }

  // One source of the owner's, freshly minted.
  lemma FundedRun(s: System, owner: string, amount: u64) returns (es: seq<Event>, t: System, id: string)
    requires Init(s) && NullAddress(owner)
    ensures Run(s, es, t) && t.pending == map[] && t.ledger.balances == map[id := amount]
    ensures t.ledger.counter == 1 && t.minted == amount && t.surplus == 0 && t.known == map[id := amount]
    ensures FromSource(id) == Some((1, owner)) && MethodOf(id) == Some(NULL_METHOD)
  {
    SourceOfNullAddress(owner, 1);
    assert AsI32(s.ledger.counter + 1) == 1;
    es, t := MintRun(s, owner, amount);
    id := ToSource(owner, 1).value;
  }

  lemma GivenInFull(outputs: seq<Output>)
    requires forall i :: 0 <= i < |outputs| ==> NullAddress(outputs[i].recipient)
    ensures AllWellFormed(outputs) && Given(outputs) == Sum(Amounts(outputs))
  {
    AddedIsPrefix(outputs);
    MintedAll(outputs);
  }

  // A payment that waits to be settled, and what it is made of.
  ghost predicate Waiting(s: System, i: nat, id: string, outputs: seq<Output>) {
    && i in s.pending && s.pending[i].PaymentPending? && s.pending[i].Live()
    && s.pending[i].inputs == [id] && s.pending[i].outputs == outputs
  }

  // It settles: what its input holds now comes in, its amounts go out.
  lemma SettleOnce(s: System, i: nat, id: string, outputs: seq<Output>) returns (t: System)
    requires Inv(s) && s.ledger.counter <= WRAP && Waiting(s, i, id, outputs)
    requires forall k :: 0 <= k < |outputs| ==> NullAddress(outputs[k].recipient)
    ensures Run(s, [PaymentDone(i, true)], t) && Inv(t)
    ensures t.minted == s.minted && t.pending == s.pending - {i} && t.ledger.counter == s.ledger.counter
    ensures t.surplus
            == s.surplus + (if id in s.ledger.balances then s.ledger.balances[id] else 0) - Sum(Amounts(outputs))
    ensures id in s.ledger.balances ==> id !in t.ledger.balances
  {
    var e := PaymentDone(i, true);
    var r := s.pending[i];
    assert RequestOk(s, r);
    t := Next(s, e);
    SettlingMoves(s, e);
    SettlingKeepsInv(s, e);
    GivenInFull(outputs);
    NewSourcesAreNew(s.known, AddedOutputs(outputs), r.Ticket().value);
    assert id in [id];
    assert id in Elements(r.inputs);
    OneInputHolds(s.ledger, id);
    RunOne(s, e);
  }

  lemma OneInputHolds(l: Ledger, id: string)
    ensures Sum(BalancesOf(l.balances, [id])) == if id in l.balances then l.balances[id] else 0
  {
    assert [id][..0] == [];
    SingleSum(if id in l.balances then l.balances[id] else 0);
  }

  // The same as CheckRun, with less said of the state.
  lemma WaitRun(s: System, id: string, owner: string, outputs: seq<Output>) returns (es: seq<Event>, t: System)
    requires FromSource(id).Some? && FromSource(id).value.1 == owner && MethodOf(id) == Some(NULL_METHOD)
    requires outputs != [] && DistinctRecipients(outputs)
    requires forall k :: 0 <= k < |outputs| ==> NullAddress(outputs[k].recipient)
    requires id in s.ledger.balances && s.ledger.balances[id] >= CountPayments(outputs)
    ensures Run(s, es, t) && Waiting(t, s.nextId, id, outputs)
    ensures t.ledger.balances == s.ledger.balances && t.ledger.counter == s.ledger.counter + 1
    ensures t.minted == s.minted && t.surplus == s.surplus && t.nextId == s.nextId + 1
    ensures forall i :: i in s.pending && i != s.nextId ==> i in t.pending && t.pending[i] == s.pending[i]
  {
    OutputsAreListed(outputs);
    es, t := CheckRun(s, id, owner, outputs);
    CheckedIsLive(s.ledger, id, owner, outputs);
  }

  // A source made by a mint, and a payment from it that waits.
  lemma FundedWaitRun(s: System, owner: string, amount: u64, outputs: seq<Output>)
    returns (es: seq<Event>, t: System, id: string)
    requires Init(s) && NullAddress(owner) && outputs != [] && DistinctRecipients(outputs)
    requires forall k :: 0 <= k < |outputs| ==> NullAddress(outputs[k].recipient)
    requires amount >= CountPayments(outputs)
    ensures Run(s, es, t) && t.nextId > 0 && Waiting(t, t.nextId - 1, id, outputs)
    ensures t.ledger.balances == map[id := amount] && t.ledger.counter == 2 && t.minted == amount && t.surplus == 0
    ensures FromSource(id) == Some((1, owner)) && MethodOf(id) == Some(NULL_METHOD)
  {
    var fs, gs, funded;
    fs, funded, id := FundedRun(s, owner, amount);
    gs, t := WaitRun(funded, id, owner, outputs);
    RunConcat(s, fs, funded, gs, t);
    es := fs + gs;
  }

  lemma InvTotal(s: System)
    requires Inv(s)
    ensures Total(s.ledger.balances) == s.minted - s.surplus
  {
  }

  // Settling a payment that waits at the end of a run from the start.
  lemma SettleLast(s: System, es: seq<Event>, t: System, i: nat, id: string, outputs: seq<Output>) returns (u: System)
    requires Init(s) && Run(s, es, t) && t.ledger.counter <= WRAP && Waiting(t, i, id, outputs)
    requires forall k :: 0 <= k < |outputs| ==> NullAddress(outputs[k].recipient)
    requires id in t.ledger.balances
    ensures Run(s, es + [PaymentDone(i, true)], u) && Inv(u) && u.minted == t.minted
    ensures u.surplus == t.surplus + t.ledger.balances[id] - Sum(Amounts(outputs))
  {
    InitInv(s, es, t);
    u := SettleOnce(t, i, id, outputs);
    RunConcat(s, es, t, [PaymentDone(i, true)], u);
  }

  lemma WrappingRun(s: System, owner: string, amount: u64, outputs: seq<Output>) returns (es: seq<Event>, t: System)
    requires Init(s) && NullAddress(owner) && outputs != [] && DistinctRecipients(outputs)
    requires forall k :: 0 <= k < |outputs| ==> NullAddress(outputs[k].recipient)
    requires CountPayments(outputs) == 0
    ensures Run(s, es, t) && Inv(t) && t.minted == amount && t.surplus == amount - Sum(Amounts(outputs))
  {
    var fs, u, id := FundedWaitRun(s, owner, amount, outputs);
    t := SettleLast(s, fs, u, u.nextId - 1, id, outputs);
    es := fs + [PaymentDone(u.nextId - 1, true)];
  }

  // Amounts that wrap: a payment from any source, of 2^64 - 1 to one address
  // and 1 to another, folds to nothing, is applied, and leaves 2^64 unspent.
  lemma WrappingPaymentExceedsMinted(s: System, owner: string, amount: u64, a: string, c: string)
    requires Init(s) && NullAddress(owner) && NullAddress(a) && NullAddress(c) && a != c
    ensures exists es, t :: Run(s, es, t) && t.minted == amount && Total(t.ledger.balances) == U64_BOUND
  {
    WrappingSums(a, c);
    var es, t := WrappingRun(s, owner, amount, [Output(a, U64_BOUND - 1), Output(c, 1)]);
    InvTotal(t);
  }

  lemma CheckedIsLive(l: Ledger, id: string, owner: string, outputs: seq<Output>)
    requires id in l.balances && CheckInputs([id], [owner]) && l.balances[id] >= CountPayments(outputs)
    ensures PaymentPending([id], outputs, CheckPayment(l, [id], outputs, Some([owner])).1, [owner]).Live()
  {
    OneInputCounts(l, id);
  }

  lemma WrappingSums(a: string, c: string)
    ensures var xs := Amounts([Output(a, U64_BOUND - 1), Output(c, 1)]);
            Sum(xs) == U64_BOUND && WrapSum(xs) == 0
  {
    var xs := Amounts([Output(a, U64_BOUND - 1), Output(c, 1)]);
    assert xs == [U64_BOUND - 1, 1] && xs[..1] == [U64_BOUND - 1];
    SingleSum(U64_BOUND - 1);
    WrapSumIsSumModulo(xs);
  }

  lemma BothWaitRun(s: System, owner: string, amount: u64, outputs: seq<Output>)
    returns (es: seq<Event>, t: System, id: string)
    requires Init(s) && NullAddress(owner) && outputs != [] && DistinctRecipients(outputs)
    requires forall k :: 0 <= k < |outputs| ==> NullAddress(outputs[k].recipient)
    requires amount >= CountPayments(outputs)
    ensures Run(s, es, t) && t.nextId > 1
    ensures Waiting(t, t.nextId - 2, id, outputs) && Waiting(t, t.nextId - 1, id, outputs)
    ensures t.ledger.balances == map[id := amount] && t.ledger.counter == 3 && t.minted == amount && t.surplus == 0
  {
    var fs, gs, one;
    fs, one, id := FundedWaitRun(s, owner, amount, outputs);
    gs, t := WaitRun(one, id, owner, outputs);
    RunConcat(s, fs, one, gs, t);
    es := fs + gs;
  }

  lemma SharedRun(s: System, owner: string, amount: u64, outputs: seq<Output>) returns (es: seq<Event>, t: System)
    requires Init(s) && NullAddress(owner) && outputs != [] && DistinctRecipients(outputs)
    requires forall k :: 0 <= k < |outputs| ==> NullAddress(outputs[k].recipient)
    requires amount >= CountPayments(outputs)
    ensures Run(s, es, t) && Inv(t) && t.minted == amount && t.surplus == amount - 2 * Sum(Amounts(outputs))
  {
    var fs, both, id := BothWaitRun(s, owner, amount, outputs);
    InitInv(s, fs, both);
    var gs;
    gs, t := SettleTwice(both, both.nextId - 2, both.nextId - 1, id, outputs);
    es := fs + gs;
    RunConcat(s, fs, both, gs, t);
  }

  // An input two live requests share: both payments pass their check, both are
  // applied, and twice what was minted is unspent.
  lemma SharedSourceExceedsMinted(s: System, owner: string, amount: u64, a: string)
    requires Init(s) && NullAddress(owner) && NullAddress(a) && amount > 0
    ensures exists es, t :: Run(s, es, t) && t.minted == amount && Total(t.ledger.balances) == 2 * amount
  {
    OnePayment(a, amount);
    var es, t := SharedRun(s, owner, amount, [Output(a, amount)]);
    InvTotal(t);
  }

  lemma OnePayment(a: string, amount: u64)
    ensures Sum(Amounts([Output(a, amount)])) == amount == CountPayments([Output(a, amount)])
  {
    assert Amounts([Output(a, amount)]) == [amount];
    SingleSum(amount);
    WrapSumExact(Amounts([Output(a, amount)]));
  }

  // Two payments that passed their checks on the same source settle in turn:
  // the first takes its value in, the second finds nothing and pays all the same.
  lemma SettleTwice(s: System, i: nat, j: nat, id: string, outputs: seq<Output>) returns (es: seq<Event>, t: System)
    requires Inv(s) && s.ledger.counter <= WRAP && i != j && id in s.ledger.balances
    requires Waiting(s, i, id, outputs) && Waiting(s, j, id, outputs)
    requires forall k :: 0 <= k < |outputs| ==> NullAddress(outputs[k].recipient)
    ensures Run(s, es, t) && Inv(t) && t.minted == s.minted
    ensures t.surplus == s.surplus + s.ledger.balances[id] - 2 * Sum(Amounts(outputs))
  {
    var u := SettleOnce(s, i, id, outputs);
    t := SettleOnce(u, j, id, outputs);
    RunConcat(s, [PaymentDone(i, true)], u, [PaymentDone(j, true)], t);
    es := [PaymentDone(i, true)] + [PaymentDone(j, true)];
  }
}
