// The payment plugin as it runs: shared maps updated in place by the handlers
// and by the callbacks they leave behind. Each method is tied to the function
// of NullPayLedger that describes its step.
module PaymentMethod {
  import opened Options
  import opened Text
  import opened Sums
  import opened SourceIds
  import opened NullPayLedger

  class NullPay {
    var balances: map<string, u64>
    var sources: map<string, seq<string>>
    var txns: map<int, Txn>
    var counter: nat
    var fees: map<string, u64>

    function View(): Ledger
      reads this
    {
      Ledger(balances, sources, txns, counter, fees)
    }

    constructor ()
      ensures View() == Ledger(map[], map[], map[], 0, map[])
    {
      balances, sources, txns, counter, fees := map[], map[], map[], 0, map[];
    }

    method LogTxn(inputs: seq<string>, outputs: seq<Output>) returns (seqNo: int)
      modifies this`txns, this`counter
      ensures View() == AddTxn(old(View()), inputs, outputs)
      ensures counter == old(counter) + 1 && seqNo == AsI32(counter)
    {
      counter := counter + 1;
      seqNo := AsI32(counter);
      txns := txns[seqNo := Txn(inputs, outputs)];
    }

    method AddOne(address: string, seqNo: int, balance: u64) returns (id: Option<string>)
      modifies this`balances, this`sources
      ensures (View(), id) == AddSource(old(View()), address, seqNo, balance)
    {
      id := ToSource(address, seqNo);
      if id.Some? {
        balances := balances[id.value := balance];
        var listed := if address in sources then sources[address] else [];
        sources := sources[address := listed + [id.value]];
      }
    }

    method RemoveOne(id: string)
      modifies this`balances, this`sources
      ensures View() == RemoveSource(old(View()), id)
    {
      var read := FromSource(id);
      if read.Some? {
        var address := read.value.1;
        balances := balances - {id};
        if address in sources {
          var kept := Without(sources[address], id);
          sources := sources - {address};
          if kept != [] {
            sources := sources[address := kept];
          }
          assert kept != [] ==> old(sources)[address := kept] == sources;
        } else {
          assert sources - {address} == sources;
        }
      }
    }

    method ProcessInputs(inputs: seq<string>)
      modifies this`balances, this`sources
      ensures View() == NullPayLedger.ProcessInputs(old(View()), inputs)
    {
      for i := 0 to |inputs|
        invariant View() == NullPayLedger.ProcessInputs(old(View()), inputs[..i])
      {
        assert inputs[..i + 1][..i] == inputs[..i];
        RemoveOne(inputs[i]);
      }
      assert inputs[..|inputs|] == inputs;
    }

    // None stands for the panic: what was added so far stays.
    method ProcessOutputs(outputs: seq<Output>, seqNo: int) returns (receipts: Option<seq<Receipt>>)
      modifies this`balances, this`sources
      ensures (View(), receipts) == NullPayLedger.ProcessOutputs(old(View()), outputs, seqNo)
    {
      var done := [];
      for i := 0 to |outputs|
        invariant (View(), Some(done)) == NullPayLedger.ProcessOutputs(old(View()), outputs[..i], seqNo)
      {
        assert outputs[..i + 1][..i] == outputs[..i];
        var id := AddOne(outputs[i].recipient, seqNo, outputs[i].amount);
        var receipt := if id.None? then None else ReceiptInfo(View(), id.value);
        if receipt.None? {
          PanicIsFinal(old(View()), outputs, seqNo, i + 1);
          return None;
        }
        done := done + [receipt.value];
      }
      assert outputs[..|outputs|] == outputs;
      receipts := Some(done);
    }

    lemma {:induction false} PanicIsFinal(l: Ledger, outputs: seq<Output>, seqNo: int, i: nat)
      requires i <= |outputs| && NullPayLedger.ProcessOutputs(l, outputs[..i], seqNo).1.None?
      ensures NullPayLedger.ProcessOutputs(l, outputs, seqNo) == NullPayLedger.ProcessOutputs(l, outputs[..i], seqNo)
    {
      if i < |outputs| {
        var k := |outputs| - 1;
        assert outputs[..k][..i] == outputs[..i];
        PanicIsFinal(l, outputs[..k], seqNo, i);
      } else {
        assert outputs[..i] == outputs;
      }
    }

    method CheckOwners(inputs: seq<string>, addresses: seq<string>) returns (ok: bool)
      ensures ok <==> CheckInputs(inputs, addresses)
    {
      for i := 0 to |inputs|
        invariant CheckInputs(inputs[..i], addresses)
      {
        var read := FromSource(inputs[i]);
        assert inputs[i] in inputs;
        if read.None? || read.value.1 !in addresses {
          return false;
        }
        assert inputs[..i + 1] == inputs[..i] + [inputs[i]];
      }
      assert inputs[..|inputs|] == inputs;
      ok := true;
    }

    method CheckExistence(inputs: seq<string>) returns (ok: bool)
      ensures ok <==> InputsExist(View(), inputs)
    {
      for i := 0 to |inputs|
        invariant forall j :: 0 <= j < i ==> inputs[j] in balances
      {
        if inputs[i] !in balances {
          return false;
        }
      }
      ok := true;
    }

    // The fold of a release build: each addition wraps at 2^64.
    method CountTotalInputs(inputs: seq<string>) returns (total: u64)
      ensures total == CountInputs(View(), inputs)
      ensures Sum(BalancesOf(balances, inputs)) < U64_BOUND ==> total == Sum(BalancesOf(balances, inputs))
    {
      total := 0;
      for i := 0 to |inputs|
        invariant total == WrapSum(BalancesOf(balances, inputs[..i]))
      {
        assert inputs[..i + 1][..i] == inputs[..i];
        var found := BalancesOf(balances, inputs[..i]);
        if inputs[i] in balances {
          assert (found + [balances[inputs[i]]])[..|found|] == found;
          total := (total + balances[inputs[i]]) % U64_BOUND;
        } else {
          assert found + [] == found;
        }
      }
      assert inputs[..|inputs|] == inputs;
      WrapSumExact(BalancesOf(balances, inputs));
    }

    method CountTotalPayments(outputs: seq<Output>) returns (total: u64)
      ensures total == CountPayments(outputs)
      ensures Sum(Amounts(outputs)) < U64_BOUND ==> total == Sum(Amounts(outputs))
    {
      total := 0;
      for i := 0 to |outputs|
        invariant total == WrapSum(Amounts(outputs)[..i])
      {
        assert Amounts(outputs)[..i + 1][..i] == Amounts(outputs)[..i];
        total := (total + outputs[i].amount) % U64_BOUND;
      }
      assert Amounts(outputs)[..|outputs|] == Amounts(outputs);
      WrapSumExact(Amounts(outputs));
    }

    // add_request_fees, up to the point where the callback is left behind.
    method AddRequestFees(inputs: seq<string>, outputs: seq<Output>, txnType: string, hasReqId: bool)
      returns (check: FeesCheck)
      modifies this`txns, this`counter
      ensures (View(), check) == CheckFees(old(View()), inputs, outputs, txnType, hasReqId)
    {
      var fee := FeeOf(View(), txnType);
      var exist := CheckExistence(inputs);
      if !exist {
        return FeesRefused(NoSource);
      }
      var amount := CountTotalInputs(inputs);
      var payments := CountTotalPayments(outputs);
      if amount >= (payments + fee) % U64_BOUND {
        if !hasReqId {
          return FeesRefused(BadRequest);
        }
        var seqNo := LogTxn(inputs, outputs);
        return FeesAccepted(counter, amount, fee);
      }
      check := FeesRefused(Insufficient);
    }

    method SettleRequest(inputs: seq<string>, outputs: seq<Output>, seqNo: int) returns (v: Verdict)
      modifies this`balances, this`sources
      ensures (View(), v) == Settle(old(View()), inputs, outputs, seqNo)
    {
      ProcessInputs(inputs);
      var receipts := ProcessOutputs(outputs, seqNo);
      v := if receipts.None? then Panicked else Applied(receipts.value);
    }

    // Its callback, once the wallet's payment addresses are known.
    method FeesCallback(inputs: seq<string>, outputs: seq<Output>, ticket: nat, addresses: Option<seq<string>>)
      returns (v: Verdict)
      modifies this`balances, this`sources
      ensures (View(), v) == ApplyFees(old(View()), inputs, outputs, ticket, addresses)
    {
      if addresses.None? {
        return LibraryError;
      }
      var owned := CheckOwners(inputs, addresses.value);
      if !owned {
        return NotOwner;
      }
      v := SettleRequest(inputs, outputs, AsI32(ticket));
    }

    // build_payment_req: the callback with the addresses makes the check.
    method PaymentAddressesCallback(inputs: seq<string>, outputs: seq<Output>, addresses: Option<seq<string>>)
      returns (check: PaymentCheck)
      modifies this`txns, this`counter
      ensures (View(), check) == CheckPayment(old(View()), inputs, outputs, addresses)
    {
      if addresses.None? {
        return PaymentRefused(LibraryError);
      }
      var owned := CheckOwners(inputs, addresses.value);
      if !owned {
        return PaymentRefused(NotOwner);
      }
      var balance := CountTotalInputs(inputs);
      var payments := CountTotalPayments(outputs);
      var exist := CheckExistence(inputs);
      var seqNo := LogTxn(inputs, outputs);
      check := PaymentChecked(counter, balance, payments, exist);
    }

    // The spawned thread's callback applies it.
    method PaymentCallback(inputs: seq<string>, outputs: seq<Output>, check: PaymentCheck, ok: bool)
      returns (v: Verdict)
      requires check.PaymentChecked?
      modifies this`balances, this`sources
      ensures (View(), v) == ApplyPayment(old(View()), inputs, outputs, check, ok)
    {
      if !ok {
        return LibraryError;
      }
      if !check.exist {
        return NoSource;
      }
      if check.counted >= check.payments {
        v := SettleRequest(inputs, outputs, AsI32(check.ticket));
      } else {
        v := Insufficient;
      }
    }

    method MintCallback(outputs: seq<Output>, ok: bool)
      modifies this`balances, this`sources, this`txns, this`counter
      ensures View() == ApplyMint(old(View()), outputs, ok)
    {
      if ok {
        var seqNo := LogTxn([], outputs);
        ghost var l := View();
        for i := 0 to |outputs|
          invariant View() == MintOutputs(l, outputs[..i], seqNo)
        {
          assert outputs[..i + 1][..i] == outputs[..i];
          var id := AddOne(outputs[i].recipient, seqNo, outputs[i].amount);
        }
        assert outputs[..|outputs|] == outputs;
      }
    }

    method SetTxnFees(table: seq<(string, u64)>, ok: bool)
      modifies this`fees
      ensures View() == if ok then SetFees(old(View()), table) else old(View())
    {
      if ok {
        for i := 0 to |table|
          invariant View() == SetFees(old(View()), table[..i])
        {
          assert table[..i + 1][..i] == table[..i];
          fees := fees[TxnCode(table[i].0) := table[i].1];
        }
        assert table[..|table|] == table;
      }
    }
  }
}
