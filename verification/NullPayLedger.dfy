// The data and the steps of the local payment ledger: unspent sources with an
// index by address, a transaction log, a fee table, and what each request
// does to them when it checks and when it applies.
module NullPayLedger {
  import opened Options
  import opened Text
  import opened Sums
  import opened SourceIds

  datatype Output = Output(recipient: string, amount: u64)

  datatype Receipt = Receipt(receipt: string, recipient: string, amount: u64)

  datatype Txn = Txn(inputs: seq<string>, outputs: seq<Output>)

  datatype Ledger = Ledger(
    balances: map<string, u64>,
    sources: map<string, seq<string>>,
    txns: map<int, Txn>,
    counter: nat,
    fees: map<string, u64>)

  // ---- transaction log and fee table ----

  function AddTxn(l: Ledger, inputs: seq<string>, outputs: seq<Output>): Ledger {
    l.(counter := l.counter + 1, txns := l.txns[AsI32(l.counter + 1) := Txn(inputs, outputs)])
  }

  function TxnCode(name: string): string {
    if name == "NYM" then "1"
    else if name == "ATTRIB" then "100"
    else if name == "SCHEMA" then "101"
    else if name == "CRED_DEF" then "102"
    else name
  }

  function FeeOf(l: Ledger, txnType: string): u64 {
    if TxnCode(txnType) in l.fees then l.fees[TxnCode(txnType)] else 0
  }

  function SetFees(l: Ledger, fees: seq<(string, u64)>): Ledger {
    if fees == [] then l
    else
      var m := SetFees(l, fees[..|fees| - 1]);
      m.(fees := m.fees[TxnCode(fees[|fees| - 1].0) := fees[|fees| - 1].1])
  }

  // ---- sources ----

  function SourcesOf(l: Ledger, address: string): seq<string> {
    if address in l.sources then l.sources[address] else []
  }

  function AddSource(l: Ledger, address: string, seqNo: int, balance: u64): (Ledger, Option<string>) {
    match ToSource(address, seqNo)
    case None => (l, None)
    case Some(id) =>
      var sources := l.sources[address := SourcesOf(l, address) + [id]];
      (l.(balances := l.balances[id := balance], sources := sources), Some(id))
  }

  function Without(ids: seq<string>, id: string): seq<string> {
    if ids == [] then []
    else if ids[0] == id then Without(ids[1..], id)
    else [ids[0]] + Without(ids[1..], id)
  }

  function RemoveSource(l: Ledger, id: string): Ledger {
    match FromSource(id)
    case None => l
    case Some((_, address)) =>
      var kept := Without(SourcesOf(l, address), id);
      l.(balances := l.balances - {id},
         sources := if kept == [] then l.sources - {address} else l.sources[address := kept])
  }

  function FindOutput(outputs: seq<Output>, recipient: string): Option<Output> {
    if outputs == [] then None
    else if outputs[0].recipient == recipient then Some(outputs[0])
    else FindOutput(outputs[1..], recipient)
  }

  function ReceiptInfo(l: Ledger, source: string): Option<Receipt> {
    match FromSource(source)
    case None => None
    case Some((seqNo, recipient)) =>
      if seqNo !in l.txns then None
      else
        match FindOutput(l.txns[seqNo].outputs, recipient)
        case None => None
        case Some(out) => Some(Receipt(source, recipient, out.amount))
  }

  // ---- settling a request ----

  function ProcessInputs(l: Ledger, inputs: seq<string>): Ledger {
    if inputs == [] then l
    else RemoveSource(ProcessInputs(l, inputs[..|inputs| - 1]), inputs[|inputs| - 1])
  }

  // None: an output got no receipt and the code panics, with the outputs up to
  // that one already added.
  function ProcessOutputs(l: Ledger, outputs: seq<Output>, seqNo: int): (Ledger, Option<seq<Receipt>>) {
    if outputs == [] then (l, Some([]))
    else
      var out := outputs[|outputs| - 1];
      var (m, receipts) := ProcessOutputs(l, outputs[..|outputs| - 1], seqNo);
      if receipts.None? then (m, None)
      else
        var (n, id) := AddSource(m, out.recipient, seqNo, out.amount);
        if id.None? || ReceiptInfo(n, id.value).None? then (n, None)
        else (n, Some(receipts.value + [ReceiptInfo(n, id.value).value]))
  }

  function MintOutputs(l: Ledger, outputs: seq<Output>, seqNo: int): Ledger {
    if outputs == [] then l
    else
      var out := outputs[|outputs| - 1];
      AddSource(MintOutputs(l, outputs[..|outputs| - 1], seqNo), out.recipient, seqNo, out.amount).0
  }

  function Settle(l: Ledger, inputs: seq<string>, outputs: seq<Output>, seqNo: int): (Ledger, Verdict) {
    var (m, receipts) := ProcessOutputs(ProcessInputs(l, inputs), outputs, seqNo);
    (m, if receipts.None? then Panicked else Applied(receipts.value))
  }

  // ---- checks ----

  predicate CheckInputs(inputs: seq<string>, addresses: seq<string>) {
    forall i :: i in inputs ==> FromSource(i).Some? && FromSource(i).value.1 in addresses
  }

  predicate InputsExist(l: Ledger, inputs: seq<string>) {
    forall i :: i in inputs ==> i in l.balances
  }

  function BalancesOf(balances: map<string, u64>, inputs: seq<string>): seq<u64> {
    if inputs == [] then []
    else
      var last := inputs[|inputs| - 1];
      BalancesOf(balances, inputs[..|inputs| - 1]) + if last in balances then [balances[last]] else []
  }

  function Amounts(outputs: seq<Output>): seq<u64> {
    seq(|outputs|, i requires 0 <= i < |outputs| => outputs[i].amount)
  }

  function CountInputs(l: Ledger, inputs: seq<string>): u64 { WrapSum(BalancesOf(l.balances, inputs)) }

  function CountPayments(outputs: seq<Output>): u64 { WrapSum(Amounts(outputs)) }

  // ---- the handlers: a check now, an application later ----

  datatype Verdict =
    | LibraryError
    | BadRequest
    | NotOwner
    | NoSource
    | Insufficient
    | Panicked
    | Applied(receipts: seq<Receipt>)

  datatype FeesCheck = FeesRefused(why: Verdict) | FeesAccepted(ticket: nat, counted: u64, fee: u64)

  datatype PaymentCheck =
    | PaymentRefused(why: Verdict)
    | PaymentChecked(ticket: nat, counted: u64, payments: u64, exist: bool)

  function CheckFees(l: Ledger, inputs: seq<string>, outputs: seq<Output>, txnType: string, hasReqId: bool)
    : (Ledger, FeesCheck)
  {
    var fee := FeeOf(l, txnType);
    if !InputsExist(l, inputs) then (l, FeesRefused(NoSource))
    else if CountInputs(l, inputs) >= (CountPayments(outputs) + fee) % U64_BOUND then
      if !hasReqId then (l, FeesRefused(BadRequest))
      else (AddTxn(l, inputs, outputs), FeesAccepted(l.counter + 1, CountInputs(l, inputs), fee))
    else (l, FeesRefused(Insufficient))
  }

  // The callback that gets the wallet's addresses; None when listing failed.
  function ApplyFees(l: Ledger, inputs: seq<string>, outputs: seq<Output>, ticket: nat, addresses: Option<seq<string>>)
    : (Ledger, Verdict)
  {
    if addresses.None? then (l, LibraryError)
    else if !CheckInputs(inputs, addresses.value) then (l, NotOwner)
    else Settle(l, inputs, outputs, AsI32(ticket))
  }

  function CheckPayment(l: Ledger, inputs: seq<string>, outputs: seq<Output>, addresses: Option<seq<string>>)
    : (Ledger, PaymentCheck)
  {
    if addresses.None? then (l, PaymentRefused(LibraryError))
    else if !CheckInputs(inputs, addresses.value) then (l, PaymentRefused(NotOwner))
    else (AddTxn(l, inputs, outputs),
          PaymentChecked(l.counter + 1, CountInputs(l, inputs), CountPayments(outputs), InputsExist(l, inputs)))
  }

  function ApplyPayment(l: Ledger, inputs: seq<string>, outputs: seq<Output>, check: PaymentCheck, ok: bool)
    : (Ledger, Verdict)
    requires check.PaymentChecked?
  {
    if !ok then (l, LibraryError)
    else if !check.exist then (l, NoSource)
    else if check.counted >= check.payments then Settle(l, inputs, outputs, AsI32(check.ticket))
    else (l, Insufficient)
  }

  function ApplyMint(l: Ledger, outputs: seq<Output>, ok: bool): Ledger {
    if ok then MintOutputs(AddTxn(l, [], outputs), outputs, AsI32(l.counter + 1)) else l
  }

  // ---- what settling does to the balances ----

  function Elements(inputs: seq<string>): set<string> { set i | i in inputs }

  predicate Distinct(inputs: seq<string>) {
    forall i, j :: 0 <= i < j < |inputs| ==> inputs[i] != inputs[j]
  }

  predicate DistinctRecipients(outputs: seq<Output>) {
    forall i, j :: 0 <= i < j < |outputs| ==> outputs[i].recipient != outputs[j].recipient
  }

  predicate AllWellFormed(outputs: seq<Output>) {
    forall o :: o in outputs ==> WellFormed(o.recipient)
  }

  // The sources a mint or a settlement makes; a malformed address makes none.
  function OutputMap(outputs: seq<Output>, seqNo: int): map<string, u64> {
    if outputs == [] then map[]
    else
      var out := outputs[|outputs| - 1];
      var m := OutputMap(outputs[..|outputs| - 1], seqNo);
      match ToSource(out.recipient, seqNo)
      case None => m
      case Some(id) => m[id := out.amount]
  }

  predicate SameLogs(l: Ledger, m: Ledger) {
    l.txns == m.txns && l.counter == m.counter && l.fees == m.fees
  }

  lemma RemoveSourceBalances(l: Ledger, id: string)
    requires FromSource(id).Some?
    ensures RemoveSource(l, id).balances == l.balances - {id}
    ensures SameLogs(l, RemoveSource(l, id))
  {
  }

  predicate AllReadable(inputs: seq<string>) {
    forall i :: 0 <= i < |inputs| ==> FromSource(inputs[i]).Some?
  }

  lemma ElementsSplit(b: map<string, u64>, inputs: seq<string>)
    requires inputs != []
    ensures var k := |inputs| - 1;
            && Elements(inputs) == Elements(inputs[..k]) + {inputs[k]}
            && b - Elements(inputs) == b - Elements(inputs[..k]) - {inputs[k]}
  {
    assert inputs == inputs[..|inputs| - 1] + [inputs[|inputs| - 1]];
    assert Elements(inputs) == Elements(inputs[..|inputs| - 1]) + {inputs[|inputs| - 1]};
  }

  lemma {:induction false} ProcessInputsBalances(l: Ledger, inputs: seq<string>)
    requires AllReadable(inputs)
    ensures ProcessInputs(l, inputs).balances == l.balances - Elements(inputs)
    ensures SameLogs(l, ProcessInputs(l, inputs))
  {
    if inputs == [] {
      assert l.balances - Elements(inputs) == l.balances;
    } else {
      var k := |inputs| - 1;
      ProcessInputsBalances(l, inputs[..k]);
      RemoveSourceBalances(ProcessInputs(l, inputs[..k]), inputs[k]);
      ElementsSplit(l.balances, inputs);
    }
  }

  lemma {:induction false} FindOutputFinds(outputs: seq<Output>, out: Output)
    requires out in outputs
    ensures FindOutput(outputs, out.recipient).Some?
    ensures DistinctRecipients(outputs) ==> FindOutput(outputs, out.recipient) == Some(out)
  {
    if outputs[0].recipient != out.recipient {
      FindOutputFinds(outputs[1..], out);
    } else if DistinctRecipients(outputs) && outputs[0] != out {
      assert false;
    }
  }

  lemma AllWellFormedSplit(outputs: seq<Output>)
    requires outputs != []
    ensures var k := |outputs| - 1;
            AllWellFormed(outputs) <==> AllWellFormed(outputs[..k]) && WellFormed(outputs[k].recipient)
  {
    assert outputs == outputs[..|outputs| - 1] + [outputs[|outputs| - 1]];
  }

  // The receipts a settlement gives out: one per output, for that output's source.
  ghost predicate ReceiptFor(r: Receipt, out: Output, seqNo: int) {
    ToSource(out.recipient, seqNo) == Some(r.receipt) && r.recipient == out.recipient && r.amount == out.amount
  }

  ghost predicate ReceiptsFor(receipts: seq<Receipt>, outputs: seq<Output>, seqNo: int) {
    && |receipts| == |outputs|
    && forall i :: 0 <= i < |outputs| ==> ReceiptFor(receipts[i], outputs[i], seqNo)
  }

  lemma ReceiptsForSplit(receipts: seq<Receipt>, r: Receipt, outputs: seq<Output>, seqNo: int)
    requires outputs != [] && ReceiptsFor(receipts, outputs[..|outputs| - 1], seqNo)
    requires ReceiptFor(r, outputs[|outputs| - 1], seqNo)
    ensures ReceiptsFor(receipts + [r], outputs, seqNo)
  {
    forall i | 0 <= i < |outputs|
      ensures ReceiptFor((receipts + [r])[i], outputs[i], seqNo)
    {
      if i < |outputs| - 1 {
        assert outputs[..|outputs| - 1][i] == outputs[i];
      }
    }
  }

  // A logged output whose source was just added has a receipt exactly when its
  // recipient is well formed.
  lemma ReceiptOfNewSource(l: Ledger, out: Output, seqNo: int)
    requires IsI32(seqNo) && seqNo in l.txns && out in l.txns[seqNo].outputs
    ensures var (m, id) := AddSource(l, out.recipient, seqNo, out.amount);
            && SameLogs(l, m)
            && (id.Some? && ReceiptInfo(m, id.value).Some? <==> WellFormed(out.recipient))
            && (WellFormed(out.recipient) && DistinctRecipients(l.txns[seqNo].outputs) ==>
                  ReceiptFor(ReceiptInfo(m, id.value).value, out, seqNo))
  {
    if ToSource(out.recipient, seqNo).Some? {
      SourceRoundTrip(out.recipient, seqNo);
      FindOutputFinds(l.txns[seqNo].outputs, out);
    }
  }

  // One more output: its source, if its address has three parts.
  lemma AddSourceBalances(l: Ledger, b: map<string, u64>, outputs: seq<Output>, seqNo: int)
    requires outputs != [] && l.balances == b + OutputMap(outputs[..|outputs| - 1], seqNo)
    ensures var out := outputs[|outputs| - 1];
            AddSource(l, out.recipient, seqNo, out.amount).0.balances == b + OutputMap(outputs, seqNo)
  {
    if ToSource(outputs[|outputs| - 1].recipient, seqNo).Some? {
      OutputMapSplit(b, outputs, seqNo);
    }
  }

  lemma OutputMapSplit(b: map<string, u64>, outputs: seq<Output>, seqNo: int)
    requires outputs != [] && ToSource(outputs[|outputs| - 1].recipient, seqNo).Some?
    ensures var k := |outputs| - 1;
            b + OutputMap(outputs, seqNo)
            == (b + OutputMap(outputs[..k], seqNo))[ToSource(outputs[k].recipient, seqNo).value := outputs[k].amount]
  {
  }

  predicate Logged(l: Ledger, outputs: seq<Output>, seqNo: int) {
    seqNo in l.txns && forall i :: 0 <= i < |outputs| ==> outputs[i] in l.txns[seqNo].outputs
  }

  // The outputs that get added: all of them, or those up to the first one
  // that gets no receipt.
  function AddedOutputs(outputs: seq<Output>): seq<Output> {
    if outputs == [] || AllWellFormed(outputs[..|outputs| - 1]) then outputs
    else AddedOutputs(outputs[..|outputs| - 1])
  }

  lemma {:induction false} AddedIsPrefix(outputs: seq<Output>)
    ensures AddedOutputs(outputs) <= outputs
    ensures AllWellFormed(outputs) ==> AddedOutputs(outputs) == outputs
  {
    if outputs != [] {
      AllWellFormedSplit(outputs);
      if !AllWellFormed(outputs[..|outputs| - 1]) {
        AddedIsPrefix(outputs[..|outputs| - 1]);
      }
    }
  }

  // Processing the outputs of a logged transaction adds exactly those, and gets
  // through them all exactly when every recipient is well formed; otherwise
  // the code panics.
  lemma {:induction false} ProcessOutputsBalances(l: Ledger, outputs: seq<Output>, seqNo: int)
    requires IsI32(seqNo) && Logged(l, outputs, seqNo)
    ensures SameLogs(l, ProcessOutputs(l, outputs, seqNo).0)
    ensures ProcessOutputs(l, outputs, seqNo).1.Some? <==> AllWellFormed(outputs)
    ensures ProcessOutputs(l, outputs, seqNo).0.balances == l.balances + OutputMap(AddedOutputs(outputs), seqNo)
  {
    if outputs == [] {
      assert l.balances + map[] == l.balances;
    } else {
      var k := |outputs| - 1;
      var (m, receipts) := ProcessOutputs(l, outputs[..k], seqNo);
      ProcessOutputsBalances(l, outputs[..k], seqNo);
      AllWellFormedSplit(outputs);
      AddedIsPrefix(outputs[..k]);
      if AllWellFormed(outputs[..k]) {
        ReceiptOfNewSource(m, outputs[k], seqNo);
        AddSourceBalances(m, l.balances, outputs, seqNo);
      }
    }
  }

  // Each output then has a receipt for its own source and amount.
  lemma {:induction false} ProcessOutputsReceipts(l: Ledger, outputs: seq<Output>, seqNo: int)
    requires IsI32(seqNo) && Logged(l, outputs, seqNo)
    requires AllWellFormed(outputs) && DistinctRecipients(l.txns[seqNo].outputs)
    ensures ProcessOutputs(l, outputs, seqNo).1.Some?
    ensures ReceiptsFor(ProcessOutputs(l, outputs, seqNo).1.value, outputs, seqNo)
  {
    ProcessOutputsBalances(l, outputs, seqNo);
    if outputs != [] {
      var k := |outputs| - 1;
      AllWellFormedSplit(outputs);
      ProcessOutputsBalances(l, outputs[..k], seqNo);
      ProcessOutputsReceipts(l, outputs[..k], seqNo);
      var (m, receipts) := ProcessOutputs(l, outputs[..k], seqNo);
      var (n, id) := AddSource(m, outputs[k].recipient, seqNo, outputs[k].amount);
      ReceiptOfNewSource(m, outputs[k], seqNo);
      ReceiptsForSplit(receipts.value, ReceiptInfo(n, id.value).value, outputs, seqNo);
    }
  }

  lemma {:induction false} MintOutputsBalances(l: Ledger, outputs: seq<Output>, seqNo: int)
    ensures MintOutputs(l, outputs, seqNo).balances == l.balances + OutputMap(outputs, seqNo)
    ensures SameLogs(l, MintOutputs(l, outputs, seqNo))
  {
    if outputs != [] {
      MintOutputsBalances(l, outputs[..|outputs| - 1], seqNo);
    } else {
      assert l.balances + map[] == l.balances;
    }
  }

  // Every source made under a transaction carries its number.
  lemma {:induction false} OutputMapCarriesSeq(outputs: seq<Output>, seqNo: int, id: string)
    requires IsI32(seqNo) && id in OutputMap(outputs, seqNo)
    ensures SeqOf(id) == Some(seqNo)
    ensures exists o :: o in outputs && ToSource(o.recipient, seqNo) == Some(id)
  {
    var k := |outputs| - 1;
    var out := outputs[k];
    if ToSource(out.recipient, seqNo) == Some(id) {
      SourceRoundTrip(out.recipient, seqNo);
    } else {
      OutputMapCarriesSeq(outputs[..k], seqNo, id);
    }
  }

  // What of the outputs becomes spendable value: an address without three parts gets no source.
  function Minted(outputs: seq<Output>): nat {
    if outputs == [] then 0
    else
      var out := outputs[|outputs| - 1];
      Minted(outputs[..|outputs| - 1]) + if |Split(out.recipient, ':')| == 3 then out.amount else 0
  }

  // An output's source is not among those of other recipients.
  lemma LastSourceIsNew(outputs: seq<Output>, seqNo: int)
    requires outputs != [] && IsI32(seqNo) && DistinctRecipients(outputs)
    ensures var k := |outputs| - 1;
            var id := ToSource(outputs[k].recipient, seqNo);
            id.Some? ==> id.value !in OutputMap(outputs[..k], seqNo)
  {
    var k := |outputs| - 1;
    var id := ToSource(outputs[k].recipient, seqNo);
    if id.Some? && id.value in OutputMap(outputs[..k], seqNo) {
      OutputMapCarriesSeq(outputs[..k], seqNo, id.value);
      var o :| o in outputs[..k] && ToSource(o.recipient, seqNo) == id;
      SourceInjective(o.recipient, seqNo, outputs[k].recipient, seqNo);
    }
  }

  lemma AddingOneTotal(b: map<string, u64>, m: map<string, u64>, id: string, amount: u64)
    requires id !in b && id !in m
    ensures Total(b + m[id := amount]) == Total(b + m) + amount
  {
    TotalAdd(b + m, id, amount);
    assert b + m[id := amount] == (b + m)[id := amount];
  }

  // Fresh outputs to distinct recipients raise the total by exactly their value.
  lemma {:induction false} AddingOutputsTotal(b: map<string, u64>, outputs: seq<Output>, seqNo: int)
    requires IsI32(seqNo) && DistinctRecipients(outputs)
    requires forall id :: id in b ==> SeqOf(id) != Some(seqNo)
    ensures Total(b + OutputMap(outputs, seqNo)) == Total(b) + Minted(outputs)
  {
    if outputs == [] {
      assert b + map[] == b;
    } else {
      var k := |outputs| - 1;
      var out, m := outputs[k], OutputMap(outputs[..k], seqNo);
      AddingOutputsTotal(b, outputs[..k], seqNo);
      if ToSource(out.recipient, seqNo).Some? {
        var id := ToSource(out.recipient, seqNo).value;
        LastSourceIsNew(outputs, seqNo);
        SourceRoundTrip(out.recipient, seqNo);
        AddingOneTotal(b, m, id, out.amount);
      }
    }
  }

  // The value that repeating inputs lets a request count more than once.
  function RepeatedValue(b: map<string, u64>, inputs: seq<string>): nat {
    if inputs == [] then 0
    else
      var k := |inputs| - 1;
      RepeatedValue(b, inputs[..k]) + if inputs[k] in inputs[..k] && inputs[k] in b then b[inputs[k]] else 0
  }

  predicate RepeatsOnlyEmpty(b: map<string, u64>, inputs: seq<string>) {
    forall i, j :: 0 <= i < j < |inputs| && inputs[i] == inputs[j] && inputs[j] in b ==> b[inputs[j]] == 0
  }

  lemma {:induction false} RepeatedValueZero(b: map<string, u64>, inputs: seq<string>)
    ensures RepeatedValue(b, inputs) == 0 <==> RepeatsOnlyEmpty(b, inputs)
  {
    if inputs != [] {
      var k := |inputs| - 1;
      RepeatedValueZero(b, inputs[..k]);
      if RepeatsOnlyEmpty(b, inputs) && inputs[k] in inputs[..k] && inputs[k] in b {
        var i :| 0 <= i < k && inputs[..k][i] == inputs[k];
        assert inputs[i] == inputs[k];
      }
      if RepeatedValue(b, inputs) == 0 {
        forall i, j | 0 <= i < j < |inputs| && inputs[i] == inputs[j] && inputs[j] in b
          ensures b[inputs[j]] == 0
        {
          if j < k {
            assert inputs[..k][i] == inputs[..k][j];
          } else {
            assert inputs[..k][i] == inputs[k];
          }
        }
      }
    }
  }

  // Removing the inputs loses what was counted, less what was counted twice.
  lemma {:induction false} RemovingInputsTotal(b: map<string, u64>, inputs: seq<string>)
    ensures Total(b - Elements(inputs)) + Sum(BalancesOf(b, inputs)) == Total(b) + RepeatedValue(b, inputs)
  {
    if inputs == [] {
      assert b - Elements(inputs) == b;
    } else {
      var k := |inputs| - 1;
      RemovingInputsTotal(b, inputs[..k]);
      TotalRemove(b - Elements(inputs[..k]), inputs[k]);
      ElementsSplit(b, inputs);
      SumAppend(BalancesOf(b, inputs[..k]), if inputs[k] in b then [b[inputs[k]]] else []);
      if inputs[k] in b {
        assert [b[inputs[k]]][..0] == [];
      }
    }
  }

  lemma {:induction false} MintedAll(outputs: seq<Output>)
    requires forall i :: 0 <= i < |outputs| ==> |Split(outputs[i].recipient, ':')| == 3
    ensures Minted(outputs) == Sum(Amounts(outputs))
  {
    if outputs != [] {
      var k := |outputs| - 1;
      MintedAll(outputs[..k]);
      assert Amounts(outputs)[..k] == Amounts(outputs[..k]);
    }
  }

  lemma {:induction false} MintedPrefix(part: seq<Output>, outputs: seq<Output>)
    requires part <= outputs
    ensures Minted(part) <= Minted(outputs)
  {
    if |part| < |outputs| {
      MintedPrefix(part, outputs[..|outputs| - 1]);
    } else {
      assert part == outputs;
    }
  }

  // Settling takes out the inputs that are there and puts in the outputs that
  // get added, and moves the total by exactly their values.
  lemma SettleEffect(l: Ledger, inputs: seq<string>, outputs: seq<Output>, seqNo: int)
    requires AllReadable(inputs) && Distinct(inputs) && DistinctRecipients(outputs)
    requires IsI32(seqNo) && Logged(l, outputs, seqNo)
    requires forall id :: id in l.balances ==> SeqOf(id) != Some(seqNo)
    ensures var (m, v) := Settle(l, inputs, outputs, seqNo);
            && SameLogs(l, m)
            && m.balances == l.balances - Elements(inputs) + OutputMap(AddedOutputs(outputs), seqNo)
            && (if AllWellFormed(outputs) then v.Applied? else v.Panicked?)
            && Total(m.balances) + Sum(BalancesOf(l.balances, inputs))
               == Total(l.balances) + Minted(AddedOutputs(outputs))
  {
    var added := AddedOutputs(outputs);
    ProcessInputsBalances(l, inputs);
    ProcessOutputsBalances(ProcessInputs(l, inputs), outputs, seqNo);
    RepeatedValueZero(l.balances, inputs);
    RemovingInputsTotal(l.balances, inputs);
    AddedIsPrefix(outputs);
    AddingOutputsTotal(l.balances - Elements(inputs), added, seqNo);
  }
}
