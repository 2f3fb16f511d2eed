// Whole runs of the payment ledger: any number of requests in progress, each
// checked at one moment and applied, refused or dropped at a later one, in any
// interleaving. A request that the library refuses never reaches the plugin.
module NullPayRuns {
  import opened Options
  import opened Text
  import opened Sums
  import opened SourceIds
  import opened NullPayLedger
  import opened PaymentRequests

  // A request whose callback has not run yet, with what the callback captured;
  // addresses are the wallet's own, as the check of the payment got them.
  datatype Request =
    | MintPending(outputs: seq<Output>)
    | FeesPending(inputs: seq<string>, outputs: seq<Output>, fees: FeesCheck)
    | PaymentAsked(inputs: seq<string>, outputs: seq<Output>)
    | PaymentPending(inputs: seq<string>, outputs: seq<Output>, payment: PaymentCheck, addresses: seq<string>)
    | SetFeesPending(table: seq<(string, u64)>)
  {
    // It may still move sources.
    predicate Live() {
      || (FeesPending? && fees.FeesAccepted?)
      || (PaymentPending? && payment.PaymentChecked? && payment.exist && payment.counted >= payment.payments)
    }

    function Ticket(): Option<nat> {
      if FeesPending? && fees.FeesAccepted? then Some(fees.ticket)
      else if PaymentPending? && payment.PaymentChecked? then Some(payment.ticket)
      else None
    }

    function Counted(): nat
      requires Live()
    {
      if FeesPending? then fees.counted else payment.counted
    }

    // The least it should keep back: the fee read at its check, or nothing.
    function Floor(): nat
      requires Live()
    {
      if FeesPending? then fees.fee else 0
    }
  }

  datatype System = System(
    ledger: Ledger,
    pending: map<nat, Request>,
    nextId: nat,
    minted: nat,               // value given sources by mints
    surplus: int,              // value settlements took in and did not give out
    known: map<string, u64>)   // every source there has been, with its balance

  function Spent(s: System): set<string> { s.known.Keys - s.ledger.balances.Keys }

  datatype Event =
    | AskMint(outputs: seq<Output>)
    | MintDone(id: nat, ok: bool)
    | AskFees(inputs: seq<string>, outputs: seq<Output>, txnType: string, hasReqId: bool)
    | FeesListed(id: nat, addresses: Option<seq<string>>)
    | AskPayment(inputs: seq<string>, outputs: seq<Output>)
    | PaymentListed(id: nat, addresses: Option<seq<string>>)
    | PaymentDone(id: nat, ok: bool)
    | AskSetFees(table: seq<(string, u64)>)
    | SetFeesDone(id: nat, ok: bool)

  predicate Enabled(s: System, e: Event) {
    match e
    case MintDone(id, _) => id in s.pending && s.pending[id].MintPending?
    case FeesListed(id, _) => id in s.pending && s.pending[id].FeesPending? && s.pending[id].fees.FeesAccepted?
    case PaymentListed(id, _) => id in s.pending && s.pending[id].PaymentAsked?
    case PaymentDone(id, _) => id in s.pending && s.pending[id].PaymentPending? && s.pending[id].payment.PaymentChecked?
    case SetFeesDone(id, _) => id in s.pending && s.pending[id].SetFeesPending?
    case _ => true
  }

  function Queue(s: System, r: Request): System {
    s.(pending := s.pending[s.nextId := r], nextId := s.nextId + 1)
  }

  // What settling a request takes in now, and what it gives out.
  function Taken(s: System, inputs: seq<string>): nat { Sum(BalancesOf(s.ledger.balances, inputs)) }

  function Given(outputs: seq<Output>): nat { Minted(AddedOutputs(outputs)) }

  // The books after a request got its verdict: settling moves value.
  function Close(s: System, id: nat, l: Ledger, v: Verdict): System
    requires id in s.pending && (s.pending[id].FeesPending? || s.pending[id].PaymentPending?)
  {
    var r := s.pending[id];
    var moved := if v.Applied? || v.Panicked? then Taken(s, r.inputs) - Given(r.outputs) else 0;
    s.(ledger := l, pending := s.pending - {id}, surplus := s.surplus + moved, known := s.known + l.balances)
  }

  function Next(s: System, e: Event): System
    requires Enabled(s, e)
  {
    match e
    case AskMint(outputs) => if MintReaches(outputs) then Queue(s, MintPending(outputs)) else s
    case MintDone(id, ok) =>
      var outputs := s.pending[id].outputs;
      var l := ApplyMint(s.ledger, outputs, ok);
      s.(ledger := l, pending := s.pending - {id}, known := s.known + l.balances,
         minted := s.minted + if ok then Minted(outputs) else 0)
    case AskFees(inputs, outputs, txnType, hasReqId) =>
      if !FeesReach(inputs, outputs) then s
      else
        var (l, check) := CheckFees(s.ledger, inputs, outputs, txnType, hasReqId);
        if check.FeesRefused? then s else Queue(s.(ledger := l), FeesPending(inputs, outputs, check))
    case FeesListed(id, addresses) =>
      var r := s.pending[id];
      var (l, v) := ApplyFees(s.ledger, r.inputs, r.outputs, r.fees.ticket, addresses);
      Close(s, id, l, v)
    case AskPayment(inputs, outputs) =>
      if PaymentReaches(inputs, outputs) then Queue(s, PaymentAsked(inputs, outputs)) else s
    case PaymentListed(id, addresses) =>
      var r := s.pending[id];
      var (l, check) := CheckPayment(s.ledger, r.inputs, r.outputs, addresses);
      if check.PaymentRefused? then s.(pending := s.pending - {id})
      else s.(ledger := l, pending := s.pending[id := PaymentPending(r.inputs, r.outputs, check, addresses.value)])
    case PaymentDone(id, ok) =>
      var r := s.pending[id];
      var (l, v) := ApplyPayment(s.ledger, r.inputs, r.outputs, r.payment, ok);
      Close(s, id, l, v)
    case AskSetFees(table) => if TableReaches(table) then Queue(s, SetFeesPending(table)) else s
    case SetFeesDone(id, ok) =>
      s.(ledger := if ok then SetFees(s.ledger, s.pending[id].table) else s.ledger, pending := s.pending - {id})
  }

  ghost predicate Init(s: System) {
    s == System(Ledger(map[], map[], map[], 0, s.ledger.fees), map[], 0, 0, 0, map[])
  }

  ghost predicate Run(s: System, es: seq<Event>, t: System)
    decreases |es|
  {
    if es == [] then s == t
    else Enabled(s, es[0]) && Run(Next(s, es[0]), es[1..], t)
  }

  // A request naming a source or a recipient twice changes nothing.
  lemma RepetitionsChangeNothing(s: System, inputs: seq<string>, outputs: seq<Output>, txnType: string, hasReqId: bool)
    requires !Distinct(inputs) || !DistinctRecipients(outputs)
    ensures Next(s, AskPayment(inputs, outputs)) == s
    ensures Next(s, AskFees(inputs, outputs, txnType, hasReqId)) == s
    ensures !DistinctRecipients(outputs) ==> Next(s, AskMint(outputs)) == s
  {
    RepetitionsAreRefused(inputs, outputs);
  }

  // A request that reaches the plugin waits for its callback, as it was asked;
  // fees of 2^63 or more never do.
  lemma AskedRequestsWait(s: System, inputs: seq<string>, outputs: seq<Output>, table: seq<(string, u64)>)
    ensures Next(s, AskMint(outputs)).pending
            == if MintReaches(outputs) then s.pending[s.nextId := MintPending(outputs)] else s.pending
    ensures Next(s, AskPayment(inputs, outputs)).pending
            == if PaymentReaches(inputs, outputs) then s.pending[s.nextId := PaymentAsked(inputs, outputs)]
               else s.pending
    ensures Next(s, AskSetFees(table)).pending
            == if forall i :: 0 <= i < |table| ==> table[i].1 < 0x8000_0000_0000_0000
               then s.pending[s.nextId := SetFeesPending(table)] else s.pending
  {
  }

  // Every callback comes once: its request is over, or a payment that passed
  // its check waits for the second one.
  lemma CallbackEndsRequest(s: System, e: Event)
    requires Enabled(s, e) && (e.MintDone? || e.FeesListed? || e.PaymentListed? || e.PaymentDone? || e.SetFeesDone?)
    ensures Next(s, e).pending - {e.id} == s.pending - {e.id}
    ensures e.id in Next(s, e).pending <==>
      e.PaymentListed? && e.addresses.Some? && CheckInputs(s.pending[e.id].inputs, e.addresses.value)
    ensures e.id in Next(s, e).pending ==> Next(s, e).pending[e.id].PaymentPending?
  {
  }

  // ---- the invariant ----

  ghost predicate Within(b: map<string, u64>, c: map<string, u64>) {
    forall id :: id in b ==> id in c && c[id] == b[id]
  }

  // No source there has ever been carries the ticket's number.
  ghost predicate Unused(known: map<string, u64>, ticket: nat) {
    forall id :: id in known ==> SeqOf(id) != Some(AsI32(ticket))
  }

  // What the library's check leaves: nothing named twice, three-part addresses.
  predicate TidyOutputs(outputs: seq<Output>) { DistinctRecipients(outputs) && ThreeParts(outputs) }

  predicate TidyRequest(r: Request) {
    match r
    case MintPending(outputs) => TidyOutputs(outputs)
    case FeesPending(inputs, outputs, _) => Distinct(inputs) && TidyOutputs(outputs)
    case PaymentAsked(inputs, outputs) => Distinct(inputs) && TidyOutputs(outputs)
    case PaymentPending(inputs, outputs, _, addresses) =>
      Distinct(inputs) && TidyOutputs(outputs) && CheckInputs(inputs, addresses)
    case SetFeesPending(_) => true
  }

  ghost predicate TicketOk(s: System, r: Request) {
    r.Ticket().Some? ==>
      var ticket := r.Ticket().value;
      && 1 <= ticket <= s.ledger.counter && Unused(s.known, ticket)
      && AsI32(ticket) in s.ledger.txns && s.ledger.txns[AsI32(ticket)] == Txn(r.inputs, r.outputs)
  }

  // What its check found: all inputs there, and enough in them as far as the
  // wrapping folds can tell.
  ghost predicate CheckedOk(known: map<string, u64>, r: Request) {
    r.Live() ==>
      && Elements(r.inputs) <= known.Keys
      && r.Counted() == WrapSum(BalancesOf(known, r.inputs))
      && r.Counted() >= (WrapSum(Amounts(r.outputs)) + r.Floor()) % U64_BOUND
  }

  ghost predicate RequestOk(s: System, r: Request) {
    TidyRequest(r) && TicketOk(s, r) && CheckedOk(s.known, r)
  }

  ghost predicate RequestsOk(s: System) {
    && (forall i :: i in s.pending ==> i < s.nextId && RequestOk(s, s.pending[i]))
    && (forall i, j :: i in s.pending && j in s.pending && i != j && s.pending[i].Ticket().Some? ==>
          s.pending[i].Ticket() != s.pending[j].Ticket())
  }

  ghost predicate FutureUnused(s: System) {
    forall ticket :: s.ledger.counter < ticket <= WRAP ==> Unused(s.known, ticket)
  }

  ghost predicate Inv(s: System) {
    && Within(s.ledger.balances, s.known) && RequestsOk(s) && FutureUnused(s)
    && Total(s.ledger.balances) + s.surplus == s.minted
  }

  // ---- frames ----

  lemma {:induction false} SameBalances(b: map<string, u64>, c: map<string, u64>, inputs: seq<string>)
    requires forall i :: i in inputs ==> i in b && i in c && b[i] == c[i]
    ensures BalancesOf(b, inputs) == BalancesOf(c, inputs)
  {
    if inputs != [] {
      SameBalances(b, c, inputs[..|inputs| - 1]);
    }
  }

  lemma CheckedKept(known: map<string, u64>, more: map<string, u64>, r: Request)
    requires CheckedOk(known, r) && Within(known, more)
    ensures CheckedOk(more, r)
  {
    if r.Live() {
      assert forall i :: i in r.inputs ==> i in Elements(r.inputs);
      SameBalances(known, more, r.inputs);
    }
  }

  // A request keeps its standing while its ticket stays unused and logged.
  lemma RequestKept(s: System, t: System, r: Request)
    requires RequestOk(s, r) && Within(s.known, t.known) && s.ledger.counter <= t.ledger.counter
    requires r.Ticket().Some? ==>
      var n := AsI32(r.Ticket().value);
      Unused(t.known, r.Ticket().value) && n in t.ledger.txns && t.ledger.txns[n] == s.ledger.txns[n]
    ensures RequestOk(t, r)
  {
    CheckedKept(s.known, t.known, r);
  }

  // Sources are only added under one ticket.
  ghost predicate OnlyUnder(known: map<string, u64>, more: map<string, u64>, ticket: nat) {
    Within(known, more) && forall id :: id in more ==> id in known || SeqOf(id) == Some(AsI32(ticket))
  }

  lemma UnusedKept(known: map<string, u64>, more: map<string, u64>, made: nat, ticket: nat)
    requires OnlyUnder(known, more, made) && Unused(known, ticket)
    requires 1 <= made <= WRAP && 1 <= ticket <= WRAP && made != ticket
    ensures Unused(more, ticket)
  {
    AsI32Injective(made, ticket);
  }

  lemma NewSourcesAreNew(known: map<string, u64>, outputs: seq<Output>, ticket: nat)
    requires Unused(known, ticket)
    ensures forall id :: id in OutputMap(outputs, AsI32(ticket)) ==> id !in known && SeqOf(id) == Some(AsI32(ticket))
  {
    forall id | id in OutputMap(outputs, AsI32(ticket))
      ensures id !in known && SeqOf(id) == Some(AsI32(ticket))
    {
      OutputMapCarriesSeq(outputs, AsI32(ticket), id);
    }
  }

  // The sources after some left and new ones came under an unused ticket.
  lemma KnownGrows(known: map<string, u64>, before: map<string, u64>, gone: set<string>,
                   outputs: seq<Output>, ticket: nat)
    requires Within(before, known) && Unused(known, ticket)
    ensures var after := before - gone + OutputMap(outputs, AsI32(ticket));
            && OnlyUnder(known, known + after, ticket) && Within(after, known + after)
            && forall id :: id in known && id in after ==> id in before && id !in gone
  {
    NewSourcesAreNew(known, outputs, ticket);
  }

  // ---- steps that move no source ----

  // The sources and the standing of all other requests stay as they are.
  ghost predicate Quiet(s: System, t: System, id: nat) {
    && t.known == s.known && t.ledger.balances == s.ledger.balances
    && t.minted == s.minted && t.surplus == s.surplus
    && s.ledger.counter <= t.ledger.counter && s.nextId <= t.nextId
    && (forall i :: i in t.pending && i != id ==> i in s.pending && t.pending[i] == s.pending[i])
    && (t.ledger.txns == s.ledger.txns
        || (s.ledger.counter < WRAP
            && forall n :: n in s.ledger.txns && n != AsI32(s.ledger.counter + 1) ==>
                 n in t.ledger.txns && t.ledger.txns[n] == s.ledger.txns[n]))
  }

  lemma QuietForOthers(s: System, t: System, id: nat, r: Request)
    requires Quiet(s, t, id) && RequestOk(s, r)
    ensures RequestOk(t, r)
  {
    if r.Ticket().Some? && s.ledger.counter < WRAP {
      AsI32Injective(r.Ticket().value, s.ledger.counter + 1);
    }
    RequestKept(s, t, r);
  }

  ghost predicate NewlyOk(s: System, t: System, id: nat) {
    id in t.pending ==>
      && id < t.nextId && RequestOk(t, t.pending[id])
      && (t.pending[id].Ticket().Some? ==> t.pending[id].Ticket().value == s.ledger.counter + 1)
  }

  lemma QuietStep(s: System, t: System, id: nat)
    requires Inv(s) && Quiet(s, t, id) && NewlyOk(s, t, id)
    ensures Inv(t)
  {
    forall i | i in t.pending
      ensures i < t.nextId && RequestOk(t, t.pending[i])
      ensures i != id ==> t.pending[i].Ticket() != Some(s.ledger.counter + 1)
    {
      if i != id {
        assert RequestOk(s, s.pending[i]);
        QuietForOthers(s, t, id, t.pending[i]);
      }
    }
  }

  lemma QueueKeepsInv(s: System, r: Request)
    requires Inv(s) && TidyRequest(r) && r.Ticket().None?
    ensures Inv(Queue(s, r))
  {
    QuietStep(s, Queue(s, r), s.nextId);
  }

  lemma AskingKeepsInv(s: System, e: Event)
    requires Inv(s) && (e.AskMint? || e.AskPayment? || e.AskSetFees?)
    ensures Inv(Next(s, e))
  {
    match e
    case AskMint(outputs) =>
      ReachingRequests([], outputs);
      if MintReaches(outputs) { QueueKeepsInv(s, MintPending(outputs)); }
    case AskPayment(inputs, outputs) =>
      ReachingRequests(inputs, outputs);
      if PaymentReaches(inputs, outputs) { QueueKeepsInv(s, PaymentAsked(inputs, outputs)); }
    case AskSetFees(table) =>
      if TableReaches(table) { QueueKeepsInv(s, SetFeesPending(table)); }
  }

  lemma CheckFindsBalances(l: Ledger, known: map<string, u64>, r: Request)
    requires r.Live() && Within(l.balances, known) && InputsExist(l, r.inputs)
    requires r.Counted() == CountInputs(l, r.inputs)
    requires r.Counted() >= (CountPayments(r.outputs) + r.Floor()) % U64_BOUND
    ensures CheckedOk(known, r)
  {
    SameBalances(l.balances, known, r.inputs);
  }

  lemma NewTicketOk(s: System, t: System, r: Request)
    requires FutureUnused(s) && s.ledger.counter < WRAP && t.known == s.known
    requires r.Ticket() == Some(s.ledger.counter + 1) && t.ledger == AddTxn(s.ledger, r.inputs, r.outputs)
    ensures TicketOk(t, r)
  {
  }

  lemma LoggingIsQuiet(s: System, t: System, id: nat, r: Request)
    requires s.ledger.counter < WRAP && s.nextId <= t.nextId && !r.MintPending? && !r.SetFeesPending?
    requires t == s.(ledger := AddTxn(s.ledger, r.inputs, r.outputs), pending := s.pending[id := r], nextId := t.nextId)
    ensures Quiet(s, t, id)
  {
  }

  // A request that got its ticket joins or moves on.
  lemma TicketedKeepsInv(s: System, t: System, id: nat, r: Request)
    requires Inv(s) && s.ledger.counter < WRAP && TidyRequest(r) && CheckedOk(s.known, r)
    requires r.Ticket() == Some(s.ledger.counter + 1)
    requires t == s.(ledger := AddTxn(s.ledger, r.inputs, r.outputs), pending := s.pending[id := r], nextId := t.nextId)
    requires id < t.nextId && s.nextId <= t.nextId
    ensures Inv(t)
  {
    NewTicketOk(s, t, r);
    LoggingIsQuiet(s, t, id, r);
    assert NewlyOk(s, t, id);
    QuietStep(s, t, id);
  }

  predicate AcceptsFees(s: System, e: Event)
    requires e.AskFees?
  {
    FeesReach(e.inputs, e.outputs)
    && CheckFees(s.ledger, e.inputs, e.outputs, e.txnType, e.hasReqId).1.FeesAccepted?
  }

  function AcceptedFees(s: System, e: Event): Request
    requires e.AskFees?
  {
    FeesPending(e.inputs, e.outputs, CheckFees(s.ledger, e.inputs, e.outputs, e.txnType, e.hasReqId).1)
  }

  lemma AcceptedFeesJoin(s: System, e: Event)
    requires e.AskFees?
    ensures var r := AcceptedFees(s, e);
            Next(s, e) == if AcceptsFees(s, e) then Queue(s.(ledger := AddTxn(s.ledger, r.inputs, r.outputs)), r) else s
    ensures AcceptsFees(s, e) ==> AcceptedFees(s, e).Live() && AcceptedFees(s, e).Ticket() == Some(s.ledger.counter + 1)
  {
  }

  lemma AcceptedFeesOk(s: System, e: Event)
    requires Within(s.ledger.balances, s.known) && e.AskFees? && AcceptsFees(s, e)
    ensures TidyRequest(AcceptedFees(s, e)) && CheckedOk(s.known, AcceptedFees(s, e))
  {
    ReachingRequests(e.inputs, e.outputs);
    CheckFindsBalances(s.ledger, s.known, AcceptedFees(s, e));
  }

  lemma AskFeesKeepsInv(s: System, e: Event)
    requires Inv(s) && e.AskFees? && Next(s, e).ledger.counter <= WRAP
    ensures Inv(Next(s, e))
  {
    AcceptedFeesJoin(s, e);
    if AcceptsFees(s, e) {
      AcceptedFeesOk(s, e);
      TicketedKeepsInv(s, Next(s, e), s.nextId, AcceptedFees(s, e));
    }
  }

  function CheckedPayment(s: System, id: nat, addresses: seq<string>): Request
    requires id in s.pending && s.pending[id].PaymentAsked?
    requires CheckInputs(s.pending[id].inputs, addresses)
  {
    var r := s.pending[id];
    PaymentPending(r.inputs, r.outputs, CheckPayment(s.ledger, r.inputs, r.outputs, Some(addresses)).1, addresses)
  }

  lemma CheckedPaymentMovesOn(s: System, id: nat, addresses: seq<string>)
    requires id in s.pending && s.pending[id].PaymentAsked?
    requires CheckInputs(s.pending[id].inputs, addresses)
    ensures var q := CheckedPayment(s, id, addresses);
            && q.Ticket() == Some(s.ledger.counter + 1)
            && Next(s, PaymentListed(id, Some(addresses)))
               == s.(ledger := AddTxn(s.ledger, q.inputs, q.outputs), pending := s.pending[id := q])
  {
  }

  lemma CheckedPaymentOk(s: System, id: nat, addresses: seq<string>)
    requires Inv(s) && id in s.pending && s.pending[id].PaymentAsked?
    requires CheckInputs(s.pending[id].inputs, addresses)
    ensures TidyRequest(CheckedPayment(s, id, addresses)) && CheckedOk(s.known, CheckedPayment(s, id, addresses))
  {
    assert RequestOk(s, s.pending[id]);
    var q := CheckedPayment(s, id, addresses);
    if q.Live() {
      CheckFindsBalances(s.ledger, s.known, q);
    }
  }

  lemma CheckedPaymentKeepsInv(s: System, id: nat, addresses: seq<string>)
    requires Inv(s) && id in s.pending && s.pending[id].PaymentAsked? && s.ledger.counter < WRAP
    requires CheckInputs(s.pending[id].inputs, addresses)
    ensures Inv(Next(s, PaymentListed(id, Some(addresses))))
  {
    var q, t := CheckedPayment(s, id, addresses), Next(s, PaymentListed(id, Some(addresses)));
    CheckedPaymentMovesOn(s, id, addresses);
    CheckedPaymentOk(s, id, addresses);
    assert id < s.nextId;
    TicketedKeepsInv(s, t, id, q);
  }

  lemma PaymentListedKeepsInv(s: System, e: Event)
    requires Inv(s) && e.PaymentListed? && Enabled(s, e) && Next(s, e).ledger.counter <= WRAP
    ensures Inv(Next(s, e))
  {
    var r := s.pending[e.id];
    if e.addresses.Some? && CheckInputs(r.inputs, e.addresses.value) {
      CheckedPaymentKeepsInv(s, e.id, e.addresses.value);
    } else {
      QuietStep(s, Next(s, e), e.id);
    }
  }

  lemma {:induction false} SetFeesKeepsSources(l: Ledger, table: seq<(string, u64)>)
    ensures var m := SetFees(l, table);
            m.balances == l.balances && m.sources == l.sources && m.txns == l.txns && m.counter == l.counter
  {
    if table != [] {
      SetFeesKeepsSources(l, table[..|table| - 1]);
    }
  }

  lemma SetFeesDoneKeepsInv(s: System, e: Event)
    requires Inv(s) && e.SetFeesDone? && Enabled(s, e)
    ensures Inv(Next(s, e))
  {
    SetFeesKeepsSources(s.ledger, s.pending[e.id].table);
    QuietStep(s, Next(s, e), e.id);
  }

  // ---- steps that move sources ----

  // Transactions stay in the log, but for the one a new ticket replaces.
  ghost predicate TxnsKept(l: Ledger, m: Ledger, ticket: nat) {
    forall n :: n in l.txns && (n != AsI32(ticket) || ticket <= l.counter) ==>
      n in m.txns && m.txns[n] == l.txns[n]
  }

  // One request leaves and sources come under one ticket, its own or a new one.
  lemma MovingStep(s: System, t: System, id: nat, ticket: nat)
    requires Inv(s) && id in s.pending && Moves(s, t, id, ticket)
    requires 1 <= ticket <= t.ledger.counter <= WRAP && s.ledger.counter <= t.ledger.counter
    requires ticket > s.ledger.counter || s.pending[id].Ticket() == Some(ticket)
    requires TxnsKept(s.ledger, t.ledger, ticket)
    ensures Inv(t)
  {
    forall i | i in t.pending
      ensures RequestOk(t, t.pending[i])
    {
      var r := t.pending[i];
      assert RequestOk(s, r);
      if r.Ticket().Some? {
        UnusedKept(s.known, t.known, ticket, r.Ticket().value);
        AsI32Injective(ticket, r.Ticket().value);
      }
      RequestKept(s, t, r);
    }
    forall k | t.ledger.counter < k <= WRAP
      ensures Unused(t.known, k)
    {
      UnusedKept(s.known, t.known, ticket, k);
    }
  }

  lemma MintLedger(l: Ledger, outputs: seq<Output>)
    ensures var m, seqNo := ApplyMint(l, outputs, true), AsI32(l.counter + 1);
            && m.balances == l.balances - {} + OutputMap(outputs, seqNo) && m.counter == l.counter + 1
            && m.txns == l.txns[seqNo := Txn([], outputs)]
  {
    assert l.balances - {} == l.balances;
    MintOutputsBalances(AddTxn(l, [], outputs), outputs, AsI32(l.counter + 1));
  }

  // What a step that moves sources does to the books besides.
  ghost predicate Moves(s: System, t: System, id: nat, ticket: nat) {
    && t.pending == s.pending - {id} && t.nextId == s.nextId
    && OnlyUnder(s.known, t.known, ticket) && Within(t.ledger.balances, t.known) && Spent(s) <= Spent(t)
    && Total(t.ledger.balances) + t.surplus - t.minted == Total(s.ledger.balances) + s.surplus - s.minted
  }

  lemma MintTotal(l: Ledger, outputs: seq<Output>)
    requires DistinctRecipients(outputs)
    requires forall id :: id in l.balances ==> SeqOf(id) != Some(AsI32(l.counter + 1))
    ensures Total(ApplyMint(l, outputs, true).balances) == Total(l.balances) + Minted(outputs)
  {
    MintLedger(l, outputs);
    assert l.balances - {} == l.balances;
    AddingOutputsTotal(l.balances, outputs, AsI32(l.counter + 1));
  }

  lemma PendingMintOk(s: System, id: nat)
    requires Inv(s) && Enabled(s, MintDone(id, true)) && s.ledger.counter < WRAP
    ensures DistinctRecipients(s.pending[id].outputs) && Unused(s.known, s.ledger.counter + 1)
    ensures Total(ApplyMint(s.ledger, s.pending[id].outputs, true).balances)
            == Total(s.ledger.balances) + Minted(s.pending[id].outputs)
  {
    assert RequestOk(s, s.pending[id]);
    assert Unused(s.known, s.ledger.counter + 1);
    forall i | i in s.ledger.balances
      ensures SeqOf(i) != Some(AsI32(s.ledger.counter + 1))
    {
      assert i in s.known;
    }
    MintTotal(s.ledger, s.pending[id].outputs);
  }

  lemma MintMovesOnly(s: System, id: nat)
    requires Enabled(s, MintDone(id, true)) && Within(s.ledger.balances, s.known)
    requires Unused(s.known, s.ledger.counter + 1)
    requires Total(ApplyMint(s.ledger, s.pending[id].outputs, true).balances)
             == Total(s.ledger.balances) + Minted(s.pending[id].outputs)
    ensures var t := Next(s, MintDone(id, true));
            && Moves(s, t, id, s.ledger.counter + 1) && t.ledger.counter == s.ledger.counter + 1
            && TxnsKept(s.ledger, t.ledger, s.ledger.counter + 1)
  {
    MintLedger(s.ledger, s.pending[id].outputs);
    KnownGrows(s.known, s.ledger.balances, {}, s.pending[id].outputs, s.ledger.counter + 1);
  }

  lemma MintMoves(s: System, id: nat)
    requires Inv(s) && Enabled(s, MintDone(id, true)) && s.ledger.counter < WRAP
    ensures var t := Next(s, MintDone(id, true));
            && Moves(s, t, id, s.ledger.counter + 1) && t.ledger.counter == s.ledger.counter + 1
            && TxnsKept(s.ledger, t.ledger, s.ledger.counter + 1)
  {
    PendingMintOk(s, id);
    MintMovesOnly(s, id);
  }

  lemma MintKeepsInv(s: System, id: nat)
    requires Inv(s) && Enabled(s, MintDone(id, true)) && s.ledger.counter < WRAP
    ensures Inv(Next(s, MintDone(id, true)))
  {
    MintMoves(s, id);
    MovingStep(s, Next(s, MintDone(id, true)), id, s.ledger.counter + 1);
  }

  // The step settles a request, and does not just drop it.
  predicate Settles(s: System, e: Event)
    requires Enabled(s, e)
  {
    match e
    case FeesListed(id, addresses) => addresses.Some? && CheckInputs(s.pending[id].inputs, addresses.value)
    case PaymentDone(id, ok) => ok && s.pending[id].Live()
    case _ => false
  }

  lemma CheckedAreReadable(inputs: seq<string>, addresses: seq<string>)
    requires CheckInputs(inputs, addresses)
    ensures AllReadable(inputs)
  {
    assert forall i :: 0 <= i < |inputs| ==> inputs[i] in inputs;
  }

  function VerdictOf(s: System, e: Event): Verdict
    requires Enabled(s, e) && (e.FeesListed? || e.PaymentDone?)
  {
    var r := s.pending[e.id];
    match e
    case FeesListed(id, addresses) => ApplyFees(s.ledger, r.inputs, r.outputs, r.fees.ticket, addresses).1
    case PaymentDone(id, ok) => ApplyPayment(s.ledger, r.inputs, r.outputs, r.payment, ok).1
  }

  // In every state of a run, a request that settles takes out the inputs that
  // are still there, puts its outputs in under its own ticket, and moves the
  // total by exactly their values.
  lemma SettlingMoves(s: System, e: Event)
    requires Inv(s) && Enabled(s, e) && Settles(s, e)
    ensures var r, t, v := s.pending[e.id], Next(s, e), VerdictOf(s, e);
            && r.Live() && AllReadable(r.inputs) && SameLogs(s.ledger, t.ledger)
            && t.ledger.balances
               == s.ledger.balances - Elements(r.inputs) + OutputMap(AddedOutputs(r.outputs), AsI32(r.Ticket().value))
            && (if AllWellFormed(r.outputs) then v.Applied? else v.Panicked?)
            && t.surplus == s.surplus + Taken(s, r.inputs) - Given(r.outputs)
            && Total(t.ledger.balances) + Taken(s, r.inputs) == Total(s.ledger.balances) + Given(r.outputs)
  {
    var r := s.pending[e.id];
    assert RequestOk(s, r);
    CheckedAreReadable(r.inputs, if e.FeesListed? then e.addresses.value else r.addresses);
    SettleEffect(s.ledger, r.inputs, r.outputs, AsI32(r.Ticket().value));
  }

  lemma SettlingMovesOnly(s: System, e: Event)
    requires Inv(s) && Enabled(s, e) && Settles(s, e)
    ensures Moves(s, Next(s, e), e.id, s.pending[e.id].Ticket().value)
  {
    var r := s.pending[e.id];
    assert RequestOk(s, r);
    SettlingMoves(s, e);
    KnownGrows(s.known, s.ledger.balances, Elements(r.inputs), AddedOutputs(r.outputs), r.Ticket().value);
  }

  lemma SettlingKeepsInv(s: System, e: Event)
    requires Inv(s) && Enabled(s, e) && Settles(s, e) && s.ledger.counter <= WRAP
    ensures Inv(Next(s, e))
  {
    assert RequestOk(s, s.pending[e.id]);
    SettlingMoves(s, e);
    SettlingMovesOnly(s, e);
    MovingStep(s, Next(s, e), e.id, s.pending[e.id].Ticket().value);
  }

  lemma DroppingDropsOnly(s: System, e: Event)
    requires Inv(s) && Enabled(s, e) && !Settles(s, e)
    requires e.FeesListed? || e.PaymentDone? || (e.MintDone? && !e.ok)
    ensures Next(s, e) == s.(pending := s.pending - {e.id})
  {
    assert s.known + s.ledger.balances == s.known;
  }

  lemma DroppingKeepsInv(s: System, id: nat)
    requires Inv(s)
    ensures Inv(s.(pending := s.pending - {id}))
  {
    QuietStep(s, s.(pending := s.pending - {id}), id);
  }

  lemma EndingKeepsInv(s: System, e: Event)
    requires Inv(s) && Enabled(s, e) && s.ledger.counter <= WRAP
    requires e.FeesListed? || e.PaymentDone? || (e.MintDone? && !e.ok)
    ensures Inv(Next(s, e))
  {
    if Settles(s, e) {
      SettlingKeepsInv(s, e);
    } else {
      DroppingDropsOnly(s, e);
      DroppingKeepsInv(s, e.id);
    }
  }

  // Every step keeps the invariant, whatever is asked and however it interleaves.
  lemma StepKeepsInv(s: System, e: Event)
    requires Inv(s) && Enabled(s, e) && Next(s, e).ledger.counter <= WRAP
    ensures Inv(Next(s, e))
  {
    StepGrows(s, e);
    match e
    case MintDone(id, ok) => if ok { MintCounts(s, id); MintKeepsInv(s, id); } else { EndingKeepsInv(s, e); }
    case AskFees(_, _, _, _) => AskFeesKeepsInv(s, e);
    case PaymentListed(_, _) => PaymentListedKeepsInv(s, e);
    case FeesListed(_, _) => EndingKeepsInv(s, e);
    case PaymentDone(_, _) => EndingKeepsInv(s, e);
    case SetFeesDone(_, _) => SetFeesDoneKeepsInv(s, e);
    case AskMint(_) => AskingKeepsInv(s, e);
    case AskPayment(_, _) => AskingKeepsInv(s, e);
    case AskSetFees(_) => AskingKeepsInv(s, e);
  }

  // ---- what only grows ----

  lemma {:induction false} ProcessInputsCounter(l: Ledger, inputs: seq<string>)
    ensures ProcessInputs(l, inputs).counter == l.counter
  {
    if inputs != [] {
      ProcessInputsCounter(l, inputs[..|inputs| - 1]);
    }
  }

  lemma {:induction false} ProcessOutputsCounter(l: Ledger, outputs: seq<Output>, seqNo: int)
    ensures ProcessOutputs(l, outputs, seqNo).0.counter == l.counter
  {
    if outputs != [] {
      ProcessOutputsCounter(l, outputs[..|outputs| - 1], seqNo);
    }
  }

  lemma MintCounts(s: System, id: nat)
    requires Enabled(s, MintDone(id, true))
    ensures Next(s, MintDone(id, true)).ledger.counter == s.ledger.counter + 1
  {
    var outputs := s.pending[id].outputs;
    MintOutputsBalances(AddTxn(s.ledger, [], outputs), outputs, AsI32(s.ledger.counter + 1));
  }

  lemma StepGrows(s: System, e: Event)
    requires Enabled(s, e)
    ensures s.ledger.counter <= Next(s, e).ledger.counter && s.minted <= Next(s, e).minted
  {
    match e
    case MintDone(id, ok) => if ok { MintCounts(s, id); }
    case FeesListed(id, _) =>
      var r := s.pending[id];
      ProcessInputsCounter(s.ledger, r.inputs);
      ProcessOutputsCounter(ProcessInputs(s.ledger, r.inputs), r.outputs, AsI32(r.fees.ticket));
    case PaymentDone(id, _) =>
      var r := s.pending[id];
      ProcessInputsCounter(s.ledger, r.inputs);
      ProcessOutputsCounter(ProcessInputs(s.ledger, r.inputs), r.outputs, AsI32(r.payment.ticket));
    case SetFeesDone(id, _) => SetFeesKeepsSources(s.ledger, s.pending[id].table);
    case _ =>
  }

  lemma {:induction false} RunGrows(s: System, es: seq<Event>, t: System)
    requires Run(s, es, t)
    ensures s.ledger.counter <= t.ledger.counter && s.minted <= t.minted
    decreases |es|
  {
    if es != [] {
      StepGrows(s, es[0]);
      RunGrows(Next(s, es[0]), es[1..], t);
    }
  }

  lemma {:induction false} RunKeepsInv(s: System, es: seq<Event>, t: System)
    requires Inv(s) && Run(s, es, t) && t.ledger.counter <= WRAP
    ensures Inv(t)
    decreases |es|
  {
    if es != [] {
      RunGrows(Next(s, es[0]), es[1..], t);
      StepKeepsInv(s, es[0]);
      RunKeepsInv(Next(s, es[0]), es[1..], t);
    }
  }

  ghost predicate Reached(t: System) {
    t.ledger.counter <= WRAP && exists s, es :: Init(s) && Run(s, es, t)
  }

  lemma InitEstablishesInv(s: System)
    requires Init(s)
    ensures Inv(s)
  {
  }

  lemma ReachedInv(t: System)
    requires Reached(t)
    ensures Inv(t)
  {
    var s, es :| Init(s) && Run(s, es, t);
    InitEstablishesInv(s);
    RunKeepsInv(s, es, t);
  }

  // ---- sources never change and never come back ----

  ghost predicate Lasting(s: System, t: System) {
    Within(s.known, t.known) && Spent(s) <= Spent(t)
  }

  lemma StepLasts(s: System, e: Event)
    requires Inv(s) && Enabled(s, e) && Next(s, e).ledger.counter <= WRAP
    ensures Lasting(s, Next(s, e))
  {
    if e.MintDone? && e.ok {
      MintCounts(s, e.id);
      MintMoves(s, e.id);
    } else if Settles(s, e) {
      SettlingMovesOnly(s, e);
    } else if e.FeesListed? || e.PaymentDone? || e.MintDone? {
      DroppingDropsOnly(s, e);
    } else if e.SetFeesDone? {
      SetFeesKeepsSources(s.ledger, s.pending[e.id].table);
    }
  }

  lemma {:induction false} RunLasts(s: System, es: seq<Event>, t: System)
    requires Inv(s) && Run(s, es, t) && t.ledger.counter <= WRAP
    ensures Inv(t) && Lasting(s, t)
    decreases |es|
  {
    if es != [] {
      RunGrows(Next(s, es[0]), es[1..], t);
      StepKeepsInv(s, es[0]);
      StepLasts(s, es[0]);
      RunLasts(Next(s, es[0]), es[1..], t);
    }
  }

  // In every run of at most 2^32 transactions, whatever the requests and
  // however they interleave, a source once spent is never unspent again, and a
  // source found in two states holds the same in both.
  lemma NoResurrection(s: System, es: seq<Event>, t: System, id: string)
    requires Reached(s) && Run(s, es, t) && t.ledger.counter <= WRAP
    ensures id in Spent(s) ==> id in Spent(t) && id !in t.ledger.balances
    ensures id in s.ledger.balances && id in t.ledger.balances ==> s.ledger.balances[id] == t.ledger.balances[id]
    ensures id in s.ledger.balances ==> id in t.ledger.balances || id in Spent(t)
  {
    ReachedInv(s);
    RunLasts(s, es, t);
  }
}
