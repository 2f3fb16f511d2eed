// The index from payment address to sources agrees with the balances, whatever
// requests arrive: duplicates, malformed addresses and wrapped counters included.
module SourceIndex {
  import opened Options
  import opened Sums
  import opened SourceIds
  import opened NullPayLedger
  import opened NullPayRuns

  // The source is one that a transaction made for the address.
  predicate MadeFor(id: string, address: string) {
    SeqOf(id).Some? && ToSource(address, SeqOf(id).value) == Some(id)
  }

  ghost predicate IndexAgrees(l: Ledger) {
    forall address, id :: id in SourcesOf(l, address) <==> id in l.balances && MadeFor(id, address)
  }

  lemma {:induction false} WithoutRemoves(ids: seq<string>, id: string, x: string)
    ensures x in Without(ids, id) <==> x in ids && x != id
  {
    if ids != [] {
      WithoutRemoves(ids[1..], id, x);
      assert ids == [ids[0]] + ids[1..];
    }
  }

  // A source belongs to one address only, and reading it back finds that one.
  lemma OneAddress(id: string, a: string, b: string)
    requires MadeFor(id, a)
    ensures MadeFor(id, b) ==> a == b
    ensures FromSource(id).Some? ==> FromSource(id).value.1 == a
  {
    SeqInRange(id);
    SourceRoundTrip(a, SeqOf(id).value);
    if MadeFor(id, b) {
      SourceInjective(a, SeqOf(id).value, b, SeqOf(id).value);
    }
  }

  lemma SeqInRange(id: string)
    requires SeqOf(id).Some?
    ensures IsI32(SeqOf(id).value)
  {
  }

  lemma AddSourceKeepsIndex(l: Ledger, address: string, seqNo: int, balance: u64)
    requires IndexAgrees(l) && IsI32(seqNo)
    ensures IndexAgrees(AddSource(l, address, seqNo, balance).0)
  {
    var (m, made) := AddSource(l, address, seqNo, balance);
    if made.Some? {
      var id := made.value;
      SourceRoundTrip(address, seqNo);
      forall a, x
        ensures x in SourcesOf(m, a) <==> x in m.balances && MadeFor(x, a)
      {
        if x == id {
          OneAddress(id, address, a);
        }
        assert x in SourcesOf(l, a) <==> x in l.balances && MadeFor(x, a);
      }
    }
  }

  lemma RemoveSourceKeepsIndex(l: Ledger, id: string)
    requires IndexAgrees(l)
    ensures IndexAgrees(RemoveSource(l, id))
  {
    if FromSource(id).Some? {
      var address := FromSource(id).value.1;
      var m := RemoveSource(l, id);
      forall a, x
        ensures x in SourcesOf(m, a) <==> x in m.balances && MadeFor(x, a)
      {
        WithoutRemoves(SourcesOf(l, address), id, x);
        if x == id && MadeFor(id, a) {
          OneAddress(id, a, a);
        }
        assert x in SourcesOf(l, a) <==> x in l.balances && MadeFor(x, a);
      }
    }
  }

  lemma {:induction false} ProcessInputsKeepsIndex(l: Ledger, inputs: seq<string>)
    requires IndexAgrees(l)
    ensures IndexAgrees(ProcessInputs(l, inputs))
  {
    if inputs != [] {
      ProcessInputsKeepsIndex(l, inputs[..|inputs| - 1]);
      RemoveSourceKeepsIndex(ProcessInputs(l, inputs[..|inputs| - 1]), inputs[|inputs| - 1]);
    }
  }

  lemma {:induction false} ProcessOutputsKeepsIndex(l: Ledger, outputs: seq<Output>, seqNo: int)
    requires IndexAgrees(l) && IsI32(seqNo)
    ensures IndexAgrees(ProcessOutputs(l, outputs, seqNo).0)
  {
    if outputs != [] {
      var k := |outputs| - 1;
      ProcessOutputsKeepsIndex(l, outputs[..k], seqNo);
      AddSourceKeepsIndex(ProcessOutputs(l, outputs[..k], seqNo).0, outputs[k].recipient, seqNo, outputs[k].amount);
    }
  }

  lemma {:induction false} MintOutputsKeepsIndex(l: Ledger, outputs: seq<Output>, seqNo: int)
    requires IndexAgrees(l) && IsI32(seqNo)
    ensures IndexAgrees(MintOutputs(l, outputs, seqNo))
  {
    if outputs != [] {
      var k := |outputs| - 1;
      MintOutputsKeepsIndex(l, outputs[..k], seqNo);
      AddSourceKeepsIndex(MintOutputs(l, outputs[..k], seqNo), outputs[k].recipient, seqNo, outputs[k].amount);
    }
  }

  lemma SettleKeepsIndex(l: Ledger, inputs: seq<string>, outputs: seq<Output>, seqNo: int)
    requires IndexAgrees(l) && IsI32(seqNo)
    ensures IndexAgrees(Settle(l, inputs, outputs, seqNo).0)
  {
    ProcessInputsKeepsIndex(l, inputs);
    ProcessOutputsKeepsIndex(ProcessInputs(l, inputs), outputs, seqNo);
  }

  lemma SameSourcesKeepIndex(l: Ledger, m: Ledger)
    requires IndexAgrees(l) && m.balances == l.balances && m.sources == l.sources
    ensures IndexAgrees(m)
  {
    forall a, x
      ensures x in SourcesOf(m, a) <==> x in m.balances && MadeFor(x, a)
    {
      assert x in SourcesOf(l, a) <==> x in l.balances && MadeFor(x, a);
    }
  }

  lemma MintStepKeepsIndex(s: System, e: Event)
    requires IndexAgrees(s.ledger) && e.MintDone? && Enabled(s, e)
    ensures IndexAgrees(Next(s, e).ledger)
  {
    var outputs := s.pending[e.id].outputs;
    SameSourcesKeepIndex(s.ledger, AddTxn(s.ledger, [], outputs));
    MintOutputsKeepsIndex(AddTxn(s.ledger, [], outputs), outputs, AsI32(s.ledger.counter + 1));
  }

  lemma CloseStepKeepsIndex(s: System, e: Event)
    requires IndexAgrees(s.ledger) && (e.FeesListed? || e.PaymentDone?) && Enabled(s, e)
    ensures IndexAgrees(Next(s, e).ledger)
  {
    var r := s.pending[e.id];
    SettleKeepsIndex(s.ledger, r.inputs, r.outputs, AsI32(r.Ticket().value));
    assert Next(s, e).ledger == s.ledger
        || Next(s, e).ledger == Settle(s.ledger, r.inputs, r.outputs, AsI32(r.Ticket().value)).0;
  }

  lemma StepKeepsIndex(s: System, e: Event)
    requires IndexAgrees(s.ledger) && Enabled(s, e)
    ensures IndexAgrees(Next(s, e).ledger)
  {
    if e.MintDone? {
      MintStepKeepsIndex(s, e);
    } else if e.FeesListed? || e.PaymentDone? {
      CloseStepKeepsIndex(s, e);
    } else {
      if e.SetFeesDone? {
        SetFeesKeepsSources(s.ledger, s.pending[e.id].table);
      }
      SameSourcesKeepIndex(s.ledger, Next(s, e).ledger);
    }
  }

  lemma {:induction false} RunKeepsIndex(s: System, es: seq<Event>, t: System)
    requires IndexAgrees(s.ledger) && Run(s, es, t)
    ensures IndexAgrees(t.ledger)
    decreases |es|
  {
    if es != [] {
      StepKeepsIndex(s, es[0]);
      RunKeepsIndex(Next(s, es[0]), es[1..], t);
    }
  }

  // In every run, asking for the sources of an address lists exactly the
  // unspent sources made for it, and no source is listed under two addresses.
  lemma ListingIsExact(s: System, es: seq<Event>, t: System, address: string, other: string, id: string)
    requires Init(s) && Run(s, es, t)
    ensures id in SourcesOf(t.ledger, address) <==> id in t.ledger.balances && MadeFor(id, address)
    ensures id in SourcesOf(t.ledger, address) && id in SourcesOf(t.ledger, other) ==> address == other
  {
    RunKeepsIndex(s, es, t);
    if MadeFor(id, address) {
      OneAddress(id, address, other);
    }
  }
}
