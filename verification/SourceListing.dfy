// A listing of the sources of an address names each of them once, as long as
// the transaction counter does not repeat.
module SourceListing {
  import opened Options
  import opened Sums
  import opened SourceIds
  import opened NullPayLedger
  import opened NullPayRuns
  import opened SourceIndex

  predicate NoRepeats(ids: seq<string>) { forall i, j :: 0 <= i < j < |ids| ==> ids[i] != ids[j] }

  ghost predicate ListsOnce(l: Ledger) {
    IndexAgrees(l) && forall address :: NoRepeats(SourcesOf(l, address))
  }

  lemma ConsNoRepeats(x: string, ids: seq<string>)
    requires NoRepeats(ids) && x !in ids
    ensures NoRepeats([x] + ids)
  {
  }

  lemma {:induction false} WithoutKeepsNoRepeats(ids: seq<string>, id: string)
    requires NoRepeats(ids)
    ensures NoRepeats(Without(ids, id))
  {
    if ids != [] {
      WithoutKeepsNoRepeats(ids[1..], id);
      WithoutRemoves(ids[1..], id, ids[0]);
      ConsNoRepeats(ids[0], Without(ids[1..], id));
    }
  }

  lemma AddSourceListsOnce(l: Ledger, address: string, seqNo: int, balance: u64)
    requires ListsOnce(l) && IsI32(seqNo)
    requires ToSource(address, seqNo).Some? ==> ToSource(address, seqNo).value !in l.balances
    ensures ListsOnce(AddSource(l, address, seqNo, balance).0)
  {
    var m := AddSource(l, address, seqNo, balance).0;
    AddSourceKeepsIndex(l, address, seqNo, balance);
    assert forall id :: id in SourcesOf(l, address) ==> id in l.balances;
    forall a
      ensures NoRepeats(SourcesOf(m, a))
    {
      assert NoRepeats(SourcesOf(l, a));
    }
  }

  lemma RemoveSourceListsOnce(l: Ledger, id: string)
    requires ListsOnce(l)
    ensures ListsOnce(RemoveSource(l, id))
  {
    RemoveSourceKeepsIndex(l, id);
    if FromSource(id).Some? {
      var address := FromSource(id).value.1;
      WithoutKeepsNoRepeats(SourcesOf(l, address), id);
      forall a
        ensures NoRepeats(SourcesOf(RemoveSource(l, id), a))
      {
        assert NoRepeats(SourcesOf(l, a));
      }
    }
  }

  lemma {:induction false} ProcessInputsListsOnce(l: Ledger, inputs: seq<string>)
    requires ListsOnce(l)
    ensures ListsOnce(ProcessInputs(l, inputs))
    ensures ProcessInputs(l, inputs).balances.Keys <= l.balances.Keys
  {
    if inputs != [] {
      ProcessInputsListsOnce(l, inputs[..|inputs| - 1]);
      RemoveSourceListsOnce(ProcessInputs(l, inputs[..|inputs| - 1]), inputs[|inputs| - 1]);
    }
  }

  // No source of any of the recipients under the number is there yet.
  ghost predicate Room(b: map<string, u64>, outputs: seq<Output>, seqNo: int) {
    IsI32(seqNo) && DistinctRecipients(outputs) && forall id :: id in b ==> SeqOf(id) != Some(seqNo)
  }

  lemma UnusedIsRoom(b: map<string, u64>, known: map<string, u64>, outputs: seq<Output>, ticket: nat)
    requires Within(b, known) && Unused(known, ticket) && DistinctRecipients(outputs)
    ensures Room(b, outputs, AsI32(ticket))
  {
  }

  // After some outputs there is still room for the last one.
  lemma RoomForLast(b: map<string, u64>, part: seq<Output>, outputs: seq<Output>, seqNo: int)
    requires outputs != [] && Room(b, outputs, seqNo) && part <= outputs[..|outputs| - 1]
    ensures var id := ToSource(outputs[|outputs| - 1].recipient, seqNo);
            id.Some? ==> id.value !in b + OutputMap(part, seqNo)
  {
    var k := |outputs| - 1;
    var id := ToSource(outputs[k].recipient, seqNo);
    if id.Some? {
      SourceRoundTrip(outputs[k].recipient, seqNo);
      if id.value in OutputMap(part, seqNo) {
        OutputMapCarriesSeq(part, seqNo, id.value);
        var o :| o in part && ToSource(o.recipient, seqNo) == id;
        var j :| 0 <= j < |part| && part[j] == o;
        assert outputs[j] == o;
        SourceInjective(o.recipient, seqNo, outputs[k].recipient, seqNo);
        assert false;
      }
    }
  }

  lemma {:induction false} ProcessOutputsListsOnce(l: Ledger, outputs: seq<Output>, seqNo: int)
    requires ListsOnce(l) && Room(l.balances, outputs, seqNo) && Logged(l, outputs, seqNo)
    ensures ListsOnce(ProcessOutputs(l, outputs, seqNo).0)
  {
    if outputs != [] {
      var k := |outputs| - 1;
      var m := ProcessOutputs(l, outputs[..k], seqNo).0;
      ProcessOutputsListsOnce(l, outputs[..k], seqNo);
      ProcessOutputsBalances(l, outputs[..k], seqNo);
      AddedIsPrefix(outputs[..k]);
      RoomForLast(l.balances, AddedOutputs(outputs[..k]), outputs, seqNo);
      AddSourceListsOnce(m, outputs[k].recipient, seqNo, outputs[k].amount);
    }
  }

  lemma {:induction false} MintOutputsListsOnce(l: Ledger, outputs: seq<Output>, seqNo: int)
    requires ListsOnce(l) && Room(l.balances, outputs, seqNo)
    ensures ListsOnce(MintOutputs(l, outputs, seqNo))
  {
    if outputs != [] {
      var k := |outputs| - 1;
      MintOutputsListsOnce(l, outputs[..k], seqNo);
      MintOutputsBalances(l, outputs[..k], seqNo);
      RoomForLast(l.balances, outputs[..k], outputs, seqNo);
      AddSourceListsOnce(MintOutputs(l, outputs[..k], seqNo), outputs[k].recipient, seqNo, outputs[k].amount);
    }
  }

  lemma SameSourcesListOnce(l: Ledger, m: Ledger)
    requires ListsOnce(l) && m.balances == l.balances && m.sources == l.sources
    ensures ListsOnce(m)
  {
    SameSourcesKeepIndex(l, m);
    forall a
      ensures NoRepeats(SourcesOf(m, a))
    {
      assert NoRepeats(SourcesOf(l, a));
    }
  }

  lemma MintListsOnce(l: Ledger, outputs: seq<Output>)
    requires ListsOnce(l) && Room(l.balances, outputs, AsI32(l.counter + 1))
    ensures ListsOnce(ApplyMint(l, outputs, true))
  {
    var logged := AddTxn(l, [], outputs);
    SameSourcesListOnce(l, logged);
    MintOutputsListsOnce(logged, outputs, AsI32(l.counter + 1));
  }

  lemma MintStepListsOnce(s: System, e: Event)
    requires e.MintDone? && e.ok && Enabled(s, e) && ListsOnce(s.ledger) && Within(s.ledger.balances, s.known)
    requires Unused(s.known, s.ledger.counter + 1) && DistinctRecipients(s.pending[e.id].outputs)
    ensures ListsOnce(Next(s, e).ledger)
  {
    UnusedIsRoom(s.ledger.balances, s.known, s.pending[e.id].outputs, s.ledger.counter + 1);
    MintListsOnce(s.ledger, s.pending[e.id].outputs);
  }

  lemma SettleListsOnce(l: Ledger, inputs: seq<string>, outputs: seq<Output>, seqNo: int)
    requires ListsOnce(l) && AllReadable(inputs) && Room(l.balances, outputs, seqNo) && Logged(l, outputs, seqNo)
    ensures ListsOnce(Settle(l, inputs, outputs, seqNo).0)
  {
    ProcessInputsListsOnce(l, inputs);
    ProcessInputsBalances(l, inputs);
    ProcessOutputsListsOnce(ProcessInputs(l, inputs), outputs, seqNo);
  }

  lemma SettleStepListsOnce(s: System, e: Event)
    requires Inv(s) && ListsOnce(s.ledger) && Enabled(s, e) && Settles(s, e)
    ensures ListsOnce(Next(s, e).ledger)
  {
    var r := s.pending[e.id];
    assert RequestOk(s, r);
    SettlingMoves(s, e);
    SettleListsOnce(s.ledger, r.inputs, r.outputs, AsI32(r.Ticket().value));
  }

  lemma OtherStepsKeepSources(s: System, e: Event)
    requires Enabled(s, e) && !Settles(s, e) && !(e.MintDone? && e.ok)
    ensures Next(s, e).ledger.balances == s.ledger.balances && Next(s, e).ledger.sources == s.ledger.sources
  {
    if e.SetFeesDone? {
      SetFeesKeepsSources(s.ledger, s.pending[e.id].table);
    }
  }

  lemma StepListsOnce(s: System, e: Event)
    requires Inv(s) && ListsOnce(s.ledger) && Enabled(s, e) && Next(s, e).ledger.counter <= WRAP
    ensures ListsOnce(Next(s, e).ledger)
  {
    if e.MintDone? && e.ok {
      MintCounts(s, e.id);
      PendingMintOk(s, e.id);
      MintStepListsOnce(s, e);
    } else if Settles(s, e) {
      SettleStepListsOnce(s, e);
    } else {
      OtherStepsKeepSources(s, e);
      SameSourcesListOnce(s.ledger, Next(s, e).ledger);
    }
  }

  lemma {:induction false} RunListsOnce(s: System, es: seq<Event>, t: System)
    requires Inv(s) && ListsOnce(s.ledger) && Run(s, es, t) && t.ledger.counter <= WRAP
    ensures ListsOnce(t.ledger)
    decreases |es|
  {
    if es != [] {
      StepGrows(s, es[0]);
      RunGrows(Next(s, es[0]), es[1..], t);
      StepKeepsInv(s, es[0]);
      StepListsOnce(s, es[0]);
      RunListsOnce(Next(s, es[0]), es[1..], t);
    }
  }

  lemma EmptyListsOnce(l: Ledger)
    requires l.balances == map[] && l.sources == map[]
    ensures ListsOnce(l)
  {
    forall address
      ensures SourcesOf(l, address) == []
    {
    }
  }

  // In every run of at most 2^32 transactions no address has a source listed
  // twice: its listing is its unspent sources, each once.
  lemma ListingHasNoRepetition(s: System, es: seq<Event>, t: System, address: string)
    requires Init(s) && Run(s, es, t) && t.ledger.counter <= WRAP
    ensures NoRepeats(SourcesOf(t.ledger, address))
  {
    InitEstablishesInv(s);
    EmptyListsOnce(s.ledger);
    RunListsOnce(s, es, t);
  }
}
