// `did rotate-key` as it runs: in-place effects on the wallet and, through the
// network, on the ledger. Every effect is one step of RotationProtocol, so each
// command keeps the whole world inside that protocol's reachable states.
module RotateKeyCommand {
  import opened Options
  import opened Verkeys
  import opened RotationProtocol

  // What the network and the fee plugin do during one run of the command.
  datatype Conditions = Conditions(
    duringRead: seq<Nym>,      // late requests delivered before the read is answered
    shown: Option<Written>,    // answer to GET_NYM, if any
    feesAccepted: bool,
    duringSubmit: seq<Nym>,    // requests delivered while the reply is awaited
    replied: bool,
    receiptsRead: bool)

  datatype Outcome =
    | Succeeded
    | AppliedButUnprintable    // keys switched, then the final abbreviation is refused
    | Failed

  // What a command may rely on, as far as the fields it looks at.
  ghost predicate Facts(s: State) {
    && s.history != [] && s.nextReq !in s.accepted
    && (s.temp.None? ==> Current(s) == s.verkey)
    && (s.temp.Some? && Current(s) != s.temp.value ==> Current(s) == s.verkey)
    && (s.client.MustSubmit? ==> s.temp.Some? && Expand(s.did, s.client.newKey) == s.temp)
    && (s.client.MustApply? ==> s.temp == Some(Current(s)) && Expand(s.did, s.client.newKey) == s.temp)
  }

  lemma ReachableFacts(s: State)
    requires Reachable(s)
    ensures Facts(s)
  {
    ReachableInv(s);
  }

  // A read that shows one of the two keys tells which.
  lemma ReadDecides(did: Did, shown: Written, temp: Verkey, curr: Verkey)
    ensures Expand(did, shown) == Some(temp) <==> shown == InFormOf(did, shown, temp)
    ensures Expand(did, shown) == Some(curr) <==> shown == InFormOf(did, shown, curr)
  {
    AbbreviateKeepsKey(did, temp);
    AbbreviateKeepsKey(did, curr);
    if Expand(did, shown).Some? {
      ComparisonIsExact(did, shown, Expand(did, shown).value, temp);
      ComparisonIsExact(did, shown, Expand(did, shown).value, curr);
    }
  }

  // The read is current, and if a NYM is needed it is delivered and answered.
  predicate Responsive(s: State, resume: bool, key: Verkey, c: Conditions)
    requires s.history != []
  {
    && (resume ==> c.duringRead == [] && c.shown.Some? && Expand(s.did, c.shown.value) == Some(Current(s)))
    && (!(resume && Current(s) == key) ==>
          && c.feesAccepted && c.replied && c.receiptsRead
          && c.duringSubmit == [Nym(s.nextReq, s.verkey, key)])
  }

  // The text stands for a key the ledger has held.
  predicate Known(did: Did, history: seq<Verkey>, shown: Written) {
    exists k :: k in history && Expand(did, shown) == Some(k)
  }

  // The keys the ledger had held when the read was answered.
  ghost function ReadHistory(s: State, c: Conditions): seq<Verkey>
    requires s.history != []
  {
    DeliverEach(s, c.duringRead).history
  }

  // What a read means for the command, by the key it stands for.
  function Decision(did: Did, shown: Written, temp: Verkey, curr: Verkey): Client {
    if Expand(did, shown) == Some(temp) then MustApply(InFormOf(did, shown, temp))
    else if Expand(did, shown) == Some(curr) then MustSubmit(InFormOf(did, shown, temp))
    else Idle
  }

  // The deliveries of a list, in its order.
  function DeliverEach(s: State, nyms: seq<Nym>): (t: State)
    requires s.history != []
    ensures s.history <= t.history && s.accepted <= t.accepted
    ensures t == s.(history := t.history, accepted := t.accepted)
  {
    if nyms == [] then s
    else
      var u, nym := DeliverEach(s, nyms[..|nyms| - 1]), nyms[|nyms| - 1];
      if nym in u.sent then Apply(u, Deliver(nym)) else u
  }

  lemma {:induction false} DeliveryIgnoresClient(s: State, client: Client, nyms: seq<Nym>)
    requires s.history != []
    ensures DeliverEach(s.(client := client), nyms) == DeliverEach(s, nyms).(client := client)
  {
    if nyms != [] {
      DeliveryIgnoresClient(s, client, nyms[..|nyms| - 1]);
    }
  }

  ghost predicate Acceptable(s: State, nyms: seq<Nym>)
    requires s.history != []
  {
    exists i :: 0 <= i < |nyms| && nyms[i] in s.sent && nyms[i].signer == Current(s)
  }

  // Whatever is delivered, in whatever order, the ledger takes at most one step,
  // to the pending key, and takes it exactly when one of the requests is signed
  // with its current key.
  lemma {:induction false} DeliveriesMoveOnce(s: State, nyms: seq<Nym>)
    requires Inv(s)
    ensures Inv(DeliverEach(s, nyms))
    ensures DeliverEach(s, nyms).history
            == if Acceptable(s, nyms) && s.temp.Some? then s.history + [s.temp.value] else s.history
    ensures Acceptable(s, nyms) ==> s.temp.Some?
  {
    if nyms != [] {
      var k := |nyms| - 1;
      var u, nym := DeliverEach(s, nyms[..k]), nyms[k];
      DeliveriesMoveOnce(s, nyms[..k]);
      assert Acceptable(s, nyms) <==> Acceptable(s, nyms[..k]) || (nym in s.sent && nym.signer == Current(s)) by {
        assert forall i :: 0 <= i < k ==> nyms[..k][i] == nyms[i];
      }
      if nym in u.sent {
        DeliverKeepsInv(u, nym);
        if Acceptable(s, nyms[..k]) {
          assert u.history[|s.history|] == s.temp.value;
        }
      }
    }
  }

  // The case in which the keys are switched and failure is reported is real: a
  // rotation to a key that abbreviates, stopped after the ledger took it.
  lemma UnprintableResumeIsReachable(s: State, tail: seq<byte>)
    requires Init(s) && |s.did| == 16 && |tail| == 16 && s.did + tail !in s.keys
    ensures exists t: State, c: Conditions ::
      Reachable(t) && t.did == s.did && t.client.Idle? && t.temp == Some(s.did + tail)
      && t.history != [] && c.shown == Some(Short(tail)) && Responsive(t, true, t.temp.value, c)
    ensures (s.did + tail)[..16] == s.did
  {
    var key: Verkey := s.did + tail;
    var s1 := Apply(s, StoreKey(key));
    var s2 := Apply(s1, StoreTemp);
    var s3 := Apply(s2, Submit);
    var nym := Nym(s.nextReq, s.verkey, key);
    var s4 := Apply(s3, Deliver(nym));
    var t := Apply(s4, Interrupt);
    RunAppend(s, [], s, StoreKey(key));
    RunAppend(s, [] + [StoreKey(key)], s1, StoreTemp);
    RunAppend(s, [] + [StoreKey(key)] + [StoreTemp], s2, Submit);
    RunAppend(s, [] + [StoreKey(key)] + [StoreTemp] + [Submit], s3, Deliver(nym));
    RunAppend(s, [] + [StoreKey(key)] + [StoreTemp] + [Submit] + [Deliver(nym)], s4, Interrupt);
    assert Reachable(t);
    assert Responsive(t, true, key, Conditions([], Some(Short(tail)), true, [], true, true));
  }

  class World {
    const did: Did
    var verkey: Verkey
    var temp: Option<Verkey>
    var keys: set<Verkey>
    var history: seq<Verkey>
    var sent: set<Nym>
    var accepted: set<nat>
    var nextReq: nat
    var client: Client
    ghost var origin: State
    ghost var trace: seq<Event>

    ghost function View(): State
      reads this
    {
      State(did, verkey, temp, keys, history, sent, accepted, nextReq, client)
    }

    // The world got here from an initial state by protocol steps.
    ghost predicate Valid()
      reads this
    {
      Init(origin) && Run(origin, trace, View()) && Facts(View())
    }

    constructor (did: Did, verkey: Verkey, keys: set<Verkey>)
      ensures Valid() && View() == State(did, verkey, None, keys + {verkey}, [verkey], {}, {}, 0, Idle)
    {
      this.did, this.verkey, this.temp, this.keys := did, verkey, None, keys + {verkey};
      history, sent, accepted, nextReq, client := [verkey], {}, {}, 0, Idle;
      origin, trace := State(did, verkey, None, keys + {verkey}, [verkey], {}, {}, 0, Idle), [];
    }

    ghost method Record(before: State, e: Event)
      requires Init(origin) && Run(origin, trace, before)
      requires Enabled(before, e) && View() == Apply(before, e)
      modifies this`trace
      ensures Valid()
    {
      RunAppend(origin, trace, before, e);
      trace := trace + [e];
      assert Reachable(View());
      ReachableFacts(View());
    }

    // The command stops here: its position is lost, its effects stay.
    method Stop()
      requires Valid()
      modifies this`client, this`trace
      ensures Valid() && View() == old(View()).(client := Idle)
    {
      client := Idle;
      Record(old(View()), Interrupt);
    }

    method DeliverOne(nym: Nym)
      requires Valid() && nym in sent
      modifies this`history, this`accepted, this`trace
      ensures Valid() && View() == Apply(old(View()), Deliver(nym))
    {
      if nym.signer == history[|history| - 1] {
        history := history + [nym.newKey];
        accepted := accepted + {nym.reqId};
      }
      Record(old(View()), Deliver(nym));
    }

    // The network delivers sent requests in some order, repeats allowed; what
    // was never sent cannot be delivered.
    method DeliverAll(nyms: seq<Nym>)
      requires Valid()
      modifies this`history, this`accepted, this`trace
      ensures Valid() && View() == DeliverEach(old(View()), nyms)
    {
      for i := 0 to |nyms|
        invariant Valid() && View() == DeliverEach(old(View()), nyms[..i])
      {
        assert nyms[..i + 1][..i] == nyms[..i];
        if nyms[i] in sent {
          DeliverOne(nyms[i]);
        }
      }
      assert nyms[..|nyms|] == nyms;
    }

    // Insert the key record, then the pending-key record; either insert may
    // find its record present and fail.
    method ReplaceKeysStart(key: Verkey) returns (ok: bool)
      requires Valid() && client.Idle?
      modifies this`keys, this`temp, this`client, this`trace
      ensures Valid()
      ensures ok <==> key !in old(keys) && old(temp).None?
      ensures ok ==>
        View() == old(View()).(keys := old(keys) + {key}, temp := Some(key), client := MustSubmit(Full(key)))
      ensures !ok ==> View() == old(View()).(keys := old(keys) + {key})
    {
      if key in keys {
        Record(View(), StoreKey(key));
        assert keys == keys + {key};
        return false;
      }
      ghost var s := View();
      keys, client := keys + {key}, KeyStored(key);
      Record(s, StoreKey(key));
      s := View();
      if temp.Some? {
        client := Idle;
        ok := false;
      } else {
        temp, client := Some(key), MustSubmit(Full(key));
        ok := true;
      }
      Record(s, StoreTemp);
    }

    // Update the DID record, then delete the pending-key record.
    method ReplaceKeysApply()
      requires Valid() && client.MustApply?
      modifies this`verkey, this`temp, this`client, this`trace
      ensures Valid() && Rotated(View(), old(temp).value)
      ensures unchanged(`keys, `history, `sent, `accepted, `nextReq)
    {
      ghost var s := View();
      verkey, client := temp.value, HalfApplied(client.newKey);
      Record(s, WriteVerkey);
      s := View();
      temp, client := None, Idle;
      Record(s, DeleteTemp);
    }

    // Compare the ledger's verkey with both wallet keys, in the form it shows.
    method Compare(shown: Written) returns (ok: bool)
      requires Valid() && Enabled(View(), ReadReply(shown))
      modifies this`client, this`trace
      ensures Valid() && View() == Apply(old(View()), ReadReply(shown)) && View() == old(View()).(client := client)
      ensures client == Decision(did, shown, old(client).temp, old(client).curr) && (ok <==> !client.Idle?)
    {
      ReadIsExact(View(), shown);
      var tempText, currText := InFormOf(did, shown, client.temp), InFormOf(did, shown, client.curr);
      ok := true;
      if shown == tempText {
        client := MustApply(tempText);
      } else if shown == currText {
        client := MustSubmit(tempText);
      } else {
        client := Idle;
        ok := false;
      }
      Record(old(View()), ReadReply(shown));
    }

    // Read the wallet, then the ledger, and decide what is left to do.
    method Resume(c: Conditions) returns (ok: bool)
      requires Valid() && client.Idle?
      modifies this`client, this`history, this`accepted, this`trace
      ensures Valid() && (ok <==> !client.Idle?)
      ensures View() == (if temp.None? then old(View()) else DeliverEach(old(View()), c.duringRead)).(client := client)
      ensures client == if temp.Some? && c.shown.Some? && Known(did, history, c.shown.value)
                        then Decision(did, c.shown.value, temp.value, verkey) else Idle
      ensures temp.Some? && Responsive(old(View()), true, temp.value, c) ==>
        ok && history == old(history) && (client.MustApply? <==> Current(View()) == temp.value)
    {
      if temp.None? {
        Record(View(), BeginResume);
        return false;
      }
      client := Reading(temp.value, verkey);
      Record(old(View()), BeginResume);
      DeliveryIgnoresClient(old(View()), client, c.duringRead);
      DeliverAll(c.duringRead);
      if c.shown.None? || !Known(did, history, c.shown.value) {
        assert c.shown.Some? ==> Expand(did, c.shown.value) != Some(Current(View()));
        Stop();
        return false;
      }
      ok := Compare(c.shown.value);
    }

    // Sign with the wallet's verkey and hand the request to the network.
    method Send() returns (nym: Nym)
      requires Valid() && client.MustSubmit?
      modifies this`sent, this`nextReq, this`client, this`trace
      ensures Valid() && View() == Apply(old(View()), Submit)
      ensures nym == Nym(old(nextReq), verkey, temp.value) && nym in sent && nym.reqId !in accepted
    {
      nym := Nym(nextReq, verkey, Expand(did, client.newKey).value);
      sent, nextReq, client := sent + {nym}, nextReq + 1, Awaiting(nextReq, client.newKey);
      Record(old(View()), Submit);
    }

    // Pay for the NYM, submit it and wait for the reply.
    method SubmitNym(c: Conditions) returns (ok: bool)
      requires Valid() && client.MustSubmit?
      modifies this`sent, this`nextReq, this`client, this`history, this`accepted, this`trace
      ensures Valid() && client == if ok then MustApply(old(client).newKey) else Idle
      // Refused fees leave everything as it was; else the request goes out.
      ensures View() == (if c.feesAccepted then DeliverEach(Apply(old(View()), Submit), c.duringSubmit)
                         else old(View())).(client := client)
      ensures ok <==> c.feesAccepted && c.replied && c.receiptsRead && old(nextReq) in accepted
      ensures old(Current(View())) == verkey && Responsive(old(View()), false, temp.value, c) ==> ok
    {
      if !c.feesAccepted {
        Stop();
        return false;
      }
      var nym := Send();
      DeliverAll(c.duringSubmit);
      if !c.replied || nym.reqId !in accepted {
        Stop();
        return false;
      }
      ghost var s := View();
      client := MustApply(client.newKey);
      Record(s, Reply);
      if !c.receiptsRead {
        Stop();
        return false;
      }
      ok := true;
    }

    method Execute(resume: bool, seedKey: Verkey, c: Conditions) returns (out: Outcome)
      requires Valid() && client.Idle?
      modifies this`verkey, this`temp, this`keys, this`history, this`sent, this`accepted
      modifies this`nextReq, this`client, this`trace
      ensures Valid() && client.Idle?
      // Reported or not, a run that gets to apply leaves both sides on one key.
      ensures !out.Failed? ==>
        (resume ==> old(temp).Some?) && Rotated(View(), if resume then old(temp).value else seedKey)
      // Starting over a pending key, or with a stored one, changes no verkey.
      ensures !resume && (seedKey in old(keys) || old(temp).Some?) ==>
        out.Failed? && View() == old(View()).(keys := old(keys) + {seedKey})
      ensures resume && old(temp).None? ==> out.Failed? && View() == old(View())
      // With a responsive ledger the rotation finishes.
      ensures resume && old(temp).Some? && Responsive(old(View()), true, old(temp).value, c) ==>
        && Rotated(View(), old(temp).value)
        && out == if c.shown.value.Short? && old(temp).value[..16] == did then AppliedButUnprintable else Succeeded
      ensures !resume && old(temp).None? && seedKey !in old(keys)
              && Responsive(old(View()), false, seedKey, c) ==>
        Rotated(View(), seedKey) && out.Succeeded?
      // It gets to apply exactly if a start or a read succeeds and, unless the
      // ledger was found to have the new key, every step of the submission does.
      ensures !out.Failed? <==>
        && (if resume then old(temp).Some? && c.shown.Some? && Known(did, ReadHistory(old(View()), c), c.shown.value)
            else old(temp).None? && seedKey !in old(keys))
        && ((resume && Expand(did, c.shown.value) == old(temp))
            || ((resume ==> Expand(did, c.shown.value) == Some(old(verkey)))
                && c.feesAccepted && c.replied && c.receiptsRead && old(nextReq) in accepted))
      // Otherwise no verkey changes, and without fees nothing is sent.
      ensures out.Failed? ==> verkey == old(verkey)
      ensures !c.feesAccepted ==> sent == old(sent) && nextReq == old(nextReq)
      // Success is withheld after the switch exactly for an abbreviated new key.
      ensures !out.Failed? ==>
        out == if resume && c.shown.value.Short? && old(temp).value[..16] == did then AppliedButUnprintable
               else Succeeded
    {
      var ok;
      if resume {
        ok := Resume(c);
      } else {
        ok := ReplaceKeysStart(seedKey);
      }
      if !ok {
        return Failed;
      }
      if client.MustSubmit? {
        ok := SubmitNym(c);
        if !ok {
          return Failed;
        }
      }
      var newKey := client.newKey;
      ReplaceKeysApply();
      return if Abbreviate(did, newKey).Some? then Succeeded else AppliedButUnprintable;
    }
  }
}
