// `did rotate-key` as a protocol between a wallet, a ledger and the network.
//
// The client may be interrupted between any two of its steps. NYM requests may
// be lost, delivered late or many times; a ledger read may return any key the
// ledger ever held, in full or abbreviated. The wallet writes follow the
// library: keys are insert-only records, a pending key is one insert-only
// record, and applying it is an update followed by a delete.
module RotationProtocol {
  import opened Options
  import opened Verkeys

  datatype Nym = Nym(reqId: nat, signer: Verkey, newKey: Verkey)

  // Where the client is inside one run of the command.
  datatype Client =
    | Idle
    | KeyStored(key: Verkey)                     // start: key record written
    | Reading(temp: Verkey, curr: Verkey)        // resume: wallet read, GET_NYM sent
    | MustSubmit(newKey: Written)
    | Awaiting(reqId: nat, newKey: Written)
    | MustApply(newKey: Written)
    | HalfApplied(newKey: Written)               // verkey updated, pending key not yet deleted

  datatype State = State(
    did: Did,
    verkey: Verkey,             // the DID record of the wallet
    temp: Option<Verkey>,       // the pending-key record of the wallet
    keys: set<Verkey>,          // the key records of the wallet
    history: seq<Verkey>,       // the keys the ledger held; the last one is current
    sent: set<Nym>,             // requests that may still be delivered
    accepted: set<nat>,         // requests the ledger has answered with a REPLY
    nextReq: nat,
    client: Client)

  datatype Event =
    | StoreForeignKey(key: Verkey)   // some other command stores a key
    | StoreKey(key: Verkey)
    | StoreTemp
    | BeginResume
    | ReadReply(shown: Written)
    | Submit
    | Deliver(nym: Nym)
    | Reply
    | WriteVerkey
    | DeleteTemp
    | Interrupt                      // crash, timeout, rejection or failed fee step

  ghost predicate Init(s: State) {
    && s.temp == None && s.client == Idle
    && s.history == [s.verkey] && s.verkey in s.keys
    && s.sent == {} && s.accepted == {}
  }

  function Current(s: State): Verkey
    requires s.history != []
  {
    s.history[|s.history| - 1]
  }

  predicate Enabled(s: State, e: Event) {
    match e
    case StoreForeignKey(_) => true
    case StoreKey(_) => s.client.Idle?
    case StoreTemp => s.client.KeyStored?
    case BeginResume => s.client.Idle?
    case ReadReply(shown) =>
      s.client.Reading? && exists k :: k in s.history && Expand(s.did, shown) == Some(k)
    case Submit => s.client.MustSubmit? && Expand(s.did, s.client.newKey).Some?
    case Deliver(nym) => nym in s.sent && s.history != []
    case Reply => s.client.Awaiting? && s.client.reqId in s.accepted
    case WriteVerkey => s.client.MustApply?
    case DeleteTemp => s.client.HalfApplied?
    case Interrupt => true
  }

  function Apply(s: State, e: Event): State
    requires Enabled(s, e)
  {
    match e
    case StoreForeignKey(key) => s.(keys := s.keys + {key})
    case StoreKey(key) =>
      if key in s.keys then s
      else s.(keys := s.keys + {key}, client := KeyStored(key))
    case StoreTemp =>
      if s.temp.Some? then s.(client := Idle)
      else s.(temp := Some(s.client.key), client := MustSubmit(Full(s.client.key)))
    case BeginResume =>
      if s.temp.None? then s else s.(client := Reading(s.temp.value, s.verkey))
    case ReadReply(shown) =>
      var temp := InFormOf(s.did, shown, s.client.temp);
      var curr := InFormOf(s.did, shown, s.client.curr);
      if shown == temp then s.(client := MustApply(temp))
      else if shown == curr then s.(client := MustSubmit(temp))
      else s.(client := Idle)
    case Submit =>
      var nym := Nym(s.nextReq, s.verkey, Expand(s.did, s.client.newKey).value);
      s.(sent := s.sent + {nym}, nextReq := s.nextReq + 1, client := Awaiting(s.nextReq, s.client.newKey))
    case Deliver(nym) =>
      if nym.signer == Current(s)
      then s.(history := s.history + [nym.newKey], accepted := s.accepted + {nym.reqId})
      else s
    case Reply => s.(client := MustApply(s.client.newKey))
    case WriteVerkey =>
      if s.temp.None? then s.(client := Idle)
      else s.(verkey := s.temp.value, client := HalfApplied(s.client.newKey))
    case DeleteTemp => s.(temp := None, client := Idle)
    case Interrupt => s.(client := Idle)
  }

  ghost predicate Run(s: State, es: seq<Event>, t: State)
    decreases |es|
  {
    if es == [] then s == t
    else Enabled(s, es[0]) && Run(Apply(s, es[0]), es[1..], t)
  }

  ghost predicate Reachable(t: State) {
    exists s, es :: Init(s) && Run(s, es, t)
  }

  // ---- the invariant ----

  ghost predicate KeysRecorded(s: State) {
    && s.history != [] && s.verkey in s.history
    && (forall k :: k in s.history ==> k in s.keys)
    && (s.temp.Some? ==> s.temp.value in s.keys)
    && (forall i, j :: 0 <= i < j < |s.history| ==> s.history[i] != s.history[j])
  }

  // The ledger key is one of the two the wallet holds, and once the ledger has
  // held the pending key it holds it still.
  ghost predicate WalletCoversLedger(s: State)
    requires s.history != []
  {
    && (s.temp.None? ==> Current(s) == s.verkey)
    && (s.temp.Some? ==>
          && (Current(s) == s.verkey || Current(s) == s.temp.value)
          && (s.temp.value in s.history ==> Current(s) == s.temp.value))
  }

  // A request the ledger would accept moves it to the pending key.
  ghost predicate RequestsSafe(s: State)
    requires s.history != []
  {
    && (forall n :: n in s.sent ==> n.signer in s.history && n.reqId < s.nextReq)
    && (forall n, m :: n in s.sent && m in s.sent && n.reqId == m.reqId ==> n == m)
    && (forall n :: n in s.sent && n.signer == Current(s) ==>
          s.temp == Some(n.newKey) && n.newKey !in s.history)
    && (forall n :: n in s.sent && n.reqId in s.accepted ==> n.newKey in s.history)
    && (forall r :: r in s.accepted ==> r < s.nextReq)
  }

  ghost predicate ClientSafe(s: State)
    requires s.history != []
  {
    match s.client
    case Idle => true
    case KeyStored(key) =>
      key in s.keys && key !in s.history && s.temp != Some(key)
    case Reading(temp, curr) => s.temp == Some(temp) && s.verkey == curr
    case MustSubmit(w) =>
      s.temp.Some? && s.temp.value != s.verkey && Expand(s.did, w) == s.temp
    case Awaiting(r, w) =>
      && s.temp.Some? && Expand(s.did, w) == s.temp
      && exists n :: n in s.sent && n.reqId == r && s.temp == Some(n.newKey)
    case MustApply(w) =>
      s.temp == Some(Current(s)) && Expand(s.did, w) == s.temp
    case HalfApplied(w) =>
      s.temp == Some(s.verkey) && Expand(s.did, w) == s.temp
  }

  ghost predicate Inv(s: State) {
    KeysRecorded(s) && WalletCoversLedger(s) && RequestsSafe(s) && ClientSafe(s)
  }

  lemma InitEstablishesInv(s: State)
    requires Init(s)
    ensures Inv(s)
  {
  }

  lemma DeliverKeepsInv(s: State, nym: Nym)
    requires Inv(s) && Enabled(s, Deliver(nym))
    ensures Inv(Apply(s, Deliver(nym)))
  {
    var t := Apply(s, Deliver(nym));
    if nym.signer == Current(s) {
      assert t.history[..|s.history|] == s.history;
      assert Current(t) == nym.newKey;
      assert forall k :: k in t.history <==> k in s.history || k == nym.newKey;
    }
  }

  lemma ReadReplyKeepsInv(s: State, shown: Written)
    requires Inv(s) && Enabled(s, ReadReply(shown))
    ensures Inv(Apply(s, ReadReply(shown)))
  {
    var k :| k in s.history && Expand(s.did, shown) == Some(k);
    ComparisonIsExact(s.did, shown, k, s.client.temp);
    ComparisonIsExact(s.did, shown, k, s.client.curr);
  }

  lemma StoreKeepsInv(s: State, e: Event)
    requires Inv(s) && Enabled(s, e) && (e.StoreForeignKey? || e.StoreKey? || e.StoreTemp?)
    ensures Inv(Apply(s, e))
  {
  }

  lemma SubmitKeepsInv(s: State)
    requires Inv(s) && Enabled(s, Submit)
    ensures Inv(Apply(s, Submit))
  {
    assert Nym(s.nextReq, s.verkey, s.temp.value) in Apply(s, Submit).sent;
  }

  lemma ReplyKeepsInv(s: State)
    requires Inv(s) && Enabled(s, Reply)
    ensures Inv(Apply(s, Reply))
  {
    var n :| n in s.sent && n.reqId == s.client.reqId && s.temp == Some(n.newKey);
    assert n.newKey in s.history;
  }

  lemma StepKeepsInv(s: State, e: Event)
    requires Inv(s) && Enabled(s, e)
    ensures Inv(Apply(s, e))
  {
    match e
    case Deliver(nym) => DeliverKeepsInv(s, nym);
    case ReadReply(shown) => ReadReplyKeepsInv(s, shown);
    case Submit => SubmitKeepsInv(s);
    case Reply => ReplyKeepsInv(s);
    case StoreForeignKey(_) => StoreKeepsInv(s, e);
    case StoreKey(_) => StoreKeepsInv(s, e);
    case StoreTemp => StoreKeepsInv(s, e);
    case _ =>
  }

  lemma {:induction false} RunKeepsInv(s: State, es: seq<Event>, t: State)
    requires Inv(s) && Run(s, es, t)
    ensures Inv(t)
    decreases |es|
  {
    if es != [] {
      StepKeepsInv(s, es[0]);
      RunKeepsInv(Apply(s, es[0]), es[1..], t);
    }
  }

  lemma ReachableInv(t: State)
    requires Reachable(t)
    ensures Inv(t)
  {
    var s, es :| Init(s) && Run(s, es, t);
    InitEstablishesInv(s);
    RunKeepsInv(s, es, t);
  }

  lemma {:induction false} RunAppend(s: State, es: seq<Event>, t: State, e: Event)
    requires Run(s, es, t) && Enabled(t, e)
    ensures Run(s, es + [e], Apply(t, e))
    decreases |es|
  {
    if es == [] {
      assert Run(Apply(t, e), [], Apply(t, e));
      assert (es + [e])[1..] == [];
    } else {
      RunAppend(Apply(s, es[0]), es[1..], t, e);
      assert (es + [e])[1..] == es[1..] + [e];
    }
  }

  // ---- main results ----

  // In every run the ledger's key is one the wallet knows as its own, and its
  // signing key is still stored.
  lemma LedgerKeyIsNeverLost(t: State)
    requires Reachable(t)
    ensures t.history != []
    ensures Current(t) == t.verkey || t.temp == Some(Current(t))
    ensures Current(t) in t.keys
    ensures t.temp.None? ==> Current(t) == t.verkey
  {
    ReachableInv(t);
  }

  // The wallet switches keys only when the ledger already has; afterwards both
  // agree, and stay in agreement if the switch stops halfway.
  lemma ApplyIsSound(t: State)
    requires Reachable(t) && t.client.MustApply?
    ensures t.history != [] && t.temp == Some(Current(t))
    ensures var half := Apply(t, WriteVerkey);
            && half.client.HalfApplied?
            && half.verkey == Current(t) && Current(half) == Current(t)
            && var done := Apply(half, DeleteTemp);
               done.verkey == Current(t) && Current(done) == Current(t) && done.temp == None && done.client == Idle
  {
    ReachableInv(t);
  }

  // A key once stored is never taken as a new pending key again: the start
  // fails and leaves the wallet as it was.
  lemma {:induction false} KeysAreNeverReused(s: State, es: seq<Event>, t: State, key: Verkey)
    requires Run(s, es, t) && key in s.keys
    ensures key in t.keys
    ensures t.client.Idle? ==> Apply(t, StoreKey(key)) == t
    decreases |es|
  {
    if es != [] {
      KeysAreNeverReused(Apply(s, es[0]), es[1..], t, key);
    }
  }

  lemma {:induction false} HistoryGrows(s: State, es: seq<Event>, t: State)
    requires Run(s, es, t)
    ensures s.history <= t.history
    decreases |es|
  {
    if es != [] {
      HistoryGrows(Apply(s, es[0]), es[1..], t);
    }
  }

  // Whatever happens in a run, starts over it included, a pending key stays
  // the pending key until the ledger has taken it.
  lemma {:induction false} PendingKeyIsNotOverwritten(s: State, es: seq<Event>, t: State, key: Verkey)
    requires Reachable(s) && s.temp == Some(key) && Run(s, es, t)
    ensures t.temp == Some(key) || key in t.history
    decreases |es|
  {
    ReachableInv(s);
    if es != [] {
      var u := Apply(s, es[0]);
      HistoryGrows(u, es[1..], t);
      if u.temp == s.temp {
        ReachableStep(s, es[0]);
        PendingKeyIsNotOverwritten(u, es[1..], t, key);
      } else {
        assert s.client.HalfApplied? && key in s.history;
      }
    }
  }

  lemma ReachableStep(s: State, e: Event)
    requires Reachable(s) && Enabled(s, e)
    ensures Reachable(Apply(s, e))
  {
    var origin, es :| Init(origin) && Run(origin, es, s);
    RunAppend(origin, es, s, e);
  }

  // A request that can no longer change the ledger.
  ghost predicate Harmless(s: State, nym: Nym)
    requires s.history != []
  {
    nym in s.sent && nym.signer in s.history && nym.signer != Current(s)
  }

  // With no rotation pending every request ever sent is harmless, and so is
  // every request whose new key the ledger has held.
  lemma LeftoversAreHarmless(s: State, nym: Nym)
    requires Reachable(s) && nym in s.sent
    ensures s.history != []
    ensures s.temp.None? ==> Harmless(s, nym)
    ensures nym.newKey in s.history ==> Harmless(s, nym)
  {
    ReachableInv(s);
  }

  lemma HarmlessStep(s: State, e: Event, nym: Nym)
    requires Inv(s) && Harmless(s, nym) && Enabled(s, e)
    ensures Apply(s, e).history != [] && Harmless(Apply(s, e), nym)
  {
    var u := Apply(s, e);
    StepKeepsInv(s, e);
    if u.history != s.history {
      assert u.history == s.history + [Current(u)];
      var i :| 0 <= i < |s.history| && s.history[i] == nym.signer;
      assert u.history[i] == nym.signer != Current(u);
    }
  }

  // Harmless requests stay harmless through any further run: any number of
  // deliveries, in any order, across any number of later rotations.
  lemma {:induction false} HarmlessForever(s: State, es: seq<Event>, t: State, nym: Nym)
    requires Inv(s) && Harmless(s, nym) && Run(s, es, t)
    ensures t.history != [] && Harmless(t, nym)
    ensures Apply(t, Deliver(nym)) == t
    decreases |es|
  {
    if es != [] {
      HarmlessStep(s, es[0], nym);
      StepKeepsInv(s, es[0]);
      HarmlessForever(Apply(s, es[0]), es[1..], t, nym);
    }
  }

  // The late-message theorem over whole runs.
  lemma LateMessagesNeverChangeLedger(s: State, es: seq<Event>, t: State, nym: Nym)
    requires Reachable(s) && s.temp.None? && nym in s.sent && Run(s, es, t)
    ensures t.history != [] && nym in t.sent && Apply(t, Deliver(nym)) == t
  {
    ReachableInv(s);
    LeftoversAreHarmless(s, nym);
    HarmlessForever(s, es, t, nym);
  }

  // The steps of one uninterrupted attempt, from submission on.
  function SubmitAndApply(s: State, newKey: Verkey): seq<Event> {
    [Submit, Deliver(Nym(s.nextReq, s.verkey, newKey)), Reply, WriteVerkey, DeleteTemp]
  }

  function ResumeSteps(s: State, shown: Written): seq<Event>
    requires s.history != [] && s.temp.Some?
  {
    [BeginResume, ReadReply(shown)]
    + if Current(s) == s.temp.value then [WriteVerkey, DeleteTemp] else SubmitAndApply(s, s.temp.value)
  }

  ghost predicate Rotated(t: State, newKey: Verkey) {
    && t.client == Idle && t.temp == None && t.verkey == newKey
    && t.history != [] && Current(t) == newKey
  }

  lemma ApplicationCompletes(s: State)
    requires Inv(s) && s.client.MustApply?
    ensures exists t :: Run(s, [WriteVerkey, DeleteTemp], t) && Rotated(t, s.temp.value)
  {
    var s1 := Apply(s, WriteVerkey);
    var s2 := Apply(s1, DeleteTemp);
    assert Run(s2, [], s2);
    assert Run(s1, [DeleteTemp], s2);
    assert Run(s, [WriteVerkey, DeleteTemp], s2);
  }

  lemma RunTwo(s: State, e: Event, f: Event, rest: seq<Event>, t: State)
    requires Enabled(s, e) && Enabled(Apply(s, e), f) && Run(Apply(Apply(s, e), f), rest, t)
    ensures Run(s, [e, f] + rest, t)
  {
    assert ([f] + rest)[1..] == rest && ([e, f] + rest)[1..] == [f] + rest;
    assert Run(Apply(s, e), [f] + rest, t);
  }

  lemma SubmissionCompletes(s: State)
    requires Inv(s) && s.client.MustSubmit? && Current(s) == s.verkey
    ensures exists t :: Run(s, SubmitAndApply(s, s.temp.value), t) && Rotated(t, s.temp.value)
  {
    var nym := Nym(s.nextReq, s.verkey, s.temp.value);
    var s1 := Apply(s, Submit);
    SubmitKeepsInv(s);
    var s2 := Apply(s1, Deliver(nym));
    DeliverKeepsInv(s1, nym);
    var s3 := Apply(s2, Reply);
    ReplyKeepsInv(s2);
    ApplicationCompletes(s3);
    var rest := [WriteVerkey, DeleteTemp];
    var t :| Run(s3, rest, t) && Rotated(t, s.temp.value);
    assert ([Reply] + rest)[1..] == rest;
    RunTwo(s, Submit, Deliver(nym), [Reply] + rest, t);
    assert [Submit, Deliver(nym)] + ([Reply] + rest) == SubmitAndApply(s, s.temp.value);
  }

  // An up-to-date read in either form tells the client what is left to do.
  lemma ReadTells(s: State, shown: Written)
    requires Inv(s) && s.client.Idle? && s.temp.Some? && Expand(s.did, shown) == Some(Current(s))
    ensures Enabled(Apply(s, BeginResume), ReadReply(shown))
    ensures var told := Apply(Apply(s, BeginResume), ReadReply(shown));
            && Inv(told) && told == s.(client := told.client)
            && (if Current(s) == s.temp.value then told.client.MustApply? else told.client.MustSubmit?)
  {
    var asked := Apply(s, BeginResume);
    StepKeepsInv(s, BeginResume);
    assert Current(s) in asked.history;
    ReadReplyKeepsInv(asked, shown);
    ComparisonIsExact(s.did, shown, Current(s), s.temp.value);
    ComparisonIsExact(s.did, shown, Current(s), s.verkey);
  }

  // A read is taken for the pending key, else for the wallet's key, exactly if it
  // stands for it; one that stands for neither ends the command, and nothing
  // else changes in any case.
  lemma ReadIsExact(s: State, shown: Written)
    requires Enabled(s, ReadReply(shown))
    ensures var t := Apply(s, ReadReply(shown));
            && t == s.(client := t.client)
            && (if Expand(s.did, shown) == Some(s.client.temp) then
                  t.client == MustApply(InFormOf(s.did, shown, s.client.temp))
                else if Expand(s.did, shown) == Some(s.client.curr) then
                  t.client == MustSubmit(InFormOf(s.did, shown, s.client.temp))
                else t.client.Idle?)
  {
    ComparisonIsExact(s.did, shown, Expand(s.did, shown).value, s.client.temp);
    ComparisonIsExact(s.did, shown, Expand(s.did, shown).value, s.client.curr);
  }

  // From every reachable state with a pending key, whatever happened before, a
  // resume that reads the current key never takes the "completely different"
  // branch and ends with wallet and ledger both on the pending key.
  lemma ResumeCompletes(s: State, shown: Written)
    requires Reachable(s) && s.client.Idle? && s.temp.Some?
    requires s.history != [] && Expand(s.did, shown) == Some(Current(s))
    ensures var asked := Apply(s, BeginResume);
            Enabled(asked, ReadReply(shown)) && !Apply(asked, ReadReply(shown)).client.Idle?
    ensures exists t :: Run(s, ResumeSteps(s, shown), t) && Rotated(t, s.temp.value)
  {
    ReachableInv(s);
    ReadTells(s, shown);
    var told := Apply(Apply(s, BeginResume), ReadReply(shown));
    var rest := if Current(s) == s.temp.value then [WriteVerkey, DeleteTemp] else SubmitAndApply(s, s.temp.value);
    if Current(s) == s.temp.value {
      ApplicationCompletes(told);
    } else {
      SubmissionCompletes(told);
    }
    var t :| Run(told, rest, t) && Rotated(t, s.temp.value);
    RunTwo(s, BeginResume, ReadReply(shown), rest, t);
  }

  // With nothing pending, a start with any key the wallet does not hold yet
  // completes as well.
  lemma FreshRotationCompletes(s: State, key: Verkey)
    requires Reachable(s) && s.client.Idle? && s.temp.None? && key !in s.keys
    ensures exists t :: Run(s, [StoreKey(key), StoreTemp] + SubmitAndApply(s, key), t) && Rotated(t, key)
  {
    ReachableInv(s);
    var s1 := Apply(s, StoreKey(key));
    StepKeepsInv(s, StoreKey(key));
    var s2 := Apply(s1, StoreTemp);
    StepKeepsInv(s1, StoreTemp);
    SubmissionCompletes(s2);
    var t :| Run(s2, SubmitAndApply(s2, key), t) && Rotated(t, key);
    RunTwo(s, StoreKey(key), StoreTemp, SubmitAndApply(s, key), t);
  }
}
