// Whole sessions: any sequence of session commands, with any of them failing
// at any point, and the cleanup when the executor is dropped.
module SessionRuns {
  import opened Options
  import opened SessionState

  lemma CloseHandleEffect(l: Library, h: int, kind: Kind, how: CloseResult, name: string,
                          other: Kind, o: Option<(int, string)>)
    requires HandlesFresh(l) && Exact(l, kind, Some((h, name))) && Exact(l, other, o) && kind != other
    requires o.Some? ==> o.value.0 != h
    ensures var (m, ok) := CloseHandle(l, h, kind, how);
            && HandlesFresh(m) && m.nextHandle == l.nextHandle && Exact(m, other, o)
            && (ok ==> Exact(m, kind, None))
            && (!ok ==> Exact(m, kind, Some((h, name))))
  {
  }

  lemma OpenHandleEffect(l: Library, kind: Kind, name: string, other: Kind, o: Option<(int, string)>)
    requires HandlesFresh(l) && Exact(l, kind, None) && Exact(l, other, o) && kind != other
    ensures var m := OpenHandle(l, kind, name);
            HandlesFresh(m) && Exact(m, kind, Some((l.nextHandle, name))) && Exact(m, other, o)
    ensures o.Some? ==> o.value.0 != l.nextHandle
  {
  }

  lemma OpenWalletKeepsInv(s: State, name: string, how: CloseResult, opens: bool)
    requires Inv(s)
    ensures Inv(OpenWallet(s, name, how, opens).0)
  {
    var ctx := SetActiveDid(s.ctx, None);
    SetActiveDidFrame(s.ctx, None);
    var recorded, pool := OpenedWallet(ctx), ConnectedPool(ctx);
    var lib, closed := s.lib, true;
    if recorded.Some? {
      var (h, n) := recorded.value;
      CloseHandleEffect(s.lib, h, Wallet, how, n, Pool, pool);
      lib, closed := CloseHandle(s.lib, h, Wallet, how).0, CloseHandle(s.lib, h, Wallet, how).1;
    }
    if closed {
      assert Exact(lib, Wallet, None);
      OpenHandleEffect(lib, Wallet, name, Pool, pool);
      SetOpenedWalletFrame(ctx, Some((lib.nextHandle, name)));
      SetOpenedWalletFrame(ctx, None);
    }
  }

  lemma CloseWalletKeepsInv(s: State, how: CloseResult)
    requires Inv(s)
    ensures Inv(CloseWallet(s, how).0)
  {
    var recorded := OpenedWallet(s.ctx);
    if recorded.Some? {
      CloseHandleEffect(s.lib, recorded.value.0, Wallet, how, recorded.value.1, Pool, ConnectedPool(s.ctx));
      SetOpenedWalletFrame(s.ctx, None);
      SetActiveDidFrame(SetOpenedWallet(s.ctx, None), None);
    }
  }

  lemma ConnectPoolKeepsInv(s: State, name: string, how: CloseResult, versionOk: bool, opens: bool)
    requires Inv(s)
    ensures Inv(ConnectPool(s, name, how, versionOk, opens).0)
  {
    var recorded, wallet := ConnectedPool(s.ctx), OpenedWallet(s.ctx);
    var lib, closed := s.lib, true;
    if recorded.Some? {
      var (h, n) := recorded.value;
      CloseHandleEffect(s.lib, h, Pool, how, n, Wallet, wallet);
      lib, closed := CloseHandle(s.lib, h, Pool, how).0, CloseHandle(s.lib, h, Pool, how).1;
    }
    if closed {
      SetConnectedPoolFrame(s.ctx, None);
      var ctx := if recorded.Some? then SetConnectedPool(s.ctx, None) else s.ctx;
      assert Exact(lib, Pool, None);
      OpenHandleEffect(lib, Pool, name, Wallet, wallet);
      SetConnectedPoolFrame(ctx, Some((lib.nextHandle, name)));
    }
  }

  lemma DisconnectPoolKeepsInv(s: State, how: CloseResult)
    requires Inv(s)
    ensures Inv(DisconnectPool(s, how).0)
  {
    var recorded := ConnectedPool(s.ctx);
    if recorded.Some? {
      CloseHandleEffect(s.lib, recorded.value.0, Pool, how, recorded.value.1, Wallet, OpenedWallet(s.ctx));
      SetConnectedPoolFrame(s.ctx, None);
    }
  }

  lemma UseDidKeepsInv(s: State, did: DidText, known: bool)
    requires Inv(s)
    ensures Inv(UseDid(s, did, known).0)
  {
    SetActiveDidFrame(s.ctx, Some(did));
  }

  lemma CommandKeepsInv(s: State, c: Command)
    requires Inv(s)
    ensures Inv(Do(s, c).0)
  {
    match c
    case WalletOpen(name, accepted, how, opens) => OpenWalletKeepsInv(s, name, how, opens);
    case WalletClose(how) => CloseWalletKeepsInv(s, how);
    case PoolConnect(name, accepted, how, versionOk, opens) => ConnectPoolKeepsInv(s, name, how, versionOk, opens);
    case PoolDisconnect(how) => DisconnectPoolKeepsInv(s, how);
    case DidUse(did, known) => UseDidKeepsInv(s, did, known);
  }

  lemma {:induction false} SessionKeepsInv(s: State, cs: seq<Command>)
    requires Inv(s)
    ensures Inv(DoAll(s, cs))
  {
    if cs != [] {
      SessionKeepsInv(s, cs[..|cs| - 1]);
      CommandKeepsInv(DoAll(s, cs[..|cs| - 1]), cs[|cs| - 1]);
    }
  }

  // ---- main results ----

  function LiveHandles(l: Library, kind: Kind): set<int> {
    set h | h in l.open && l.open[h].0 == kind
  }

  function Expected(l: Library, recorded: Option<(int, string)>): set<int> {
    if recorded.Some? && recorded.value.0 !in l.lost then {recorded.value.0} else {}
  }

  lemma ExactMeans(l: Library, kind: Kind, recorded: Option<(int, string)>)
    requires Exact(l, kind, recorded)
    ensures LiveHandles(l, kind) == Expected(l, recorded)
    ensures forall h :: h in LiveHandles(l, kind) ==> Some((h, l.open[h].1)) == recorded
  {
    forall h
      ensures h in LiveHandles(l, kind) <==> h in Expected(l, recorded)
    {
      if recorded.Some? && recorded.value.0 == h && h in l.open {
        assert l.open[h] == (kind, recorded.value.1);
      }
    }
  }

  // In every session the handles the library holds open are the recorded wallet
  // and pool, under their recorded names, and nothing else; a recorded one is
  // open exactly unless a failed close has removed it.
  lemma LiveHandlesAreRecorded(s: State, cs: seq<Command>)
    requires Init(s)
    ensures var t := DoAll(s, cs);
            && LiveHandles(t.lib, Wallet) == Expected(t.lib, OpenedWallet(t.ctx))
            && LiveHandles(t.lib, Pool) == Expected(t.lib, ConnectedPool(t.ctx))
            && (forall h :: h in LiveHandles(t.lib, Wallet) ==> Some((h, t.lib.open[h].1)) == OpenedWallet(t.ctx))
            && (forall h :: h in LiveHandles(t.lib, Pool) ==> Some((h, t.lib.open[h].1)) == ConnectedPool(t.ctx))
  {
    SessionKeepsInv(s, cs);
    var t := DoAll(s, cs);
    ExactMeans(t.lib, Wallet, OpenedWallet(t.ctx));
    ExactMeans(t.lib, Pool, ConnectedPool(t.ctx));
  }

  // Handle, name and prompt slot are present together and agree, for the
  // wallet, the pool and the DID; an active DID was looked up in the very
  // wallet that is recorded as opened.
  lemma SessionAgrees(s: State, cs: seq<Command>)
    requires Init(s)
    ensures var t := DoAll(s, cs);
            && Agreement(t.ctx)
            && (ActiveDid(t.ctx).Some? ==>
                  OpenedWallet(t.ctx).Some? && t.checkedIn == Some(OpenedWallet(t.ctx).value.0))
  {
    SessionKeepsInv(s, cs);
  }

  ghost predicate WalletLost(s: State) {
    OpenedWallet(s.ctx).Some? && OpenedWallet(s.ctx).value.0 in s.lib.lost
  }

  lemma LostStaysLost(s: State, c: Command)
    requires Inv(s) && WalletLost(s)
    ensures var (t, ok) := Do(s, c);
            && WalletLost(t) && OpenedWallet(t.ctx) == OpenedWallet(s.ctx)
            && (c.WalletOpen? || c.WalletClose? || c.DidUse? ==> !ok)
  {
    SetActiveDidFrame(s.ctx, None);
    if c.PoolConnect? {
      SetConnectedPoolFrame(s.ctx, None);
      var ctx := if ConnectedPool(s.ctx).Some? then SetConnectedPool(s.ctx, None) else s.ctx;
      var pool := ConnectedPool(s.ctx);
      var lib := if pool.Some? then CloseHandle(s.lib, pool.value.0, Pool, c.how).0 else s.lib;
      SetConnectedPoolFrame(ctx, Some((lib.nextHandle, c.name)));
    } else if c.PoolDisconnect? {
      SetConnectedPoolFrame(s.ctx, None);
    }
  }

  // Once a close has failed after the handle was removed, no later command
  // opens, closes or uses a wallet again: the dead handle stays recorded.
  lemma {:induction false} LostWalletIsFinal(s: State, cs: seq<Command>, c: Command)
    requires Inv(s) && WalletLost(s)
    ensures var t := DoAll(s, cs);
            && WalletLost(t) && OpenedWallet(t.ctx) == OpenedWallet(s.ctx)
            && (c.WalletOpen? || c.WalletClose? || c.DidUse? ==> !Do(t, c).1)
  {
    if cs != [] {
      var k := |cs| - 1;
      LostWalletIsFinal(s, cs[..k], cs[k]);
      SessionKeepsInv(s, cs[..k]);
      LostStaysLost(DoAll(s, cs[..k]), cs[k]);
    }
    SessionKeepsInv(s, cs);
    LostStaysLost(DoAll(s, cs), c);
  }

  lemma DoTwo(s: State, c: Command, d: Command)
    ensures DoAll(s, [c, d]) == Do(Do(s, c).0, d).0
  {
    assert [c, d][..1] == [c] && [c][..0] == [];
    assert DoAll(s, []) == s;
    assert DoAll(s, [c]) == Do(DoAll(s, [c][..0]), c).0;
    assert DoAll(s, [c, d]) == Do(DoAll(s, [c, d][..1]), d).0;
  }

  // A session gets there by opening a wallet and one close that fails late.
  lemma WalletLossIsReachable(s: State, name: string)
    requires Init(s)
    ensures WalletLost(DoAll(s, [WalletOpen(name, true, Closes, true), WalletClose(FailedAfterRemoval)]))
  {
    DoTwo(s, WalletOpen(name, true, Closes, true), WalletClose(FailedAfterRemoval));
    SetActiveDidFrame(s.ctx, None);
    SetOpenedWalletFrame(SetActiveDid(s.ctx, None), Some((s.lib.nextHandle, name)));
  }

  ghost predicate PoolLost(s: State) {
    ConnectedPool(s.ctx).Some? && ConnectedPool(s.ctx).value.0 in s.lib.lost
  }

  lemma LostPoolStaysLost(s: State, c: Command)
    requires Inv(s) && PoolLost(s)
    ensures var (t, ok) := Do(s, c);
            && PoolLost(t) && ConnectedPool(t.ctx) == ConnectedPool(s.ctx)
            && (c.PoolConnect? || c.PoolDisconnect? ==> !ok)
  {
    match c
    case WalletOpen(name, _, how, _) =>
      SetActiveDidFrame(s.ctx, None);
      var ctx := SetActiveDid(s.ctx, None);
      SetOpenedWalletFrame(ctx, None);
      var wallet := OpenedWallet(ctx);
      var lib := if wallet.Some? then CloseHandle(s.lib, wallet.value.0, Wallet, how).0 else s.lib;
      SetOpenedWalletFrame(ctx, Some((lib.nextHandle, name)));
    case WalletClose(_) =>
      SetOpenedWalletFrame(s.ctx, None);
      SetActiveDidFrame(SetOpenedWallet(s.ctx, None), None);
    case DidUse(did, _) => SetActiveDidFrame(s.ctx, Some(did));
    case _ =>
  }

  // The same for pools: no later command connects or disconnects one again.
  lemma {:induction false} LostPoolIsFinal(s: State, cs: seq<Command>, c: Command)
    requires Inv(s) && PoolLost(s)
    ensures var t := DoAll(s, cs);
            && PoolLost(t) && ConnectedPool(t.ctx) == ConnectedPool(s.ctx)
            && (c.PoolConnect? || c.PoolDisconnect? ==> !Do(t, c).1)
  {
    if cs != [] {
      var k := |cs| - 1;
      LostPoolIsFinal(s, cs[..k], cs[k]);
      SessionKeepsInv(s, cs[..k]);
      LostPoolStaysLost(DoAll(s, cs[..k]), cs[k]);
    }
    SessionKeepsInv(s, cs);
    LostPoolStaysLost(DoAll(s, cs), c);
  }

  lemma PoolLossIsReachable(s: State, name: string)
    requires Init(s)
    ensures PoolLost(DoAll(s, [PoolConnect(name, true, Closes, true, true), PoolDisconnect(FailedAfterRemoval)]))
  {
    DoTwo(s, PoolConnect(name, true, Closes, true, true), PoolDisconnect(FailedAfterRemoval));
    SetConnectedPoolFrame(s.ctx, Some((s.lib.nextHandle, name)));
  }

  // ---- dropping the executor ----

  // Of all registered commands only `wallet open` and `pool connect` clean up.
  datatype Cleaner = NoCleanup | WalletCleanup | PoolCleanup

  function Cleanup(s: State, c: Cleaner, how: CloseResult): State {
    match c
    case NoCleanup => s
    case WalletCleanup =>
      if OpenedWallet(s.ctx).None? then s
      else
        var (h, name) := OpenedWallet(s.ctx).value;
        var (lib, ok) := CloseHandle(s.lib, h, Wallet, how);
        s.(lib := lib, ctx := if ok then SetOpenedWallet(s.ctx, Some((h, name))) else s.ctx)
    case PoolCleanup =>
      if ConnectedPool(s.ctx).None? then s
      else
        var (h, name) := ConnectedPool(s.ctx).value;
        var (lib, ok) := CloseHandle(s.lib, h, Pool, how);
        s.(lib := lib, ctx := if ok then SetConnectedPool(s.ctx, Some((h, name))) else s.ctx)
  }

  // Drop iterates hash maps, so the commands come in some order or other.
  function DropAll(s: State, order: seq<Cleaner>): State {
    if order == [] then s else Cleanup(DropAll(s, order[..|order| - 1]), order[|order| - 1], Closes)
  }

  predicate Once(order: seq<Cleaner>, c: Cleaner) {
    exists i :: 0 <= i < |order| && order[i] == c && forall j :: 0 <= j < |order| && j != i ==> order[j] != c
  }

  function LiveWallet(s: State): seq<int> {
    var wallet := OpenedWallet(s.ctx);
    if wallet.Some? && wallet.value.0 in s.lib.open then [wallet.value.0] else []
  }

  function LivePool(s: State): seq<int> {
    var pool := ConnectedPool(s.ctx);
    if pool.Some? && pool.value.0 in s.lib.open then [pool.value.0] else []
  }

  // How far dropping has got: the records stand, and each kind is closed once
  // its cleaner has run.
  ghost predicate Dropping(s: State, t: State, walletDone: bool, poolDone: bool) {
    && t.ctx == s.ctx && t.lib.nextHandle == s.lib.nextHandle
    && t.lib.open == s.lib.open
         - (set h | h in LiveWallet(s) && walletDone) - (set h | h in LivePool(s) && poolDone)
    && multiset(t.lib.closed) == multiset(s.lib.closed)
         + (if walletDone then multiset(LiveWallet(s)) else multiset{})
         + (if poolDone then multiset(LivePool(s)) else multiset{})
  }

  lemma WalletCleanupStep(s: State, t: State, poolDone: bool)
    requires Inv(s) && Dropping(s, t, false, poolDone)
    ensures Dropping(s, Cleanup(t, WalletCleanup, Closes), true, poolDone)
  {
    if OpenedWallet(s.ctx).Some? {
      SetOpenedWalletFrame(s.ctx, OpenedWallet(s.ctx));
    }
  }

  lemma PoolCleanupStep(s: State, t: State, walletDone: bool)
    requires Inv(s) && Dropping(s, t, walletDone, false)
    ensures Dropping(s, Cleanup(t, PoolCleanup, Closes), walletDone, true)
  {
    if ConnectedPool(s.ctx).Some? {
      SetConnectedPoolFrame(s.ctx, ConnectedPool(s.ctx));
    }
  }

  predicate AtMostOnce(order: seq<Cleaner>, c: Cleaner) {
    forall i, j :: 0 <= i < j < |order| && order[i] == c ==> order[j] != c
  }

  lemma AtMostOnceInit(order: seq<Cleaner>, c: Cleaner)
    requires order != [] && AtMostOnce(order, c)
    ensures var k := |order| - 1;
            && AtMostOnce(order[..k], c)
            && (c in order <==> c in order[..k] || order[k] == c)
            && (order[k] == c ==> c !in order[..k])
  {
    var k := |order| - 1;
    assert order == order[..k] + [order[k]];
  }

  lemma NothingDropped(s: State)
    ensures Dropping(s, s, false, false)
  {
    var none := set h | h in LiveWallet(s) && false;
    assert none == {} && s.lib.open - none - none == s.lib.open;
  }

  lemma {:induction false} DropProgress(s: State, order: seq<Cleaner>)
    requires Inv(s) && AtMostOnce(order, WalletCleanup) && AtMostOnce(order, PoolCleanup)
    ensures Dropping(s, DropAll(s, order), WalletCleanup in order, PoolCleanup in order)
  {
    if order == [] {
      NothingDropped(s);
    } else {
      var k := |order| - 1;
      var t := DropAll(s, order[..k]);
      AtMostOnceInit(order, WalletCleanup);
      AtMostOnceInit(order, PoolCleanup);
      DropProgress(s, order[..k]);
      if order[k] == WalletCleanup {
        WalletCleanupStep(s, t, PoolCleanup in order[..k]);
      } else if order[k] == PoolCleanup {
        PoolCleanupStep(s, t, WalletCleanup in order[..k]);
      }
    }
  }

  lemma OnceIsAtMostOnce(order: seq<Cleaner>, c: Cleaner)
    requires Once(order, c)
    ensures AtMostOnce(order, c) && c in order
  {
  }

  // What is open is what the records show live, and nothing open was closed.
  lemma LiveIsRecorded(s: State)
    requires Inv(s)
    ensures forall h :: h in s.lib.open <==> h in LiveWallet(s) || h in LivePool(s)
    ensures forall h :: h in LiveWallet(s) ==> h !in LivePool(s)
    ensures forall h :: h in s.lib.open ==> h !in s.lib.closed
  {
  }

  lemma DroppedAll(s: State, d: State)
    requires Inv(s) && Dropping(s, d, true, true)
    ensures d.lib.open == map[]
    ensures forall h :: multiset(d.lib.closed)[h] == multiset(s.lib.closed)[h] + if h in s.lib.open then 1 else 0
  {
    LiveIsRecorded(s);
    assert forall h :: h in d.lib.open ==> h !in LiveWallet(s) && h !in LivePool(s);
    forall h
      ensures multiset(LiveWallet(s))[h] + multiset(LivePool(s))[h] == if h in s.lib.open then 1 else 0
    {
    }
  }

  // With closes that succeed, dropping leaves nothing open and closes each live
  // handle exactly once, whatever the order of the commands.
  lemma DropClosesEachOnce(s: State, cs: seq<Command>, order: seq<Cleaner>)
    requires Init(s) && Once(order, WalletCleanup) && Once(order, PoolCleanup)
    ensures var t, d := DoAll(s, cs), DropAll(DoAll(s, cs), order);
            && d.lib.open == map[]
            && (forall h :: h in t.lib.open ==> multiset(d.lib.closed)[h] == 1)
            && (forall h :: h !in t.lib.open ==> multiset(d.lib.closed)[h] == multiset(t.lib.closed)[h])
  {
    var t := DoAll(s, cs);
    SessionKeepsInv(s, cs);
    OnceIsAtMostOnce(order, WalletCleanup);
    OnceIsAtMostOnce(order, PoolCleanup);
    DropProgress(t, order);
    LiveIsRecorded(t);
    DroppedAll(t, DropAll(t, order));
  }
}
