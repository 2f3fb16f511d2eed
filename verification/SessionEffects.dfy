// What each session command does, told from outside: when it succeeds, what is
// then recorded, prompted and open, and what it leaves alone.
module SessionEffects {
  import opened Options
  import opened SessionState
  import opened SessionRuns

  // What the user sees of a context: the recorded names and the prompt texts.
  ghost predicate Shows(c: Context, wallet: Option<(int, string)>, pool: Option<(int, string)>, did: Option<string>) {
    && OpenedWallet(c) == wallet && ConnectedPool(c) == pool && ActiveDid(c) == did
    && (if wallet.Some? then 2 in c.subPrompts && c.subPrompts[2] == "wallet(" + wallet.value.1 + ")"
        else 2 !in c.subPrompts)
    && (if pool.Some? then 1 in c.subPrompts && c.subPrompts[1] == "pool(" + pool.value.1 + ")"
        else 1 !in c.subPrompts)
    && (if did.Some? && |did.value| >= 3 then
          3 in c.subPrompts
          && c.subPrompts[3] == "did(" + did.value[..3] + "..." + did.value[|did.value| - 3..] + ")"
        else 3 !in c.subPrompts)
  }

  lemma AgreementShows(c: Context)
    requires Agreement(c)
    ensures Shows(c, OpenedWallet(c), ConnectedPool(c), ActiveDid(c))
  {
  }

  // Whether a recorded handle can be closed now, and what is left of the
  // library then: the handle is noted as closed and no longer open.
  predicate Closable(l: Library, recorded: Option<(int, string)>, how: CloseResult) {
    recorded.None? || (recorded.value.0 in l.open && how.Closes?)
  }

  ghost predicate Released(l: Library, m: Library, recorded: Option<(int, string)>) {
    && m.closed == l.closed + (if recorded.Some? then [recorded.value.0] else [])
    && (forall h :: h in l.open && (recorded.None? || h != recorded.value.0) ==> h in m.open && m.open[h] == l.open[h])
    && (recorded.Some? ==> recorded.value.0 !in m.open)
  }

  lemma RecordedKind(l: Library, kind: Kind, recorded: Option<(int, string)>)
    requires Exact(l, kind, recorded)
    ensures recorded.Some? && recorded.value.0 in l.open ==> l.open[recorded.value.0].0 == kind
  {
  }

  // `wallet open` drops the active DID in any case. It succeeds exactly if no
  // wallet is recorded or that one can be closed, and the new one opens; then
  // the new wallet is the recorded one, under a new handle. If only the close
  // succeeds no wallet is recorded, else the old one still is.
  lemma WalletOpenEffect(s: State, name: string, how: CloseResult, opens: bool)
    requires Inv(s)
    ensures var (t, ok) := OpenWallet(s, name, how, opens);
            var old', h := OpenedWallet(s.ctx), s.lib.nextHandle;
            && (ok <==> Closable(s.lib, old', how) && opens)
            && (ok ==> Shows(t.ctx, Some((h, name)), ConnectedPool(s.ctx), None) && h !in s.lib.open
                       && LiveHandles(t.lib, Wallet) == {h} && t.lib.open[h].1 == name)
            && (Closable(s.lib, old', how) ==> Released(s.lib, t.lib, old'))
            && (Closable(s.lib, old', how) && !opens ==> Shows(t.ctx, None, ConnectedPool(s.ctx), None))
            && (!Closable(s.lib, old', how) ==>
                  Shows(t.ctx, old', ConnectedPool(s.ctx), None) && t.lib.closed == s.lib.closed)
  {
    var (t, ok) := OpenWallet(s, name, how, opens);
    OpenWalletKeepsInv(s, name, how, opens);
    SetActiveDidFrame(s.ctx, None);
    var ctx := SetActiveDid(s.ctx, None);
    SetOpenedWalletFrame(ctx, Some((s.lib.nextHandle, name)));
    SetOpenedWalletFrame(ctx, None);
    RecordedKind(s.lib, Wallet, OpenedWallet(s.ctx));
    AgreementShows(t.ctx);
    ExactMeans(t.lib, Wallet, OpenedWallet(t.ctx));
  }

  // `wallet close` succeeds exactly if a wallet is recorded and can be closed;
  // then neither a wallet nor a DID is left. Else nothing recorded changes.
  lemma WalletCloseEffect(s: State, how: CloseResult)
    requires Inv(s)
    ensures var (t, ok) := CloseWallet(s, how);
            && (ok <==> OpenedWallet(s.ctx).Some? && Closable(s.lib, OpenedWallet(s.ctx), how))
            && (ok ==> Shows(t.ctx, None, ConnectedPool(s.ctx), None) && Released(s.lib, t.lib, OpenedWallet(s.ctx))
                       && LiveHandles(t.lib, Wallet) == {})
            && (!ok ==> t.ctx == s.ctx && t.lib.closed == s.lib.closed)
  {
    var (t, ok) := CloseWallet(s, how);
    CloseWalletKeepsInv(s, how);
    SetOpenedWalletFrame(s.ctx, None);
    SetActiveDidFrame(SetOpenedWallet(s.ctx, None), None);
    RecordedKind(s.lib, Wallet, OpenedWallet(s.ctx));
    AgreementShows(t.ctx);
    ExactMeans(t.lib, Wallet, OpenedWallet(t.ctx));
  }

  // `pool connect`, likewise; it leaves wallet and DID alone.
  lemma PoolConnectEffect(s: State, name: string, how: CloseResult, versionOk: bool, opens: bool)
    requires Inv(s)
    ensures var (t, ok) := ConnectPool(s, name, how, versionOk, opens);
            var old', h := ConnectedPool(s.ctx), s.lib.nextHandle;
            var wallet, did := OpenedWallet(s.ctx), ActiveDid(s.ctx);
            && (ok <==> Closable(s.lib, old', how) && versionOk && opens)
            && (ok ==> Shows(t.ctx, wallet, Some((h, name)), did) && h !in s.lib.open
                       && LiveHandles(t.lib, Pool) == {h} && t.lib.open[h].1 == name)
            && (Closable(s.lib, old', how) ==> Released(s.lib, t.lib, old'))
            && (Closable(s.lib, old', how) && !ok ==> Shows(t.ctx, wallet, None, did))
            && (!Closable(s.lib, old', how) ==> t.ctx == s.ctx && t.lib.closed == s.lib.closed)
  {
    var (t, ok) := ConnectPool(s, name, how, versionOk, opens);
    ConnectPoolKeepsInv(s, name, how, versionOk, opens);
    SetConnectedPoolFrame(s.ctx, None);
    var ctx := if ConnectedPool(s.ctx).Some? then SetConnectedPool(s.ctx, None) else s.ctx;
    SetConnectedPoolFrame(ctx, Some((s.lib.nextHandle, name)));
    RecordedKind(s.lib, Pool, ConnectedPool(s.ctx));
    AgreementShows(t.ctx);
    ExactMeans(t.lib, Pool, ConnectedPool(t.ctx));
  }

  lemma PoolDisconnectEffect(s: State, how: CloseResult)
    requires Inv(s)
    ensures var (t, ok) := DisconnectPool(s, how);
            && (ok <==> ConnectedPool(s.ctx).Some? && Closable(s.lib, ConnectedPool(s.ctx), how))
            && (ok ==> Shows(t.ctx, OpenedWallet(s.ctx), None, ActiveDid(s.ctx))
                       && Released(s.lib, t.lib, ConnectedPool(s.ctx)) && LiveHandles(t.lib, Pool) == {})
            && (!ok ==> t.ctx == s.ctx && t.lib.closed == s.lib.closed)
  {
    var (t, ok) := DisconnectPool(s, how);
    DisconnectPoolKeepsInv(s, how);
    SetConnectedPoolFrame(s.ctx, None);
    RecordedKind(s.lib, Pool, ConnectedPool(s.ctx));
    AgreementShows(t.ctx);
    ExactMeans(t.lib, Pool, ConnectedPool(t.ctx));
  }

  // `did use` succeeds exactly if a wallet is recorded, its handle is live, and
  // the wallet knows the DID; then that DID is active, looked up there. A DID
  // the wallet does not know, or one without a wallet, changes nothing.
  lemma DidUseEffect(s: State, did: DidText, known: bool)
    requires Inv(s)
    ensures var (t, ok) := UseDid(s, did, known);
            var wallet := OpenedWallet(s.ctx);
            && (ok <==> known && wallet.Some? && wallet.value.0 in s.lib.open)
            && (ok ==> Shows(t.ctx, wallet, ConnectedPool(s.ctx), Some(did)) && t.checkedIn == Some(wallet.value.0))
            && (ok ==> t.lib == s.lib)
            && (!ok ==> t == s)
  {
    var (t, ok) := UseDid(s, did, known);
    UseDidKeepsInv(s, did, known);
    SetActiveDidFrame(s.ctx, Some(did));
    RecordedKind(s.lib, Wallet, OpenedWallet(s.ctx));
    AgreementShows(t.ctx);
  }

  // Refused parameters change nothing.
  lemma RefusedChangesNothing(s: State, name: string, how: CloseResult, versionOk: bool, opens: bool)
    ensures Do(s, WalletOpen(name, false, how, opens)) == (s, false)
    ensures Do(s, PoolConnect(name, false, how, versionOk, opens)) == (s, false)
  {
  }
}
