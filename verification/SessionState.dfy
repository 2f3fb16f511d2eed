// The CLI session: what the command context records about the opened wallet,
// the connected pool and the active DID, beside what the library really holds.
module SessionState {
  import opened Options

  type DidText = s: string | |s| >= 3 witness "did"

  datatype Context = Context(
    intValues: map<string, int>,
    stringValues: map<string, string>,
    subPrompts: map<nat, string>)

  function SetInt(c: Context, key: string, value: Option<int>): Context {
    c.(intValues := if value.Some? then c.intValues[key := value.value] else c.intValues - {key})
  }

  function SetString(c: Context, key: string, value: Option<string>): Context {
    c.(stringValues := if value.Some? then c.stringValues[key := value.value] else c.stringValues - {key})
  }

  function SetPrompt(c: Context, pos: nat, value: Option<string>): Context {
    c.(subPrompts := if value.Some? then c.subPrompts[pos := value.value] else c.subPrompts - {pos})
  }

  const WALLET_HANDLE := "OPENED_WALLET_HANDLE"
  const WALLET_NAME := "OPENED_WALLET_NAME"
  const POOL_HANDLE := "CONNECTED_POOL_HANDLE"
  const POOL_NAME := "CONNECTED_POOL_NAME"
  const ACTIVE_DID := "ACTIVE_DID"

  function OpenedWallet(c: Context): Option<(int, string)> {
    if WALLET_HANDLE in c.intValues && WALLET_NAME in c.stringValues
    then Some((c.intValues[WALLET_HANDLE], c.stringValues[WALLET_NAME])) else None
  }

  function ConnectedPool(c: Context): Option<(int, string)> {
    if POOL_HANDLE in c.intValues && POOL_NAME in c.stringValues
    then Some((c.intValues[POOL_HANDLE], c.stringValues[POOL_NAME])) else None
  }

  function ActiveDid(c: Context): Option<string> {
    if ACTIVE_DID in c.stringValues then Some(c.stringValues[ACTIVE_DID]) else None
  }

  function Handle(v: Option<(int, string)>): Option<int> { if v.Some? then Some(v.value.0) else None }

  function Name(v: Option<(int, string)>): Option<string> { if v.Some? then Some(v.value.1) else None }

  function WalletPrompt(name: string): string { "wallet(" + name + ")" }

  function PoolPrompt(name: string): string { "pool(" + name + ")" }

  function DidPrompt(did: DidText): string { "did(" + did[..3] + "..." + did[|did| - 3..] + ")" }

  function SetOpenedWallet(c: Context, v: Option<(int, string)>): Context {
    SetPrompt(SetString(SetInt(c, WALLET_HANDLE, Handle(v)), WALLET_NAME, Name(v)),
              2, if v.Some? then Some(WalletPrompt(v.value.1)) else None)
  }

  function SetConnectedPool(c: Context, v: Option<(int, string)>): Context {
    SetPrompt(SetString(SetInt(c, POOL_HANDLE, Handle(v)), POOL_NAME, Name(v)),
              1, if v.Some? then Some(PoolPrompt(v.value.1)) else None)
  }

  function SetActiveDid(c: Context, did: Option<DidText>): Context {
    SetPrompt(SetString(c, ACTIVE_DID, did), 3, if did.Some? then Some(DidPrompt(did.value)) else None)
  }

  // ---- the library ----

  datatype Kind = Wallet | Pool

  // How a close of an open handle ends. The services remove the handle before
  // the step that can fail, so a failed close may leave nothing open.
  datatype CloseResult = Closes | RefusedStillOpen | FailedAfterRemoval

  datatype Library = Library(
    open: map<int, (Kind, string)>,   // the live handles
    nextHandle: int,
    closed: seq<int>,                 // handles released by a successful close, in order
    lost: set<int>)                   // handles removed by a failed close

  function CloseHandle(l: Library, h: int, kind: Kind, how: CloseResult): (Library, bool) {
    if h !in l.open || l.open[h].0 != kind then (l, false)
    else
      match how
      case Closes => (l.(open := l.open - {h}, closed := l.closed + [h]), true)
      case RefusedStillOpen => (l, false)
      case FailedAfterRemoval => (l.(open := l.open - {h}, lost := l.lost + {h}), false)
  }

  function OpenHandle(l: Library, kind: Kind, name: string): Library {
    l.(open := l.open[l.nextHandle := (kind, name)], nextHandle := l.nextHandle + 1)
  }

  // ---- the commands ----

  // checkedIn: the wallet handle against which the active DID was looked up.
  datatype State = State(ctx: Context, lib: Library, checkedIn: Option<int>)

  datatype Command =
    // accepted: parameters and wallet config could be read
    | WalletOpen(name: string, accepted: bool, how: CloseResult, opens: bool)
    | WalletClose(how: CloseResult)
    | PoolConnect(name: string, accepted: bool, how: CloseResult, versionOk: bool, opens: bool)
    | PoolDisconnect(how: CloseResult)
    | DidUse(did: DidText, known: bool)

  function OpenWallet(s: State, name: string, how: CloseResult, opens: bool): (State, bool) {
    var ctx := SetActiveDid(s.ctx, None);
    var recorded := OpenedWallet(ctx);
    var (lib, closed) := if recorded.Some? then CloseHandle(s.lib, recorded.value.0, Wallet, how) else (s.lib, true);
    if !closed then (State(ctx, lib, s.checkedIn), false)
    else if opens then
      (State(SetOpenedWallet(ctx, Some((lib.nextHandle, name))), OpenHandle(lib, Wallet, name), s.checkedIn), true)
    else (State(SetOpenedWallet(ctx, None), lib, s.checkedIn), false)
  }

  function CloseWallet(s: State, how: CloseResult): (State, bool) {
    match OpenedWallet(s.ctx)
    case None => (s, false)
    case Some((h, _)) =>
      var (lib, closed) := CloseHandle(s.lib, h, Wallet, how);
      if closed then (State(SetActiveDid(SetOpenedWallet(s.ctx, None), None), lib, s.checkedIn), true)
      else (s.(lib := lib), false)
  }

  function ConnectPool(s: State, name: string, how: CloseResult, versionOk: bool, opens: bool): (State, bool) {
    var connected := ConnectedPool(s.ctx);
    var (lib, closed) := if connected.Some? then CloseHandle(s.lib, connected.value.0, Pool, how) else (s.lib, true);
    if !closed then (s.(lib := lib), false)
    else
      var ctx := if connected.Some? then SetConnectedPool(s.ctx, None) else s.ctx;
      if versionOk && opens then
        (s.(ctx := SetConnectedPool(ctx, Some((lib.nextHandle, name))), lib := OpenHandle(lib, Pool, name)), true)
      else (s.(ctx := ctx, lib := lib), false)
  }

  function DisconnectPool(s: State, how: CloseResult): (State, bool) {
    match ConnectedPool(s.ctx)
    case None => (s, false)
    case Some((h, _)) =>
      var (lib, closed) := CloseHandle(s.lib, h, Pool, how);
      if closed then (s.(ctx := SetConnectedPool(s.ctx, None), lib := lib), true)
      else (s.(lib := lib), false)
  }

  // The library finds a DID only through a live wallet handle.
  function UseDid(s: State, did: DidText, known: bool): (State, bool) {
    if WALLET_HANDLE !in s.ctx.intValues then (s, false)
    else
      var h := s.ctx.intValues[WALLET_HANDLE];
      if known && h in s.lib.open && s.lib.open[h].0.Wallet?
      then (s.(ctx := SetActiveDid(s.ctx, Some(did)), checkedIn := Some(h)), true)
      else (s, false)
  }

  function Do(s: State, c: Command): (State, bool) {
    match c
    case WalletOpen(name, accepted, how, opens) => if accepted then OpenWallet(s, name, how, opens) else (s, false)
    case WalletClose(how) => CloseWallet(s, how)
    case PoolConnect(name, accepted, how, versionOk, opens) =>
      if accepted then ConnectPool(s, name, how, versionOk, opens) else (s, false)
    case PoolDisconnect(how) => DisconnectPool(s, how)
    case DidUse(did, known) => UseDid(s, did, known)
  }

  function DoAll(s: State, cs: seq<Command>): State {
    if cs == [] then s else Do(DoAll(s, cs[..|cs| - 1]), cs[|cs| - 1]).0
  }

  ghost predicate Init(s: State) {
    && s.ctx == Context(map[], map[], map[])
    && s.lib.open == map[] && s.lib.closed == [] && s.lib.lost == {}
    && s.checkedIn == None
  }

  // ---- the invariant ----

  // Handle, name and prompt are there together and say the same.
  ghost predicate Agreement(c: Context) {
    && (WALLET_HANDLE in c.intValues <==> WALLET_NAME in c.stringValues)
    && (2 in c.subPrompts <==> WALLET_NAME in c.stringValues)
    && (2 in c.subPrompts ==> c.subPrompts[2] == WalletPrompt(c.stringValues[WALLET_NAME]))
    && (POOL_HANDLE in c.intValues <==> POOL_NAME in c.stringValues)
    && (1 in c.subPrompts <==> POOL_NAME in c.stringValues)
    && (1 in c.subPrompts ==> c.subPrompts[1] == PoolPrompt(c.stringValues[POOL_NAME]))
    && (3 in c.subPrompts <==> ACTIVE_DID in c.stringValues)
    && (3 in c.subPrompts ==>
          |c.stringValues[ACTIVE_DID]| >= 3 && c.subPrompts[3] == DidPrompt(c.stringValues[ACTIVE_DID]))
  }

  // The live handle of one kind is the recorded one, unless a close lost it.
  ghost predicate Exact(l: Library, kind: Kind, recorded: Option<(int, string)>) {
    && (forall h :: h in l.open && l.open[h].0 == kind ==> recorded.Some? && recorded.value.0 == h)
    && (recorded.Some? ==>
          var (h, name) := recorded.value;
          && (h in l.lost <==> h !in l.open)
          && (h in l.open ==> l.open[h] == (kind, name))
          && h < l.nextHandle && h !in l.closed)
  }

  ghost predicate HandlesFresh(l: Library) {
    && (forall h :: h in l.open ==> h < l.nextHandle && h !in l.closed && h !in l.lost)
    && (forall h :: h in l.closed ==> h < l.nextHandle)
    && (forall h :: h in l.lost ==> h < l.nextHandle)
    && (forall i, j :: 0 <= i < j < |l.closed| ==> l.closed[i] != l.closed[j])
  }

  ghost predicate DidChecked(s: State) {
    ActiveDid(s.ctx).Some? ==> OpenedWallet(s.ctx).Some? && s.checkedIn == Handle(OpenedWallet(s.ctx))
  }

  ghost predicate Inv(s: State) {
    && Agreement(s.ctx) && HandlesFresh(s.lib) && DidChecked(s)
    && Exact(s.lib, Wallet, OpenedWallet(s.ctx)) && Exact(s.lib, Pool, ConnectedPool(s.ctx))
    && (OpenedWallet(s.ctx).Some? && ConnectedPool(s.ctx).Some? ==>
          OpenedWallet(s.ctx).value.0 != ConnectedPool(s.ctx).value.0)
  }

  lemma KeysDiffer()
    ensures |WALLET_HANDLE| == 20 && |WALLET_NAME| == 18 && |POOL_HANDLE| == 21 && |POOL_NAME| == 19
    ensures |ACTIVE_DID| == 10
  {
  }

  // What the setters change and what they leave alone.
  lemma SetOpenedWalletFrame(c: Context, v: Option<(int, string)>)
    requires Agreement(c)
    ensures var d := SetOpenedWallet(c, v);
            Agreement(d) && OpenedWallet(d) == v && ConnectedPool(d) == ConnectedPool(c) && ActiveDid(d) == ActiveDid(c)
    ensures v == OpenedWallet(c) ==> SetOpenedWallet(c, v) == c
  {
    KeysDiffer();
  }

  lemma SetConnectedPoolFrame(c: Context, v: Option<(int, string)>)
    requires Agreement(c)
    ensures var d := SetConnectedPool(c, v);
            Agreement(d) && ConnectedPool(d) == v && OpenedWallet(d) == OpenedWallet(c) && ActiveDid(d) == ActiveDid(c)
    ensures v == ConnectedPool(c) ==> SetConnectedPool(c, v) == c
  {
    KeysDiffer();
  }

  lemma SetActiveDidFrame(c: Context, did: Option<DidText>)
    requires Agreement(c)
    ensures var d := SetActiveDid(c, did);
            && Agreement(d) && ActiveDid(d) == did
            && OpenedWallet(d) == OpenedWallet(c) && ConnectedPool(d) == ConnectedPool(c)
  {
    KeysDiffer();
  }
}
