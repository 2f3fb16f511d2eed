// The session commands as they run: the command context and the library are
// two objects updated in place. Each command is tied to the function of
// SessionState that describes it.
module SessionCommands {
  import opened Options
  import opened SessionState
  import opened SessionRuns

  class CommandContext {
    var intValues: map<string, int>
    var stringValues: map<string, string>
    var subPrompts: map<nat, string>

    function View(): Context
      reads this
    {
      Context(intValues, stringValues, subPrompts)
    }

    constructor ()
      ensures View() == Context(map[], map[], map[])
    {
      intValues, stringValues, subPrompts := map[], map[], map[];
    }

    method SetIntValue(key: string, value: Option<int>)
      modifies this`intValues
      ensures View() == SetInt(old(View()), key, value)
    {
      if value.Some? {
        intValues := intValues[key := value.value];
      } else {
        intValues := intValues - {key};
      }
    }

    method SetStringValue(key: string, value: Option<string>)
      modifies this`stringValues
      ensures View() == SetString(old(View()), key, value)
    {
      if value.Some? {
        stringValues := stringValues[key := value.value];
      } else {
        stringValues := stringValues - {key};
      }
    }

    method SetSubPrompt(pos: nat, value: Option<string>)
      modifies this`subPrompts
      ensures View() == SetPrompt(old(View()), pos, value)
    {
      if value.Some? {
        subPrompts := subPrompts[pos := value.value];
      } else {
        subPrompts := subPrompts - {pos};
      }
    }

    method RecordWallet(v: Option<(int, string)>)
      modifies this
      ensures View() == SetOpenedWallet(old(View()), v)
    {
      SetIntValue(WALLET_HANDLE, Handle(v));
      SetStringValue(WALLET_NAME, Name(v));
      SetSubPrompt(2, if v.Some? then Some(WalletPrompt(v.value.1)) else None);
    }

    method RecordPool(v: Option<(int, string)>)
      modifies this
      ensures View() == SetConnectedPool(old(View()), v)
    {
      SetIntValue(POOL_HANDLE, Handle(v));
      SetStringValue(POOL_NAME, Name(v));
      SetSubPrompt(1, if v.Some? then Some(PoolPrompt(v.value.1)) else None);
    }

    method RecordDid(did: Option<DidText>)
      modifies this
      ensures View() == SetActiveDid(old(View()), did)
    {
      SetStringValue(ACTIVE_DID, did);
      SetSubPrompt(3, if did.Some? then Some(DidPrompt(did.value)) else None);
    }
  }

  class Indy {
    var open: map<int, (Kind, string)>
    var nextHandle: int
    var closed: seq<int>
    var lost: set<int>

    function View(): Library
      reads this
    {
      Library(open, nextHandle, closed, lost)
    }

    constructor (firstHandle: int)
      ensures View() == Library(map[], firstHandle, [], {})
    {
      open, nextHandle, closed, lost := map[], firstHandle, [], {};
    }

    method Close(h: int, kind: Kind, how: CloseResult) returns (ok: bool)
      modifies this
      ensures (View(), ok) == CloseHandle(old(View()), h, kind, how)
    {
      if h !in open || open[h].0 != kind || how.RefusedStillOpen? {
        return false;
      }
      open := open - {h};
      ok := how.Closes?;
      if ok {
        closed := closed + [h];
      } else {
        lost := lost + {h};
      }
    }

    method Open(kind: Kind, name: string) returns (h: int)
      modifies this
      ensures h == old(nextHandle) && View() == OpenHandle(old(View()), kind, name)
    {
      h := nextHandle;
      open, nextHandle := open[h := (kind, name)], nextHandle + 1;
    }
  }

  class Session {
    const ctx: CommandContext
    const lib: Indy
    ghost var checkedIn: Option<int>

    ghost function View(): State
      reads this, ctx, lib
    {
      State(ctx.View(), lib.View(), checkedIn)
    }

    constructor (firstHandle: int)
      ensures fresh(ctx) && fresh(lib) && Init(View())
    {
      ctx := new CommandContext();
      lib := new Indy(firstHandle);
      checkedIn := None;
    }

    method WalletOpenCommand(name: string, how: CloseResult, opens: bool) returns (ok: bool)
      modifies ctx, lib
      ensures (View(), ok) == OpenWallet(old(View()), name, how, opens)
      ensures old(Inv(View())) ==> Inv(View())
    {
      ghost var s := View();
      ctx.RecordDid(None);
      var recorded := OpenedWallet(ctx.View());
      if recorded.Some? {
        var closed := lib.Close(recorded.value.0, Wallet, how);
        if !closed {
          if Inv(s) { OpenWalletKeepsInv(s, name, how, opens); }
          return false;
        }
      }
      if opens {
        var handle := lib.Open(Wallet, name);
        ctx.RecordWallet(Some((handle, name)));
      } else {
        ctx.RecordWallet(None);
      }
      ok := opens;
      if Inv(s) { OpenWalletKeepsInv(s, name, how, opens); }
    }

    method WalletCloseCommand(how: CloseResult) returns (ok: bool)
      modifies ctx, lib
      ensures (View(), ok) == CloseWallet(old(View()), how)
      ensures old(Inv(View())) ==> Inv(View())
    {
      ghost var s := View();
      var recorded := OpenedWallet(ctx.View());
      ok := false;
      if recorded.Some? {
        ok := lib.Close(recorded.value.0, Wallet, how);
        if ok {
          ctx.RecordWallet(None);
          ctx.RecordDid(None);
        }
      }
      if Inv(s) { CloseWalletKeepsInv(s, how); }
    }

    method PoolConnectCommand(name: string, how: CloseResult, versionOk: bool, opens: bool) returns (ok: bool)
      modifies ctx, lib
      ensures (View(), ok) == ConnectPool(old(View()), name, how, versionOk, opens)
      ensures old(Inv(View())) ==> Inv(View())
    {
      ghost var s := View();
      var recorded := ConnectedPool(ctx.View());
      ok := true;
      if recorded.Some? {
        ok := lib.Close(recorded.value.0, Pool, how);
        if ok {
          ctx.RecordPool(None);
        }
      }
      if ok && versionOk && opens {
        var handle := lib.Open(Pool, name);
        ctx.RecordPool(Some((handle, name)));
      } else {
        ok := false;
      }
      if Inv(s) { ConnectPoolKeepsInv(s, name, how, versionOk, opens); }
    }

    method PoolDisconnectCommand(how: CloseResult) returns (ok: bool)
      modifies ctx, lib
      ensures (View(), ok) == DisconnectPool(old(View()), how)
      ensures old(Inv(View())) ==> Inv(View())
    {
      ghost var s := View();
      var recorded := ConnectedPool(ctx.View());
      ok := false;
      if recorded.Some? {
        ok := lib.Close(recorded.value.0, Pool, how);
        if ok {
          ctx.RecordPool(None);
        }
      }
      if Inv(s) { DisconnectPoolKeepsInv(s, how); }
    }

    method DidUseCommand(did: DidText, known: bool) returns (ok: bool)
      modifies ctx, this`checkedIn
      ensures (View(), ok) == UseDid(old(View()), did, known)
      ensures old(Inv(View())) ==> Inv(View())
    {
      ghost var s := View();
      ok := false;
      if WALLET_HANDLE in ctx.intValues {
        var h := ctx.intValues[WALLET_HANDLE];
        ok := known && h in lib.open && lib.open[h].0.Wallet?;
        if ok {
          ctx.RecordDid(Some(did));
          checkedIn := Some(h);
        }
      }
      if Inv(s) { UseDidKeepsInv(s, did, known); }
    }

    method RunCleanup(c: Cleaner, how: CloseResult)
      modifies ctx, lib
      ensures View() == Cleanup(old(View()), c, how)
    {
      if c.WalletCleanup? {
        var recorded := OpenedWallet(ctx.View());
        if recorded.Some? {
          var ok := lib.Close(recorded.value.0, Wallet, how);
          if ok {
            ctx.RecordWallet(recorded);
          }
        }
      } else if c.PoolCleanup? {
        var recorded := ConnectedPool(ctx.View());
        if recorded.Some? {
          var ok := lib.Close(recorded.value.0, Pool, how);
          if ok {
            ctx.RecordPool(recorded);
          }
        }
      }
    }

    // Dropping the executor: every registered command in the order its map yields.
    method Drop(order: seq<Cleaner>)
      modifies ctx, lib
      ensures View() == DropAll(old(View()), order)
    {
      for i := 0 to |order|
        invariant View() == DropAll(old(View()), order[..i])
      {
        assert order[..i + 1][..i] == order[..i];
        RunCleanup(order[i], Closes);
      }
      assert order[..|order|] == order;
    }
  }
}
