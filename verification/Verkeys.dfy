// Verification keys and the two ways a verkey is written down: in full, or
// abbreviated to its second half when the DID is its first half.
module Verkeys {
  import opened Options

  newtype byte = x: int | 0 <= x < 256

  const ZERO_KEY: seq<byte> := [0, 0, 0, 0, 0, 0, 0, 0, 0, 0, 0, 0, 0, 0, 0, 0,
                                0, 0, 0, 0, 0, 0, 0, 0, 0, 0, 0, 0, 0, 0, 0, 0]

  type Verkey = k: seq<byte> | |k| == 32 witness ZERO_KEY

  // A DID is 16 bytes, or 32 for a DID that is a whole key.
  type Did = d: seq<byte> | |d| == 16 || |d| == 32 witness ZERO_KEY

  // Base58 text, decoded: Short is the text that starts with a tilde.
  datatype Written = Full(key: Verkey) | Short(tail: seq<byte>)

  // An abbreviated text is refused: the tilde is no base58 character.
  function Abbreviate(did: Did, w: Written): Option<Written> {
    match w
    case Full(key) => Some(if key[..16] == did then Short(key[16..]) else Full(key))
    case Short(_) => None
  }

  // The key that a written verkey of the DID stands for.
  function Expand(did: Did, w: Written): Option<Verkey> {
    match w
    case Full(key) => Some(key)
    case Short(tail) => if |did| == 16 && |tail| == 16 then Some(did + tail) else None
  }

  // Abbreviating loses nothing, so two keys of one DID never share a text.
  lemma AbbreviateKeepsKey(did: Did, key: Verkey)
    ensures Expand(did, Abbreviate(did, Full(key)).value) == Some(key)
  {
    assert key == key[..16] + key[16..];
  }

  // The comparison that resume makes: abbreviate the wallet key exactly when
  // the ledger shows an abbreviated one.
  function InFormOf(did: Did, shown: Written, key: Verkey): Written {
    if shown.Short? then Abbreviate(did, Full(key)).value else Full(key)
  }

  // It decides equality of keys, whichever form the ledger shows.
  lemma ComparisonIsExact(did: Did, shown: Written, onLedger: Verkey, key: Verkey)
    requires Expand(did, shown) == Some(onLedger)
    ensures shown == InFormOf(did, shown, key) <==> key == onLedger
    ensures Expand(did, InFormOf(did, shown, key)) == Some(key)
  {
    AbbreviateKeepsKey(did, key);
    if shown.Short? && key == onLedger {
      assert key[..16] == did;
      assert key[16..] == shown.tail;
    }
  }
}
