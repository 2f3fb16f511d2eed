// Nodes of a Patricia Merkle trie: how a received node is decoded, how it is
// encoded again before it is hashed, and how the path it stores is read.
module TrieNodes {
  import opened Options
  import Verkeys

  type byte = Verkeys.byte
  type Bytes = seq<byte>
  type nibble = n: nat | n < 16

  // What RLP writes down: texts of bytes, and lists.
  datatype Item = Data(bytes: Bytes) | List(items: seq<Item>)

  datatype Node =
    | Leaf(path: Bytes, value: Bytes)
    | Extension(path: Bytes, next: Node)
    | Full(children: seq<Option<Node>>, held: Option<Bytes>)
    | Hash(hash: Bytes)

  const RADIX: nat := 16
  const FULL_SIZE: nat := RADIX + 1
  const PAIR_SIZE: nat := 2
  const HASH_SIZE: nat := 32

  function High(b: byte): nibble { b as nat / 16 }

  function Low(b: byte): nibble { b as nat % 16 }

  // The bits 0x20 and 0x10 of the first byte of a path, which are the two lowest
  // of its high nibble.
  predicate LeafFlag(flags: byte) { High(flags) % 4 >= 2 }

  predicate OddFlag(flags: byte) { High(flags) % 2 == 1 }

  // ---- encoding and decoding ----

  function EncodeNode(n: Node): Item {
    match n
    case Hash(hash) => Data(hash)
    case Leaf(path, value) => List([Data(path), Data(value)])
    case Extension(path, next) => List([Data(path), EncodeNode(next)])
    case Full(children, held) =>
      List(seq(|children|, i requires 0 <= i < |children| =>
                 if children[i].None? then Data([]) else EncodeNode(children[i].value))
           + [Data(if held.None? then [] else held.value)])
  }

  // An empty path is indexed all the same, which panics.
  datatype Parse<T> = Parsed(value: T) | Malformed | Panicked

  function DecodeNode(item: Item): Parse<Node>
    decreases item, FULL_SIZE
  {
    if item.Data? then
      if |item.bytes| == HASH_SIZE then Parsed(Hash(item.bytes)) else Malformed
    else if |item.items| == PAIR_SIZE then DecodePair(item)
    else if |item.items| == FULL_SIZE then
      match DecodeChildren(item, RADIX)
      case Parsed(children) => DecodeHeld(children, item.items[RADIX])
      case Malformed => Malformed
      case Panicked => Panicked
    else Malformed
  }

  function DecodePair(item: Item): Parse<Node>
    requires item.List? && |item.items| == PAIR_SIZE
    decreases item, 0
  {
    var first, second := item.items[0], item.items[1];
    if first.List? then Malformed
    else if first.bytes == [] then Panicked
    else if LeafFlag(first.bytes[0]) then
      if second.Data? then Parsed(Leaf(first.bytes, second.bytes)) else Malformed
    else
      match DecodeNode(second)
      case Parsed(next) => Parsed(Extension(first.bytes, next))
      case Malformed => Malformed
      case Panicked => Panicked
  }

  function DecodeChild(item: Item): Parse<Option<Node>>
    decreases item, FULL_SIZE + 1
  {
    if item == Data([]) then Parsed(None)
    else
      match DecodeNode(item)
      case Parsed(n) => Parsed(Some(n))
      case Malformed => Malformed
      case Panicked => Panicked
  }

  // From left to right; the first slot that cannot be decoded decides.
  function DecodeChildren(item: Item, k: nat): (r: Parse<seq<Option<Node>>>)
    requires item.List? && k <= |item.items|
    ensures r.Parsed? ==> |r.value| == k
    decreases item, k
  {
    if k == 0 then Parsed([])
    else
      match DecodeChildren(item, k - 1)
      case Malformed => Malformed
      case Panicked => Panicked
      case Parsed(children) =>
        match DecodeChild(item.items[k - 1])
        case Parsed(child) => Parsed(children + [child])
        case Malformed => Malformed
        case Panicked => Panicked
  }

  // An empty list counts as no value too.
  function DecodeHeld(children: seq<Option<Node>>, item: Item): Parse<Node> {
    if item == Data([]) || item == List([]) then Parsed(Full(children, None))
    else if item.Data? then Parsed(Full(children, Some(item.bytes)))
    else Malformed
  }

  // The nodes that decoding can yield.
  predicate Decoded(n: Node) {
    match n
    case Hash(hash) => |hash| == HASH_SIZE
    case Leaf(path, _) => path != [] && LeafFlag(path[0])
    case Extension(path, next) => path != [] && !LeafFlag(path[0]) && Decoded(next)
    case Full(children, held) =>
      && |children| == RADIX && held != Some([])
      && forall i :: 0 <= i < RADIX && children[i].Some? ==> Decoded(children[i].value)
  }

  lemma {:induction false} DecodingYieldsDecoded(item: Item)
    ensures DecodeNode(item).Parsed? ==> Decoded(DecodeNode(item).value)
    decreases item, FULL_SIZE
  {
    if item.List? && |item.items| == PAIR_SIZE {
      DecodingYieldsDecoded(item.items[1]);
    } else if item.List? && |item.items| == FULL_SIZE {
      ChildrenAreDecoded(item, RADIX);
    }
  }

  lemma {:induction false} ChildrenAreDecoded(item: Item, k: nat)
    requires item.List? && k <= |item.items|
    ensures DecodeChildren(item, k).Parsed? ==>
      forall i :: 0 <= i < k && DecodeChildren(item, k).value[i].Some? ==>
        Decoded(DecodeChildren(item, k).value[i].value)
    decreases item, k
  {
    if k > 0 {
      ChildrenAreDecoded(item, k - 1);
      DecodingYieldsDecoded(item.items[k - 1]);
    }
  }

  lemma {:induction false} EncodedChildrenDecode(n: Node, k: nat)
    requires n.Full? && Decoded(n) && k <= RADIX
    ensures DecodeChildren(EncodeNode(n), k) == Parsed(n.children[..k])
    decreases n, k
  {
    if k > 0 {
      EncodedChildrenDecode(n, k - 1);
      var child := n.children[k - 1];
      assert n.children[..k] == n.children[..k - 1] + [child];
      if child.Some? {
        EncodedNodeDecodes(child.value);
        EncodingIsNotEmpty(child.value);
      }
    }
  }

  lemma EncodingIsNotEmpty(n: Node)
    requires Decoded(n)
    ensures EncodeNode(n) != Data([])
  {
  }

  // Decoding undoes encoding.
  lemma {:induction false} EncodedNodeDecodes(n: Node)
    requires Decoded(n)
    ensures DecodeNode(EncodeNode(n)) == Parsed(n)
    decreases n, FULL_SIZE
  {
    match n
    case Hash(_) =>
    case Leaf(_, _) =>
    case Extension(_, next) => EncodedNodeDecodes(next);
    case Full(children, _) =>
      EncodedChildrenDecode(n, RADIX);
      assert children[..RADIX] == children;
  }

  // So a node is one that decoding yields exactly if it comes back, and two of
  // them with one encoding, which is what is hashed, are one node.
  lemma DecodedIffItComesBack(n: Node)
    ensures Decoded(n) <==> DecodeNode(EncodeNode(n)) == Parsed(n)
  {
    DecodingYieldsDecoded(EncodeNode(n));
    if Decoded(n) {
      EncodedNodeDecodes(n);
    }
  }

  lemma EncodingIsInjective(n: Node, m: Node)
    requires Decoded(n) && Decoded(m) && EncodeNode(n) == EncodeNode(m)
    ensures n == m
  {
    EncodedNodeDecodes(n);
    EncodedNodeDecodes(m);
  }

  // ---- what else decoding makes of what was sent ----

  lemma {:induction false} ChildrenAreReadAlone(item: Item, other: Item, k: nat)
    requires item.List? && other.List? && k <= |item.items| && k <= |other.items|
    requires item.items[..k] == other.items[..k]
    ensures DecodeChildren(item, k) == DecodeChildren(other, k)
  {
    if k > 0 {
      assert item.items[k - 1] == item.items[..k][k - 1] && other.items[k - 1] == other.items[..k][k - 1];
      assert item.items[..k - 1] == item.items[..k][..k - 1] && other.items[..k - 1] == other.items[..k][..k - 1];
      ChildrenAreReadAlone(item, other, k - 1);
    }
  }

  // An empty list in the last place of a full node means no value, like an
  // empty text.
  lemma EmptyListIsNoValue(slots: seq<Item>)
    requires |slots| == RADIX
    ensures DecodeNode(List(slots + [List([])])) == DecodeNode(List(slots + [Data([])]))
  {
    ChildrenAreReadAlone(List(slots + [List([])]), List(slots + [Data([])]), RADIX);
  }

  // A pair with an empty path panics, whatever stands beside it; a text that is
  // no hash and a list of any other length are malformed.
  lemma WhatIsNoNode(item: Item)
    ensures item.Data? && |item.bytes| != HASH_SIZE ==> DecodeNode(item).Malformed?
    ensures item.List? && |item.items| !in {PAIR_SIZE, FULL_SIZE} ==> DecodeNode(item).Malformed?
    ensures item.List? && |item.items| == PAIR_SIZE && item.items[0] == Data([]) ==> DecodeNode(item).Panicked?
    ensures item.List? && |item.items| == PAIR_SIZE && item.items[0].List? ==> DecodeNode(item).Malformed?
  {
  }

  // ---- paths ----

  function Nibbles(path: Bytes): (ns: seq<nibble>)
    ensures |ns| == |path| + |path|
  {
    if path == [] then [] else Nibbles(path[..|path| - 1]) + [High(path[|path| - 1]), Low(path[|path| - 1])]
  }

  method PathToNibbles(path: Bytes) returns (nibblePath: seq<nibble>)
    ensures nibblePath == Nibbles(path)
  {
    nibblePath := [];
    for i := 0 to |path|
      invariant nibblePath == Nibbles(path[..i])
    {
      assert path[..i + 1][..i] == path[..i];
      nibblePath := nibblePath + [High(path[i])];
      nibblePath := nibblePath + [Low(path[i])];
    }
    assert path[..|path|] == path;
  }

  // Whether it is a leaf's, and its nibbles.
  function ParsePath(path: Bytes): (bool, seq<nibble>)
    requires path != []
  {
    var nibbles := Nibbles(path[1..]);
    (LeafFlag(path[0]), if OddFlag(path[0]) then [Low(path[0])] + nibbles else nibbles)
  }

  function Paired(high: nibble, low: nibble): (b: byte)
    ensures High(b) == high && Low(b) == low
  {
    var h: int := high;
    (h * 16 + low) as byte
  }

  function Pack(ns: seq<nibble>): Bytes
    requires |ns| % 2 == 0
  {
    if ns == [] then [] else Pack(ns[..|ns| - 2]) + [Paired(ns[|ns| - 2], ns[|ns| - 1])]
  }

  function Flags(leaf: bool, ns: seq<nibble>): (b: byte)
    ensures LeafFlag(b) == leaf && OddFlag(b) == (|ns| % 2 == 1) && (OddFlag(b) ==> Low(b) == ns[0])
  {
    if |ns| % 2 == 0 then (if leaf then Paired(2, 0) else Paired(0, 0))
    else if leaf then Paired(3, ns[0])
    else Paired(1, ns[0])
  }

  // The compact form of a path: flags, an odd nibble beside them, and pairs.
  function Compact(leaf: bool, ns: seq<nibble>): Bytes {
    [Flags(leaf, ns)] + Pack(if |ns| % 2 == 0 then ns else ns[1..])
  }

  lemma NibblesAppend(path: Bytes, b: byte)
    ensures Nibbles(path + [b]) == Nibbles(path) + [High(b), Low(b)]
  {
    assert (path + [b])[..|path|] == path;
  }

  lemma LastTwo(ns: seq<nibble>)
    requires |ns| >= 2
    ensures ns[..|ns| - 2] + [ns[|ns| - 2], ns[|ns| - 1]] == ns
  {
  }

  lemma {:induction false} NibblesOfPack(ns: seq<nibble>)
    requires |ns| % 2 == 0
    ensures Nibbles(Pack(ns)) == ns
  {
    if ns != [] {
      NibblesOfPack(ns[..|ns| - 2]);
      NibblesAppend(Pack(ns[..|ns| - 2]), Paired(ns[|ns| - 2], ns[|ns| - 1]));
      LastTwo(ns);
    }
  }

  lemma ParsePathParts(flags: byte, rest: Bytes, leaf: bool, ns: seq<nibble>)
    requires LeafFlag(flags) == leaf
    requires if OddFlag(flags) then ns == [Low(flags)] + Nibbles(rest) else ns == Nibbles(rest)
    ensures ParsePath([flags] + rest) == (leaf, ns)
  {
    assert ([flags] + rest)[1..] == rest;
  }

  lemma FirstAndRest(ns: seq<nibble>)
    requires ns != []
    ensures [ns[0]] + ns[1..] == ns
  {
  }

  // Every path can be stored, and is read back with its kind.
  lemma CompactIsReadBack(leaf: bool, ns: seq<nibble>)
    ensures ParsePath(Compact(leaf, ns)) == (leaf, ns)
  {
    var flags := Flags(leaf, ns);
    if OddFlag(flags) {
      NibblesOfPack(ns[1..]);
      FirstAndRest(ns);
      ParsePathParts(flags, Pack(ns[1..]), leaf, ns);
    } else {
      NibblesOfPack(ns);
      ParsePathParts(flags, Pack(ns), leaf, ns);
    }
  }
}
