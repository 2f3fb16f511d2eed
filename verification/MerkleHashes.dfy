// Hashes of the transaction log: leaf and node hashes with their prefixes, and
// the root of a list of hashes, paired up level by level.
module MerkleHashes {

  // 0x00 stands before a hashed leaf, 0x01 before two hashed texts.
  datatype Prefix = NoPrefix | LeafPrefix | NodePrefix

  // A hash without collisions: the 32 symbols of a digest name the hashed text
  // and their place. Any other symbol is a plain byte, so a text that somebody
  // sends may be of any length and mix both.
  datatype Symbol = Raw(byte: bv8) | Part(prefix: Prefix, hashed: Text, index: nat)

  datatype Text = Text(symbols: seq<Symbol>)

  const HASH_BYTES: nat := 32

  // Of the length of a digest.
  predicate Sized(text: Text) { |text.symbols| == HASH_BYTES }

  function Digest(prefix: Prefix, text: Text): (d: Text)
    ensures Sized(d)
  {
    Text(seq(HASH_BYTES, i requires 0 <= i < HASH_BYTES => Part(prefix, text, i)))
  }

  function HashEmpty(): Text { Digest(NoPrefix, Text([])) }

  function HashLeaf(value: Text): Text { Digest(LeafPrefix, value) }

  function HashNodes(left: Text, right: Text): Text { Digest(NodePrefix, Text(left.symbols + right.symbols)) }

  lemma DigestInjective(p: Prefix, x: Text, q: Prefix, y: Text)
    ensures Digest(p, x) == Digest(q, y) <==> p == q && x == y
  {
    assert Digest(p, x).symbols[0] == Part(p, x, 0) && Digest(q, y).symbols[0] == Part(q, y, 0);
  }

  // A node hashes its two texts written one after the other: equal hashes have
  // equal texts only together, and each if two of them are of one length.
  lemma NodesInjective(a: Text, b: Text, c: Text, d: Text)
    requires HashNodes(a, b) == HashNodes(c, d)
    ensures Sized(a) && Sized(b) && Sized(c) ==> Sized(d)
    ensures Sized(a) && Sized(c) && Sized(d) ==> Sized(b)
    ensures Sized(b) && Sized(c) && Sized(d) ==> Sized(a)
    ensures (Sized(a) && Sized(c)) || (Sized(b) && Sized(d)) ==> a == c && b == d
  {
    var x, y := a.symbols + b.symbols, c.symbols + d.symbols;
    DigestInjective(NodePrefix, Text(x), NodePrefix, Text(y));
    assert x == y && |a.symbols| + |b.symbols| == |c.symbols| + |d.symbols|;
    if (Sized(a) && Sized(c)) || (Sized(b) && Sized(d)) {
      assert a.symbols == x[..|a.symbols|] && c.symbols == y[..|c.symbols|];
      assert b.symbols == x[|a.symbols|..] && d.symbols == y[|c.symbols|..];
    }
  }

  // ---- levels ----

  // n / 2, by its bounds.
  function Half(n: nat): (m: nat)
    ensures m + m <= n <= m + m + 1
  {
    if n < 2 then 0 else 1 + Half(n - 2)
  }

  predicate Odd(n: nat) { n == Half(n) + Half(n) + 1 }

  lemma {:induction false} HalfIsDivision(n: nat)
    ensures Half(n) == n / 2 && (Odd(n) <==> n % 2 != 0)
  {
    if n >= 2 {
      HalfIsDivision(n - 2);
    }
  }

  // Neighbours combine; a last one without neighbour moves up as it is.
  function PairUp(xs: seq<Text>): (ps: seq<Text>)
    ensures |xs| <= |ps| + |ps| <= |xs| + 1
  {
    seq(Half(|xs| + 1), i requires 0 <= i < Half(|xs| + 1) =>
      if i + i + 1 < |xs| then HashNodes(xs[i + i], xs[i + i + 1]) else xs[i + i])
  }

  function Top(xs: seq<Text>): Text
    requires xs != []
    decreases |xs|
  {
    if |xs| == 1 then xs[0] else Top(PairUp(xs))
  }

  lemma PairUpAt(xs: seq<Text>, i: nat)
    requires i < |PairUp(xs)|
    ensures PairUp(xs)[i] == if i + i + 1 < |xs| then HashNodes(xs[i + i], xs[i + i + 1]) else xs[i + i]
  {
  }

  predicate Digests(xs: seq<Text>) {
    forall i :: 0 <= i < |xs| ==> Sized(xs[i])
  }

  lemma PairUpDigests(xs: seq<Text>)
    requires Digests(xs)
    ensures Digests(PairUp(xs))
  {
    forall i | 0 <= i < |PairUp(xs)|
      ensures Sized(PairUp(xs)[i])
    {
      PairUpAt(xs, i);
    }
  }

  lemma TopUp(xs: seq<Text>)
    requires xs != []
    ensures PairUp(xs) != [] && Top(PairUp(xs)) == Top(xs)
  {
  }

  // Equal parents have equal children.
  lemma ParentsAgree(xs: seq<Text>, ys: seq<Text>, j: nat)
    requires Digests(xs) && Digests(ys) && j + j + 1 < |xs| && j + j + 1 < |ys|
    requires PairUp(xs)[j] == PairUp(ys)[j]
    ensures xs[j + j] == ys[j + j] && xs[j + j + 1] == ys[j + j + 1]
  {
    PairUpAt(xs, j);
    PairUpAt(ys, j);
    NodesInjective(xs[j + j], xs[j + j + 1], ys[j + j], ys[j + j + 1]);
  }

  lemma ChildrenAgree(xs: seq<Text>, ys: seq<Text>, m: nat)
    requires Digests(xs) && Digests(ys) && m + m <= |xs| && m + m <= |ys|
    requires forall j :: 0 <= j < m ==> PairUp(xs)[j] == PairUp(ys)[j]
    ensures forall i :: 0 <= i < m + m ==> xs[i] == ys[i]
  {
    forall i | 0 <= i < m + m
      ensures xs[i] == ys[i]
    {
      var j := Half(i);
      ParentsAgree(xs, ys, j);
    }
  }

  // Of two lists of one length, equal tops mean equal lists.
  lemma {:induction false} TopInjective(xs: seq<Text>, ys: seq<Text>)
    requires Digests(xs) && Digests(ys) && xs != [] && |xs| == |ys| && Top(xs) == Top(ys)
    ensures xs == ys
    decreases |xs|
  {
    if |xs| > 1 {
      PairUpDigests(xs);
      PairUpDigests(ys);
      TopInjective(PairUp(xs), PairUp(ys));
      PairsInjective(xs, ys);
    }
  }

  lemma PairsInjective(xs: seq<Text>, ys: seq<Text>)
    requires Digests(xs) && Digests(ys) && |xs| == |ys| && PairUp(xs) == PairUp(ys)
    ensures xs == ys
  {
    var m := Half(|xs|);
    ChildrenAgree(xs, ys, m);
    if m + m < |xs| {
      PairUpAt(xs, m);
      PairUpAt(ys, m);
    }
  }

  function LeafHashes(leaves: seq<Text>): (xs: seq<Text>)
    ensures |xs| == |leaves|
    ensures forall i :: 0 <= i < |leaves| ==> xs[i] == HashLeaf(leaves[i])
  {
    if leaves == [] then [] else LeafHashes(leaves[..|leaves| - 1]) + [HashLeaf(leaves[|leaves| - 1])]
  }

  // The root hash of the tree over the leaves.
  function Root(leaves: seq<Text>): Text {
    if leaves == [] then HashEmpty() else Top(LeafHashes(leaves))
  }

  ghost predicate Prefixed(x: Text) { exists p, t :: p != NoPrefix && x == Digest(p, t) }

  lemma {:induction false} TopIsPrefixed(xs: seq<Text>)
    requires xs != [] && forall i :: 0 <= i < |xs| ==> Prefixed(xs[i])
    ensures Prefixed(Top(xs))
    decreases |xs|
  {
    if |xs| > 1 {
      forall i | 0 <= i < |PairUp(xs)|
        ensures Prefixed(PairUp(xs)[i])
      {
        PairUpAt(xs, i);
      }
      TopUp(xs);
      TopIsPrefixed(PairUp(xs));
    }
  }

  // Only the empty log has the root of the empty log.
  lemma EmptyRootIsItsOwn(leaves: seq<Text>)
    ensures Root(leaves) == HashEmpty() <==> leaves == []
  {
    if leaves != [] {
      TopIsPrefixed(LeafHashes(leaves));
      var p, t :| p != NoPrefix && Root(leaves) == Digest(p, t);
      DigestInjective(p, t, NoPrefix, Text([]));
    }
  }
}
