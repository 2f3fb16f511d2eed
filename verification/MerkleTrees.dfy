// The Merkle tree of the transaction log: built in one go from a list of
// leaves, or grown leaf by leaf, it is the same tree.
module MerkleTrees {
  import opened Options
  import opened MerkleHashes
  import opened ConsistencyProofs

  datatype Tree =
    | Empty(hash: Text)
    | Leaf(hash: Text, value: Text)
    | Node(hash: Text, left: Tree, right: Tree)

  function NewLeaf(value: Text): Tree { Leaf(HashLeaf(value), value) }

  function Join(left: Tree, right: Tree): Tree { Node(HashNodes(left.hash, right.hash), left, right) }

  function LeafTrees(values: seq<Text>): (ts: seq<Tree>)
    ensures |ts| == |values|
  {
    seq(|values|, i requires 0 <= i < |values| => NewLeaf(values[i]))
  }

  function PairTrees(ts: seq<Tree>): (ps: seq<Tree>)
    ensures |ts| <= |ps| + |ps| <= |ts| + 1
  {
    seq(Half(|ts| + 1), i requires 0 <= i < Half(|ts| + 1) =>
      if i + i + 1 < |ts| then Join(ts[i + i], ts[i + i + 1]) else ts[i + i])
  }

  function Build(ts: seq<Tree>): Tree
    requires ts != []
    decreases |ts|
  {
    if |ts| == 1 then ts[0] else Build(PairTrees(ts))
  }

  function TreeOf(values: seq<Text>): Tree {
    if values == [] then Empty(HashEmpty()) else Build(LeafTrees(values))
  }

  // The leaves from left to right.
  function Values(t: Tree): seq<Text> {
    match t
    case Empty(_) => []
    case Leaf(_, value) => [value]
    case Node(_, left, right) => Values(left) + Values(right)
  }

  function Levels(n: nat): nat {
    if n <= 1 then 0 else 1 + Levels(Half(n + 1))
  }

  // ---- its root is the root of the list of leaves ----

  function Hashes(ts: seq<Tree>): (hs: seq<Text>)
    ensures |hs| == |ts|
  {
    seq(|ts|, i requires 0 <= i < |ts| => ts[i].hash)
  }

  lemma PairHashes(ts: seq<Tree>)
    ensures Hashes(PairTrees(ts)) == PairUp(Hashes(ts))
  {
    var hs := Hashes(ts);
    forall i | 0 <= i < |PairTrees(ts)|
      ensures Hashes(PairTrees(ts))[i] == PairUp(hs)[i]
    {
      PairUpAt(hs, i);
    }
  }

  lemma {:induction false} BuildHash(ts: seq<Tree>)
    requires ts != []
    ensures Build(ts).hash == Top(Hashes(ts))
    decreases |ts|
  {
    if |ts| > 1 {
      PairHashes(ts);
      BuildHash(PairTrees(ts));
      TopUp(Hashes(ts));
    }
  }

  lemma TreeHash(values: seq<Text>)
    ensures TreeOf(values).hash == Root(values)
  {
    if values != [] {
      BuildHash(LeafTrees(values));
      assert Hashes(LeafTrees(values)) == LeafHashes(values);
    }
  }

  // ---- where the top node splits its leaves ----

  function Split(n: nat): (k: nat)
    requires n >= 2
    ensures 1 <= k < n
  {
    if n == 2 then 1 else Split(Half(n + 1)) + Split(Half(n + 1))
  }

  lemma PairTreesUp(ts: seq<Tree>)
    requires ts != []
    ensures PairTrees(ts) != [] && Build(PairTrees(ts)) == Build(ts)
  {
  }

  lemma PairTreesParts(ts: seq<Tree>, k: nat)
    requires k + k <= |ts|
    ensures k <= |PairTrees(ts)|
    ensures PairTrees(ts)[..k] == PairTrees(ts[..k + k])
    ensures PairTrees(ts)[k..] == PairTrees(ts[k + k..])
  {
    var ps, qs := PairTrees(ts)[k..], PairTrees(ts[k + k..]);
    forall i | 0 <= i < |ps|
      ensures i < |qs| && ps[i] == qs[i]
    {
    }
  }

  lemma {:induction false} BuildSplits(ts: seq<Tree>)
    requires |ts| >= 2
    ensures Build(ts) == Join(Build(ts[..Split(|ts|)]), Build(ts[Split(|ts|)..]))
    decreases |ts|
  {
    if |ts| == 2 {
      assert PairTrees(ts) == [Join(ts[0], ts[1])];
      assert ts[..1] == [ts[0]] && ts[1..] == [ts[1]];
    } else {
      var ps := PairTrees(ts);
      var k := Split(|ps|);
      assert |ps| == Half(|ts| + 1);
      BuildSplits(ps);
      PairTreesParts(ts, k);
      PairTreesUp(ts[..k + k]);
      PairTreesUp(ts[k + k..]);
    }
  }

  lemma {:induction false} BuildKeepsValues(values: seq<Text>)
    requires values != []
    ensures Values(Build(LeafTrees(values))) == values
    decreases |values|
  {
    var ts := LeafTrees(values);
    if |values| == 1 {
      assert values == [values[0]];
    } else {
      var k := Split(|ts|);
      BuildSplits(ts);
      BuildKeepsValues(values[..k]);
      BuildKeepsValues(values[k..]);
      assert ts[..k] == LeafTrees(values[..k]) && ts[k..] == LeafTrees(values[k..]);
      assert values[..k] + values[k..] == values;
    }
  }

  // ---- counting bits ----

  // v & (v - 1): the lowest set bit is cleared.
  function ClearLowest(v: nat): (r: nat)
    requires v > 0
    ensures r < v
  {
    if Odd(v) then v - 1 else ClearLowest(Half(v)) + ClearLowest(Half(v))
  }

  function Ones(v: nat): nat {
    if v == 0 then 0 else Ones(Half(v)) + if Odd(v) then 1 else 0
  }

  lemma HalfOfDouble(m: nat)
    ensures Half(m + m) == m && !Odd(m + m) && Half(m + m + 1) == m && Odd(m + m + 1)
  {
  }

  lemma {:induction false} ClearingTakesOne(v: nat)
    requires v > 0
    ensures Ones(ClearLowest(v)) + 1 == Ones(v)
  {
    var m := Half(v);
    if Odd(v) {
      HalfOfDouble(m);
    } else {
      ClearingTakesOne(m);
      HalfOfDouble(ClearLowest(m));
    }
  }

  method CountBits(v: nat) returns (ret: nat)
    ensures ret == Ones(v)
  {
    ret := 0;
    var val := v;
    while val != 0
      invariant ret + Ones(val) == Ones(v)
    {
      ClearingTakesOne(val);
      val := ClearLowest(val);
      ret := ret + 1;
    }
  }

  lemma {:induction false} SomeBit(v: nat)
    requires v > 0
    ensures Ones(v) >= 1
  {
    if !Odd(v) {
      SomeBit(Half(v));
    }
  }

  // One leaf more: a full tree gets a new layer above it, any other grows in
  // its right half.
  lemma {:induction false} SplitGrows(n: nat)
    requires n >= 1
    ensures Ones(n) == 1 ==> Split(n + 1) == n && Levels(n + 1) == Levels(n) + 1
    ensures Ones(n) != 1 ==> n >= 2 && Split(n + 1) == Split(n) && Levels(n + 1) == Levels(n)
  {
    if n == 1 {
      assert Ones(1) == 1 && Half(2) == 1;
    } else {
      var m := Half(n);
      HalfOfDouble(m);
      HalfOfDouble(m + 1);
      if Odd(n) {
        SomeBit(m);
        assert Half(n + 1) == m + 1 && Half(n + 2) == m + 1;
      } else {
        SplitGrows(m);
        assert Half(n + 1) == m && Half(n + 2) == m + 1;
      }
    }
  }

  // The left part has the largest power of two below the number of leaves.
  lemma {:induction false} SplitIsPower(n: nat)
    requires n >= 2
    ensures Ones(Split(n)) == 1 && Split(n) < n <= Split(n) + Split(n)
  {
    if n == 2 {
      assert Split(2) == 1 && Ones(1) == 1;
    } else {
      var k := Split(Half(n + 1));
      SplitIsPower(Half(n + 1));
      HalfOfDouble(k);
    }
  }

  lemma LeafTreesParts(values: seq<Text>, k: nat)
    requires k <= |values|
    ensures LeafTrees(values)[..k] == LeafTrees(values[..k]) && LeafTrees(values)[k..] == LeafTrees(values[k..])
  {
  }

  lemma TreeSplits(values: seq<Text>, k: nat, a: seq<Text>, b: seq<Text>)
    requires |values| >= 2 && k == Split(|values|) && a == values[..k] && b == values[k..]
    ensures TreeOf(values) == Join(TreeOf(a), TreeOf(b))
  {
    BuildSplits(LeafTrees(values));
    LeafTreesParts(values, k);
  }

  lemma OneMore(was: seq<Text>, value: Text, k: nat)
    requires k <= |was|
    ensures (was + [value])[..k] == was[..k] && (was + [value])[k..] == was[k..] + [value]
    ensures k == |was| ==> was[..k] == was && was[k..] + [value] == [value]
  {
  }

  lemma OneLeafTree(value: Text)
    ensures TreeOf([value]) == NewLeaf(value)
  {
    assert LeafTrees([value]) == [NewLeaf(value)];
  }

  lemma TreeKeepsValues(values: seq<Text>)
    ensures Values(TreeOf(values)) == values
  {
    if values != [] {
      BuildKeepsValues(values);
    }
  }

  // What a tree with one leaf more is made of.
  lemma FullTreeGrows(was: seq<Text>, value: Text)
    requires was != [] && Ones(|was|) == 1
    ensures TreeOf(was + [value]) == Join(TreeOf(was), NewLeaf(value))
  {
    var n := |was|;
    SplitGrows(n);
    OneMore(was, value, n);
    TreeSplits(was + [value], n, was, [value]);
    OneLeafTree(value);
  }

  lemma PartialTreeGrows(was: seq<Text>, value: Text) returns (a: seq<Text>, b: seq<Text>)
    requires was != [] && Ones(|was|) != 1
    ensures was == a + b && TreeOf(was) == Join(TreeOf(a), TreeOf(b)) && Values(TreeOf(b)) == b
    ensures TreeOf(was + [value]) == Join(TreeOf(a), TreeOf(b + [value]))
  {
    SplitGrows(|was|);
    var k := Split(|was|);
    a, b := was[..k], was[k..];
    OneMore(was, value, k);
    TreeSplits(was, k, a, b);
    TreeSplits(was + [value], k, a, b + [value]);
    TreeKeepsValues(b);
  }

  // ---- the tree ----

  class MerkleTree {
    var root: Tree
    var height: nat
    var count: nat
    var nodesCount: nat
    ghost var leaves: seq<Text>

    ghost predicate Valid()
      reads this
    {
      && root == TreeOf(leaves) && count == |leaves| && height == Levels(count)
      && nodesCount == if count == 0 then 0 else count - 1
    }

    // Level by level, from neighbours to their parents.
    constructor FromVec(values: seq<Text>)
      ensures Valid() && leaves == values
    {
      leaves, count := values, |values|;
      if values == [] {
        root, height, nodesCount := Empty(HashEmpty()), 0, 0;
      } else {
        var cur, h, nodes := LeafTrees(values), 0, 0;
        while |cur| > 1
          invariant cur != [] && Build(cur) == Build(LeafTrees(values))
          invariant h + Levels(|cur|) == Levels(|values|) && nodes + |cur| == |values|
          decreases |cur|
        {
          ghost var level := cur;
          var next := [];
          while cur != []
            invariant next + PairTrees(cur) == PairTrees(level)
            invariant nodes + |next| + |cur| == |values|
            decreases |cur|
          {
            if |cur| == 1 {
              LastMovesUp(next, cur);
              next, cur := next + [cur[0]], [];
            } else {
              FirstTwoJoin(next, cur);
              next, cur := next + [Join(cur[0], cur[1])], cur[2..];
              nodes := nodes + 1;
            }
          }
          assert PairTrees([]) == [] && next + [] == next;
          assert |next| == Half(|level| + 1);
          h := h + 1;
          cur := next;
        }
        root, height, nodesCount := cur[0], h, nodes;
      }
    }

    constructor Clone(t: MerkleTree)
      requires t.Valid()
      ensures Valid() && leaves == t.leaves
    {
      root, height, count, nodesCount, leaves := t.root, t.height, t.count, t.nodesCount, t.leaves;
    }

    static lemma LastMovesUp(next: seq<Tree>, cur: seq<Tree>)
      requires |cur| == 1
      ensures next + PairTrees(cur) == next + [cur[0]] + PairTrees([])
    {
      assert PairTrees(cur) == [cur[0]] && PairTrees([]) == [];
    }

    static lemma FirstTwoJoin(next: seq<Tree>, cur: seq<Tree>)
      requires |cur| >= 2
      ensures next + PairTrees(cur) == next + [Join(cur[0], cur[1])] + PairTrees(cur[2..])
    {
      PairTreesParts(cur, 1);
      assert PairTrees(cur[..2]) == [Join(cur[0], cur[1])];
      assert PairTrees(cur) == PairTrees(cur)[..1] + PairTrees(cur)[1..];
    }

    // The tree of the longer list, without building it anew.
    method Append(value: Text)
      requires Valid()
      modifies this
      ensures Valid() && leaves == old(leaves) + [value]
    {
      ghost var was := leaves;
      leaves := leaves + [value];
      if count == 0 {
        root, count := NewLeaf(value), 1;
        assert LeafTrees(leaves) == [NewLeaf(value)];
      } else {
        SplitGrows(count);
        var bits := CountBits(count);
        if bits != 1 {
          ghost var a, b := PartialTreeGrows(was, value);
          var more := new MerkleTree.FromVec(Values(root.right) + [value]);
          root := Node(HashNodes(root.left.hash, more.root.hash), root.left, more.root);
        } else {
          FullTreeGrows(was, value);
          root := Node(HashNodes(root.hash, NewLeaf(value).hash), root, NewLeaf(value));
          height := height + 1;
        }
        count, nodesCount := count + 1, nodesCount + 1;
      }
    }

    // Accepted means the new log begins with this one.
    lemma AcceptedMeansExtension(wanted: seq<Text>, proof: seq<Text>)
      requires Valid() && Check(count, root.hash, Root(wanted), |wanted|, proof).Accepted?
      ensures leaves <= wanted
    {
      TreeHash(leaves);
      AcceptedOnlyForPrefixes(leaves, wanted, proof);
    }

    method ConsistencyProof(newRoot: Text, newSize: nat, proof: seq<Text>) returns (out: Outcome)
      requires Valid()
      ensures out == Check(count, root.hash, newRoot, newSize, proof)
    {
      if count == 0 || (count == newSize && root.hash == newRoot) {
        return Accepted;
      }
      if count > newSize {
        return Aborted;
      }
      var oldNode: nat, newNode: nat := count - 1, newSize - 1;
      while oldNode % 2 != 0
        invariant CheckNodes(oldNode, newNode, root.hash, newRoot, proof)
                  == CheckNodes(count - 1, newSize - 1, root.hash, newRoot, proof)
        decreases oldNode
      {
        HalfIsDivision(oldNode);
        HalfIsDivision(newNode);
        oldNode, newNode := oldNode / 2, newNode / 2;
      }
      HalfIsDivision(oldNode);
      var rest := proof;
      var seed := root.hash;
      if oldNode != 0 {
        if rest == [] {
          return Rejected;
        }
        seed, rest := rest[0], rest[1..];
      }
      var tops := ClimbToTops(oldNode, newNode, seed, rest);
      out := if tops == Some((root.hash, newRoot)) then Accepted else Rejected;
    }

    // From the first hash, computed on both ways, to both tops.
    static method ClimbToTops(held: nat, wanted: nat, seed: Text, proof: seq<Text>) returns (tops: Option<(Text, Text)>)
      ensures tops == Climb(held, wanted, seed, seed, proof)
    {
      var oldNode, newNode, oldHash, newHash, rest := held, wanted, seed, seed, proof;
      while oldNode != 0
        invariant Climb(oldNode, newNode, oldHash, newHash, rest) == Climb(held, wanted, seed, seed, proof)
      {
        HalfIsDivision(oldNode);
        HalfIsDivision(newNode);
        ClimbStep(oldNode, newNode, oldHash, newHash, rest);
        if oldNode % 2 != 0 {
          if rest == [] {
            return None;
          }
          oldHash, newHash, rest := HashNodes(rest[0], oldHash), HashNodes(rest[0], newHash), rest[1..];
        } else if oldNode < newNode {
          if rest == [] {
            return None;
          }
          newHash, rest := HashNodes(newHash, rest[0]), rest[1..];
        }
        oldNode, newNode := oldNode / 2, newNode / 2;
      }
      while newNode != 0
        invariant Climb(0, newNode, oldHash, newHash, rest) == Climb(held, wanted, seed, seed, proof)
      {
        HalfIsDivision(newNode);
        if rest == [] {
          return None;
        }
        newHash, newNode, rest := HashNodes(newHash, rest[0]), newNode / 2, rest[1..];
      }
      tops := Some((oldHash, newHash));
    }
  }

  // ---- catching up ----

  // Received transactions are appended to a copy, and the copy is checked
  // against the target; the log the client holds stays as it is.
  method ProcessCatchupReply(merkle: MerkleTree, txns: seq<Text>, targetRoot: Text, targetSize: nat, proof: seq<Text>)
    returns (out: Outcome, grown: MerkleTree)
    requires merkle.Valid()
    ensures fresh(grown) && grown.Valid() && grown.leaves == merkle.leaves + txns
    ensures out == Check(|merkle.leaves + txns|, Root(merkle.leaves + txns), targetRoot, targetSize, proof)
    // A reply that completes the target log needs no proof.
    ensures targetSize == |merkle.leaves + txns| && targetRoot == Root(merkle.leaves + txns) ==> out.Accepted?
    ensures targetSize < |merkle.leaves + txns| ==> out.Aborted?
  {
    grown := new MerkleTree.Clone(merkle);
    for i := 0 to |txns|
      invariant fresh(grown) && grown.Valid() && grown.leaves == merkle.leaves + txns[..i]
    {
      assert txns[..i + 1] == txns[..i] + [txns[i]];
      grown.Append(txns[i]);
    }
    assert txns[..|txns|] == txns;
    TreeHash(grown.leaves);
    out := grown.ConsistencyProof(targetRoot, targetSize, proof);
  }

  // A reply is accepted only if the log and the received transactions are how
  // the target log begins, so a reply that brings as many as are missing brings
  // exactly those.
  lemma CatchupIsExact(held: seq<Text>, txns: seq<Text>, wanted: seq<Text>, proof: seq<Text>)
    requires Check(|held + txns|, Root(held + txns), Root(wanted), |wanted|, proof).Accepted?
    ensures held <= wanted && txns <= wanted[|held|..]
    ensures |held| + |txns| == |wanted| ==> txns == wanted[|held|..]
  {
    AcceptedOnlyForPrefixes(held + txns, wanted, proof);
    assert held == wanted[..|held|] && txns == wanted[|held|..|held| + |txns|] by {
      assert held + txns == wanted[..|held| + |txns|];
      assert held == (held + txns)[..|held|] && txns == (held + txns)[|held|..];
    }
  }
}
