// The check that a longer transaction log extends the one a client holds, from
// its size, its root hash and a list of hashes anybody may have sent.
module ConsistencyProofs {
  import opened Options
  import opened MerkleHashes

  datatype Outcome = Aborted | Rejected | Accepted

  // One step up from the last old leaf: the hashes on the old and the new
  // tree's way, and the rest of the proof. None when the proof runs out.
  function OneUp(held: nat, wanted: nat, oldHash: Text, newHash: Text, proof: seq<Text>)
    : Option<(Text, Text, seq<Text>)>
  {
    if Odd(held) then
      if proof == [] then None
      else Some((HashNodes(proof[0], oldHash), HashNodes(proof[0], newHash), proof[1..]))
    else if held < wanted then
      if proof == [] then None else Some((oldHash, HashNodes(newHash, proof[0]), proof[1..]))
    else Some((oldHash, newHash, proof))
  }

  function Climb(held: nat, wanted: nat, oldHash: Text, newHash: Text, proof: seq<Text>): Option<(Text, Text)>
    decreases held + wanted
  {
    if held == 0 && wanted == 0 then Some((oldHash, newHash))
    else
      match OneUp(held, wanted, oldHash, newHash, proof)
      case None => None
      case Some((o, n, rest)) => Climb(Half(held), Half(wanted), o, n, rest)
  }

  // The part of the check behind the first steps.
  function CheckFrom(o: nat, n: nat, root: Text, newRoot: Text, proof: seq<Text>): Outcome {
    if o != 0 && proof == [] then Rejected
    else
      var seed, rest := if o != 0 then proof[0] else root, if o != 0 then proof[1..] else proof;
      if Climb(o, n, seed, seed, rest) == Some((root, newRoot)) then Accepted else Rejected
  }

  // From the last leaves of both trees: the first steps, while the old one is a
  // right child, need nothing.
  function CheckNodes(held: nat, wanted: nat, root: Text, newRoot: Text, proof: seq<Text>): Outcome {
    if Odd(held) then CheckNodes(Half(held), Half(wanted), root, newRoot, proof)
    else CheckFrom(held, wanted, root, newRoot, proof)
  }

  function Check(count: nat, root: Text, newRoot: Text, newSize: nat, proof: seq<Text>): Outcome {
    if count == 0 then Accepted
    else if count == newSize && root == newRoot then Accepted
    else if count > newSize then Aborted
    else CheckNodes(count - 1, newSize - 1, root, newRoot, proof)
  }

  // ---- soundness ----

  // What a climb that ends at both tops shows about the levels it started from.
  ghost predicate Shows(xs: seq<Text>, ys: seq<Text>, oldHash: Text, newHash: Text)
    requires 0 < |xs| <= |ys|
  {
    var o := |xs| - 1;
    && (forall i :: 0 <= i < o ==> xs[i] == ys[i])
    && (oldHash == newHash ==> xs[o] == ys[o])
    && (Sized(newHash) ==> newHash == ys[o] && Sized(oldHash))
    && (Sized(oldHash) ==> oldHash == xs[o])
  }

  // Both ways were given one left neighbour p, and ended right.
  lemma LeftChildren(a: Text, b: Text, c: Text, d: Text, p: Text, oldHash: Text, newHash: Text)
    requires Sized(a) && Sized(b) && Sized(c) && Sized(d)
    requires HashNodes(p, oldHash) == HashNodes(a, b) && HashNodes(p, newHash) == HashNodes(c, d)
    requires oldHash == newHash || Sized(newHash)
    ensures a == c && (oldHash == newHash ==> b == d)
    ensures Sized(newHash) ==> newHash == d && Sized(oldHash)
    ensures Sized(oldHash) ==> oldHash == b
  {
    NodesInjective(p, oldHash, a, b);
    NodesInjective(p, newHash, c, d);
    if oldHash == newHash {
      NodesInjective(a, b, c, d);
    }
  }

  // The old node is a right child: both ways take the same left neighbour.
  lemma LeftStep(xs: seq<Text>, ys: seq<Text>, p: Text, oldHash: Text, newHash: Text)
    requires Digests(xs) && Digests(ys) && 0 < |xs| <= |ys| && Odd(|xs| - 1)
    requires oldHash == newHash || Sized(newHash)
    requires Shows(PairUp(xs), PairUp(ys), HashNodes(p, oldHash), HashNodes(p, newHash))
    ensures Shows(xs, ys, oldHash, newHash)
  {
    var o := |xs| - 1;
    PairUpAt(xs, Half(o));
    PairUpAt(ys, Half(o));
    assert Half(o) + Half(o) == o - 1;
    LeftChildren(xs[o - 1], xs[o], ys[o - 1], ys[o], p, oldHash, newHash);
    ChildrenAgree(xs, ys, Half(o));
  }

  // It is a left child, and alone in the old tree: only the new way takes a
  // right neighbour.
  lemma RightStep(xs: seq<Text>, ys: seq<Text>, p: Text, oldHash: Text, newHash: Text)
    requires Digests(xs) && Digests(ys) && 0 < |xs| < |ys| && !Odd(|xs| - 1)
    requires Shows(PairUp(xs), PairUp(ys), oldHash, HashNodes(newHash, p))
    ensures Shows(xs, ys, oldHash, newHash)
  {
    var o := |xs| - 1;
    PairUpAt(xs, Half(o));
    PairUpAt(ys, Half(o));
    assert Half(o) + Half(o) == o;
    NodesInjective(newHash, p, ys[o], ys[o + 1]);
    ChildrenAgree(xs, ys, Half(o));
  }

  // It is alone in both.
  lemma AloneStep(xs: seq<Text>, ys: seq<Text>, oldHash: Text, newHash: Text)
    requires Digests(xs) && Digests(ys) && 0 < |xs| == |ys| && !Odd(|xs| - 1)
    requires Shows(PairUp(xs), PairUp(ys), oldHash, newHash)
    ensures Shows(xs, ys, oldHash, newHash)
  {
    var o := |xs| - 1;
    PairUpAt(xs, Half(o));
    PairUpAt(ys, Half(o));
    assert Half(o) + Half(o) == o;
    ChildrenAgree(xs, ys, Half(o));
  }

  // Undoing one step.
  lemma StepShows(xs: seq<Text>, ys: seq<Text>, oldHash: Text, newHash: Text, proof: seq<Text>)
    requires Digests(xs) && Digests(ys) && 0 < |xs| <= |ys| && 1 < |ys|
    requires oldHash == newHash || Sized(newHash)
    requires OneUp(|xs| - 1, |ys| - 1, oldHash, newHash, proof).Some?
    ensures var (o, n, rest) := OneUp(|xs| - 1, |ys| - 1, oldHash, newHash, proof).value;
            && (o == n || Sized(n))
            && (Shows(PairUp(xs), PairUp(ys), o, n) ==> Shows(xs, ys, oldHash, newHash))
  {
    var (o, n, rest) := OneUp(|xs| - 1, |ys| - 1, oldHash, newHash, proof).value;
    if Shows(PairUp(xs), PairUp(ys), o, n) {
      if Odd(|xs| - 1) {
        LeftStep(xs, ys, proof[0], oldHash, newHash);
      } else if |xs| < |ys| {
        RightStep(xs, ys, proof[0], oldHash, newHash);
      } else {
        AloneStep(xs, ys, oldHash, newHash);
      }
    }
  }

  // One level up: shorter lists with the same tops.
  lemma LevelUp(xs: seq<Text>, ys: seq<Text>)
    requires Digests(xs) && Digests(ys) && 0 < |xs| <= |ys|
    ensures var us, vs := PairUp(xs), PairUp(ys);
            && 0 < |us| <= |vs| && Digests(us) && Digests(vs)
            && |us| - 1 == Half(|xs| - 1) && |vs| - 1 == Half(|ys| - 1)
            && Top(us) == Top(xs) && Top(vs) == Top(ys)
  {
    PairUpDigests(xs);
    PairUpDigests(ys);
    TopUp(xs);
    TopUp(ys);
  }

  lemma ClimbStep(o: nat, n: nat, oldHash: Text, newHash: Text, proof: seq<Text>)
    requires o + n > 0
    ensures var next := OneUp(o, n, oldHash, newHash, proof);
            Climb(o, n, oldHash, newHash, proof)
            == if next.None? then None
               else Climb(Half(o), Half(n), next.value.0, next.value.1, next.value.2)
  {
  }

  lemma ClimbGoesOn(o: nat, n: nat, oldHash: Text, newHash: Text, proof: seq<Text>)
    returns (x: Text, y: Text, rest: seq<Text>)
    requires o + n > 0 && Climb(o, n, oldHash, newHash, proof).Some?
    ensures OneUp(o, n, oldHash, newHash, proof) == Some((x, y, rest))
    ensures Climb(Half(o), Half(n), x, y, rest) == Climb(o, n, oldHash, newHash, proof)
  {
    ClimbStep(o, n, oldHash, newHash, proof);
    var up := OneUp(o, n, oldHash, newHash, proof).value;
    x, y, rest := up.0, up.1, up.2;
  }

  // One level of the proof below: what the level above shows, this one shows.
  lemma StepUp(xs: seq<Text>, ys: seq<Text>, oldHash: Text, newHash: Text, proof: seq<Text>,
               x: Text, y: Text, rest: seq<Text>)
    returns (us: seq<Text>, vs: seq<Text>)
    requires Digests(xs) && Digests(ys) && 0 < |xs| <= |ys| && 1 < |ys|
    requires oldHash == newHash || Sized(newHash)
    requires OneUp(|xs| - 1, |ys| - 1, oldHash, newHash, proof) == Some((x, y, rest))
    ensures Digests(us) && Digests(vs) && 0 < |us| <= |vs| && |us| + |vs| < |xs| + |ys|
    ensures |us| - 1 == Half(|xs| - 1) && |vs| - 1 == Half(|ys| - 1)
    ensures Top(us) == Top(xs) && Top(vs) == Top(ys)
    ensures x == y || Sized(y)
    ensures Shows(us, vs, x, y) ==> Shows(xs, ys, oldHash, newHash)
  {
    StepShows(xs, ys, oldHash, newHash, proof);
    LevelUp(xs, ys);
    us, vs := PairUp(xs), PairUp(ys);
  }

  lemma {:induction false} ClimbIsSound(xs: seq<Text>, ys: seq<Text>, oldHash: Text, newHash: Text, proof: seq<Text>)
    requires Digests(xs) && Digests(ys) && 0 < |xs| <= |ys|
    requires oldHash == newHash || Sized(newHash)
    requires Climb(|xs| - 1, |ys| - 1, oldHash, newHash, proof) == Some((Top(xs), Top(ys)))
    ensures Shows(xs, ys, oldHash, newHash)
    decreases |xs| + |ys|
  {
    if |ys| > 1 {
      var x, y, rest := ClimbGoesOn(|xs| - 1, |ys| - 1, oldHash, newHash, proof);
      var us, vs := StepUp(xs, ys, oldHash, newHash, proof, x, y, rest);
      ClimbIsSound(us, vs, x, y, rest);
    } else {
      assert Climb(0, 0, oldHash, newHash, proof) == Some((oldHash, newHash));
    }
  }

  predicate Agree(xs: seq<Text>, ys: seq<Text>) { |xs| <= |ys| && xs == ys[..|xs|] }

  lemma PairsAgree(xs: seq<Text>, ys: seq<Text>)
    requires 0 < |xs| <= |ys| && Odd(|xs| - 1) && Agree(xs, ys)
    ensures Agree(PairUp(xs), PairUp(ys))
  {
    forall j | 0 <= j < |PairUp(xs)|
      ensures PairUp(xs)[j] == PairUp(ys)[j]
    {
      PairUpAt(xs, j);
      PairUpAt(ys, j);
      assert xs[j + j] == ys[..|xs|][j + j] && xs[j + j + 1] == ys[..|xs|][j + j + 1];
    }
  }

  lemma PairsAgreeOnly(xs: seq<Text>, ys: seq<Text>)
    requires Digests(xs) && Digests(ys) && 0 < |xs| <= |ys| && Odd(|xs| - 1) && Agree(PairUp(xs), PairUp(ys))
    ensures Agree(xs, ys)
  {
    var us := PairUp(xs);
    assert forall j :: 0 <= j < |us| ==> us[j] == PairUp(ys)[..|us|][j];
    ChildrenAgree(xs, ys, |us|);
  }

  lemma CheckFromMeans(o: nat, n: nat, root: Text, newRoot: Text, proof: seq<Text>)
    returns (seed: Text, rest: seq<Text>)
    requires CheckFrom(o, n, root, newRoot, proof).Accepted?
    ensures Climb(o, n, seed, seed, rest) == Some((root, newRoot))
  {
    if o != 0 {
      seed, rest := proof[0], proof[1..];
    } else {
      seed, rest := root, proof;
    }
  }

  lemma {:induction false} NodesAgree(xs: seq<Text>, ys: seq<Text>, root: Text, newRoot: Text, proof: seq<Text>)
    requires Digests(xs) && Digests(ys) && 0 < |xs| <= |ys| && root == Top(xs) && newRoot == Top(ys)
    requires CheckNodes(|xs| - 1, |ys| - 1, root, newRoot, proof).Accepted?
    ensures Agree(xs, ys)
    decreases |xs|
  {
    if Odd(|xs| - 1) {
      LevelUp(xs, ys);
      NodesAgree(PairUp(xs), PairUp(ys), root, newRoot, proof);
      PairsAgreeOnly(xs, ys);
    } else {
      var seed, rest := CheckFromMeans(|xs| - 1, |ys| - 1, root, newRoot, proof);
      ClimbIsSound(xs, ys, seed, seed, rest);
    }
  }

  lemma LogHashesAgree(xs: seq<Text>, ys: seq<Text>, proof: seq<Text>)
    requires Digests(xs) && Digests(ys) && 0 < |xs| <= |ys|
    requires Check(|xs|, Top(xs), Top(ys), |ys|, proof).Accepted?
    ensures Agree(xs, ys)
  {
    if |xs| == |ys| && Top(xs) == Top(ys) {
      TopInjective(xs, ys);
    } else {
      NodesAgree(xs, ys, Top(xs), Top(ys), proof);
    }
  }

  lemma LeavesAgree(held: seq<Text>, wanted: seq<Text>)
    requires Agree(LeafHashes(held), LeafHashes(wanted))
    ensures held <= wanted
  {
    forall i | 0 <= i < |held|
      ensures held[i] == wanted[i]
    {
      assert LeafHashes(held)[i] == LeafHashes(wanted)[..|held|][i];
      DigestInjective(LeafPrefix, held[i], LeafPrefix, wanted[i]);
    }
  }

  lemma LeafDigests(leaves: seq<Text>)
    ensures Digests(LeafHashes(leaves))
  {
  }

  // Whatever the proof contains, digests or not, it is accepted only if the new
  // log begins with the old one.
  lemma AcceptedOnlyForPrefixes(held: seq<Text>, wanted: seq<Text>, proof: seq<Text>)
    requires Check(|held|, Root(held), Root(wanted), |wanted|, proof).Accepted?
    ensures held <= wanted
  {
    if held != [] {
      LeafDigests(held);
      LeafDigests(wanted);
      LogHashesAgree(LeafHashes(held), LeafHashes(wanted), proof);
      LeavesAgree(held, wanted);
    }
  }

  // ---- completeness ----

  // The neighbours a climb needs, from the new tree.
  function Neighbour(o: nat, ys: seq<Text>): seq<Text>
    requires o < |ys|
  {
    if Odd(o) then [ys[o - 1]] else if o + 1 < |ys| then [ys[o + 1]] else []
  }

  function Neighbours(o: nat, ys: seq<Text>): seq<Text>
    requires o < |ys|
    decreases |ys|
  {
    if |ys| == 1 then [] else Neighbour(o, ys) + Neighbours(Half(o), PairUp(ys))
  }

  // Equal but for the last of the shorter one.
  ghost predicate Alike(xs: seq<Text>, ys: seq<Text>)
    requires |xs| <= |ys|
  {
    forall i :: 0 <= i < |xs| - 1 ==> xs[i] == ys[i]
  }

  lemma PairsAlike(xs: seq<Text>, ys: seq<Text>)
    requires 0 < |xs| <= |ys| && Alike(xs, ys)
    ensures Alike(PairUp(xs), PairUp(ys))
  {
    forall i | 0 <= i < |PairUp(xs)| - 1
      ensures PairUp(xs)[i] == PairUp(ys)[i]
    {
      PairUpAt(xs, i);
      PairUpAt(ys, i);
    }
  }

  // One step up with the right neighbour from the new tree.
  lemma HonestStep(xs: seq<Text>, ys: seq<Text>, more: seq<Text>)
    requires 0 < |xs| <= |ys| && 1 < |ys| && Alike(xs, ys)
    ensures var o, us, vs := |xs| - 1, PairUp(xs), PairUp(ys);
            OneUp(o, |ys| - 1, xs[o], ys[o], Neighbour(o, ys) + more) == Some((us[Half(o)], vs[Half(o)], more))
  {
    var o := |xs| - 1;
    var one := Neighbour(o, ys);
    PairUpAt(xs, Half(o));
    PairUpAt(ys, Half(o));
    assert one != [] ==> (one + more)[1..] == more && (one + more)[0] == one[0];
    assert one == [] ==> one + more == more;
    assert !Odd(o) ==> Half(o) + Half(o) == o;
    assert Odd(o) ==> Half(o) + Half(o) == o - 1;
  }

  lemma HonestClimb(xs: seq<Text>, ys: seq<Text>, o: nat) returns (us: seq<Text>, vs: seq<Text>)
    requires o + 1 == |xs| <= |ys| && 1 < |ys| && Alike(xs, ys)
    ensures Half(o) + 1 == |us| <= |vs| < |ys| && Alike(us, vs) && Top(us) == Top(xs) && Top(vs) == Top(ys)
    ensures Climb(o, |ys| - 1, xs[o], ys[o], Neighbours(o, ys))
            == Climb(Half(o), |vs| - 1, us[Half(o)], vs[Half(o)], Neighbours(Half(o), vs))
  {
    us, vs := PairUp(xs), PairUp(ys);
    var more := Neighbours(Half(o), vs);
    HonestStep(xs, ys, more);
    ClimbStep(o, |ys| - 1, xs[o], ys[o], Neighbour(o, ys) + more);
    PairsAlike(xs, ys);
    TopUp(xs);
    TopUp(ys);
  }

  lemma {:induction false} ClimbIsComplete(xs: seq<Text>, ys: seq<Text>, o: nat)
    requires o + 1 == |xs| <= |ys| && Alike(xs, ys)
    ensures Climb(o, |ys| - 1, xs[o], ys[o], Neighbours(o, ys)) == Some((Top(xs), Top(ys)))
    decreases |ys|
  {
    if |ys| == 1 {
      assert Climb(0, 0, xs[0], ys[0], Neighbours(0, ys)) == Some((xs[0], ys[0]));
    } else {
      var us, vs := HonestClimb(xs, ys, o);
      ClimbIsComplete(us, vs, Half(o));
    }
  }

  lemma HonestStartIsAccepted(xs: seq<Text>, ys: seq<Text>)
    requires 0 < |xs| && |xs| <= |ys| && xs == ys[..|xs|]
    ensures var o := |xs| - 1;
            Climb(o, |ys| - 1, ys[o], ys[o], Neighbours(o, ys)) == Some((Top(xs), Top(ys)))
            && (o == 0 ==> Top(xs) == ys[0])
  {
    var o := |xs| - 1;
    assert forall i :: 0 <= i < |xs| ==> xs[i] == ys[..|xs|][i] == ys[i];
    ClimbIsComplete(xs, ys, o);
  }

  // The proof an honest node sends, all of it from the new tree: the last old
  // node above the first steps, unless that is the old root, and then the
  // neighbours on the way up.
  function NodesProof(o: nat, ys: seq<Text>): seq<Text>
    requires o < |ys|
    decreases |ys|
  {
    if Odd(o) then NodesProof(Half(o), PairUp(ys))
    else (if o == 0 then [] else [ys[o]]) + Neighbours(o, ys)
  }

  function HonestProof(held: nat, wanted: seq<Text>): seq<Text>
    requires 0 < held <= |wanted|
  {
    NodesProof(held - 1, LeafHashes(wanted))
  }

  lemma HonestSeed(xs: seq<Text>, ys: seq<Text>)
    requires 0 < |xs| && Agree(xs, ys)
    ensures var o := |xs| - 1;
            CheckFrom(o, |ys| - 1, Top(xs), Top(ys), (if o == 0 then [] else [ys[o]]) + Neighbours(o, ys)).Accepted?
  {
    var o := |xs| - 1;
    var more := Neighbours(o, ys);
    HonestStartIsAccepted(xs, ys);
    if o == 0 {
      assert [] + more == more;
    } else {
      assert ([ys[o]] + more)[1..] == more;
    }
  }

  lemma {:induction false} HonestNodes(xs: seq<Text>, ys: seq<Text>)
    requires Digests(xs) && Digests(ys) && 0 < |xs| && Agree(xs, ys)
    ensures CheckNodes(|xs| - 1, |ys| - 1, Top(xs), Top(ys), NodesProof(|xs| - 1, ys)).Accepted?
    decreases |xs|
  {
    if Odd(|xs| - 1) {
      LevelUp(xs, ys);
      PairsAgree(xs, ys);
      HonestNodes(PairUp(xs), PairUp(ys));
    } else {
      HonestSeed(xs, ys);
    }
  }

  lemma HonestProofIsAccepted(held: seq<Text>, wanted: seq<Text>)
    requires 0 < |held| && held <= wanted
    ensures Check(|held|, Root(held), Root(wanted), |wanted|, HonestProof(|held|, wanted)).Accepted?
  {
    LeafDigests(held);
    LeafDigests(wanted);
    assert LeafHashes(held) == LeafHashes(wanted)[..|held|];
    HonestNodes(LeafHashes(held), LeafHashes(wanted));
  }

  lemma {:induction false} ClimbLeavesTheRest(o: nat, n: nat, x: Text, y: Text, proof: seq<Text>, more: seq<Text>)
    requires Climb(o, n, x, y, proof).Some?
    ensures Climb(o, n, x, y, proof + more) == Climb(o, n, x, y, proof)
    decreases o + n
  {
    if o + n > 0 {
      var x', y', rest := ClimbGoesOn(o, n, x, y, proof);
      OneUpLeavesTheRest(o, n, x, y, proof, more);
      ClimbLeavesTheRest(Half(o), Half(n), x', y', rest, more);
      ClimbStep(o, n, x, y, proof + more);
    }
  }

  lemma OneUpLeavesTheRest(o: nat, n: nat, x: Text, y: Text, proof: seq<Text>, more: seq<Text>)
    requires OneUp(o, n, x, y, proof).Some?
    ensures var (x', y', rest) := OneUp(o, n, x, y, proof).value;
            OneUp(o, n, x, y, proof + more) == Some((x', y', rest + more))
  {
    if proof != [] {
      assert (proof + more)[1..] == proof[1..] + more;
    }
  }

  // Hashes that follow an accepted proof are not looked at.
  lemma {:induction false} LeftoversAreIgnored(held: nat, wanted: nat, root: Text, newRoot: Text,
                                               proof: seq<Text>, more: seq<Text>)
    requires CheckNodes(held, wanted, root, newRoot, proof).Accepted?
    ensures CheckNodes(held, wanted, root, newRoot, proof + more).Accepted?
    decreases held
  {
    if Odd(held) {
      LeftoversAreIgnored(Half(held), Half(wanted), root, newRoot, proof, more);
    } else if held != 0 {
      assert (proof + more)[0] == proof[0] && (proof + more)[1..] == proof[1..] + more;
      ClimbLeavesTheRest(held, wanted, proof[0], proof[0], proof[1..], more);
    } else {
      ClimbLeavesTheRest(held, wanted, root, root, proof, more);
    }
  }

  // Of identical logs any proof is accepted, of an empty one any log and proof;
  // a shorter log aborts.
  lemma WithoutLookingAtTheProof(held: seq<Text>, newRoot: Text, newSize: nat, proof: seq<Text>)
    ensures held == [] ==> Check(|held|, Root(held), newRoot, newSize, proof).Accepted?
    ensures newSize == |held| && newRoot == Root(held) ==>
      Check(|held|, Root(held), newRoot, newSize, proof).Accepted?
    ensures newSize < |held| ==> Check(|held|, Root(held), newRoot, newSize, proof).Aborted?
  {
  }

  // A proof that is accepted exists exactly when the new log extends the old.
  lemma ProvableIffPrefix(held: seq<Text>, wanted: seq<Text>)
    ensures (exists proof :: Check(|held|, Root(held), Root(wanted), |wanted|, proof).Accepted?)
            <==> held <= wanted
  {
    if held <= wanted {
      if held == [] {
        assert Check(0, Root(held), Root(wanted), |wanted|, []).Accepted?;
      } else {
        HonestProofIsAccepted(held, wanted);
      }
    }
    if proof :| Check(|held|, Root(held), Root(wanted), |wanted|, proof).Accepted? {
      AcceptedOnlyForPrefixes(held, wanted, proof);
    }
  }
}
