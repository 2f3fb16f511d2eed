// The trie behind a root hash, and the check of a state proof against it: an
// accepted answer is the one the trie holds, and the trie's own can be proved.
module StateTries {
  import opened Options
  import opened TrieNodes
  import opened StateProofs

  // The trie itself, nothing replaced by its hash.
  predicate Whole(t: Node) {
    match t
    case Hash(_) => false
    case Leaf(path, _) => path != [] && LeafFlag(path[0])
    case Extension(path, next) => path != [] && !LeafFlag(path[0]) && Whole(next)
    case Full(children, held) =>
      && |children| == RADIX && held != Some([])
      && forall i :: 0 <= i < RADIX && children[i].Some? ==> Whole(children[i].value)
  }

  // What it holds: all its paths with their values.
  function Entries(t: Node): set<(seq<nibble>, Bytes)>
    requires Whole(t)
  {
    match t
    case Leaf(path, value) => {(ParsePath(path).1, value)}
    case Extension(path, next) => set e | e in Entries(next) :: (ParsePath(path).1 + e.0, e.1)
    case Full(children, held) =>
      (if held.Some? then {([], held.value)} else {})
      + set i: nibble, e | children[i].Some? && e in Entries(children[i].value) :: ([i] + e.0, e.1)
  }

  function Content(t: Node, path: seq<nibble>): Option<Bytes>
    requires Whole(t)
  {
    match t
    case Leaf(stored, value) => if ParsePath(stored).1 == path then Some(value) else None
    case Extension(stored, next) =>
      var nibbles := ParsePath(stored).1;
      if nibbles <= path then Content(next, path[|nibbles|..]) else None
    case Full(children, held) =>
      if path == [] then held
      else if children[path[0]].Some? then Content(children[path[0]].value, path[1..])
      else None
  }

  lemma {:induction false} EntriesBelow(t: Node, i: nibble, path: seq<nibble>, v: Bytes)
    requires Whole(t) && t.Full? && path != [] && i == path[0]
    ensures (path, v) in Entries(t) <==>
      t.children[i].Some? && (path[1..], v) in Entries(t.children[i].value)
  {
    if t.children[i].Some? && (path[1..], v) in Entries(t.children[i].value) {
      var e := (path[1..], v);
      assert [i] + e.0 == path;
      assert ([i] + e.0, e.1) in Entries(t);
    }
    if (path, v) in Entries(t) {
      var j: nibble, e :| t.children[j].Some? && e in Entries(t.children[j].value) && ([j] + e.0, e.1) == (path, v);
      assert e.0 == path[1..] && j == i;
    }
  }

  lemma EntriesBeyond(t: Node, path: seq<nibble>, v: Bytes)
    requires Whole(t) && t.Extension?
    ensures var nibbles := ParsePath(t.path).1;
            (path, v) in Entries(t) <==> nibbles <= path && (path[|nibbles|..], v) in Entries(t.next)
  {
    var nibbles := ParsePath(t.path).1;
    if nibbles <= path && (path[|nibbles|..], v) in Entries(t.next) {
      var e := (path[|nibbles|..], v);
      assert nibbles + e.0 == path;
      assert (nibbles + e.0, e.1) in Entries(t);
    }
    if (path, v) in Entries(t) {
      var e :| e in Entries(t.next) && (nibbles + e.0, e.1) == (path, v);
      assert e.0 == path[|nibbles|..];
    }
  }

  // The value at a path is the one that the trie lists for it, and no other.
  lemma {:induction false} ContentIsListed(t: Node, path: seq<nibble>, v: Bytes)
    requires Whole(t)
    ensures (path, v) in Entries(t) <==> Content(t, path) == Some(v)
  {
    match t
    case Leaf(_, _) =>
    case Extension(stored, next) =>
      EntriesBeyond(t, path, v);
      var nibbles := ParsePath(stored).1;
      if nibbles <= path {
        ContentIsListed(next, path[|nibbles|..], v);
      }
    case Full(children, _) =>
      if path != [] {
        EntriesBelow(t, path[0], path, v);
        if children[path[0]].Some? {
          ContentIsListed(children[path[0]].value, path[1..], v);
        }
      }
  }

  // ---- how a trie is stored ----

  // Which nodes are written into the node above them; for all others their
  // hash is written there.
  datatype Storage = Storage(hash: Hasher, inlined: Node -> bool)

  function NodeHash(st: Storage, n: Node): Digest { st.hash(EncodeNode(n)) }

  function Stored(st: Storage, t: Node): Node
    decreases t, 0
  {
    match t
    case Extension(path, next) => Extension(path, Reference(st, next))
    case Full(children, held) =>
      Full(seq(|children|, i requires 0 <= i < |children| =>
                 if children[i].None? then None else Some(Reference(st, children[i].value))), held)
    case _ => t
  }

  function Reference(st: Storage, t: Node): Node
    decreases t, 1
  {
    var n := Stored(st, t);
    if st.inlined(n) then n else Hash(NodeHash(st, n))
  }

  lemma {:induction false} StoredIsDecoded(st: Storage, t: Node)
    requires Whole(t)
    ensures Decoded(Stored(st, t)) && Decoded(Reference(st, t)) && !Stored(st, t).Hash?
  {
    match t
    case Leaf(_, _) =>
    case Extension(_, next) => StoredIsDecoded(st, next);
    case Full(children, _) =>
      forall i | 0 <= i < RADIX && children[i].Some?
        ensures Decoded(Reference(st, children[i].value))
      {
        StoredIsDecoded(st, children[i].value);
      }
  }

  function Subtrees(t: Node): set<Node> {
    match t
    case Extension(_, next) => {t} + Subtrees(next)
    case Full(children, _) =>
      {t} + set i, u | 0 <= i < |children| && children[i].Some? && u in Subtrees(children[i].value) :: u
    case _ => {t}
  }

  lemma {:induction false} SubtreesAreWhole(t: Node, u: Node)
    requires Whole(t) && u in Subtrees(t)
    ensures Whole(u)
  {
    if u != t {
      match t
      case Extension(_, next) => SubtreesAreWhole(next, u);
      case Full(children, _) =>
        var i :| 0 <= i < |children| && children[i].Some? && u in Subtrees(children[i].value);
        SubtreesAreWhole(children[i].value, u);
    }
  }

  // Two encodings with one hash, of a node that was received and of one the
  // trie is stored in.
  ghost predicate Collision(st: Storage, nodes: seq<Node>, t: Node) {
    exists n, u :: n in nodes && u in Subtrees(t)
      && EncodeNode(n) != EncodeNode(Stored(st, u)) && NodeHash(st, n) == NodeHash(st, Stored(st, u))
  }

  // ---- soundness ----

  lemma {:induction false} DbHolds(h: Hasher, nodes: seq<Node>, k: Bytes)
    requires AllDecoded(nodes) && k in DbOf(h, nodes)
    ensures DbOf(h, nodes)[k] in nodes && h(EncodeNode(DbOf(h, nodes)[k])) == k
  {
    var last := nodes[|nodes| - 1];
    if k != h(EncodeNode(last)) {
      DbHolds(h, nodes[..|nodes| - 1], k);
    }
  }

  predicate LeadsBack(db: TrieDb, st: Storage, t: Node) {
    NodeHash(st, Stored(st, t)) in db ==> db[NodeHash(st, Stored(st, t))] == Stored(st, t)
  }

  // Under the hash of a stored node there is that node or none.
  ghost predicate Faithful(db: TrieDb, st: Storage, t: Node) {
    forall u {:trigger u in Subtrees(t)} :: u in Subtrees(t) ==> LeadsBack(db, st, u)
  }

  lemma StoredLeadsBack(st: Storage, nodes: seq<Node>, t: Node, u: Node)
    requires AllDecoded(nodes) && Whole(u) && u in Subtrees(t) && !Collision(st, nodes, t)
    ensures LeadsBack(DbOf(st.hash, nodes), st, u)
  {
    var k := NodeHash(st, Stored(st, u));
    if k in DbOf(st.hash, nodes) {
      var n := DbOf(st.hash, nodes)[k];
      DbHolds(st.hash, nodes, k);
      StoredIsDecoded(st, u);
      assert EncodeNode(n) == EncodeNode(Stored(st, u));
      EncodingIsInjective(n, Stored(st, u));
    }
  }

  lemma NoCollisionIsFaithful(st: Storage, nodes: seq<Node>, t: Node)
    requires AllDecoded(nodes) && Whole(t) && !Collision(st, nodes, t)
    ensures Faithful(DbOf(st.hash, nodes), st, t)
  {
    forall u {:trigger u in Subtrees(t)} | u in Subtrees(t)
      ensures LeadsBack(DbOf(st.hash, nodes), st, u)
    {
      SubtreesAreWhole(t, u);
      StoredLeadsBack(st, nodes, t, u);
    }
  }

  lemma SelfSubtree(t: Node)
    ensures t in Subtrees(t)
  {
  }

  ghost predicate Agrees(f: Found, t: Node, path: seq<nibble>)
    requires Whole(t)
  {
    f.Value? ==> f.value == Content(t, path)
  }

  // Where the search goes on, if it does.
  function Below(t: Node, path: seq<nibble>): (r: Option<(Node, seq<nibble>)>)
    requires Whole(t)
    ensures r.Some? ==> Whole(r.value.0) && r.value.0 < t && Subtrees(r.value.0) <= Subtrees(t)
  {
    match t
    case Leaf(_, _) => None
    case Extension(stored, next) =>
      var nibbles := ParsePath(stored).1;
      if nibbles <= path then Some((next, path[|nibbles|..])) else None
    case Full(children, _) =>
      if path != [] && children[path[0]].Some? then Some((children[path[0]].value, path[1..])) else None
  }

  lemma OneStep(db: TrieDb, st: Storage, t: Node, path: seq<nibble>, depth: nat)
    requires Whole(t) && Decoded(Stored(st, t))
    ensures Below(t, path).None? ==> Lookup(db, Stored(st, t), path, depth + 1) == Value(Content(t, path))
    ensures Below(t, path).Some? ==>
      var (u, rest) := Below(t, path).value;
      && Decoded(Reference(st, u)) && Content(t, path) == Content(u, rest)
      && Lookup(db, Stored(st, t), path, depth + 1) == Lookup(db, Reference(st, u), rest, depth)
  {
    if Below(t, path).Some? {
      StoredIsDecoded(st, Below(t, path).value.0);
    }
  }

  lemma AgreesBelow(db: TrieDb, st: Storage, t: Node, path: seq<nibble>, depth: nat)
    requires Whole(t) && Decoded(Stored(st, t))
    requires Below(t, path).Some? ==>
      var (u, rest) := Below(t, path).value;
      Decoded(Reference(st, u)) && Agrees(Lookup(db, Reference(st, u), rest, depth), u, rest)
    ensures Agrees(Lookup(db, Stored(st, t), path, depth + 1), t, path)
  {
    OneStep(db, st, t, path, depth);
  }

  lemma FaithfulBelow(db: TrieDb, st: Storage, t: Node, u: Node)
    requires Subtrees(u) <= Subtrees(t) && Faithful(db, st, t)
    ensures Faithful(db, st, u)
  {
  }

  lemma {:induction false} ReferenceIsSound(db: TrieDb, st: Storage, t: Node, path: seq<nibble>, depth: nat)
    requires Whole(t) && Faithful(db, st, t)
    ensures Decoded(Reference(st, t)) && Agrees(Lookup(db, Reference(st, t), path, depth), t, path)
    decreases depth, 1
  {
    StoredIsDecoded(st, t);
    SelfSubtree(t);
    if depth > 0 && NodeHash(st, Stored(st, t)) in db {
      StoredIsSound(db, st, t, path, depth - 1);
    }
    if st.inlined(Stored(st, t)) {
      StoredIsSound(db, st, t, path, depth);
    }
  }

  lemma {:induction false} StoredIsSound(db: TrieDb, st: Storage, t: Node, path: seq<nibble>, depth: nat)
    requires Whole(t) && Faithful(db, st, t)
    ensures Decoded(Stored(st, t)) && Agrees(Lookup(db, Stored(st, t), path, depth), t, path)
    decreases depth, 0
  {
    StoredIsDecoded(st, t);
    if depth > 0 {
      if Below(t, path).Some? {
        var (u, rest) := Below(t, path).value;
        FaithfulBelow(db, st, t, u);
        ReferenceIsSound(db, st, u, rest, depth - 1);
      }
      AgreesBelow(db, st, t, path, depth - 1);
    }
  }

  // What the trie lists for a key: a value that reads as the text, or nothing.
  ghost predicate TrieSays(read: Reader, t: Node, key: Bytes, expected: Option<string>)
    requires Whole(t)
  {
    if expected.Some? then exists v :: (Nibbles(key), v) in Entries(t) && read(v) == expected
    else forall v :: (Nibbles(key), v) !in Entries(t)
  }

  lemma SaysWhatIsListed(read: Reader, t: Node, key: Bytes, expected: Option<string>)
    requires Whole(t)
    ensures Says(read, Content(t, Nibbles(key)), expected) <==> TrieSays(read, t, key, expected)
  {
    forall v
      ensures (Nibbles(key), v) in Entries(t) <==> Content(t, Nibbles(key)) == Some(v)
    {
      ContentIsListed(t, Nibbles(key), v);
    }
  }

  // Whatever nodes were sent, an answer accepted under the root hash of a trie,
  // that a key is absent included, is what the trie says; or else the nodes hold
  // a collision of the hash.
  lemma AcceptedIsReal(st: Storage, read: Reader, t: Node, proof: Item, key: Bytes, expected: Option<string>)
    requires Whole(t) && Accepts(st.hash, read, proof, NodeHash(st, Stored(st, t)), key, expected)
    ensures TrieSays(read, t, key, expected) || Collision(st, NodesOf(proof), t)
  {
    var root := NodeHash(st, Stored(st, t));
    var depth :| Verify(st.hash, read, proof, root, key, expected, depth).Accepted?;
    if !Collision(st, NodesOf(proof), t) {
      NoCollisionIsFaithful(st, NodesOf(proof), t);
      SelfSubtree(t);
      StoredIsSound(DbOf(st.hash, NodesOf(proof)), st, t, Nibbles(key), depth);
      SaysWhatIsListed(read, t, key, expected);
    }
  }

  // So, collisions apart, there is one answer under one root hash.
  lemma OneAnswer(st: Storage, read: Reader, t: Node, key: Bytes,
                  p: Item, e: Option<string>, q: Item, f: Option<string>)
    requires Whole(t) && !Collision(st, NodesOf(p), t) && !Collision(st, NodesOf(q), t)
    requires Accepts(st.hash, read, p, NodeHash(st, Stored(st, t)), key, e)
    requires Accepts(st.hash, read, q, NodeHash(st, Stored(st, t)), key, f)
    ensures e == f
  {
    AcceptedIsReal(st, read, t, p, key, e);
    AcceptedIsReal(st, read, t, q, key, f);
    SaysWhatIsListed(read, t, key, e);
    SaysWhatIsListed(read, t, key, f);
    forall v
      ensures (Nibbles(key), v) in Entries(t) <==> Content(t, Nibbles(key)) == Some(v)
    {
      ContentIsListed(t, Nibbles(key), v);
    }
  }

  // ---- completeness ----

  // The stored nodes on the way along a path.
  function Way(st: Storage, t: Node, path: seq<nibble>): seq<Node>
    requires Whole(t)
  {
    [Stored(st, t)] + WayBelow(st, t, path)
  }

  function WayBelow(st: Storage, t: Node, path: seq<nibble>): seq<Node>
    requires Whole(t)
    decreases t
  {
    if Below(t, path).None? then []
    else
      var (u, rest) := Below(t, path).value;
      [Stored(st, u)] + WayBelow(st, u, rest)
  }

  lemma {:induction false} SubtreeOf(st: Storage, t: Node, path: seq<nibble>, n: Node) returns (u: Node)
    requires Whole(t) && n in Way(st, t, path)
    ensures u in Subtrees(t) && Whole(u) && n == Stored(st, u)
    decreases t
  {
    if n == Stored(st, t) {
      u := t;
      SelfSubtree(t);
    } else {
      var (v, rest) := Below(t, path).value;
      u := SubtreeOf(st, v, rest, n);
    }
  }

  predicate HasNode(db: TrieDb, st: Storage, n: Node) {
    NodeHash(st, n) in db && db[NodeHash(st, n)] == n
  }

  predicate Has(db: TrieDb, st: Storage, nodes: seq<Node>) {
    forall i :: 0 <= i < |nodes| ==> HasNode(db, st, nodes[i])
  }

  lemma HasParts(db: TrieDb, st: Storage, n: Node, rest: seq<Node>)
    requires Has(db, st, [n] + rest)
    ensures HasNode(db, st, n) && Has(db, st, rest)
  {
    assert ([n] + rest)[0] == n;
    assert forall i :: 0 <= i < |rest| ==> ([n] + rest)[i + 1] == rest[i];
  }

  lemma ReferenceLookup(db: TrieDb, st: Storage, t: Node, path: seq<nibble>, depth: nat) returns (d: nat)
    requires Decoded(Stored(st, t)) && HasNode(db, st, Stored(st, t))
    ensures Decoded(Reference(st, t))
    ensures Lookup(db, Reference(st, t), path, d) == Lookup(db, Stored(st, t), path, depth)
  {
    d := if st.inlined(Stored(st, t)) then depth else depth + 1;
  }

  lemma {:induction false} StoredLookup(db: TrieDb, st: Storage, t: Node, path: seq<nibble>) returns (depth: nat)
    requires Whole(t) && Has(db, st, WayBelow(st, t, path))
    ensures Decoded(Stored(st, t)) && Lookup(db, Stored(st, t), path, depth) == Value(Content(t, path))
    decreases t
  {
    StoredIsDecoded(st, t);
    if Below(t, path).None? {
      OneStep(db, st, t, path, 0);
      depth := 1;
    } else {
      var (u, rest) := Below(t, path).value;
      HasParts(db, st, Stored(st, u), WayBelow(st, u, rest));
      var d := StoredLookup(db, st, u, rest);
      d := ReferenceLookup(db, st, u, rest, d);
      OneStep(db, st, t, path, d);
      depth := d + 1;
    }
  }

  // No two encodings of nodes the trie is stored in have one hash.
  ghost predicate Separate(st: Storage, t: Node) {
    forall u, w :: u in Subtrees(t) && w in Subtrees(t)
                   && NodeHash(st, Stored(st, u)) == NodeHash(st, Stored(st, w)) ==>
      EncodeNode(Stored(st, u)) == EncodeNode(Stored(st, w))
  }

  // The proof an honest ledger sends for a key: the nodes on its way.
  function HonestProof(st: Storage, t: Node, key: Bytes): Item
    requires Whole(t)
  {
    List(Encodings(Way(st, t, Nibbles(key))))
  }

  function Encodings(nodes: seq<Node>): (items: seq<Item>)
    ensures |items| == |nodes|
  {
    if nodes == [] then [] else Encodings(nodes[..|nodes| - 1]) + [EncodeNode(nodes[|nodes| - 1])]
  }

  lemma {:induction false} EncodingsDecode(nodes: seq<Node>)
    requires AllDecoded(nodes)
    ensures DecodeAll(Encodings(nodes)) == Parsed(nodes)
  {
    if nodes != [] {
      var k := |nodes| - 1;
      EncodingsDecode(nodes[..k]);
      EncodedNodeDecodes(nodes[k]);
      assert Encodings(nodes)[..k] == Encodings(nodes[..k]);
      assert nodes[..k] + [nodes[k]] == nodes;
    }
  }

  ghost predicate Apart(st: Storage, nodes: seq<Node>) {
    forall i, j :: 0 <= i < |nodes| && 0 <= j < |nodes| && NodeHash(st, nodes[i]) == NodeHash(st, nodes[j]) ==>
      nodes[i] == nodes[j]
  }

  lemma {:induction false} DbHas(st: Storage, nodes: seq<Node>, i: nat)
    requires AllDecoded(nodes) && Apart(st, nodes) && i < |nodes|
    ensures HasNode(DbOf(st.hash, nodes), st, nodes[i])
  {
    var k := |nodes| - 1;
    if i < k {
      DbHas(st, nodes[..k], i);
      assert NodeHash(st, nodes[i]) == NodeHash(st, nodes[k]) ==> nodes[i] == nodes[k];
    }
  }

  lemma DbHasAll(st: Storage, nodes: seq<Node>)
    requires AllDecoded(nodes) && Apart(st, nodes)
    ensures Has(DbOf(st.hash, nodes), st, nodes)
  {
    forall i | 0 <= i < |nodes|
      ensures HasNode(DbOf(st.hash, nodes), st, nodes[i])
    {
      DbHas(st, nodes, i);
    }
  }

  lemma WayIsApart(st: Storage, t: Node, path: seq<nibble>)
    requires Whole(t) && Separate(st, t)
    ensures AllDecoded(Way(st, t, path)) && Apart(st, Way(st, t, path))
  {
    var nodes := Way(st, t, path);
    forall i | 0 <= i < |nodes|
      ensures Decoded(nodes[i])
    {
      var u := SubtreeOf(st, t, path, nodes[i]);
      StoredIsDecoded(st, u);
    }
    forall i, j | 0 <= i < |nodes| && 0 <= j < |nodes| && NodeHash(st, nodes[i]) == NodeHash(st, nodes[j])
      ensures nodes[i] == nodes[j]
    {
      var u := SubtreeOf(st, t, path, nodes[i]);
      var w := SubtreeOf(st, t, path, nodes[j]);
      EncodingIsInjective(nodes[i], nodes[j]);
    }
  }

  // What the trie says of a key, that it is absent included, is accepted with
  // the nodes on the key's way.
  lemma HonestProofIsAccepted(st: Storage, read: Reader, t: Node, key: Bytes, expected: Option<string>)
    requires Whole(t) && Separate(st, t) && TrieSays(read, t, key, expected)
    ensures Accepts(st.hash, read, HonestProof(st, t, key), NodeHash(st, Stored(st, t)), key, expected)
    ensures NodesOf(HonestProof(st, t, key)) == Way(st, t, Nibbles(key))
  {
    var path := Nibbles(key);
    var nodes := Way(st, t, path);
    SaysWhatIsListed(read, t, key, expected);
    WayIsApart(st, t, path);
    EncodingsDecode(nodes);
    DbHasAll(st, nodes);
    var db := DbOf(st.hash, nodes);
    HasParts(db, st, Stored(st, t), WayBelow(st, t, path));
    var depth := StoredLookup(db, st, t, path);
    assert Verify(st.hash, read, HonestProof(st, t, key), NodeHash(st, Stored(st, t)), key, expected, depth).Accepted?;
  }

  // So, collisions apart, an answer can be proved exactly if it is the trie's.
  lemma ProvableIffReal(st: Storage, read: Reader, t: Node, key: Bytes, expected: Option<string>)
    requires Whole(t) && Separate(st, t)
    ensures (exists proof :: !Collision(st, NodesOf(proof), t)
                             && Accepts(st.hash, read, proof, NodeHash(st, Stored(st, t)), key, expected))
            <==> TrieSays(read, t, key, expected)
  {
    if TrieSays(read, t, key, expected) {
      HonestProofIsAccepted(st, read, t, key, expected);
      HonestNodesDoNotCollide(st, t, key);
    }
    if proof :| !Collision(st, NodesOf(proof), t)
                && Accepts(st.hash, read, proof, NodeHash(st, Stored(st, t)), key, expected) {
      AcceptedIsReal(st, read, t, proof, key, expected);
    }
  }

  lemma HonestNodesDoNotCollide(st: Storage, t: Node, key: Bytes)
    requires Whole(t) && Separate(st, t) && NodesOf(HonestProof(st, t, key)) == Way(st, t, Nibbles(key))
    ensures !Collision(st, NodesOf(HonestProof(st, t, key)), t)
  {
    forall n | n in Way(st, t, Nibbles(key))
      ensures exists u :: u in Subtrees(t) && n == Stored(st, u)
    {
      var u := SubtreeOf(st, t, Nibbles(key), n);
    }
  }
}
