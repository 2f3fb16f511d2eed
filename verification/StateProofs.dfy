// The check of a state proof: what a list of trie nodes, which anybody may have
// sent, shows about the value of a key under a root hash.
module StateProofs {
  import opened Options
  import opened TrieNodes
  import Verkeys

  type Digest = d: Bytes | |d| == HASH_SIZE witness Verkeys.ZERO_KEY

  // The hash of the encoding of a node.
  type Hasher = Item -> Digest

  // What the bytes of a value say: a list of one text.
  type Reader = Bytes -> Option<string>

  type TrieDb = m: map<Bytes, Node> | forall k :: k in m ==> Decoded(m[k])

  datatype Found = Value(value: Option<Bytes>) | Incomplete | Mismarked | Unfinished

  // From a node along a path. Hashes may lead round in a circle, so this says
  // how it ends if that takes at most so many steps.
  function Lookup(db: TrieDb, node: Node, path: seq<nibble>, depth: nat): Found
    requires Decoded(node)
    decreases depth
  {
    if depth == 0 then Unfinished
    else
      match node
      case Full(children, held) =>
        if path == [] then Value(held)
        else if children[path[0]].Some? then Lookup(db, children[path[0]].value, path[1..], depth - 1)
        else Value(None)
      case Hash(hash) =>
        if hash in db then Lookup(db, db[hash], path, depth - 1) else Incomplete
      case Leaf(stored, value) =>
        var (isLeaf, nibbles) := ParsePath(stored);
        if !isLeaf then Mismarked
        else if nibbles == path then Value(Some(value))
        else Value(None)
      case Extension(stored, next) =>
        var (isLeaf, nibbles) := ParsePath(stored);
        if isLeaf then Mismarked
        else if nibbles <= path then Lookup(db, next, path[|nibbles|..], depth - 1)
        else Value(None)
  }

  // ---- the check ----

  // The nodes of the list; the first that cannot be decoded decides.
  function DecodeAll(items: seq<Item>): Parse<seq<Node>> {
    if items == [] then Parsed([])
    else
      match DecodeAll(items[..|items| - 1])
      case Malformed => Malformed
      case Panicked => Panicked
      case Parsed(nodes) =>
        match DecodeNode(items[|items| - 1])
        case Parsed(n) => Parsed(nodes + [n])
        case Malformed => Malformed
        case Panicked => Panicked
  }

  predicate AllDecoded(nodes: seq<Node>) {
    forall i :: 0 <= i < |nodes| ==> Decoded(nodes[i])
  }

  function DbOf(h: Hasher, nodes: seq<Node>): TrieDb
    requires AllDecoded(nodes)
  {
    if nodes == [] then map[]
    else
      var last := nodes[|nodes| - 1];
      DbOf(h, nodes[..|nodes| - 1])[h(EncodeNode(last)) := last]
  }

  datatype Verdict = Accepted | Rejected | Aborted | Undecided

  // None expected means that the key is expected to be absent.
  predicate Says(read: Reader, value: Option<Bytes>, expected: Option<string>) {
    if value.None? then expected.None? else read(value.value).Some? && read(value.value) == expected
  }

  function Judge(read: Reader, found: Found, expected: Option<string>): Verdict {
    match found
    case Value(value) => if Says(read, value, expected) then Accepted else Rejected
    case Unfinished => Undecided
    case _ => Rejected
  }

  lemma {:induction false} DecodeAllIsDecoded(items: seq<Item>)
    ensures DecodeAll(items).Parsed? ==> AllDecoded(DecodeAll(items).value)
  {
    if items != [] {
      DecodeAllIsDecoded(items[..|items| - 1]);
      DecodingYieldsDecoded(items[|items| - 1]);
    }
  }

  // What a list that cannot be decoded leaves is no node at all.
  function NodesOf(proof: Item): (nodes: seq<Node>)
    ensures AllDecoded(nodes)
  {
    if proof.List? && DecodeAll(proof.items).Parsed? then
      DecodeAllIsDecoded(proof.items);
      DecodeAll(proof.items).value
    else []
  }

  function Verify(h: Hasher, read: Reader, proof: Item, root: Bytes, key: Bytes, expected: Option<string>, depth: nat)
    : Verdict
  {
    var db := DbOf(h, NodesOf(proof));
    if proof.List? && DecodeAll(proof.items).Panicked? then Aborted
    else if root !in db then Rejected
    else Judge(read, Lookup(db, db[root], Nibbles(key), depth), expected)
  }

  ghost predicate Accepts(h: Hasher, read: Reader, proof: Item, root: Bytes, key: Bytes, expected: Option<string>) {
    exists depth :: Verify(h, read, proof, root, key, expected, depth).Accepted?
  }

  lemma {:induction false} FailureStays(items: seq<Item>, k: nat)
    requires k <= |items| && !DecodeAll(items[..k]).Parsed?
    ensures DecodeAll(items) == DecodeAll(items[..k])
  {
    if k < |items| {
      assert items[..|items| - 1][..k] == items[..k];
      FailureStays(items[..|items| - 1], k);
    } else {
      assert items[..k] == items;
    }
  }

  method DecodeList(items: seq<Item>) returns (r: Parse<seq<Node>>)
    ensures r == DecodeAll(items)
  {
    var nodes := [];
    for i := 0 to |items|
      invariant DecodeAll(items[..i]) == Parsed(nodes)
    {
      assert items[..i + 1][..i] == items[..i];
      var n := DecodeNode(items[i]);
      if !n.Parsed? {
        FailureStays(items, i + 1);
        return if n.Malformed? then Malformed else Panicked;
      }
      nodes := nodes + [n.value];
    }
    assert items[..|items|] == items;
    r := Parsed(nodes);
  }

  method VerifyProof(h: Hasher, read: Reader, proof: Item, root: Bytes, key: Bytes, expected: Option<string>,
                     depth: nat)
    returns (v: Verdict)
    ensures v == Verify(h, read, proof, root, key, expected, depth)
  {
    var nodes := [];
    if proof.List? {
      var r := DecodeList(proof.items);
      if r.Panicked? {
        return Aborted;
      }
      if r.Parsed? {
        nodes := r.value;
      }
    }
    assert nodes == NodesOf(proof);
    var db: TrieDb := map[];
    for i := 0 to |nodes|
      invariant AllDecoded(nodes[..i]) && db == DbOf(h, nodes[..i])
    {
      assert nodes[..i + 1][..i] == nodes[..i];
      db := db[h(EncodeNode(nodes[i])) := nodes[i]];
    }
    assert nodes[..|nodes|] == nodes;
    if root !in db {
      return Rejected;
    }
    var path := PathToNibbles(key);
    v := Judge(read, Lookup(db, db[root], path, depth), expected);
  }

  // The first item that is no node decides: the check panics or rejects, and
  // the rest is not looked at.
  lemma FirstBadItemDecides(h: Hasher, read: Reader, items: seq<Item>, i: nat, root: Bytes, key: Bytes,
                            expected: Option<string>, depth: nat)
    requires i < |items| && DecodeAll(items[..i]).Parsed? && !DecodeNode(items[i]).Parsed?
    ensures Verify(h, read, List(items), root, key, expected, depth)
            == if DecodeNode(items[i]).Panicked? then Aborted else Rejected
  {
    assert items[..i + 1][..i] == items[..i];
    FailureStays(items, i + 1);
  }

  // A lookup that ends does so in the same way, however many steps it may take.
  lemma {:induction false} DeeperIsSame(db: TrieDb, node: Node, path: seq<nibble>, d: nat, e: nat)
    requires Decoded(node) && d <= e && Lookup(db, node, path, d) != Unfinished
    ensures Lookup(db, node, path, e) == Lookup(db, node, path, d)
    decreases d
  {
    match node
    case Full(children, _) =>
      if path != [] && children[path[0]].Some? {
        DeeperIsSame(db, children[path[0]].value, path[1..], d - 1, e - 1);
      }
    case Hash(hash) =>
      if hash in db {
        DeeperIsSame(db, db[hash], path, d - 1, e - 1);
      }
    case Leaf(_, _) =>
    case Extension(stored, next) =>
      var nibbles := ParsePath(stored).1;
      if nibbles <= path {
        DeeperIsSame(db, next, path[|nibbles|..], d - 1, e - 1);
      }
  }

  // Received nodes are never marked wrongly, since decoding goes by the mark.
  lemma {:induction false} NeverMismarked(db: TrieDb, node: Node, path: seq<nibble>, depth: nat)
    requires Decoded(node)
    ensures Lookup(db, node, path, depth) != Mismarked
    decreases depth
  {
    if depth > 0 {
      match node
      case Full(children, _) =>
        if path != [] && children[path[0]].Some? {
          NeverMismarked(db, children[path[0]].value, path[1..], depth - 1);
        }
      case Hash(hash) =>
        if hash in db {
          NeverMismarked(db, db[hash], path, depth - 1);
        }
      case Leaf(_, _) =>
      case Extension(stored, next) =>
        var nibbles := ParsePath(stored).1;
        if nibbles <= path {
          NeverMismarked(db, next, path[|nibbles|..], depth - 1);
        }
    }
  }
}
