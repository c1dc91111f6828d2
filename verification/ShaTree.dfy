/** The Merkle tree over SHA-256, and the root of a block. */
module ShaTree {
  import opened MerkleSpec
  import T = MerkleTree
  import S = Sha256Spec
  import H = Sha256

  /** A hash function on messages of any length, with 32 bytes as its result. */
  ghost predicate Digests(f: Hash -> Hash) {
    forall m :: |f(m)| == 32
  }

  /** The hash of two nodes: that of the left one followed by the right one. */
  function NodeOf(f: Hash -> Hash): Combine {
    (a: Hash, b: Hash) => f(a + b)
  }

  predicate All32(xs: seq<Hash>) {
    forall i | 0 <= i < |xs| :: |xs[i]| == 32
  }

  lemma {:induction false} Nodes32(f: Hash -> Hash, xs: seq<Hash>, l: nat)
    requires Digests(f) && All32(xs)
    ensures All32(Level(NodeOf(f), xs, l))
  {
    if l > 0 {
      Nodes32(f, xs, l - 1);
      var a := Level(NodeOf(f), xs, l - 1);
      forall i | 0 <= i < |PairUp(NodeOf(f), a)| ensures |PairUp(NodeOf(f), a)[i]| == 32 {
        assert PairUp(NodeOf(f), a)[i] == PairAt(NodeOf(f), a, i);
      }
    }
  }

  /** The message that is hashed to make the parent of node `q`, if it has a sibling. */
  function Children(a: seq<Hash>, q: nat): Hash {
    if q % 2 == 1 && q < |a| then a[q - 1] + a[q] else if q + 1 < |a| then a[q] + a[q + 1] else []
  }

  /** The two trees hash different messages of 64 bytes below the ancestor of leaf `o` on level `k`, with
      the same result. */
  ghost predicate SameDigestAt(f: Hash -> Hash, xs: seq<Hash>, ys: seq<Hash>, o: nat, k: nat)
    requires k > 0
  {
    var m := Children(Level(NodeOf(f), xs, k - 1), Up(o, k - 1));
    var m' := Children(Level(NodeOf(f), ys, k - 1), Up(o, k - 1));
    m != m' && |m| == |m'| == 64 && f(m) == f(m')
  }

  ghost predicate SameDigest(f: Hash -> Hash, xs: seq<Hash>, ys: seq<Hash>, o: nat, l: nat) {
    exists k: nat | 0 < k <= l :: SameDigestAt(f, xs, ys, o, k)
  }

  lemma PairDigests(f: Hash -> Hash, a: seq<Hash>, b: seq<Hash>, q: nat)
    requires All32(a) && All32(b) && PairCollides(NodeOf(f), a, b, q)
    ensures var m, m' := Children(a, q), Children(b, q); m != m' && |m| == |m'| == 64 && f(m) == f(m')
  {
    var m, m' := Children(a, q), Children(b, q);
    if q % 2 == 1 {
      assert m[32..] == a[q] && m'[32..] == b[q];
    } else {
      assert m[..32] == a[q] && m'[..32] == b[q];
    }
  }

  /** A collision of nodes is one of the hash function, on two messages of 64 bytes. */
  lemma CollisionIsReal(f: Hash -> Hash, xs: seq<Hash>, ys: seq<Hash>, o: nat, l: nat)
    requires Digests(f) && All32(xs) && All32(ys) && Collides(NodeOf(f), xs, ys, o, l)
    ensures SameDigest(f, xs, ys, o, l)
  {
    var k: nat :| 0 < k <= l && CollidesAt(NodeOf(f), xs, ys, o, k);
    CollisionAt(f, xs, ys, o, k);
  }

  lemma CollisionAt(f: Hash -> Hash, xs: seq<Hash>, ys: seq<Hash>, o: nat, k: nat)
    requires Digests(f) && All32(xs) && All32(ys) && k > 0 && CollidesAt(NodeOf(f), xs, ys, o, k)
    ensures SameDigestAt(f, xs, ys, o, k)
  {
    var l := k - 1;
    Nodes32(f, xs, l);
    Nodes32(f, ys, l);
    PairDigests(f, Level(NodeOf(f), xs, l), Level(NodeOf(f), ys, l), Up(o, l));
  }

  lemma ShaDigests()
    ensures Digests(S.Sha256)
  {
  }

  /** A leaf of 32 bytes is accepted at a place only if it is there, or two messages of 64 bytes that the
      tree and the claim hash on the way up from that place have the same SHA-256. */
  method VerifyLeaf(tree: T.Tree, tag: Hash, offset: nat) returns (e: T.Status)
    requires tree.Valid() && tree.h == NodeOf(S.Sha256) && All32(tree.Leaves()) && |tag| == 32
    ensures e == T.Success ==>
              && offset < |tree.Leaves()|
              && (tag == tree.Leaves()[offset]
                 || SameDigest(S.Sha256, tree.Leaves(), tree.Leaves()[offset := tag], offset, 18))
  {
    e := tree.Verify(tag, offset);
    assert T.InitHash(tag) == tag;
    ghost var xs := tree.Leaves();
    if e == T.Success && tag != xs[offset] {
      ShaDigests();
      CollisionIsReal(S.Sha256, xs, xs[offset := tag], offset, 18);
    }
  }

  /** The digest of a leaf: that of its data, cut to the size modulo 2^32. */
  function LeafDigest(d: Hash): (r: Hash)
    ensures |r| == 32
  {
    S.Sha256(d[..|d| % H.TWO32])
  }

  function LeafDigests(data: seq<Hash>): (r: seq<Hash>)
    ensures |r| == |data| && All32(r)
  {
    seq(|data|, i requires 0 <= i < |data| => LeafDigest(data[i]))
  }

  /** The root of a block body. */
  function RootSpec(data: seq<Hash>): Hash
    requires data != []
  {
    Mth(NodeOf(S.Sha256), T.Block(LeafDigests(data), 0))
  }

  /** The digest of leaves, as a function whose definition is only used where a proof asks for it. */
  type Digester = f: Hash -> Hash | forall x {:trigger H.Mark(x)} :: H.Mark(x) ==> f == LeafDigest
    witness LeafDigest

  method HashOne(helper: H.Helper, data: Hash, ghost f: Digester) returns (digest: Hash)
    requires helper.Valid()
    modifies helper.ctx, helper.ctx.block
    ensures helper.Valid() && digest == f(data)
  {
    var ok;
    ok, digest := helper.Hash(data);
    assert H.Mark(0);
  }

  /** Hash all data with one helper. */
  method DigestAll(data: seq<Hash>, ghost f: Digester) returns (digests: seq<Hash>)
    ensures |digests| == |data| && forall j | 0 <= j < |data| :: digests[j] == f(data[j])
  {
    var helper := new H.Helper();
    digests := [];
    for i := 0 to |data|
      invariant helper.Valid() && fresh(helper.ctx) && fresh(helper.ctx.block)
      invariant |digests| == i && forall j | 0 <= j < i :: digests[j] == f(data[j])
    {
      var d := HashOne(helper, data[i], f);
      digests := digests + [d];
    }
  }

  lemma AllHashed(data: seq<Hash>, digests: seq<Hash>, f: Digester)
    requires |digests| == |data| && forall j | 0 <= j < |data| :: digests[j] == f(data[j])
    ensures digests == LeafDigests(data)
  {
    assert H.Mark(0);
  }

  /** The Merkle root that is stored with a block: over the SHA-256 digests of its data, in order. An empty
      block has none to read. */
  method BlockRoot(data: seq<Hash>) returns (e: T.Status, root: Hash)
    requires |data| < T.MAX_ELEMS
    ensures data == [] ==> e == T.NullRead
    ensures data != [] ==> e == T.Success && root == RootSpec(data)
  {
    ghost var f: Digester := LeafDigest;
    var digests := DigestAll(data, f);
    AllHashed(data, digests, f);
    e, root := T.RootOf(NodeOf(S.Sha256), digests);
  }
}
