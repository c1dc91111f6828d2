/** Merkle trees with promoted odd nodes, as a mathematical object.

    The root is the hash of section 2.1 of RFC 6962 without prefix bytes: split the leaves at the
    largest power of two smaller than their number. The tree is also a tower of levels, each
    pairing up the one below and promoting an odd last node unchanged. Both views agree. */
module MerkleSpec {

  type Hash = seq<bv8>

  type Combine = (Hash, Hash) -> Hash

  /******* The recursive hash *******/

  /** The largest power of two smaller than `n`. */
  function Split(n: nat): (k: nat)
    requires n >= 2
    ensures 0 < k < n <= 2 * k
  {
    if n == 2 then 1 else 2 * Split((n + 1) / 2)
  }

  function Mth(h: Combine, xs: seq<Hash>): Hash
    requires xs != []
    decreases |xs|
  {
    if |xs| == 1 then xs[0]
    else
      var k := Split(|xs|);
      h(Mth(h, xs[..k]), Mth(h, xs[k..]))
  }

  /******* The tower of levels *******/

  function PairAt(h: Combine, s: seq<Hash>, i: nat): Hash
    requires 2 * i < |s|
  {
    if 2 * i + 1 < |s| then h(s[2 * i], s[2 * i + 1]) else s[2 * i]
  }

  /** Pair up neighbours; an odd last node is promoted. */
  function PairUp(h: Combine, s: seq<Hash>): (r: seq<Hash>)
    ensures |r| == (|s| + 1) / 2
  {
    seq((|s| + 1) / 2, i requires 0 <= i < (|s| + 1) / 2 => PairAt(h, s, i))
  }

  /** Level `l` of the tree over `xs`, with promoted nodes. */
  function Level(h: Combine, xs: seq<Hash>, l: nat): seq<Hash> {
    if l == 0 then xs else PairUp(h, Level(h, xs, l - 1))
  }

  function Pow2(k: nat): (p: nat)
    ensures p > 0
  {
    if k == 0 then 1 else 2 * Pow2(k - 1)
  }

  /** The leaves split at a power of two. */
  lemma {:induction false} SplitIsPower(n: nat) returns (k: nat)
    requires n >= 2
    ensures Split(n) == Pow2(k)
  {
    if n == 2 {
      k := 0;
    } else {
      k := SplitIsPower((n + 1) / 2);
      k := k + 1;
    }
  }

  /** The hashes over two, three and five leaves: left before right, an odd last leaf by itself. */
  lemma SmallTrees(h: Combine, a: Hash, b: Hash, c: Hash, d: Hash, e: Hash)
    ensures Mth(h, [a, b]) == h(a, b)
    ensures Mth(h, [a, b, c]) == h(h(a, b), c)
    ensures Mth(h, [a, b, c, d, e]) == h(h(h(a, b), h(c, d)), e)
  {
    MthPairUp(h, [a, b]);
    MthPairUp(h, [a, b, c]);
    MthPairUp(h, [a, b, c, d, e]);
    MthPairUp(h, [h(a, b), h(c, d), e]);
    MthPairUp(h, [h(h(a, b), h(c, d)), e]);
    assert PairUp(h, [a, b]) == [h(a, b)];
    assert PairUp(h, [a, b, c]) == [h(a, b), c];
    assert PairUp(h, [a, b, c, d, e]) == [h(a, b), h(c, d), e];
    assert PairUp(h, [h(a, b), h(c, d), e]) == [h(h(a, b), h(c, d)), e];
    assert PairUp(h, [h(h(a, b), h(c, d)), e]) == [h(h(h(a, b), h(c, d)), e)];
    assert PairUp(h, [h(a, b), c]) == [h(h(a, b), c)];
    MthPairUp(h, [h(a, b), c]);
  }

  /** The number of nodes on level `l` of a tree with `n` leaves. */
  function Width(n: nat, l: nat): nat { if l == 0 then n else (Width(n, l - 1) + 1) / 2 }

  lemma {:induction false} LevelWidth(h: Combine, xs: seq<Hash>, l: nat)
    ensures |Level(h, xs, l)| == Width(|xs|, l)
  {
    if l > 0 { LevelWidth(h, xs, l - 1); }
  }

  /** Halving `l` times: the width is one exactly when the leaves fit under 2^l. */
  lemma {:induction false} WidthBound(n: nat, l: nat, m: nat)
    ensures Width(n, l) <= m <==> n <= m * Pow2(l)
    decreases l
  {
    if l > 0 {
      WidthBound(n, l - 1, 2 * m);
      assert 2 * m * Pow2(l - 1) == m * Pow2(l) by { Double(m, Pow2(l - 1)); }
    }
  }

  lemma Double(m: nat, p: nat)
    ensures 2 * m * p == m * (2 * p)
  {
  }

  /******* Both views agree *******/

  /** Cutting at an even place, then pairing up, is pairing up, then cutting. */
  lemma PairUpCut(h: Combine, xs: seq<Hash>, c: nat)
    requires 2 * c <= |xs|
    ensures PairUp(h, xs)[..c] == PairUp(h, xs[..2 * c])
    ensures PairUp(h, xs)[c..] == PairUp(h, xs[2 * c..])
  {
    var p, b := PairUp(h, xs), xs[2 * c..];
    assert p[..c] == PairUp(h, xs[..2 * c]);
    forall i | 0 <= i < |p| - c ensures p[c..][i] == PairUp(h, b)[i] {
      assert PairAt(h, xs, c + i) == PairAt(h, b, i);
    }
  }

  /** Pairing up the leaves does not change the recursive hash. */
  lemma {:induction false} MthPairUp(h: Combine, xs: seq<Hash>)
    requires xs != []
    ensures Mth(h, PairUp(h, xs)) == Mth(h, xs)
    decreases |xs|
  {
    var n := |xs|;
    if n == 1 {
      assert PairUp(h, xs) == xs;
    } else if n == 2 {
      assert xs[..1] == [xs[0]] && xs[1..] == [xs[1]];
      assert PairUp(h, xs) == [h(xs[0], xs[1])];
    } else {
      var c := Split((n + 1) / 2);
      PairUpCut(h, xs, c);
      MthPairUp(h, xs[..2 * c]);
      MthPairUp(h, xs[2 * c..]);
    }
  }

  /** Every level hashes to the same root. */
  lemma {:induction false} LevelMth(h: Combine, xs: seq<Hash>, l: nat)
    requires xs != []
    ensures Level(h, xs, l) != [] && Mth(h, Level(h, xs, l)) == Mth(h, xs)
  {
    if l > 0 {
      LevelMth(h, xs, l - 1);
      MthPairUp(h, Level(h, xs, l - 1));
    }
  }

  /** The first node of level `l` is the recursive hash of the first 2^l leaves. */
  lemma {:induction false} FirstNode(h: Combine, xs: seq<Hash>, l: nat)
    requires xs != []
    ensures Level(h, xs, l) != []
    ensures Level(h, xs, l)[0] == Mth(h, xs[..if |xs| <= Pow2(l) then |xs| else Pow2(l)])
    decreases l
  {
    var m := if |xs| <= Pow2(l) then |xs| else Pow2(l);
    LevelPrefix(h, xs, l);
    LevelMth(h, xs[..m], l);
    LevelWidth(h, xs[..m], l);
    WidthBound(m, l, 1);
    var top := Level(h, xs[..m], l);
    assert |top| == 1;
  }

  /** The first node of level `l` only depends on the first 2^l leaves. */
  lemma {:induction false} LevelPrefix(h: Combine, xs: seq<Hash>, l: nat)
    requires xs != []
    ensures var m := if |xs| <= Pow2(l) then |xs| else Pow2(l);
            Level(h, xs, l) != [] && Level(h, xs[..m], l) != [] && Level(h, xs, l)[0] == Level(h, xs[..m], l)[0]
    decreases l
  {
    LevelMth(h, xs, l);
    if |xs| <= Pow2(l) { assert xs[..|xs|] == xs; } else { PrefixLevels(h, xs, l, 1); }
  }

  /** Levels of a prefix of c * 2^l leaves are prefixes of levels. */
  lemma {:induction false} PrefixLevels(h: Combine, xs: seq<Hash>, l: nat, c: nat)
    requires c * Pow2(l) <= |xs|
    ensures |Level(h, xs, l)| >= c && Level(h, xs[..c * Pow2(l)], l) == Level(h, xs, l)[..c]
    decreases l
  {
    if l == 0 {
      assert xs[..c * 1] == xs[..c];
    } else {
      Double(c, Pow2(l - 1));
      PrefixLevels(h, xs, l - 1, 2 * c);
      var s := Level(h, xs, l - 1);
      assert PairUp(h, s[..2 * c]) == PairUp(h, s)[..c];
    }
  }

  lemma {:induction false} WidthOne(n: nat, l: nat, k: nat)
    requires Width(n, l) <= 1 && l <= k
    ensures Width(n, k) <= 1
    decreases k
  {
    if l < k { WidthOne(n, l, k - 1); }
  }

  /** A level of a single node holds the root. */
  lemma SingleNode(h: Combine, xs: seq<Hash>, l: nat)
    requires xs != [] && Width(|xs|, l) <= 1
    ensures |Level(h, xs, l)| == 1 && Level(h, xs, l)[0] == Mth(h, xs)
  {
    LevelMth(h, xs, l);
    LevelWidth(h, xs, l);
  }

  /** The levels of a prefix or suffix cut at a multiple of 2^l are the levels, cut. */
  lemma {:induction false} SuffixLevels(h: Combine, xs: seq<Hash>, l: nat, c: nat)
    requires c * Pow2(l) <= |xs|
    ensures |Level(h, xs, l)| >= c && Level(h, xs[c * Pow2(l)..], l) == Level(h, xs, l)[c..]
    decreases l
  {
    if l == 0 {
      assert xs[c * 1..] == xs[c..];
    } else {
      Double(c, Pow2(l - 1));
      SuffixLevels(h, xs, l - 1, 2 * c);
      PairUpCut(h, Level(h, xs, l - 1), c);
    }
  }

  /** The ancestor on level `l` of leaf `o`. */
  function Up(o: nat, l: nat): nat { if l == 0 then o else Up(o, l - 1) / 2 }

  lemma {:induction false} UpBound(o: nat, l: nat, m: nat)
    ensures Up(o, l) < m <==> o < m * Pow2(l)
    decreases l
  {
    if l > 0 {
      UpBound(o, l - 1, 2 * m);
      assert 2 * m * Pow2(l - 1) == m * Pow2(l) by { Double(m, Pow2(l - 1)); }
    }
  }

  /******* The tower as a value *******/

  /** All levels of a tree: the nodes of each level, and those of them that are stored. */
  datatype Tower = Tower(nodes: seq<seq<Hash>>, stored: seq<seq<Hash>>)

  /** Level `b` pairs up level `a`; its nodes that have two children are stored. */
  predicate Link(h: Combine, a: seq<Hash>, b: seq<Hash>, s: seq<Hash>) {
    && |b| == (|a| + 1) / 2 && s == b[..|a| / 2]
    && forall i | 0 <= i < |b| :: b[i] == PairAt(h, a, i)
  }

  predicate LinkAt(h: Combine, v: Tower, l: nat)
    requires 0 < l < |v.nodes| == |v.stored|
  {
    Link(h, v.nodes[l - 1], v.nodes[l], v.stored[l])
  }

  predicate IsTower(h: Combine, v: Tower, height: nat) {
    && |v.nodes| == |v.stored| == height > 0
    && v.stored[0] == v.nodes[0]
    && forall l | 0 < l < height :: LinkAt(h, v, l)
  }

  lemma MakeTower(h: Combine, xs: seq<Hash>, height: nat) returns (v: Tower)
    requires height > 0
    ensures IsTower(h, v, height) && v.nodes[0] == xs
  {
    v := Tower([xs], [xs]);
    while |v.nodes| < height
      invariant 0 < |v.nodes| <= height && IsTower(h, v, |v.nodes|) && v.nodes[0] == xs
    {
      var a := v.nodes[|v.nodes| - 1];
      var b := PairUp(h, a);
      assert Link(h, a, b, b[..|a| / 2]);
      var w := Tower(v.nodes + [b], v.stored + [b[..|a| / 2]]);
      assert forall l | 0 < l < |v.nodes| :: LinkAt(h, v, l) ==> LinkAt(h, w, l);
      v := w;
    }
  }

  lemma {:induction false} TowerLevel(h: Combine, v: Tower, height: nat, l: nat)
    requires IsTower(h, v, height) && l < height
    ensures v.nodes[l] == Level(h, v.nodes[0], l)
  {
    if l > 0 {
      TowerLevel(h, v, height, l - 1);
      assert LinkAt(h, v, l);
      assert v.nodes[l] == PairUp(h, v.nodes[l - 1]);
    }
  }

  /** No level is larger than the leaves. */
  lemma {:induction false} TowerNarrows(h: Combine, v: Tower, height: nat, l: nat)
    requires IsTower(h, v, height) && l < height
    ensures |v.stored[l]| <= |v.nodes[l]| <= |v.nodes[0]|
    ensures v.nodes[0] != [] ==> v.nodes[l] != []
  {
    if l > 0 {
      TowerNarrows(h, v, height, l - 1);
      assert LinkAt(h, v, l);
    }
  }

  lemma TowerWidth(h: Combine, v: Tower, height: nat, l: nat)
    requires IsTower(h, v, height) && l < height
    ensures |v.nodes[l]| == Width(|v.nodes[0]|, l)
  {
    TowerLevel(h, v, height, l);
    LevelWidth(h, v.nodes[0], l);
  }

  /******* Appending a leaf *******/

  /** `b` is `a` after its last node changed or a node was added. */
  predicate Grown(a: seq<Hash>, b: seq<Hash>) {
    && |b| > 0 && |b| - 1 <= |a| <= |b|
    && forall i | 0 <= i < |b| - 1 :: a[i] == b[i]
  }

  /** Set place `i` of `s`, which may be the place just after its last. */
  function Put(s: seq<Hash>, i: nat, d: Hash): seq<Hash>
    requires i <= |s|
  {
    if i == |s| then s + [d] else s[i := d]
  }

  /** What an append does one level up, seen from the last node of level `b`, whose parent is on
      level `up`: the stored part of that level goes from `s` to `t`. */
  predicate Carries(h: Combine, s: seq<Hash>, t: seq<Hash>, b: seq<Hash>, up: seq<Hash>) {
    var q := |b| - 1;
    && q >= 0 && |up| == q / 2 + 1
    && up[q / 2] == (if q % 2 == 1 then h(b[q - 1], b[q]) else b[q])
    && |t| == |b| / 2
    && (q % 2 == 0 ==> t == s)
    && (q % 2 == 1 ==> q / 2 <= |s| <= q / 2 + 1 && t == Put(s, q / 2, up[q / 2]))
  }

  lemma LinkGrown(h: Combine, a: seq<Hash>, a': seq<Hash>, s: seq<Hash>, b: seq<Hash>, b': seq<Hash>, t: seq<Hash>)
    requires Grown(a, b) && Link(h, a, a', s) && Link(h, b, b', t)
    ensures Grown(a', b')
  {
    forall i | 0 <= i < |b'| - 1 ensures a'[i] == b'[i] {
      assert a[2 * i] == b[2 * i] && a[2 * i + 1] == b[2 * i + 1];
    }
  }

  lemma LinkCarries(h: Combine, a: seq<Hash>, a': seq<Hash>, s: seq<Hash>, b: seq<Hash>, b': seq<Hash>, t: seq<Hash>)
    requires Grown(a, b) && Link(h, a, a', s) && Link(h, b, b', t)
    ensures Carries(h, s, t, b, b')
  {
    LinkGrown(h, a, a', s, b, b', t);
    var q := |b| - 1;
    assert b'[q / 2] == PairAt(h, b, q / 2);
    assert forall i | 0 <= i < q / 2 :: s[i] == t[i];
    if q % 2 == 1 { assert t == Put(s, q / 2, b'[q / 2]); } else { assert t == s; }
  }

  /** Appending a leaf changes at most the last node of each level. */
  lemma {:induction false} AppendLevel(h: Combine, v: Tower, w: Tower, height: nat, l: nat)
    requires IsTower(h, v, height) && IsTower(h, w, height) && l < height && Grown(v.nodes[0], w.nodes[0])
    ensures Grown(v.nodes[l], w.nodes[l])
    ensures l > 0 ==> Carries(h, v.stored[l], w.stored[l], w.nodes[l - 1], w.nodes[l])
  {
    if l > 0 {
      AppendLevel(h, v, w, height, l - 1);
      assert LinkAt(h, v, l) && LinkAt(h, w, l);
      LinkGrown(h, v.nodes[l - 1], v.nodes[l], v.stored[l], w.nodes[l - 1], w.nodes[l], w.stored[l]);
      LinkCarries(h, v.nodes[l - 1], v.nodes[l], v.stored[l], w.nodes[l - 1], w.nodes[l], w.stored[l]);
    }
  }

  /** Above a level of a single node an append stores nothing. */
  lemma {:induction false} AppendAbove(h: Combine, v: Tower, w: Tower, height: nat, l: nat, k: nat)
    requires IsTower(h, v, height) && IsTower(h, w, height) && l <= k < height && Grown(v.nodes[0], w.nodes[0])
    requires |w.nodes[l]| == 1
    ensures |w.nodes[k]| == 1 && (l < k ==> v.stored[k] == w.stored[k])
  {
    if l < k {
      AppendAbove(h, v, w, height, l, k - 1);
      AppendLevel(h, v, w, height, k);
    }
  }

  /******* Replacing a leaf *******/

  /** `b` is `a` with another hash at `q`. */
  predicate Replaced(a: seq<Hash>, b: seq<Hash>, q: nat) {
    |a| == |b| && q < |b| && b == a[q := b[q]]
  }

  /** One step towards the root from node `q` of `level`, whose hash is claimed to be `d`. */
  function Step(h: Combine, level: seq<Hash>, q: nat, d: Hash): Hash
    requires q < |level|
  {
    if q % 2 == 1 then h(level[q - 1], d) else if q + 1 < |level| then h(d, level[q + 1]) else d
  }

  lemma LinkReplaced(h: Combine, a: seq<Hash>, a': seq<Hash>, s: seq<Hash>, b: seq<Hash>, b': seq<Hash>,
                     t: seq<Hash>, q: nat)
    requires Replaced(a, b, q) && Link(h, a, a', s) && Link(h, b, b', t)
    ensures Replaced(a', b', q / 2) && b'[q / 2] == Step(h, a, q, b[q])
    ensures t == if q / 2 < |s| then s[q / 2 := b'[q / 2]] else s
  {
    forall i | 0 <= i < |b'| && i != q / 2 ensures a'[i] == b'[i] {
      assert PairAt(h, a, i) == PairAt(h, b, i);
    }
    assert b'[q / 2] == PairAt(h, b, q / 2);
  }

  /** Replacing a leaf changes its ancestors and nothing else. */
  lemma {:induction false} ReplaceLevel(h: Combine, v: Tower, w: Tower, height: nat, o: nat, l: nat)
    requires IsTower(h, v, height) && IsTower(h, w, height) && l < height && Replaced(v.nodes[0], w.nodes[0], o)
    ensures Replaced(v.nodes[l], w.nodes[l], Up(o, l))
    ensures l > 0 ==>
              && Up(o, l - 1) < |v.nodes[l - 1]| == |w.nodes[l - 1]|
              && w.nodes[l][Up(o, l)] == Step(h, v.nodes[l - 1], Up(o, l - 1), w.nodes[l - 1][Up(o, l - 1)])
    ensures w.stored[l] == var s, q := v.stored[l], Up(o, l); if q < |s| then s[q := w.nodes[l][q]] else s
  {
    if l > 0 {
      ReplaceLevel(h, v, w, height, o, l - 1);
      assert LinkAt(h, v, l) && LinkAt(h, w, l);
      LinkReplaced(h, v.nodes[l - 1], v.nodes[l], v.stored[l], w.nodes[l - 1], w.nodes[l], w.stored[l], Up(o, l - 1));
    }
  }

  /** Node `q` differs between two levels, its sibling does not, and yet their parents are equal: two
      different pairs of nodes hash to the same value. */
  predicate PairCollides(h: Combine, a: seq<Hash>, b: seq<Hash>, q: nat) {
    var r := if q % 2 == 1 then q - 1 else q + 1;
    && |a| == |b| && q < |a| && r < |a| && a[q] != b[q] && a[r] == b[r]
    && if q % 2 == 1 then h(a[r], a[q]) == h(b[r], b[q]) else h(a[q], a[r]) == h(b[q], b[r])
  }

  /** In the trees over `xs` and `ys` the pairs of nodes below the ancestor of leaf `o` on level `k` collide. */
  predicate CollidesAt(h: Combine, xs: seq<Hash>, ys: seq<Hash>, o: nat, k: nat)
    requires k > 0
  {
    PairCollides(h, Level(h, xs, k - 1), Level(h, ys, k - 1), Up(o, k - 1))
  }

  ghost predicate Collides(h: Combine, xs: seq<Hash>, ys: seq<Hash>, o: nat, l: nat) {
    exists k: nat | 0 < k <= l :: CollidesAt(h, xs, ys, o, k)
  }

  lemma PairsReplaced(h: Combine, a: seq<Hash>, b: seq<Hash>, q: nat)
    requires Replaced(a, b, q)
    ensures Replaced(PairUp(h, a), PairUp(h, b), q / 2)
  {
    var c, d := PairUp(h, a), PairUp(h, b);
    forall i | 0 <= i < |d| && i != q / 2 ensures c[i] == d[i] {
      assert PairAt(h, a, i) == PairAt(h, b, i);
    }
  }

  /** Level by level, trees that differ in leaf `o` differ in its ancestors only. */
  lemma {:induction false} LevelReplaced(h: Combine, xs: seq<Hash>, ys: seq<Hash>, o: nat, l: nat)
    requires Replaced(xs, ys, o)
    ensures Replaced(Level(h, xs, l), Level(h, ys, l), Up(o, l))
  {
    if l > 0 {
      LevelReplaced(h, xs, ys, o, l - 1);
      PairsReplaced(h, Level(h, xs, l - 1), Level(h, ys, l - 1), Up(o, l - 1));
    }
  }

  lemma PairsCollide(h: Combine, a: seq<Hash>, b: seq<Hash>, q: nat)
    requires Replaced(a, b, q) && a != b && PairUp(h, a) == PairUp(h, b)
    ensures PairCollides(h, a, b, q)
  {
    assert PairAt(h, a, q / 2) == PairUp(h, a)[q / 2] == PairUp(h, b)[q / 2] == PairAt(h, b, q / 2);
  }

  /** If trees that differ in one leaf agree on a level, two different pairs of their nodes on the way up
      from that leaf have the same hash. */
  lemma {:induction false} AncestorBinds(h: Combine, xs: seq<Hash>, ys: seq<Hash>, o: nat, l: nat)
    requires Replaced(xs, ys, o) && xs != ys && Level(h, xs, l) == Level(h, ys, l)
    ensures Collides(h, xs, ys, o, l)
  {
    if Level(h, xs, l - 1) == Level(h, ys, l - 1) {
      AncestorBinds(h, xs, ys, o, l - 1);
    } else {
      LevelReplaced(h, xs, ys, o, l - 1);
      PairsCollide(h, Level(h, xs, l - 1), Level(h, ys, l - 1), Up(o, l - 1));
      assert CollidesAt(h, xs, ys, o, l);
    }
  }

  /** The root binds every leaf: another leaf with the same root makes two pairs of nodes on its way up
      collide. */
  lemma RootBindsLeaf(h: Combine, xs: seq<Hash>, o: nat, d: Hash)
    requires o < |xs| && Mth(h, xs[o := d]) == Mth(h, xs) && d != xs[o]
    ensures Collides(h, xs, xs[o := d], o, |xs|)
  {
    var l := |xs|;
    Tall(l);
    WidthBound(|xs|, l, 1);
    SingleNode(h, xs, l);
    SingleNode(h, xs[o := d], l);
    AncestorBinds(h, xs, xs[o := d], o, l);
  }

  lemma {:induction false} Tall(n: nat)
    ensures n <= Pow2(n)
  {
    if n > 0 { Tall(n - 1); }
  }
}
