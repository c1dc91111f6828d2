/** The incremental Merkle tree: twenty growable arrays of hashes, one per level.

    Every operation is proved against the tree of MerkleSpec. The loops that look for the root stop
    one level below the last, so everything that concerns the root has 2^18 leaves as its limit. */
module MerkleTree {
  import opened Collections
  import opened MerkleSpec

  const HASH_LENGTH: nat := 32
  const TREE_LEVELS: nat := 20
  const MAX_ELEMS: nat := 524288

  /** The outcomes of an operation; NullRead stands for a read through a null pointer. */
  datatype Status = Success | IllegalParam | IllegalState | RootMismatch | NullRead

  /******* The array of one level *******/

  predicate IsPow2(v: nat) {
    v == 1 || (v > 0 && v % 2 == 0 && IsPow2(v / 2))
  }

  lemma {:induction false} Pow2Gap(a: nat, b: nat)
    requires IsPow2(a) && IsPow2(b) && a < b
    ensures 2 * a <= b
  {
    if a > 1 { Pow2Gap(a / 2, b / 2); }
  }

  lemma Sizes()
    ensures Pow2(18) == 262144 && Pow2(19) == MAX_ELEMS && IsPow2(MAX_ELEMS)
  {
    assert Pow2(5) == 32;
    assert Pow2(10) == 1024;
    assert Pow2(14) == 16384;
    assert Pow2(18) == 262144;
    assert IsPow2(32);
    assert IsPow2(1024);
    assert IsPow2(16384);
    assert IsPow2(262144);
  }

  /** A block is full when its number of elements is a power of two, and can then be doubled. */
  lemma BlockFull(elems: nat, block: nat)
    requires IsPow2(elems) && IsPow2(block) && elems <= block < 2 * elems && elems < MAX_ELEMS
    ensures elems == block && 2 * elems <= MAX_ELEMS && IsPow2(2 * elems)
  {
    Sizes();
    Pow2Gap(elems, MAX_ELEMS);
    if elems < block { Pow2Gap(elems, block); }
  }

  class ArrList {
    var store: seq<Hash>   // the allocated block
    var elems: nat

    /** The block has the least power of two that holds the elements. */
    ghost predicate Valid()
      reads this
    {
      && elems <= |store|
      && (elems > 0 ==> IsPow2(|store|) && |store| < 2 * elems)
    }

    ghost function Contents(): seq<Hash>
      requires Valid()
      reads this
    {
      store[..elems]
    }

    constructor ()
      ensures Valid() && Contents() == []
    {
      store, elems := [], 0;
    }

    method Add(hash: Hash) returns (e: Status)
      requires Valid() && elems < MAX_ELEMS
      modifies this
      ensures Valid() && e == Success && Contents() == old(Contents()) + [hash]
    {
      if elems == 0 {
        store := [hash];
      } else if IsPow2(elems) {
        BlockFull(elems, |store|);
        if 2 * elems > MAX_ELEMS {
          return IllegalState;
        }
        assert |seq(elems, _ => hash)| == elems;
        var grown: seq<Hash> :| |grown| == elems;
        store := store + grown;
      }
      store := store[elems := hash];
      elems := elems + 1;
      e := Success;
    }

    method Update(hash: Hash, offset: nat) returns (e: Status)
      requires Valid() && elems < MAX_ELEMS
      modifies this
      ensures Valid()
      ensures if offset < old(elems) then e == Success && Contents() == old(Contents())[offset := hash]
              else e == IllegalParam && Contents() == old(Contents())
    {
      if offset >= elems { return IllegalParam; }
      store := store[offset := hash];
      e := Success;
    }

    method UpdateIfExists(hash: Hash, offset: nat) returns (e: Status)
      requires Valid() && elems < MAX_ELEMS
      modifies this
      ensures Valid() && e == Success
      ensures Contents() == if offset < old(elems) then old(Contents())[offset := hash] else old(Contents())
    {
      if offset < elems { store := store[offset := hash]; }
      e := Success;
    }

    method AddOrUpdate(hash: Hash, offset: nat) returns (e: Status)
      requires Valid() && elems < MAX_ELEMS
      modifies this
      ensures Valid()
      ensures if offset <= old(elems) then e == Success && Contents() == Put(old(Contents()), offset, hash)
              else e == IllegalParam && Contents() == old(Contents())
    {
      if offset > elems { return IllegalParam; }
      if offset == elems { e := Add(hash); } else { e := Update(hash, offset); }
    }

    method Get(offset: nat) returns (r: Option<Hash>)
      requires Valid() && elems < MAX_ELEMS
      ensures r == if offset < |Contents()| then Some(Contents()[offset]) else None
    {
      r := if offset < elems then Some(store[offset]) else None;
    }
  }

  /******* What the tree computes *******/

  /** The leaves that the searches see from leaf `o`: an aligned block of at most 2^18. */
  function Block(xs: seq<Hash>, o: nat): (r: seq<Hash>)
    requires o < |xs|
    ensures |xs| <= 262144 ==> r == xs
  {
    if |xs| <= 262144 then xs else if o < 262144 then xs[..262144] else xs[262144..]
  }

  /** Where a search stops after `l` levels of tower `v`. */
  predicate Stops(v: Tower, l: nat)
    requires |v.nodes| == TREE_LEVELS
  {
    && l <= 18 && (l == 18 || |v.nodes[l]| <= 1)
    && (l > 0 ==> |v.nodes[l - 1]| >= 2)
  }

  /** The ancestor of a leaf where a search stops is the hash of its block. It is not stored exactly for
      the leaves past 2^18 of a tree with at most 2^18 + 2^17 of them. */
  lemma StopsAtBlock(h: Combine, v: Tower, o: nat, l: nat)
    requires IsTower(h, v, TREE_LEVELS) && o < |v.nodes[0]| < MAX_ELEMS && Stops(v, l)
    ensures Up(o, l) < |v.nodes[l]| && v.nodes[l][Up(o, l)] == Mth(h, Block(v.nodes[0], o))
    ensures Up(o, l) < |v.stored[l]| <==> !(262144 <= o && |v.nodes[0]| <= 393216)
    ensures v.stored[l] <= v.nodes[l]
  {
    if |v.nodes[0]| <= 262144 { SmallBlock(h, v, o, l); } else { LargeBlock(h, v, o, l); }
    if l > 0 { assert LinkAt(h, v, l); }
  }

  lemma SmallBlock(h: Combine, v: Tower, o: nat, l: nat)
    requires IsTower(h, v, TREE_LEVELS) && o < |v.nodes[0]| <= 262144 && Stops(v, l)
    ensures Up(o, l) == 0 && |v.nodes[l]| == |v.stored[l]| == 1 && v.nodes[l][0] == Mth(h, v.nodes[0])
  {
    var xs := v.nodes[0];
    Sizes();
    WidthBound(|xs|, 18, 1);
    TowerWidth(h, v, TREE_LEVELS, l);
    TowerLevel(h, v, TREE_LEVELS, l);
    SingleNode(h, xs, l);
    WidthBound(|xs|, l, 1);
    UpBound(o, l, 1);
    if l > 0 { assert LinkAt(h, v, l); }
  }

  lemma LargeBlock(h: Combine, v: Tower, o: nat, l: nat)
    requires IsTower(h, v, TREE_LEVELS) && o < |v.nodes[0]| < MAX_ELEMS && |v.nodes[0]| > 262144 && Stops(v, l)
    ensures Up(o, l) < |v.nodes[l]| && v.nodes[l][Up(o, l)] == Mth(h, Block(v.nodes[0], o))
    ensures Up(o, l) < |v.stored[l]| <==> !(262144 <= o && |v.nodes[0]| <= 393216)
  {
    LargeWidth(h, v, l);
    TowerLevel(h, v, TREE_LEVELS, l);
    LargeUp(o, l);
    TwoBlocks(h, v.nodes[0], l);
    LargeStored(h, v, l);
  }

  lemma LargeUp(o: nat, l: nat)
    requires o < MAX_ELEMS && l == 18
    ensures Up(o, l) == if o < 262144 then 0 else 1
  {
    Sizes();
    UpBound(o, l, 1);
    UpBound(o, l, 2);
  }

  lemma TwoBlocks(h: Combine, xs: seq<Hash>, l: nat)
    requires l == 18 && 262144 < |xs| < MAX_ELEMS && |Level(h, xs, l)| == 2
    ensures Level(h, xs, l)[0] == Mth(h, xs[..262144])
    ensures Level(h, xs, l)[1] == Mth(h, xs[262144..])
  {
    Sizes();
    FirstNode(h, xs, l);
    var rest := xs[262144..];
    SuffixLevels(h, xs, l, 1);
    FirstNode(h, rest, l);
    assert rest[..|rest|] == rest;
  }

  lemma LargeStored(h: Combine, v: Tower, l: nat)
    requires IsTower(h, v, TREE_LEVELS) && l == 18 && 262144 < |v.nodes[0]| < MAX_ELEMS && |v.nodes[l]| == 2
    ensures |v.stored[l]| == if |v.nodes[0]| <= 393216 then 1 else 2
  {
    Sizes();
    assert LinkAt(h, v, l);
    TowerWidth(h, v, TREE_LEVELS, l - 1);
    WidthBound(|v.nodes[0]|, l - 1, 3);
  }

  lemma LargeWidth(h: Combine, v: Tower, l: nat)
    requires IsTower(h, v, TREE_LEVELS) && 262144 < |v.nodes[0]| < MAX_ELEMS && Stops(v, l)
    ensures l == 18 && |v.nodes[l]| == 2
  {
    Sizes();
    TowerWidth(h, v, TREE_LEVELS, l);
    WidthBound(|v.nodes[0]|, 18, 1);
    WidthBound(|v.nodes[0]|, 18, 2);
    if l < 18 { WidthOne(|v.nodes[0]|, l, 18); }
  }

  /** The root is the hash of all leaves, whatever the hash function, exactly up to 2^18 leaves. */
  lemma RootExact(xs: seq<Hash>)
    requires xs != [] && forall i | 0 <= i < |xs| :: |xs[i]| == HASH_LENGTH
    ensures (forall h: Combine :: Mth(h, Block(xs, 0)) == Mth(h, xs)) <==> |xs| <= 262144
  {
    if |xs| > 262144 {
      var cat: Combine := (a: Hash, b: Hash) => a + b;
      CatLength(cat, xs);
      CatLength(cat, Block(xs, 0));
      assert Mth(cat, Block(xs, 0)) != Mth(cat, xs);
    }
  }

  lemma {:induction false} CatLength(cat: Combine, xs: seq<Hash>)
    requires forall a: Hash, b: Hash :: cat(a, b) == a + b
    requires xs != [] && forall i | 0 <= i < |xs| :: |xs[i]| == HASH_LENGTH
    ensures |Mth(cat, xs)| == HASH_LENGTH * |xs|
    decreases |xs|
  {
    if |xs| > 1 {
      var k := Split(|xs|);
      CatLength(cat, xs[..k]);
      CatLength(cat, xs[k..]);
    }
  }

  /** What the last level holds of a tree with leaves `xs`: their root, once there are two blocks. */
  function Top(h: Combine, xs: seq<Hash>): seq<Hash> {
    if |xs| > 262144 then [Mth(h, xs)] else []
  }

  lemma TopStored(h: Combine, v: Tower)
    requires IsTower(h, v, TREE_LEVELS) && 0 < |v.nodes[0]| < MAX_ELEMS
    ensures |v.nodes[19]| == 1 && v.stored[19] == Top(h, v.nodes[0])
    ensures v.stored[19] == if |v.nodes[18]| >= 2 then v.nodes[19] else []
  {
    var xs, l := v.nodes[0], 19;
    Sizes();
    assert LinkAt(h, v, l);
    WidthBound(|xs|, 18, 1);
    WidthBound(|xs|, l, 1);
    TowerWidth(h, v, TREE_LEVELS, l - 1);
    TowerWidth(h, v, TREE_LEVELS, l);
    TowerNarrows(h, v, TREE_LEVELS, l - 1);
    TowerNarrows(h, v, TREE_LEVELS, l);
    TowerLevel(h, v, TREE_LEVELS, l);
    SingleNode(h, xs, l);
  }

  /** An append leaves the root on the last level, if it stores anything there. */
  lemma TopAfter(h: Combine, v: Tower, w: Tower, top: nat, c: seq<Hash>)
    requires IsTower(h, v, TREE_LEVELS) && IsTower(h, w, TREE_LEVELS) && Grown(v.nodes[0], w.nodes[0])
    requires 0 < |w.nodes[0]| < MAX_ELEMS && top <= 19 && |w.nodes[top]| == 1
    requires |c| == |w.stored[19]| && (top == 19 ==> c == w.nodes[19])
    ensures c == Top(h, w.nodes[0])
  {
    TopStored(h, w);
    if top < 19 { AppendAbove(h, v, w, TREE_LEVELS, top, 18); }
  }

  /******* The tree *******/

  /** A tag, padded with zeros to the length of a hash. */
  function InitHash(tag: seq<bv8>): (r: Hash)
    requires |tag| <= HASH_LENGTH
    ensures |r| == HASH_LENGTH && tag <= r && forall i | |tag| <= i < |r| :: r[i] == 0
  {
    tag + seq(HASH_LENGTH - |tag|, _ => 0)
  }

  class Tree {
    const h: Combine
    const level: seq<ArrList>
    var elems: nat
    ghost var view: Tower
    ghost var added: seq<Hash>   // the leaves when the last one was appended

    ghost predicate Shape() {
      && |level| == TREE_LEVELS
      && forall i, j | 0 <= i < j < TREE_LEVELS :: level[i] != level[j]
    }

    /** Level `k` stores `s`; of the last level, which Update does not reach, only the number of nodes. */
    ghost predicate Has(k: nat, s: seq<Hash>)
      requires k < |level|
      reads level[k]
    {
      && level[k].Valid()
      && |level[k].Contents()| == |s| < MAX_ELEMS
      && (k < 19 ==> level[k].Contents() == s)
    }

    ghost predicate Valid()
      reads this, level
    {
      && Shape() && IsTower(h, view, TREE_LEVELS) && elems == |view.nodes[0]| < MAX_ELEMS
      && (forall k | 0 <= k < TREE_LEVELS :: Has(k, view.stored[k]))
      && |added| == elems && level[19].Valid() && level[19].Contents() == Top(h, added)
    }

    ghost function Leaves(): seq<Hash>
      requires Valid()
      reads this, level
    {
      view.nodes[0]
    }

    constructor (h: Combine)
      ensures Valid() && Leaves() == [] && this.h == h && fresh(level)
    {
      var levels: seq<ArrList> := [];
      for i := 0 to TREE_LEVELS
        invariant |levels| == i
        invariant forall j | 0 <= j < i :: fresh(levels[j]) && levels[j].Valid() && levels[j].Contents() == []
        invariant forall j, k | 0 <= j < k < i :: levels[j] != levels[k]
      {
        var a := new ArrList();
        levels := levels + [a];
      }
      this.h := h;
      level := levels;
      elems := 0;
      ghost var v := MakeTower(h, [], TREE_LEVELS);
      view, added := v, [];
      new;
      forall k | 0 <= k < TREE_LEVELS ensures Has(k, view.stored[k]) {
        TowerNarrows(h, view, TREE_LEVELS, k);
      }
    }

    /** One level of Add: pair a right node with its left neighbour and store their hash one level up. */
    method Carry(q: nat, l: nat, digest: Hash, ghost v: Tower, ghost w: Tower) returns (next: Hash, e: Status)
      requires Shape() && l < 19 && |v.stored| == |w.stored| == |w.nodes| == TREE_LEVELS
      requires Carries(h, v.stored[l + 1], w.stored[l + 1], w.nodes[l], w.nodes[l + 1])
      requires Has(l, w.stored[l]) && Has(l + 1, v.stored[l + 1]) && |w.stored[l + 1]| < MAX_ELEMS
      requires w.stored[l] <= w.nodes[l] && |w.nodes[l]| <= |w.stored[l]| + 1
      requires 0 < q == |w.nodes[l]| - 1 && digest == w.nodes[l][q]
      modifies level[l + 1]
      ensures e == Success && Has(l + 1, w.stored[l + 1]) && next == w.nodes[l + 1][q / 2]
      ensures q == 1 ==> level[l + 1].Contents() == w.stored[l + 1] == [next]
    {
      next, e := digest, Success;
      if q % 2 == 1 {
        var left := level[l].Get(q - 1);
        next := h(left.value, digest);
        e := level[l + 1].AddOrUpdate(next, q / 2);
      }
    }

    /** Bring the nodes on the path of the last leaf up to date. */
    method CarryUp(leaf: Hash, ghost v: Tower, ghost w: Tower) returns (e: Status, ghost top: nat)
      requires Shape() && |v.stored| == |w.stored| == |w.nodes| == TREE_LEVELS && |w.nodes[19]| == 1
      requires forall l | 0 <= l < 19 :: Appended1(h, v, w, l)
      requires 0 < elems == |w.nodes[0]| && w.stored[0] == w.nodes[0] && leaf == w.nodes[0][elems - 1]
      requires Has(0, w.stored[0]) && forall k | 0 < k < TREE_LEVELS :: Has(k, v.stored[k])
      modifies level
      ensures e == Success && top < TREE_LEVELS && |w.nodes[top]| == 1
      ensures level[top].Valid() && level[top].Contents() == w.nodes[top]
      ensures forall k | 0 <= k <= top :: Has(k, w.stored[k])
      ensures forall k | top < k < TREE_LEVELS :: Has(k, v.stored[k])
    {
      var q, l, digest := elems - 1, 0, leaf;
      e := Success;
      while q > 0 && l < TREE_LEVELS
        invariant 0 <= l <= 19 && e == Success
        invariant 0 <= q == |w.nodes[l]| - 1 && digest == w.nodes[l][q]
        invariant forall k | 0 <= k <= l :: Has(k, w.stored[k])
        invariant forall k | l < k < TREE_LEVELS :: Has(k, v.stored[k])
        invariant q == 0 ==> level[l].Valid() && level[l].Contents() == [digest]
        decreases q
      {
        assert Has(l, w.stored[l]) && Has(l + 1, v.stored[l + 1]);
        assert Appended1(h, v, w, l);
        digest, e := Carry(q, l, digest, v, w);
        q := q / 2;
        l := l + 1;
      }
      var stored := level[l].Get(q);
      assert stored == Some(digest);
      top := l;
    }

    /** Append a leaf. */
    method Add(tag: seq<bv8>) returns (e: Status)
      requires Valid() && elems + 1 < MAX_ELEMS
      modifies this, level
      ensures Valid()
      ensures if |tag| <= HASH_LENGTH then e == Success && Leaves() == added == old(Leaves()) + [InitHash(tag)]
              else e == IllegalParam && Leaves() == old(Leaves()) && added == old(added)
    {
      if |tag| > HASH_LENGTH { return IllegalParam; }
      var digest := InitHash(tag);
      ghost var v, top := view, 0;
      ghost var w := MakeTower(h, v.nodes[0] + [digest], TREE_LEVELS);
      Appended(h, v, w);
      assert Has(0, v.stored[0]);
      e := level[0].Add(digest);
      elems := elems + 1;
      view, added := w, w.nodes[0];
      assert forall k | 0 < k < TREE_LEVELS :: Has(k, v.stored[k]);
      e, top := CarryUp(digest, v, w);
      forall k | top < k < TREE_LEVELS ensures Has(k, w.stored[k]) {
        assert Has(k, v.stored[k]);
        AppendAbove(h, v, w, TREE_LEVELS, top, k);
      }
      assert Has(19, w.stored[19]);
      TopAfter(h, v, w, top, level[19].Contents());
    }

    method HasNextLevelExceptRoot(l: nat, ghost v: Tower) returns (r: bool)
      requires Shape() && IsTower(h, v, TREE_LEVELS) && l <= 18
      requires level[l + 1].Valid() && |level[l + 1].Contents()| == |v.stored[l + 1]|
      ensures r <==> l < 18 && |v.nodes[l]| >= 2
    {
      assert LinkAt(h, v, l + 1);
      r := l + 1 < TREE_LEVELS - 1 && level[l + 1].elems > 0;
    }

    /** Node `offset` of level `l`, found on a lower level when it is a promoted one. */
    method FindRightNeighbor(offset: nat, l: nat, ghost v: Tower) returns (r: Option<Hash>)
      requires Shape() && IsTower(h, v, TREE_LEVELS) && l <= 18
      requires forall k | 0 <= k <= l :: Has(k, v.stored[k])
      ensures r == if offset < |v.nodes[l]| then Some(v.nodes[l][offset]) else None
    {
      var o, i := offset, l;
      while true
        invariant 0 <= i <= l && o >= 0
        invariant o < |v.nodes[i]| <==> offset < |v.nodes[l]|
        invariant o < |v.nodes[i]| ==> v.nodes[i][o] == v.nodes[l][offset]
        decreases i
      {
        assert Has(i, v.stored[i]);
        assert i > 0 ==> LinkAt(h, v, i);
        if o < level[i].elems {
          r := level[i].Get(o);
          return;
        }
        if i == 0 { return None; }
        i, o := i - 1, 2 * o;
      }
    }

    /** The hash of the first 2^18 leaves at most; an empty tree has no node to return. */
    method GetRoot() returns (e: Status, root: Hash)
      requires Valid()
      ensures Leaves() == [] ==> e == NullRead
      ensures Leaves() != [] ==> e == Success && root == Mth(h, Block(Leaves(), 0))
    {
      var l := 0;
      assert Has(1, view.stored[1]);
      var next := HasNextLevelExceptRoot(0, view);
      while next
        invariant 0 <= l <= 18
        invariant next <==> l < 18 && |view.nodes[l]| >= 2
        invariant l > 0 ==> |view.nodes[l - 1]| >= 2
        decreases 18 - l
      {
        l := l + 1;
        assert Has(l + 1, view.stored[l + 1]);
        next := HasNextLevelExceptRoot(l, view);
      }
      assert Has(l, view.stored[l]);
      TowerNarrows(h, view, TREE_LEVELS, l);
      ghost var o: nat := 0;
      if elems > 0 {
        StopsAtBlock(h, view, o, l);
        UpZero(l);
      }
      var top := level[l].Get(0);
      if top.None? { return NullRead, []; }
      return Success, top.value;
    }

    /** One step of a climb: hash with the right neighbour, if there is one, or with the left one. */
    method ClimbOne(q: nat, l: nat, d: Hash, ghost v: Tower) returns (r: Hash)
      requires Shape() && IsTower(h, v, TREE_LEVELS) && l <= 18 && q < |v.nodes[l]|
      requires forall k | 0 <= k <= l :: Has(k, v.stored[k])
      ensures r == Step(h, v.nodes[l], q, d)
    {
      r := d;
      if q % 2 == 0 {
        var right := FindRightNeighbor(q + 1, l, v);
        if right.Some? { r := h(d, right.value); }
      } else {
        assert Has(l, v.stored[l]);
        assert l > 0 ==> LinkAt(h, v, l);
        var left := level[l].Get(q - 1);
        r := h(left.value, d);
      }
    }

    /** A tag is accepted exactly when putting it in the place of the leaf keeps the hash of the block. */
    method Verify(tag: seq<bv8>, offset: nat) returns (e: Status)
      requires Valid()
      ensures |tag| > HASH_LENGTH || offset >= |Leaves()| ==> e == IllegalParam
      ensures |tag| <= HASH_LENGTH && offset < |Leaves()| ==>
                e == if 262144 <= offset && |Leaves()| <= 393216 then NullRead
                     else if Mth(h, Block(Leaves()[offset := InitHash(tag)], offset)) == Mth(h, Block(Leaves(), offset))
                     then Success else RootMismatch
      ensures e == Success ==>
                || InitHash(tag) == Leaves()[offset]
                || Collides(h, Leaves(), Leaves()[offset := InitHash(tag)], offset, 18)
    {
      if |tag| > HASH_LENGTH || offset >= elems { return IllegalParam; }
      var digest, q, l := InitHash(tag), offset, 0;
      ghost var w := MakeTower(h, Leaves()[offset := digest], TREE_LEVELS);
      ReplaceLevel(h, view, w, TREE_LEVELS, offset, 0);
      assert Has(1, view.stored[1]);
      var next := HasNextLevelExceptRoot(0, view);
      while next
        invariant 0 <= l <= 18
        invariant next <==> l < 18 && |view.nodes[l]| >= 2
        invariant l > 0 ==> |view.nodes[l - 1]| >= 2
        invariant q == Up(offset, l) < |view.nodes[l]| == |w.nodes[l]| && digest == w.nodes[l][q]
        decreases 18 - l
      {
        digest := ClimbOne(q, l, digest, view);
        q := q / 2;
        l := l + 1;
        ReplaceLevel(h, view, w, TREE_LEVELS, offset, l);
        assert Has(l + 1, view.stored[l + 1]);
        next := HasNextLevelExceptRoot(l, view);
      }
      assert Has(l, view.stored[l]);
      StopsAtBlock(h, view, offset, l);
      SameStop(h, view, w, offset, l);
      StopsAtBlock(h, w, offset, l);
      var top := level[l].Get(q);
      if top.None? { return NullRead; }
      e := if digest == top.value then Success else RootMismatch;
      if digest == top.value { SameNode(h, view, w, offset, l); }
    }

    /** One level of Update: climb one step and overwrite the node reached, if it is stored. */
    method Overwrite(q: nat, l: nat, digest: Hash, ghost v: Tower, ghost w: Tower) returns (next: Hash, e: Status)
      requires Shape() && IsTower(h, w, TREE_LEVELS) && l < 18 && |v.stored| == TREE_LEVELS
      requires forall k | 0 <= k <= l :: Has(k, w.stored[k])
      requires forall k | l < k < TREE_LEVELS :: Has(k, v.stored[k])
      requires Rewrites(h, v.stored[l + 1], w.stored[l + 1], w.nodes[l], w.nodes[l + 1], q) && digest == w.nodes[l][q]
      modifies level[l + 1]
      ensures forall k | 0 <= k <= l + 1 :: Has(k, w.stored[k])
      ensures forall k | l + 1 < k < TREE_LEVELS :: Has(k, v.stored[k])
      ensures e == Success && next == w.nodes[l + 1][q / 2]
    {
      assert Has(l + 1, v.stored[l + 1]);
      next := ClimbOne(q, l, digest, w);
      e := level[l + 1].UpdateIfExists(next, q / 2);
    }

    /** The climb of Update from a leaf that was just overwritten. */
    method UpdatePath(leaf: Hash, offset: nat, ghost v: Tower, ghost w: Tower) returns (digest: Hash, q: nat, l: nat)
      requires Shape() && IsTower(h, w, TREE_LEVELS) && |v.stored| == TREE_LEVELS
      requires forall l | 0 <= l < 19 :: RewritesAt(h, v, w, l, offset)
      requires offset < |w.nodes[0]| && leaf == w.nodes[0][offset]
      requires Has(0, w.stored[0]) && forall k | 0 < k < TREE_LEVELS :: Has(k, v.stored[k])
      modifies level
      ensures Stops(w, l) && q == Up(offset, l) < |w.nodes[l]| && digest == w.nodes[l][q]
      ensures forall k | 0 <= k <= l :: Has(k, w.stored[k])
      ensures forall k | l < k < TREE_LEVELS :: Has(k, v.stored[k])
      ensures unchanged(level[0], level[19])
    {
      digest, q, l := leaf, offset, 0;
      var e;
      assert Has(1, v.stored[1]) && RewritesAt(h, v, w, 0, offset);
      var next := HasNextLevelExceptRoot(0, w);
      while next
        invariant 0 <= l <= 18
        invariant next <==> l < 18 && |w.nodes[l]| >= 2
        invariant l > 0 ==> |w.nodes[l - 1]| >= 2
        invariant q == Up(offset, l) < |w.nodes[l]| && digest == w.nodes[l][q]
        invariant forall k | 0 <= k <= l :: Has(k, w.stored[k])
        invariant forall k | l < k < TREE_LEVELS :: Has(k, v.stored[k])
        invariant unchanged(level[0], level[19])
        decreases 18 - l
      {
        assert RewritesAt(h, v, w, l, offset);
        digest, e := Overwrite(q, l, digest, v, w);
        q := q / 2;
        l := l + 1;
        assert Has(l + 1, v.stored[l + 1]) && RewritesAt(h, v, w, l, offset);
        next := HasNextLevelExceptRoot(l, w);
      }
    }

    /** Compare the end of the climb with the stored node. */
    method CheckStored(digest: Hash, q: nat, l: nat, offset: nat, ghost w: Tower) returns (e: Status)
      requires Shape() && IsTower(h, w, TREE_LEVELS) && offset < |w.nodes[0]| < MAX_ELEMS && Stops(w, l)
      requires Has(l, w.stored[l]) && q == Up(offset, l) < |w.nodes[l]| && digest == w.nodes[l][q]
      ensures e == if 262144 <= offset && |w.nodes[0]| <= 393216 then NullRead else Success
    {
      StopsAtBlock(h, w, offset, l);
      var stored := level[l].Get(q);
      if stored.None? { return NullRead; }
      assert stored.value == digest;
      e := Success;
    }

    /** Replace a leaf. The nodes on its path are brought up to date as far as the climb goes. */
    method Update(tag: seq<bv8>, offset: nat) returns (e: Status)
      requires Valid()
      modifies this, level
      ensures Valid() && added == old(added)
      ensures |tag| > HASH_LENGTH || offset >= |old(Leaves())| ==> e == IllegalParam && Leaves() == old(Leaves())
      ensures |tag| <= HASH_LENGTH && offset < |old(Leaves())| ==>
                && Leaves() == old(Leaves())[offset := InitHash(tag)]
                && e == if 262144 <= offset && |Leaves()| <= 393216 then NullRead else Success
    {
      if |tag| > HASH_LENGTH || offset >= elems { return IllegalParam; }
      var digest := InitHash(tag);
      ghost var v := view;
      ghost var w := MakeTower(h, Leaves()[offset := digest], TREE_LEVELS);
      Rewritten(h, v, w, offset);
      assert Has(0, v.stored[0]);
      e := level[0].Update(digest, offset);
      view := w;
      assert forall k | 0 < k < TREE_LEVELS :: Has(k, v.stored[k]);
      var q, l;
      digest, q, l := UpdatePath(digest, offset, v, w);
      assert Has(l, w.stored[l]);
      e := CheckStored(digest, q, l, offset, w);
      forall k | l < k < TREE_LEVELS ensures Has(k, w.stored[k]) {
        assert Has(k, v.stored[k]) && RewritesAt(h, v, w, k - 1, offset);
        StoredAbove(h, v, w, l, k);
      }
    }
  }

  lemma {:induction false} UpZero(l: nat)
    ensures Up(0, l) == 0
  {
    if l > 0 { UpZero(l - 1); }
  }

  lemma SameStop(h: Combine, v: Tower, w: Tower, o: nat, l: nat)
    requires IsTower(h, v, TREE_LEVELS) && IsTower(h, w, TREE_LEVELS) && Replaced(v.nodes[0], w.nodes[0], o)
             && Stops(v, l)
    ensures Stops(w, l)
  {
    ReplaceLevel(h, v, w, TREE_LEVELS, o, l);
  }

  /** If replacing a leaf leaves an ancestor as it is, it replaced nothing, or nodes in between collide. */
  lemma SameNode(h: Combine, v: Tower, w: Tower, o: nat, l: nat)
    requires IsTower(h, v, TREE_LEVELS) && IsTower(h, w, TREE_LEVELS) && Replaced(v.nodes[0], w.nodes[0], o)
    requires l <= 18 && Up(o, l) < |v.nodes[l]| == |w.nodes[l]| && v.nodes[l][Up(o, l)] == w.nodes[l][Up(o, l)]
    ensures v.nodes[0][o] == w.nodes[0][o] || Collides(h, v.nodes[0], w.nodes[0], o, 18)
  {
    ReplaceLevel(h, v, w, TREE_LEVELS, o, l);
    TowerLevel(h, v, TREE_LEVELS, l);
    TowerLevel(h, w, TREE_LEVELS, l);
    if v.nodes[0][o] != w.nodes[0][o] {
      AncestorBinds(h, v.nodes[0], w.nodes[0], o, l);
    }
  }

  /** Above a search that stopped below level 18 nothing is stored. */
  lemma StoredAbove(h: Combine, v: Tower, w: Tower, l: nat, k: nat)
    requires IsTower(h, w, TREE_LEVELS) && Stops(w, l) && l < k < TREE_LEVELS
    requires |v.stored| == TREE_LEVELS && |v.stored[k]| == |w.stored[k]|
    ensures k < 19 ==> v.stored[k] == w.stored[k]
  {
    if l < 18 {
      TowerWidth(h, w, TREE_LEVELS, l);
      TowerWidth(h, w, TREE_LEVELS, k - 1);
      WidthOne(|w.nodes[0]|, l, k - 1);
      assert LinkAt(h, w, k);
    }
  }

  /** What replacing leaf `o` does one level up: the stored part of that level goes from `s` to `t`. */
  predicate Rewrites(h: Combine, s: seq<Hash>, t: seq<Hash>, b: seq<Hash>, up: seq<Hash>, q: nat) {
    && q < |b| && q / 2 < |up| && up[q / 2] == Step(h, b, q, b[q])
    && |s| == |t| && t == if q / 2 < |s| then s[q / 2 := up[q / 2]] else s
  }

  ghost predicate RewritesAt(h: Combine, v: Tower, w: Tower, l: nat, o: nat)
    requires |v.stored| == |w.stored| == |w.nodes| == TREE_LEVELS && l < 19
  {
    Rewrites(h, v.stored[l + 1], w.stored[l + 1], w.nodes[l], w.nodes[l + 1], Up(o, l))
  }

  lemma Rewritten(h: Combine, v: Tower, w: Tower, o: nat)
    requires IsTower(h, v, TREE_LEVELS) && IsTower(h, w, TREE_LEVELS) && Replaced(v.nodes[0], w.nodes[0], o)
    ensures forall l | 0 <= l < 19 :: RewritesAt(h, v, w, l, o)
  {
    forall l | 0 <= l < 19 ensures RewritesAt(h, v, w, l, o) {
      ReplaceLevel(h, v, w, TREE_LEVELS, o, l + 1);
      ReplaceLevel(h, w, w, TREE_LEVELS, o, l + 1);
    }
  }

  /** What appending to tower `v` means for level `l` of tower `w` and the next one. */
  predicate Appended1(h: Combine, v: Tower, w: Tower, l: nat)
    requires |v.stored| == |w.stored| == |w.nodes| == TREE_LEVELS && l < 19
  {
    && Carries(h, v.stored[l + 1], w.stored[l + 1], w.nodes[l], w.nodes[l + 1])
    && |w.stored[l + 1]| < MAX_ELEMS
    && w.stored[l] <= w.nodes[l] && |w.nodes[l]| <= |w.stored[l]| + 1
  }

  lemma Appended(h: Combine, v: Tower, w: Tower)
    requires IsTower(h, v, TREE_LEVELS) && IsTower(h, w, TREE_LEVELS)
    requires |w.nodes[0]| == |v.nodes[0]| + 1 < MAX_ELEMS && v.nodes[0] == w.nodes[0][..|v.nodes[0]|]
    ensures forall l | 0 <= l < 19 :: Appended1(h, v, w, l)
    ensures |w.nodes[19]| == 1 && Grown(v.nodes[0], w.nodes[0])
  {
    forall l | 0 <= l < 19 ensures Appended1(h, v, w, l) {
      AppendLevel(h, v, w, TREE_LEVELS, l + 1);
      TowerNarrows(h, w, TREE_LEVELS, l + 1);
      if l > 0 { assert LinkAt(h, w, l); }
    }
    TowerNarrows(h, w, TREE_LEVELS, 19);
    TowerWidth(h, w, TREE_LEVELS, 19);
    Sizes();
    WidthBound(|w.nodes[0]|, 19, 1);
  }

  /** The root of a block's transaction digests, computed leaf by leaf. */
  method RootOf(h: Combine, digests: seq<Hash>) returns (e: Status, root: Hash)
    requires |digests| < MAX_ELEMS && forall i | 0 <= i < |digests| :: |digests[i]| == HASH_LENGTH
    ensures digests == [] ==> e == NullRead
    ensures digests != [] ==> e == Success && root == Mth(h, Block(digests, 0))
  {
    var tree := new Tree(h);
    for i := 0 to |digests|
      invariant tree.Valid() && tree.h == h && fresh(tree) && fresh(tree.level) && tree.Leaves() == digests[..i]
    {
      assert tree.elems == |tree.Leaves()| == i;
      var status := tree.Add(digests[i]);
      assert InitHash(digests[i]) == digests[i];
      assert digests[..i + 1] == digests[..i] + [digests[i]];
    }
    assert digests[..|digests|] == digests;
    e, root := tree.GetRoot();
  }
}
