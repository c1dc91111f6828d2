/** The order of transactions in a block: the block generator keeps finished transactions in a
    priority queue and empties it from the largest id down. */
module BlockOrder {
  import opened Collections

  datatype Tx = Tx(tid: nat, result: nat, data: seq<bv8>)

  /** Ids identify the transactions of an epoch. */
  ghost predicate DistinctIds(b: set<Tx>) {
    forall t, u | t in b && u in b && t.tid == u.tid :: t == u
  }

  ghost predicate Descending(s: seq<Tx>) {
    forall i, j | 0 <= i < j < |s| :: s[i].tid > s[j].tid
  }

  /** The whole block has larger ids than what is still pending. */
  ghost predicate Above(block: seq<Tx>, pending: set<Tx>) {
    forall i, u | 0 <= i < |block| && u in pending :: u.tid < block[i].tid
  }

  lemma NextTop(block: seq<Tx>, pending: set<Tx>, t: Tx)
    requires DistinctIds(pending) && Descending(block) && Above(block, pending)
    requires t in pending && forall u | u in pending :: u.tid <= t.tid
    ensures Descending(block + [t]) && Above(block + [t], pending - {t})
            && Elements(block + [t]) == Elements(block) + {t}
  {
    assert forall u | u in pending - {t} :: u.tid < t.tid;
  }

  class BlockGenerator {
    var pending: set<Tx>

    constructor ()
      ensures pending == {}
    {
      pending := {};
    }

    /** Workers add finished transactions in any order. */
    method AddCommittedTransaction(t: Tx)
      modifies this
      ensures pending == old(pending) + {t}
    {
      pending := pending + {t};
    }

    /** The largest id of the queue. */
    method Top() returns (t: Tx)
      requires pending != {}
      ensures t in pending && forall u | u in pending :: u.tid <= t.tid
    {
      t :| t in pending;
      var rest := pending - {t};
      while rest != {}
        invariant t in pending && rest <= pending && forall u | u in pending - rest :: u.tid <= t.tid
        decreases |rest|
      {
        var u :| u in rest;
        rest := rest - {u};
        if u.tid > t.tid { t := u; }
      }
    }

    /** Empty the queue into a block. */
    method TakeBlock() returns (block: seq<Tx>)
      requires DistinctIds(pending)
      modifies this
      ensures pending == {} && Elements(block) == old(pending) && Descending(block)
    {
      block := [];
      while pending != {}
        invariant pending <= old(pending) && Elements(block) == old(pending) - pending
        invariant Descending(block) && Above(block, pending)
        decreases |pending|
      {
        var t := Top();
        NextTop(block, pending, t);
        pending := pending - {t};
        block := block + [t];
      }
    }
  }

  lemma SameHead(a: seq<Tx>, b: seq<Tx>)
    requires Descending(a) && Descending(b) && Elements(a) == Elements(b) && a != []
    ensures b != [] && a[0] == b[0]
  {
    assert a[0] in Elements(b);
    var i :| 0 <= i < |b| && b[i] == a[0];
    assert b[0] in Elements(a);
    var j :| 0 <= j < |a| && a[j] == b[0];
    assert a[j].tid <= a[0].tid && b[i].tid <= b[0].tid;
  }

  /** A set of transactions has one descending order, so every replica builds the same block. */
  lemma {:induction false} OneBlock(a: seq<Tx>, b: seq<Tx>)
    requires Descending(a) && Descending(b) && Elements(a) == Elements(b)
    ensures a == b
  {
    if a == [] {
      if b != [] { SameHead(b, a); }
    } else {
      SameHead(a, b);
      RestOf(a);
      RestOf(b);
      OneBlock(a[1..], b[1..]);
      assert a == [a[0]] + a[1..] && b == [b[0]] + b[1..];
    }
  }

  lemma RestOf(a: seq<Tx>)
    requires Descending(a) && a != []
    ensures Elements(a[1..]) == Elements(a) - {a[0]}
  {
    forall t | t in a && t != a[0] ensures t in a[1..] {
      var i :| 0 <= i < |a| && a[i] == t;
      assert a[1..][i - 1] == t;
    }
  }

  lemma {:induction false} BlockSize(a: seq<Tx>)
    requires Descending(a)
    ensures |Elements(a)| == |a|
  {
    if a != [] {
      RestOf(a);
      BlockSize(a[1..]);
    }
  }
}
