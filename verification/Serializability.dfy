/** Every epoch is equivalent to running its committed transactions one after another; what that means for
    invariants of the database and for progress. */
module Serializability {
  import opened Aria
  import opened Collections

  /** Position of a transaction in the equivalent serial order: transactions that read a key
      written under a smaller id come first, by descending id; the others follow by ascending id. */
  ghost function SerialKey<V(!new)>(b: set<Txn<V>>, t: Txn<V>): int {
    if Raw(b, t) then -(t.tid as int) else t.tid
  }

  ghost predicate WitnessOrder<V(!new)>(b: set<Txn<V>>, order: seq<Txn<V>>) {
    && (forall t :: t in order <==> Committed(b, t))
    && (forall i, j | 0 <= i < j < |order| :: SerialKey(b, order[i]) < SerialKey(b, order[j]))
  }

  /******* What the commit rule lets through *******/

  /** `t` can come before `u`: it writes nothing that `u` has read. */
  ghost predicate MayPrecede<V>(t: Txn<V>, u: Txn<V>) {
    forall i | 0 <= i < |t.out.writeSet| :: t.out.writeSet[i].key !in u.out.readSet
  }

  ghost predicate WriteApart<V>(t: Txn<V>, u: Txn<V>) {
    forall i, j | 0 <= i < |t.out.writeSet| && 0 <= j < |u.out.writeSet| ::
      t.out.writeSet[i].key != u.out.writeSet[j].key
  }

  lemma MeetReads<V>(t: Txn<V>, u: Txn<V>)
    ensures Meet(Writes(t), Reads(u)) <==> !MayPrecede(t, u)
    ensures Meet(Reads(u), Writes(t)) <==> !MayPrecede(t, u)
  {
    if !MayPrecede(t, u) {
      var i :| 0 <= i < |t.out.writeSet| && t.out.writeSet[i].key in u.out.readSet;
      assert t.out.writeSet[i].key in Writes(t);
    }
  }

  lemma MeetWrites<V>(t: Txn<V>, u: Txn<V>)
    ensures Meet(Writes(t), Writes(u)) <==> !WriteApart(t, u)
  {
    if !WriteApart(t, u) {
      var i, j :| 0 <= i < |t.out.writeSet| && 0 <= j < |u.out.writeSet|
                  && t.out.writeSet[i].key == u.out.writeSet[j].key;
      assert t.out.writeSet[i].key in Writes(t) && t.out.writeSet[i].key in Writes(u);
    }
  }

  /** A successful transaction commits exactly when it writes no key of an earlier one and can be put at one end:
      before all earlier ones, or after all of them. */
  lemma CommitsExactly<V(!new)>(b: set<Txn<V>>, t: Txn<V>)
    requires t in b && t.out.ok
    ensures Committed(b, t) <==>
              && (forall u | Earlier(b, u, t) :: WriteApart(u, t))
              && (|| (forall u | Earlier(b, u, t) :: MayPrecede(t, u))
                  || (forall u | Earlier(b, u, t) :: MayPrecede(u, t)))
  {
    forall u ensures Meet(Writes(u), Writes(t)) <==> !WriteApart(u, t)
             ensures Meet(Reads(u), Writes(t)) <==> !MayPrecede(t, u)
             ensures Meet(Writes(u), Reads(t)) <==> !MayPrecede(u, t)
    {
      MeetWrites(u, t);
      MeetReads(t, u);
      MeetReads(u, t);
    }
  }

  /** Conflicts in one direction abort nobody. */
  lemma OneWayCommits<V(!new)>(b: set<Txn<V>>, t: Txn<V>)
    requires t in b && t.out.ok && forall u | Earlier(b, u, t) :: WriteApart(u, t)
    requires (forall u | Earlier(b, u, t) :: MayPrecede(t, u)) || (forall u | Earlier(b, u, t) :: MayPrecede(u, t))
    ensures Committed(b, t)
  {
    CommitsExactly(b, t);
  }

  /** Of two transactions the first commits, and the second exactly when there is an order of the two in which
      the later one reads nothing that the earlier one writes, and they write no common key. */
  lemma PairExactly<V(!new)>(t: Txn<V>, u: Txn<V>)
    requires t.out.ok && u.out.ok && t.tid < u.tid
    ensures Committed({t, u}, t)
    ensures Committed({t, u}, u) <==> WriteApart(t, u) && (MayPrecede(t, u) || MayPrecede(u, t))
  {
    CommitsExactly({t, u}, u);
    assert Earlier({t, u}, t, u);
  }

  /** Running transactions one after another, each on the database its predecessors left. */
  ghost function SerialRun<V>(db: Db<V>, order: seq<Txn<V>>): Db<V> {
    if order == [] then db
    else
      var n := |order| - 1;
      var before := SerialRun(db, order[..n]);
      Apply(before, order[n].code(before).writeSet)
  }

  /** In the serial order no transaction reads what a predecessor writes. */
  lemma NoReadAfterSerialWrite<V(!new)>(b: set<Txn<V>>, t: Txn<V>, u: Txn<V>, k: Key)
    requires Ids(b) && Committed(b, t) && Committed(b, u) && SerialKey(b, t) < SerialKey(b, u)
    requires k in Writes(t)
    ensures k !in Reads(u)
  {
    assert t.tid != u.tid;
    assert k in Reads(u) ==> Meet(Writes(t), Reads(u)) && Meet(Reads(u), Writes(t));
  }

  lemma PrefixDisjoint<V(!new)>(b: set<Txn<V>>, order: seq<Txn<V>>, n: nat)
    requires Ids(b) && WitnessOrder(b, order) && n < |order|
    ensures forall u | u in Elements(order[..n]) :: Writes(u) !! Writes(order[n])
  {
    var t := order[n];
    assert t in order;
    forall u | u in Elements(order[..n]) ensures Writes(u) !! Writes(t) {
      var i :| 0 <= i < n && order[i] == u;
      assert SerialKey(b, order[i]) < SerialKey(b, t) && u in order;
      forall k | k in Writes(u) ensures k !in Writes(t) {
        if k in Writes(t) { CommittedWritesDisjoint(b, t, u, k); }
      }
    }
  }

  lemma {:induction false} SerialPrefix<V(!new)>(s: Db<V>, b: set<Txn<V>>, order: seq<Txn<V>>, n: nat)
    requires Ids(b) && Executed(s, b) && WitnessOrder(b, order) && n <= |order|
    ensures Overlay(s, Elements(order[..n]), SerialRun(s, order[..n]))
    ensures n < |order| ==>
              && Agree(s, SerialRun(s, order[..n]), order[n].out.readSet)
              && order[n].code(SerialRun(s, order[..n])) == order[n].out
    decreases n
  {
    if n > 0 {
      SerialPrefix(s, b, order, n - 1);
      var t, done := order[n - 1], order[..n - 1];
      assert order[..n][..n - 1] == done;
      PrefixDisjoint(b, order, n - 1);
      OverlayStep(s, Elements(done), SerialRun(s, done), t);
      assert Elements(order[..n]) == Elements(done) + {t};
    }
    if n < |order| {
      ReadsSnapshot(s, b, order, n, SerialRun(s, order[..n]));
    }
  }

  /** A transaction run at its serial position reads the same values as in the epoch. */
  lemma ReadsSnapshot<V(!new)>(s: Db<V>, b: set<Txn<V>>, order: seq<Txn<V>>, n: nat, d: Db<V>)
    requires Ids(b) && Executed(s, b) && WitnessOrder(b, order) && n < |order|
    requires Overlay(s, Elements(order[..n]), d)
    ensures Agree(s, d, order[n].out.readSet) && order[n].code(d) == order[n].out
  {
    var u := order[n];
    assert u in order && Committed(b, u) && u in b;
    assert u.out == u.code(s);
    forall k | k in u.out.readSet ensures Lookup(s, k) == Lookup(d, k) {
      assert k in Reads(u);
      forall t | t in order[..n] ensures k !in Writes(t) {
        var i :| 0 <= i < n && order[i] == t;
        assert t in order && SerialKey(b, t) < SerialKey(b, u);
        if k in Writes(t) { NoReadAfterSerialWrite(b, t, u, k); }
      }
    }
    assert Agree(s, d, u.code(s).readSet);
  }

  /** Serialisability: running exactly the committed transactions in the witness order, each on
      the database left by its predecessors, reads what the epoch read, writes what the epoch
      wrote, and ends in the database the commit phase leaves. */
  lemma Serializable<V(!new)>(s: Db<V>, b: set<Txn<V>>, order: seq<Txn<V>>, d: Db<V>)
    requires Ids(b) && Executed(s, b) && WitnessOrder(b, order) && EpochResult(s, b, d)
    ensures SerialRun(s, order) == d
    ensures forall n | 0 <= n < |order| ::
              && Agree(s, SerialRun(s, order[..n]), order[n].out.readSet)
              && order[n].code(SerialRun(s, order[..n])) == order[n].out
  {
    forall n | 0 <= n < |order|
      ensures Agree(s, SerialRun(s, order[..n]), order[n].out.readSet)
      ensures order[n].code(SerialRun(s, order[..n])) == order[n].out
    {
      SerialPrefix(s, b, order, n);
    }
    SerialPrefix(s, b, order, |order|);
    assert order[..|order|] == order;
    assert Elements(order) == CommittedSet(b);
    OverlayUnique(s, CommittedSet(b), SerialRun(s, order), d);
  }

  /** The committed transactions can always be put in the witness order. */
  lemma {:induction false} WitnessExists<V(!new)>(b: set<Txn<V>>, c: set<Txn<V>>)
    returns (order: seq<Txn<V>>)
    requires Ids(b) && c <= b
    ensures forall t :: t in order <==> t in c
    ensures forall i, j | 0 <= i < j < |order| :: SerialKey(b, order[i]) < SerialKey(b, order[j])
    decreases |c|
  {
    if c == {} {
      order := [];
    } else {
      var last := SerialLast(b, c);
      var rest := WitnessExists(b, c - {last});
      forall i | 0 <= i < |rest| ensures SerialKey(b, rest[i]) < SerialKey(b, last) {
        assert rest[i] in rest;
        assert rest[i] in c && rest[i] != last && rest[i].tid != last.tid;
      }
      order := rest + [last];
    }
  }

  lemma {:induction false} SerialLast<V(!new)>(b: set<Txn<V>>, c: set<Txn<V>>) returns (last: Txn<V>)
    requires c != {}
    ensures last in c && forall t | t in c :: SerialKey(b, t) <= SerialKey(b, last)
    decreases |c|
  {
    last :| last in c;
    if c != {last} {
      var other := SerialLast(b, c - {last});
      if SerialKey(b, last) < SerialKey(b, other) { last := other; }
    }
  }

  /** An epoch has a serial equivalent whatever its transactions do. */
  lemma EpochHasSerialOrder<V(!new)>(s: Db<V>, b: set<Txn<V>>, d: Db<V>) returns (order: seq<Txn<V>>)
    requires Ids(b) && Executed(s, b) && EpochResult(s, b, d)
    ensures WitnessOrder(b, order) && SerialRun(s, order) == d
  {
    order := WitnessExists(b, CommittedSet(b));
    Serializable(s, b, order, d);
  }

  /******* Invariants and progress *******/

  /** A state predicate kept by every transaction run alone. */
  ghost predicate KeptAlone<V(!new)>(inv: Db<V> -> bool, b: set<Txn<V>>) {
    forall t, db | t in b && inv(db) && t.code(db).ok :: inv(Apply(db, t.code(db).writeSet))
  }

  /** What every transaction keeps when run alone, every epoch keeps. */
  lemma EpochKeepsInvariant<V(!new)>(inv: Db<V> -> bool, s: Db<V>, b: set<Txn<V>>, d: Db<V>)
    requires Ids(b) && Executed(s, b) && EpochResult(s, b, d)
    requires KeptAlone(inv, b) && inv(s)
    ensures inv(d)
  {
    var order := EpochHasSerialOrder(s, b, d);
    SerialRunKeepsInvariant(inv, s, b, order, |order|);
    assert order[..|order|] == order;
  }

  lemma {:induction false} SerialRunKeepsInvariant<V(!new)>(
      inv: Db<V> -> bool, s: Db<V>, b: set<Txn<V>>, order: seq<Txn<V>>, n: nat)
    requires Ids(b) && Executed(s, b) && WitnessOrder(b, order) && n <= |order|
    requires KeptAlone(inv, b) && inv(s)
    ensures inv(SerialRun(s, order[..n]))
    decreases n
  {
    if n > 0 {
      SerialRunKeepsInvariant(inv, s, b, order, n - 1);
      SerialPrefix(s, b, order, n - 1);
      assert order[..n][..n - 1] == order[..n - 1];
      assert order[n - 1] in order;
    }
  }

  /** Progress: the transaction with the smallest id among those whose chaincode succeeded
      commits. */
  lemma SmallestCommits<V(!new)>(b: set<Txn<V>>, t: Txn<V>)
    requires t in b && t.out.ok
    requires forall u | u in b && u.out.ok :: t.tid <= u.tid
    ensures Committed(b, t)
  {
  }
}
