/** Retrying aborted transactions: after an epoch the transaction manager sends finished
    transactions to the block generator and files aborted ones for the next epoch. */
module Retry {
  import opened Aria
  import opened Collections
  import opened Serializability
  import opened AriaExecutor

  /** The transactions of a list that are aborted, or that are not, in order. */
  ghost function Sorted<V>(list: seq<Transaction<V>>, marks: seq<bool>, aborted: bool): seq<Transaction<V>>
    requires |list| == |marks|
  {
    if list == [] then []
    else
      var n := |list| - 1;
      Sorted(list[..n], marks[..n], aborted) + if marks[n] == aborted then [list[n]] else []
  }

  /** Which transactions are to be tried again. */
  ghost function Marks<V>(list: seq<Transaction<V>>, reusing: bool): seq<bool>
    reads list
  {
    seq(|list|, i requires 0 <= i < |list| reads list => reusing && list[i].result == Abort)
  }

  /** After an epoch: all transactions go to the block; or, if aborted ones are used again, those are reset
      and put into the next epoch, and only the others go to the block. */
  method CategorizeEpoch<V>(list: seq<Transaction<V>>, finishedEpoch: nat, reusing: bool)
    returns (block: seq<Transaction<V>>, retry: seq<Transaction<V>>)
    requires DistinctIds(list) && forall i | 0 <= i < |list| :: list[i].result != Pending
    modifies list
    ensures block == Sorted(list, old(Marks(list, reusing)), false)
    ensures retry == Sorted(list, old(Marks(list, reusing)), true)
    ensures forall i | 0 <= i < |list| ::
              if old(Marks(list, reusing))[i] then Reset(list[i], finishedEpoch + 1) else unchanged(list[i])
  {
    ghost var marks := Marks(list, reusing);
    block, retry := [], [];
    for n := 0 to |list|
      invariant block == Sorted(list[..n], marks[..n], false) && retry == Sorted(list[..n], marks[..n], true)
      invariant forall i | 0 <= i < |list| ::
                  if i < n && marks[i] then Reset(list[i], finishedEpoch + 1) else unchanged(list[i])
    {
      SortedNext(list, marks, n);
      assert forall i | 0 <= i < |list| && i != n :: list[i] != list[n];
      var again := FileOne(list[n], finishedEpoch, reusing);
      if again { retry := retry + [list[n]]; } else { block := block + [list[n]]; }
    }
    assert list[..|list|] == list && marks[..|list|] == marks;
  }

  /** Where one transaction goes: into the next epoch, or into the block. */
  method FileOne<V>(t: Transaction<V>, finishedEpoch: nat, reusing: bool) returns (again: bool)
    requires t.result != Pending
    modifies t
    ensures again == (reusing && old(t.result) == Abort)
    ensures if again then Reset(t, finishedEpoch + 1) else unchanged(t)
  {
    again := false;
    if t.result == Abort && reusing {
      t.readSet, t.writeSet, t.result, t.epoch := [], [], Pending, finishedEpoch + 1;
      again := true;
    }
  }

  lemma SortedNext<V>(list: seq<Transaction<V>>, marks: seq<bool>, n: nat)
    requires |list| == |marks| && n < |list|
    ensures list[..n + 1] == list[..n] + [list[n]]
    ensures forall aborted :: Sorted(list[..n + 1], marks[..n + 1], aborted)
                           == Sorted(list[..n], marks[..n], aborted)
                              + if marks[n] == aborted then [list[n]] else []
  {
    assert list[..n + 1][..n] == list[..n] && marks[..n + 1][..n] == marks[..n];
  }

  /** A transaction as it enters epoch `e` once more. */
  ghost predicate Reset<V>(t: Transaction<V>, e: nat)
    reads t
  {
    t.result == Pending && t.readSet == [] && t.writeSet == [] && t.epoch == e
  }

  lemma {:induction false} SortedMember<V>(list: seq<Transaction<V>>, marks: seq<bool>, aborted: bool,
                                           t: Transaction<V>)
    requires |list| == |marks| && t in Sorted(list, marks, aborted)
    ensures exists i :: 0 <= i < |list| && list[i] == t && marks[i] == aborted
  {
    var n := |list| - 1;
    if t in Sorted(list[..n], marks[..n], aborted) {
      SortedMember(list[..n], marks[..n], aborted, t);
    }
  }

  lemma {:induction false} SortedHas<V>(list: seq<Transaction<V>>, marks: seq<bool>, aborted: bool, i: nat)
    requires |list| == |marks| && i < |list| && marks[i] == aborted
    ensures list[i] in Sorted(list, marks, aborted)
  {
    var n := |list| - 1;
    if i < n { SortedHas(list[..n], marks[..n], aborted, i); }
  }

  /** What goes to the block: everything, or everything that is not to be tried again. */
  lemma BlockExactly<V>(list: seq<Transaction<V>>, reusing: bool, i: nat)
    requires i < |list| && DistinctIds(list)
    ensures list[i] in Sorted(list, Marks(list, reusing), false) <==> !(reusing && list[i].result == Abort)
    ensures list[i] in Sorted(list, Marks(list, reusing), true) <==> reusing && list[i].result == Abort
  {
    var marks := Marks(list, reusing);
    SortedHas(list, marks, marks[i], i);
    if list[i] in Sorted(list, marks, !marks[i]) { SortedMember(list, marks, !marks[i], list[i]); }
  }

  /** Every transaction goes one way or the other. */
  lemma {:induction false} SortedSplits<V>(list: seq<Transaction<V>>, marks: seq<bool>)
    requires |list| == |marks|
    ensures multiset(Sorted(list, marks, false)) + multiset(Sorted(list, marks, true)) == multiset(list)
    ensures |Sorted(list, marks, false)| + |Sorted(list, marks, true)| == |list|
  {
    if list != [] {
      var n := |list| - 1;
      var front, a, b := list[..n], Sorted(list[..n], marks[..n], false), Sorted(list[..n], marks[..n], true);
      SortedSplits(front, marks[..n]);
      assert list == front + [list[n]];
      if marks[n] { AddOne(b, a, front, list[n]); } else { AddOne(a, b, front, list[n]); }
    }
  }

  lemma AddOne<T>(a: seq<T>, b: seq<T>, c: seq<T>, x: T)
    requires multiset(a) + multiset(b) == multiset(c)
    ensures multiset(a + [x]) + multiset(b) == multiset(c + [x]) == multiset(b) + multiset(a + [x])
  {
  }

  lemma {:induction false} SortedDistinct<V>(list: seq<Transaction<V>>, marks: seq<bool>, aborted: bool)
    requires |list| == |marks| && DistinctIds(list)
    ensures DistinctIds(Sorted(list, marks, aborted))
  {
    if list != [] {
      var n := |list| - 1;
      SortedDistinct(list[..n], marks[..n], aborted);
      var s := Sorted(list[..n], marks[..n], aborted);
      forall i | 0 <= i < |s| ensures s[i].tid != list[n].tid {
        SortedMember(list[..n], marks[..n], aborted, s[i]);
      }
    }
  }

  /******* Progress *******/

  lemma {:induction false} LeastTid<V>(b: set<Txn<V>>) returns (t: Txn<V>)
    requires b != {}
    ensures t in b && forall u | u in b :: t.tid <= u.tid
    decreases |b|
  {
    t :| t in b;
    if b != {t} {
      var u := LeastTid(b - {t});
      if u.tid < t.tid { t := u; }
    }
  }

  /** In an epoch that is not empty, some transaction is not sent round again. */
  lemma SomeoneFinishes<V(!new)>(b: set<Txn<V>>) returns (t: Txn<V>)
    requires b != {}
    ensures t in b && Verdict(Committed(b, t), t) != Abort
  {
    var good := set u | u in b && u.out.ok;
    if good == {} {
      t :| t in b;
      assert t !in good;
    } else {
      t := LeastTid(good);
      SmallestCommits(b, t);
    }
  }

  lemma {:induction false} SortedNonempty<V>(list: seq<Transaction<V>>, marks: seq<bool>, i: nat)
    requires |list| == |marks| && i < |list| && !marks[i]
    ensures Sorted(list, marks, false) != []
  {
    var n := |list| - 1;
    if i < n { SortedNonempty(list[..n], marks[..n], i); }
  }

  /** After an epoch every transaction has a verdict, one of them is final, and the commit flag is up. */
  method RunAndFinish<V(!new)>(list: seq<Transaction<V>>, db: Database<V>) returns (ghost i: nat)
    requires list != [] && DistinctIds(list)
    requires forall i | 0 <= i < |list| :: list[i].tid != 0 && list[i].result == Pending && ReadDriven(list[i].code)
    modifies db, list
    ensures i < |list| && list[i].result != Abort && db.commitPhase
            && forall j | 0 <= j < |list| :: list[j].result != Pending
  {
    ghost var s := db.storage;
    RunEpoch(list, db);
    ghost var vs := Batch(list, s);
    assert vs[0] in Elements(vs);
    ghost var t := SomeoneFinishes(Elements(vs));
    i :| 0 <= i < |list| && vs[i] == t;
  }

  /** One epoch and its filing: fewer transactions are left, and the others are in the block. */
  method EpochAndFile<V(!new)>(list: seq<Transaction<V>>, db: Database<V>, epoch: nat)
    returns (block: seq<Transaction<V>>, retry: seq<Transaction<V>>)
    requires list != [] && DistinctIds(list)
    requires forall i | 0 <= i < |list| :: list[i].tid != 0 && list[i].result == Pending && ReadDriven(list[i].code)
    modifies db, list
    ensures |retry| < |list| && DistinctIds(retry) && multiset(block) + multiset(retry) == multiset(list)
    ensures forall i | 0 <= i < |retry| :: retry[i] in list && Reset(retry[i], epoch + 1)
    ensures forall i | 0 <= i < |block| :: block[i] in list && block[i].result in {Commit, AbortNoRetry}
  {
    ghost var i := RunAndFinish(list, db);
    ghost var marks := Marks(list, true);
    SortedNonempty(list, marks, i);
    SortedSplits(list, marks);
    SortedDistinct(list, marks, true);
    block, retry := CategorizeEpoch(list, epoch, true);
    forall j | 0 <= j < |retry| ensures retry[j] in list && Reset(retry[j], epoch + 1) {
      SortedMember(list, marks, true, retry[j]);
    }
    forall j | 0 <= j < |block| ensures block[j] in list && block[j].result in {Commit, AbortNoRetry} {
      SortedMember(list, marks, false, block[j]);
    }
  }

  ghost predicate Final<V>(t: Transaction<V>)
    reads t
  {
    t.result == Commit || t.result == AbortNoRetry
  }

  /** With no new arrivals n transactions are finished after at most n epochs, each in one block. */
  method DrainAll<V(!new)>(start: seq<Transaction<V>>, db: Database<V>) returns (blocks: seq<seq<Transaction<V>>>)
    requires DistinctIds(start)
    requires forall i | 0 <= i < |start| :: start[i].tid != 0 && start[i].result == Pending && ReadDriven(start[i].code)
    modifies db, start
    ensures |blocks| <= |start| && multiset(Concat(blocks)) == multiset(start)
    ensures forall i | 0 <= i < |start| :: Final(start[i])
  {
    var list := start;
    blocks := [];
    ghost var done: seq<Transaction<V>> := [];
    while list != []
      invariant |blocks| + |list| <= |start| && done == Concat(blocks)
                && multiset(done) + multiset(list) == multiset(start)
      invariant DistinctIds(list) && forall i | 0 <= i < |list| :: list[i] in start && list[i].result == Pending
      invariant forall t | t in done :: Final(t) && t !in list
      decreases |list|
    {
      var block, retry := EpochAndFile(list, db, |blocks|);
      ConcatAppend(blocks, block);
      assert forall t | t in block :: Final(t) && t !in retry;
      assert forall t | t in done :: Final(t) && t !in retry;
      MoveBlock(start, done, list, block, retry);
      blocks, done, list := blocks + [block], done + block, retry;
    }
    AllDone(start, done);
  }

  lemma MoveBlock<T>(start: seq<T>, done: seq<T>, list: seq<T>, block: seq<T>, retry: seq<T>)
    requires multiset(done) + multiset(list) == multiset(start) && multiset(block) + multiset(retry) == multiset(list)
    ensures multiset(done + block) + multiset(retry) == multiset(start)
  {
  }

  lemma AllDone<T>(start: seq<T>, done: seq<T>)
    requires multiset(done) == multiset(start)
    ensures forall i | 0 <= i < |start| :: start[i] in done
  {
    forall i | 0 <= i < |start| ensures start[i] in done { assert start[i] in multiset(start); }
  }
}
