/** The block server's read and commit phases as they run in one worker: the reservation table,
    the versioned database and the transaction executor, updating their objects in place. */
module AriaExecutor {
  import opened Aria
  import opened Collections
  import opened Reservation

  datatype Result = Commit | Pending | Abort | AbortNoRetry

  class Transaction<!V> {
    const tid: nat
    const code: Db<V> -> Outcome<V>
    var epoch: nat
    var readSet: seq<Key>
    var writeSet: seq<Write<V>>
    var result: Result

    constructor (tid: nat, code: Db<V> -> Outcome<V>)
      ensures this.tid == tid && this.code == code
      ensures epoch == 0 && readSet == [] && writeSet == [] && result == Pending
    {
      this.tid, this.code := tid, code;
      epoch, readSet, writeSet, result := 0, [], [], Pending;
    }

    /** The transaction as a value. */
    ghost function View(): Txn<V>
      reads this
    {
      Txn(tid, code, Outcome(result != AbortNoRetry, readSet, writeSet))
    }
  }

  /** The values of a list of transactions once they have been executed on snapshot `s`. */
  function Batch<V>(list: seq<Transaction<V>>, s: Db<V>): seq<Txn<V>> {
    seq(|list|, i requires 0 <= i < |list| => Txn(list[i].tid, list[i].code, list[i].code(s)))
  }

  predicate DistinctIds<V>(list: seq<Transaction<V>>) {
    forall i, j | 0 <= i < j < |list| :: list[i].tid != list[j].tid
  }

  class ReserveTable {
    var readTable: Registers
    var writeTable: Registers

    constructor ()
      ensures readTable == map[] && writeTable == map[]
    {
      readTable, writeTable := map[], map[];
    }

    method ReserveRWSet<V>(t: Transaction<V>)
      modifies this
      ensures forall k :: Register(readTable, k) ==
                          if k in t.readSet then Lowered(Register(old(readTable), k), t.tid)
                          else Register(old(readTable), k)
      ensures forall k :: Register(writeTable, k) ==
                          if k in WrittenKeys(t.writeSet) then Lowered(Register(old(writeTable), k), t.tid)
                          else Register(old(writeTable), k)
    {
      for i := 0 to |t.readSet|
        invariant writeTable == old(writeTable)
        invariant forall k :: Register(readTable, k) ==
                              if k in t.readSet[..i] then Lowered(Register(old(readTable), k), t.tid)
                              else Register(old(readTable), k)
      {
        var k := t.readSet[i];
        readTable := readTable[k := Lowered(Register(readTable, k), t.tid)];
      }
      assert t.readSet[..|t.readSet|] == t.readSet;
      ghost var readTable' := readTable;
      for i := 0 to |t.writeSet|
        invariant readTable == readTable'
        invariant forall k :: Register(writeTable, k) ==
                              if k in WrittenKeys(t.writeSet[..i]) then Lowered(Register(old(writeTable), k), t.tid)
                              else Register(old(writeTable), k)
      {
        var k := t.writeSet[i].key;
        writeTable := writeTable[k := Lowered(Register(writeTable, k), t.tid)];
        assert WrittenKeys(t.writeSet[..i + 1]) == WrittenKeys(t.writeSet[..i]) + {k};
      }
      assert t.writeSet[..|t.writeSet|] == t.writeSet;
    }

    /** The dependency flags detect exactly the conflicts with smaller ids. */
    method DependencyAnalysis<V(!new)>(t: Transaction<V>, ghost b: set<Txn<V>>)
      returns (waw: bool, war: bool, raw: bool)
      requires Reserved(readTable, writeTable, b)
      ensures waw <==> Waw(b, t.View())
      ensures war <==> War(b, t.View())
      ensures raw <==> Raw(b, t.View())
    {
      waw, war, raw := false, false, false;
      for i := 0 to |t.writeSet|
        invariant !waw && forall j | 0 <= j < i :: !Below(Register(writeTable, t.writeSet[j].key), t.tid)
      {
        var r := Register(writeTable, t.writeSet[i].key);
        if r < t.tid && r != 0 { waw := true; break; }
      }
      for i := 0 to |t.writeSet|
        invariant !war && forall j | 0 <= j < i :: !Below(Register(readTable, t.writeSet[j].key), t.tid)
      {
        var r := Register(readTable, t.writeSet[i].key);
        if r < t.tid && r != 0 { war := true; break; }
      }
      for i := 0 to |t.readSet|
        invariant !raw && forall j | 0 <= j < i :: !Below(Register(writeTable, t.readSet[j]), t.tid)
      {
        var r := Register(writeTable, t.readSet[i]);
        if r < t.tid && r != 0 { raw := true; break; }
      }
      FlagsAreConflicts(readTable, writeTable, b, t.View());
    }
  }

  class Database<!V> {
    var storage: Db<V>
    var commitPhase: bool
    var rwSetBuffer: map<nat, Transaction<V>>

    constructor (storage: Db<V>)
      ensures this.storage == storage && !commitPhase && rwSetBuffer == map[]
    {
      this.storage, commitPhase, rwSetBuffer := storage, false, map[];
    }

    /** The first update buffered after a commit phase drops the previous epoch's entries. */
    method BufferUpdates(t: Transaction<V>)
      modifies this
      ensures storage == old(storage) && !commitPhase
      ensures rwSetBuffer == (if old(commitPhase) then map[] else old(rwSetBuffer))[t.tid := t]
    {
      if commitPhase {
        rwSetBuffer := map[];
        commitPhase := false;
      }
      rwSetBuffer := rwSetBuffer[t.tid := t];
    }

    method CommitUpdate(tid: nat) returns (done: bool)
      requires tid in rwSetBuffer
      modifies this
      ensures done && commitPhase && rwSetBuffer == old(rwSetBuffer)
      ensures storage == Apply(old(storage), rwSetBuffer[tid].writeSet)
    {
      commitPhase := true;
      var ws := rwSetBuffer[tid].writeSet;
      for i := 0 to |ws|
        invariant commitPhase && rwSetBuffer == old(rwSetBuffer)
        invariant storage == Apply(old(storage), ws[..i])
      {
        ApplyAppend(old(storage), ws[..i], ws[i]);
        assert ws[..i] + [ws[i]] == ws[..i + 1];
        storage := ApplyOne(storage, ws[i]);
      }
      assert ws[..|ws|] == ws;
      done := true;
    }

    method AbortUpdate(tid: nat)
      modifies this`commitPhase
      ensures commitPhase
    {
      commitPhase := true;
    }
  }

  /** A reservation by `t` keeps the registers at the smallest reserved id. */
  lemma ReserveExtends<V(!new)>(r0: Registers, w0: Registers, r1: Registers, w1: Registers, b: set<Txn<V>>, t: Txn<V>)
    requires Reserved(r0, w0, b) && t.out.ok && t.tid != 0
    requires forall k :: Register(r1, k) == if k in Reads(t) then Lowered(Register(r0, k), t.tid) else Register(r0, k)
    requires forall k :: Register(w1, k) == if k in Writes(t) then Lowered(Register(w0, k), t.tid) else Register(w0, k)
    ensures Reserved(r1, w1, b + {t})
  {
    forall k
      ensures IsLeast(Register(r1, k), Readers(b + {t}, k)) && IsLeast(Register(w1, k), Writers(b + {t}, k))
    {
      assert IsLeast(Register(r0, k), Readers(b, k)) && IsLeast(Register(w0, k), Writers(b, k));
      assert Readers(b + {t}, k) == Readers(b, k) + if k in Reads(t) then {t.tid} else {};
      assert Writers(b + {t}, k) == Writers(b, k) + if k in Writes(t) then {t.tid} else {};
    }
  }

  /** A failed transaction reserves nothing. */
  lemma FailedReservesNothing<V(!new)>(r: Registers, w: Registers, b: set<Txn<V>>, t: Txn<V>)
    requires Reserved(r, w, b) && !t.out.ok
    ensures Reserved(r, w, b + {t})
  {
    forall k
      ensures IsLeast(Register(r, k), Readers(b + {t}, k)) && IsLeast(Register(w, k), Writers(b + {t}, k))
    {
      assert IsLeast(Register(r, k), Readers(b, k)) && IsLeast(Register(w, k), Writers(b, k));
      assert Readers(b + {t}, k) == Readers(b, k);
      assert Writers(b + {t}, k) == Writers(b, k);
    }
  }

  /** Executing one transaction: run its chaincode on the snapshot, buffer its updates and, if
      it succeeded, reserve its keys. `b` is what the epoch has executed before. */
  method ExecuteOne<V(!new)>(t: Transaction<V>, table: ReserveTable, db: Database<V>, ghost b: set<Txn<V>>)
    requires Reserved(table.readTable, table.writeTable, b)
    requires t.tid != 0 && t.result == Pending
    modifies table, db, t
    ensures Reserved(table.readTable, table.writeTable, b + {t.View()})
    ensures t.View() == Txn(t.tid, t.code, t.code(old(db.storage))) && t.result in {Pending, AbortNoRetry}
    ensures db.storage == old(db.storage) && !db.commitPhase
    ensures db.rwSetBuffer == (if old(db.commitPhase) then map[] else old(db.rwSetBuffer))[t.tid := t]
  {
    var out := t.code(db.storage);
    t.readSet, t.writeSet := out.readSet, out.writeSet;
    db.BufferUpdates(t);
    if !out.ok {
      t.result := AbortNoRetry;
      FailedReservesNothing(table.readTable, table.writeTable, b, t.View());
    } else {
      ghost var r0, w0 := table.readTable, table.writeTable;
      table.ReserveRWSet(t);
      ReserveExtends(r0, w0, table.readTable, table.writeTable, b, t.View());
    }
  }

  /** Transaction `t` stands in the read phase's final state as value `v`. */
  ghost predicate Stands<V>(t: Transaction<V>, v: Txn<V>, db: Database<V>)
    reads t, db
  {
    && t.View() == v && t.result in {Pending, AbortNoRetry}
    && t.tid in db.rwSetBuffer && db.rwSetBuffer[t.tid] == t
  }

  lemma ElementsNext<V>(b: set<Txn<V>>, vs: seq<Txn<V>>, n: nat)
    requires n < |vs|
    ensures b + Elements(vs[..n + 1]) == b + Elements(vs[..n]) + {vs[n]}
  {
  }

  /** The read phase of one workload. `b` is what the epoch has executed before. */
  method ExecuteList<V(!new)>(list: seq<Transaction<V>>, table: ReserveTable, db: Database<V>, ghost b: set<Txn<V>>)
    requires Reserved(table.readTable, table.writeTable, b)
    requires DistinctIds(list)
    requires forall i | 0 <= i < |list| :: list[i].tid != 0 && list[i].result == Pending
    modifies table, db, list
    ensures db.storage == old(db.storage) && (list != [] ==> !db.commitPhase)
    ensures Reserved(table.readTable, table.writeTable, b + Elements(Batch(list, db.storage)))
    ensures forall i | 0 <= i < |list| :: Stands(list[i], Batch(list, db.storage)[i], db)
  {
    ghost var vs := Batch(list, db.storage);
    assert b + Elements(vs[..0]) == b;
    for n := 0 to |list|
      invariant Reserved(table.readTable, table.writeTable, b + Elements(vs[..n]))
      invariant db.storage == old(db.storage)
      invariant n > 0 ==> !db.commitPhase
      invariant forall i | 0 <= i < n :: Stands(list[i], vs[i], db)
      invariant forall i | n <= i < |list| :: list[i].result == Pending
    {
      ElementsNext(b, vs, n);
      assert forall i | 0 <= i < |list| && i != n :: list[i] != list[n] && list[i].tid != list[n].tid;
      ExecuteOne(list[n], table, db, b + Elements(vs[..n]));
    }
    assert vs[..|list|] == vs;
  }

  function Verdict<V>(committed: bool, v: Txn<V>): Result {
    if !v.out.ok then AbortNoRetry else if committed then Commit else Abort
  }

  /** Transaction `t` stands in the commit phase's final state with its verdict, and a verdict other
      than a retry has raised the commit flag. */
  ghost predicate Judged<V>(t: Transaction<V>, v: Txn<V>, db: Database<V>, committed: bool)
    reads t, db
  {
    t.View() == v && t.result == Verdict(committed, v) && (t.result != Abort ==> db.commitPhase)
  }

  /** The commit decision for one transaction. `b` is the whole epoch, `s` its snapshot and `c`
      what has been committed so far. */
  method CommitOne<V(!new)>(t: Transaction<V>, table: ReserveTable, db: Database<V>,
                            ghost s: Db<V>, ghost b: set<Txn<V>>, ghost v: Txn<V>, ghost c: set<Txn<V>>)
    requires Ids(b) && Reserved(table.readTable, table.writeTable, b)
    requires v in b && v !in c && Stands(t, v, db)
    requires c <= CommittedSet(b) && Overlay(s, c, db.storage)
    modifies db, t`result
    ensures Judged(t, v, db, Committed(b, v)) && db.rwSetBuffer == old(db.rwSetBuffer)
    ensures db.commitPhase <==> old(db.commitPhase) || !v.out.ok || !Waw(b, v)
    ensures Overlay(s, if Committed(b, v) then c + {v} else c, db.storage)
  {
    if t.result == AbortNoRetry {
      db.AbortUpdate(t.tid);
      return;
    }
    var waw, war, raw := table.DependencyAnalysis(t, b);
    if waw {
      t.result := Abort;
    } else if !war || !raw {
      forall u, k | u in c && k in Writes(u) ensures k !in Writes(v) {
        assert u in CommittedSet(b);
        if k in Writes(v) { CommittedWritesDisjoint(b, u, v, k); }
      }
      OverlayStep(s, c, db.storage, v);
      var done := db.CommitUpdate(t.tid);
      t.result := if done then Commit else AbortNoRetry;
    } else {
      db.AbortUpdate(t.tid);
      t.result := Abort;
    }
  }

  /** The committed among the first `n` values. */
  ghost function CommittedAmong<V(!new)>(b: set<Txn<V>>, vs: seq<Txn<V>>, n: nat): set<Txn<V>>
    requires n <= |vs|
  {
    set i | 0 <= i < n && Committed(b, vs[i]) :: vs[i]
  }

  lemma CommittedNext<V(!new)>(b: set<Txn<V>>, vs: seq<Txn<V>>, n: nat, c: set<Txn<V>>)
    requires n < |vs|
    ensures c + CommittedAmong(b, vs, n + 1) ==
            if Committed(b, vs[n]) then c + CommittedAmong(b, vs, n) + {vs[n]} else c + CommittedAmong(b, vs, n)
  {
    assert CommittedAmong(b, vs, n + 1) == CommittedAmong(b, vs, n) + if Committed(b, vs[n]) then {vs[n]} else {};
  }

  lemma DistinctViews<V>(list: seq<Transaction<V>>, vs: seq<Txn<V>>, db: Database<V>)
    requires DistinctIds(list) && |vs| == |list| && forall i | 0 <= i < |list| :: Stands(list[i], vs[i], db)
    ensures forall i, j | 0 <= i < j < |vs| :: vs[i] != vs[j]
  {
    forall i, j | 0 <= i < j < |vs| ensures vs[i] != vs[j] {
      assert Stands(list[i], vs[i], db) && Stands(list[j], vs[j], db);
    }
  }

  /** The commit phase of one workload. `b` is the whole epoch, `s` its snapshot and `c` what
      other workloads have already committed. */
  method CommitList<V(!new)>(list: seq<Transaction<V>>, table: ReserveTable, db: Database<V>,
                             ghost s: Db<V>, ghost b: set<Txn<V>>, ghost vs: seq<Txn<V>>, ghost c: set<Txn<V>>)
    requires Ids(b) && Reserved(table.readTable, table.writeTable, b)
    requires DistinctIds(list) && |vs| == |list|
    requires forall i | 0 <= i < |list| :: Stands(list[i], vs[i], db) && vs[i] in b && vs[i] !in c
    requires c <= CommittedSet(b) && Overlay(s, c, db.storage)
    modifies db, list
    ensures forall i | 0 <= i < |list| :: Judged(list[i], vs[i], db, Committed(b, vs[i]))
    ensures Overlay(s, c + CommittedAmong(b, vs, |vs|), db.storage)
    ensures db.rwSetBuffer == old(db.rwSetBuffer)
  {
    assert c + CommittedAmong(b, vs, 0) == c;
    DistinctViews(list, vs, db);
    for n := 0 to |list|
      invariant db.rwSetBuffer == old(db.rwSetBuffer)
      invariant forall i | n <= i < |list| :: Stands(list[i], vs[i], db)
      invariant forall i | 0 <= i < n :: Judged(list[i], vs[i], db, Committed(b, vs[i]))
      invariant Overlay(s, c + CommittedAmong(b, vs, n), db.storage)
    {
      CommittedNext(b, vs, n, c);
      CommitOne(list[n], table, db, s, b, vs[n], c + CommittedAmong(b, vs, n));
    }
  }

  /** One epoch whose transactions form one workload: the database ends as the epoch result,
      and a transaction's result says whether it committed. */
  method RunEpoch<V(!new)>(list: seq<Transaction<V>>, db: Database<V>)
    requires DistinctIds(list)
    requires forall i | 0 <= i < |list| :: list[i].tid != 0 && list[i].result == Pending && ReadDriven(list[i].code)
    modifies db, list
    ensures var b := Elements(Batch(list, old(db.storage)));
            && Ids(b) && Executed(old(db.storage), b)
            && EpochResult(old(db.storage), b, db.storage)
            && forall i | 0 <= i < |list| ::
                 && list[i].View() == Batch(list, old(db.storage))[i]
                 && list[i].result == Verdict(Committed(b, list[i].View()), list[i].View())
                 && (list[i].result != Abort ==> db.commitPhase)
  {
    ghost var s, vs := db.storage, Batch(list, db.storage);
    ghost var b := Elements(vs);
    var table := new ReserveTable();
    assert Reserved<V>(table.readTable, table.writeTable, {}) by {
      forall k ensures Readers<V>({}, k) == {} && Writers<V>({}, k) == {} { }
    }
    ExecuteList(list, table, db, {});
    assert {} + b == b;
    assert Overlay(s, {}, s);
    CommitList(list, table, db, s, b, vs, {});
    assert {} + CommittedAmong(b, vs, |vs|) == CommittedSet(b);
  }
}
