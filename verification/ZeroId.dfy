/** The transaction id 0.

    Ids are taken from digests, and a register that holds 0 counts as empty. So a transaction with
    id 0 is invisible to all others: the registers can represent an epoch, and the commit rule holds,
    exactly when no successful transaction with id 0 touches a key. */
module ZeroId {
  import opened Aria
  import opened Reservation
  import opened Serializability
  import opened AriaExecutor

  ghost predicate Invisible<V>(t: Txn<V>) {
    t.out.ok && t.tid == 0 && (Reads(t) != {} || Writes(t) != {})
  }

  /** A transaction that reserved alone is seen by a later one if and only if its id is not 0. */
  lemma SeenExactly<V>(t: Txn<V>, u: Txn<V>)
    requires t.tid < u.tid
    ensures var r, w := Reserve(map[], Reads(t), t.tid), Reserve(map[], Writes(t), t.tid);
            && ((exists k :: k in Writes(u) && Below(Register(w, k), u.tid)) <==>
                  t.tid != 0 && Meet(Writes(t), Writes(u)))
            && ((exists k :: k in Writes(u) && Below(Register(r, k), u.tid)) <==>
                  t.tid != 0 && Meet(Reads(t), Writes(u)))
            && ((exists k :: k in Reads(u) && Below(Register(w, k), u.tid)) <==>
                  t.tid != 0 && Meet(Writes(t), Reads(u)))
  {
    var r, w := Reserve(map[], Reads(t), t.tid), Reserve(map[], Writes(t), t.tid);
    assert forall k :: Register(r, k) == if k in Reads(t) then t.tid else 0;
    assert forall k :: Register(w, k) == if k in Writes(t) then t.tid else 0;
  }

  /** Registers that hold the least reserving ids of an epoch exist if and only if no transaction of
      the epoch is invisible. */
  lemma ReservableExactly<V(!new)>(b: set<Txn<V>>)
    ensures (exists r, w :: Reserved(r, w, b)) <==> forall t | t in b :: !Invisible(t)
  {
    if forall t | t in b :: !Invisible(t) {
      var r, w := LeastRegisters(b);
    } else {
      var t :| t in b && Invisible(t);
      forall r, w ensures !Reserved(r, w, b) { NeverReserved(r, w, b, t); }
    }
  }

  lemma {:induction false} LeastRegisters<V(!new)>(b: set<Txn<V>>) returns (r: Registers, w: Registers)
    requires forall t | t in b :: !Invisible(t)
    ensures Reserved(r, w, b)
    decreases |b|
  {
    if b == {} {
      r, w := map[], map[];
    } else {
      var t :| t in b;
      var rest := b - {t};
      r, w := LeastRegisters(rest);
      assert b == rest + {t};
      if !t.out.ok {
        FailedReservesNothing(r, w, rest, t);
      } else if t.tid == 0 {
        NothingToReserve(r, w, rest, t);
      } else {
        var r0, w0 := r, w;
        r, w := Reserve(r, Reads(t), t.tid), Reserve(w, Writes(t), t.tid);
        ReserveExtends(r0, w0, r, w, rest, t);
      }
    }
  }

  lemma NothingToReserve<V(!new)>(r: Registers, w: Registers, b: set<Txn<V>>, t: Txn<V>)
    requires Reserved(r, w, b) && Reads(t) == {} && Writes(t) == {}
    ensures Reserved(r, w, b + {t})
  {
    forall k
      ensures IsLeast(Register(r, k), Readers(b + {t}, k)) && IsLeast(Register(w, k), Writers(b + {t}, k))
    {
      assert IsLeast(Register(r, k), Readers(b, k)) && IsLeast(Register(w, k), Writers(b, k));
      assert k !in Reads(t) && k !in Writes(t);
      assert Readers(b + {t}, k) == Readers(b, k) && Writers(b + {t}, k) == Writers(b, k);
    }
  }

  lemma NeverReserved<V(!new)>(r: Registers, w: Registers, b: set<Txn<V>>, t: Txn<V>)
    requires t in b && Invisible(t)
    ensures !Reserved(r, w, b)
  {
    if k :| k in Reads(t) {
      assert 0 in Readers(b, k);
      assert !IsLeast(Register(r, k), Readers(b, k));
    } else {
      var k :| k in Writes(t);
      assert 0 in Writers(b, k);
      assert !IsLeast(Register(w, k), Writers(b, k));
    }
  }

  /******* Write skew *******/

  /** Reads one key and writes another: 1 if the first is absent, 2 if it is present. */
  function Copy(from: Key, to: Key): Db<int> -> Outcome<int> {
    (db: Db<int>) => Outcome(true, [from], [Put(to, if from in db then 2 else 1)])
  }

  ghost function Skew(tid: nat, from: Key, to: Key): Txn<int> {
    Txn(tid, Copy(from, to), Copy(from, to)(map[]))
  }

  lemma SkewKeys(tid: nat, from: Key, to: Key)
    ensures Reads(Skew(tid, from, to)) == {from} && Writes(Skew(tid, from, to)) == {to}
  {
    var t := Skew(tid, from, to);
    assert t.out.writeSet[0].key == to;
  }

  /** Two transactions that each read what the other writes, with ids `x` before `y`, both pass the
      register tests if and only if `x` is 0. */
  lemma SkewPasses(x: nat, y: nat, j: Key, k: Key)
    requires x < y && j != k
    ensures var t, u := Skew(x, j, k), Skew(y, k, j);
            var r := Reserve(Reserve(map[], Reads(t), x), Reads(u), y);
            var w := Reserve(Reserve(map[], Writes(t), x), Writes(u), y);
            TestsPass(r, w, t) && TestsPass(r, w, u) <==> x == 0
  {
    var t, u := Skew(x, j, k), Skew(y, k, j);
    SkewKeys(x, j, k);
    SkewKeys(y, k, j);
    var r := Reserve(Reserve(map[], {j}, x), {k}, y);
    var w := Reserve(Reserve(map[], {k}, x), {j}, y);
    assert Register(r, j) == x && Register(r, k) == y && Register(w, k) == x && Register(w, j) == y;
    assert j in Writes(u) && k in Reads(u);
  }

  /** And what they leave together, in either order of write-back, no serial order leaves. */
  lemma SkewNotSerial(x: nat, y: nat, j: Key, k: Key)
    requires j != k
    ensures var t, u := Skew(x, j, k), Skew(y, k, j);
            var d := Apply(Apply(map[], t.out.writeSet), u.out.writeSet);
            && d == Apply(Apply(map[], u.out.writeSet), t.out.writeSet)
            && d != SerialRun(map[], [t, u]) && d != SerialRun(map[], [u, t])
  {
    var t, u := Skew(x, j, k), Skew(y, k, j);
    var none: Db<int> := map[];
    AppliedOne(none, k, 1);
    AppliedOne(none, j, 1);
    AppliedOne(none[k := 1], j, 1);
    AppliedOne(none[j := 1], k, 1);
    SerialTwo(t, u, j, k);
    SerialTwo(u, t, k, j);
    assert none[k := 1][j := 1] == none[j := 1][k := 1];
    assert none[k := 1][j := 1][j] == 1 && none[k := 1][j := 1][k] == 1;
    assert SerialRun(none, [t, u])[j] == 2 && SerialRun(none, [u, t])[k] == 2;
  }

  lemma AppliedOne(db: Db<int>, k: Key, v: int)
    ensures Apply(db, [Put(k, v)]) == db[k := v]
  {
    assert Apply(ApplyOne(db, Put(k, v)), []) == ApplyOne(db, Put(k, v));
  }

  lemma SerialTwo(t: Txn<int>, u: Txn<int>, j: Key, k: Key)
    requires j != k && t.code == Copy(j, k) && u.code == Copy(k, j)
    ensures SerialRun(map[], [t, u]) == map[k := 1, j := 2]
  {
    var none: Db<int> := map[];
    assert [t, u][..1] == [t] && [t][..0] == [];
    assert SerialRun(none, [t]) == Apply(none, [Put(k, 1)]);
    AppliedOne(none, k, 1);
    AppliedOne(none[k := 1], j, 2);
  }
}
