/** The meaning of one Aria epoch, independent of threads and data structures.

    Every transaction of an epoch is executed against one snapshot of the database, so the
    read and write sets below are facts about that snapshot. The commit rule looks only at the
    keys that transactions with smaller ids read or wrote. Committed transactions never write the
    same key, so the outcome of an epoch is unique. */
module Aria {
  import opened Collections

  datatype Key = Key(table: string, name: string)

  datatype Write<V> = Put(key: Key, value: V) | Delete(key: Key)

  type Db<V> = map<Key, V>

  /** What a chaincode call leaves behind: its success flag and its read and write sets. */
  datatype Outcome<V> = Outcome(ok: bool, readSet: seq<Key>, writeSet: seq<Write<V>>)

  /** A transaction: its id, its chaincode, and the outcome recorded by the read phase. */
  datatype Txn<!V> = Txn(tid: nat, code: Db<V> -> Outcome<V>, out: Outcome<V>)

  /******* Databases *******/

  function Lookup<V>(db: Db<V>, k: Key): Option<V> {
    if k in db then Some(db[k]) else None
  }

  function ApplyOne<V>(db: Db<V>, w: Write<V>): Db<V> {
    match w
    case Put(k, v) => db[k := v]
    case Delete(k) => db - {k}
  }

  /** Write-back of a write set, in order. */
  function Apply<V>(db: Db<V>, ws: seq<Write<V>>): Db<V>
    decreases |ws|
  {
    if ws == [] then db else Apply(ApplyOne(db, ws[0]), ws[1..])
  }

  function WriteEffect<V>(w: Write<V>): Option<V> {
    match w
    case Put(_, v) => Some(v)
    case Delete(_) => None
  }

  /** The value a write set leaves at a key it writes: that of the last write to the key. */
  function LastEffect<V>(ws: seq<Write<V>>, k: Key): Option<V>
    requires k in WrittenKeys(ws)
  {
    var n := |ws| - 1;
    if ws[n].key == k then WriteEffect(ws[n])
    else
      assert ws == ws[..n] + [ws[n]];
      LastEffect(ws[..n], k)
  }

  function WrittenKeys<V>(ws: seq<Write<V>>): set<Key> {
    set i | 0 <= i < |ws| :: ws[i].key
  }

  lemma {:induction false} ApplyAppend<V>(db: Db<V>, ws: seq<Write<V>>, w: Write<V>)
    ensures Apply(db, ws + [w]) == ApplyOne(Apply(db, ws), w)
    decreases |ws|
  {
    if ws == [] {
      assert ws + [w] == [w];
      assert Apply(ApplyOne(db, w), []) == ApplyOne(db, w);
    } else {
      assert (ws + [w])[1..] == ws[1..] + [w];
      ApplyAppend(ApplyOne(db, ws[0]), ws[1..], w);
    }
  }

  /** Write-back changes exactly the written keys, and leaves at each the last value written. */
  lemma {:induction false} ApplyLookup<V>(db: Db<V>, ws: seq<Write<V>>, k: Key)
    ensures Lookup(Apply(db, ws), k) ==
            if k in WrittenKeys(ws) then LastEffect(ws, k) else Lookup(db, k)
    decreases |ws|
  {
    if ws != [] {
      var n := |ws| - 1;
      assert ws == ws[..n] + [ws[n]];
      ApplyAppend(db, ws[..n], ws[n]);
      ApplyLookup(db, ws[..n], k);
      assert WrittenKeys(ws) == WrittenKeys(ws[..n]) + {ws[n].key};
    }
  }

  /** Two databases with the same content at every key are the same database. */
  lemma SameLookups<V(!new)>(a: Db<V>, b: Db<V>)
    requires forall k :: Lookup(a, k) == Lookup(b, k)
    ensures a == b
  {
    forall k ensures (k in a <==> k in b) && (k in a ==> a[k] == b[k]) {
      assert Lookup(a, k) == Lookup(b, k);
    }
  }

  /******* Transactions *******/

  function Reads<V>(t: Txn<V>): set<Key> { set k | k in t.out.readSet }

  function Writes<V>(t: Txn<V>): set<Key> { WrittenKeys(t.out.writeSet) }

  ghost predicate Agree<V>(a: Db<V>, b: Db<V>, keys: seq<Key>) {
    forall k | k in keys :: Lookup(a, k) == Lookup(b, k)
  }

  /** A chaincode is a deterministic function of the keys it reads. */
  ghost predicate ReadDriven<V(!new)>(code: Db<V> -> Outcome<V>) {
    forall a, b | Agree(a, b, code(a).readSet) :: code(b) == code(a)
  }

  /** Transaction ids identify transactions and start at 1. */
  ghost predicate Ids<V>(b: set<Txn<V>>) {
    && (forall t | t in b :: t.tid != 0)
    && (forall t, u | t in b && u in b && t.tid == u.tid :: t == u)
  }

  /** `b` has been executed against snapshot `s`. */
  ghost predicate Executed<V(!new)>(s: Db<V>, b: set<Txn<V>>) {
    forall t | t in b :: ReadDriven(t.code) && t.out == t.code(s)
  }

  /******* The commit rule *******/

  ghost predicate Meet(a: set<Key>, b: set<Key>) {
    exists k :: k in a && k in b
  }

  ghost predicate Earlier<V>(b: set<Txn<V>>, u: Txn<V>, t: Txn<V>) {
    u in b && u.out.ok && u.tid < t.tid
  }

  ghost predicate Waw<V(!new)>(b: set<Txn<V>>, t: Txn<V>) {
    exists u :: Earlier(b, u, t) && Meet(Writes(u), Writes(t))
  }

  ghost predicate War<V(!new)>(b: set<Txn<V>>, t: Txn<V>) {
    exists u :: Earlier(b, u, t) && Meet(Reads(u), Writes(t))
  }

  ghost predicate Raw<V(!new)>(b: set<Txn<V>>, t: Txn<V>) {
    exists u :: Earlier(b, u, t) && Meet(Writes(u), Reads(t))
  }

  ghost predicate Committed<V(!new)>(b: set<Txn<V>>, t: Txn<V>) {
    t in b && t.out.ok && !Waw(b, t) && !(War(b, t) && Raw(b, t))
  }

  ghost function CommittedSet<V(!new)>(b: set<Txn<V>>): set<Txn<V>> {
    set t | t in b && Committed(b, t)
  }

  /** `d` is database `s` overlaid with the recorded writes of the transactions in `c`. */
  ghost predicate Overlay<V(!new)>(s: Db<V>, c: set<Txn<V>>, d: Db<V>) {
    && (forall t, k | t in c && k in Writes(t) :: Lookup(d, k) == LastEffect(t.out.writeSet, k))
    && (forall k | (forall t | t in c :: k !in Writes(t)) :: Lookup(d, k) == Lookup(s, k))
  }

  /** `d` is what the commit phase leaves: the committed writes on top of the snapshot. */
  ghost predicate EpochResult<V(!new)>(s: Db<V>, b: set<Txn<V>>, d: Db<V>) {
    Overlay(s, CommittedSet(b), d)
  }

  /** Writing back one more transaction extends the overlay, provided no key is written twice. */
  lemma OverlayStep<V(!new)>(s: Db<V>, c: set<Txn<V>>, d: Db<V>, t: Txn<V>)
    requires Overlay(s, c, d)
    requires forall u | u in c :: Writes(u) !! Writes(t)
    ensures Overlay(s, c + {t}, Apply(d, t.out.writeSet))
  {
    var d' := Apply(d, t.out.writeSet);
    forall k ensures Lookup(d', k) == if k in Writes(t) then LastEffect(t.out.writeSet, k) else Lookup(d, k) {
      ApplyLookup(d, t.out.writeSet, k);
    }
    forall k | (forall u | u in c + {t} :: k !in Writes(u)) ensures Lookup(d', k) == Lookup(s, k) {
      assert t in c + {t};
      forall u | u in c ensures k !in Writes(u) { assert u in c + {t}; }
    }
  }

  /** An overlay is a function of its base and its transactions. */
  lemma OverlayUnique<V(!new)>(s: Db<V>, c: set<Txn<V>>, d: Db<V>, d': Db<V>)
    requires Overlay(s, c, d) && Overlay(s, c, d')
    ensures d == d'
  {
    forall k ensures Lookup(d, k) == Lookup(d', k) {
      if t :| t in c && k in Writes(t) {
        assert Lookup(d, k) == LastEffect(t.out.writeSet, k);
      }
    }
    SameLookups(d, d');
  }

  /** No two committed transactions write one key. */
  lemma CommittedWritesDisjoint<V(!new)>(b: set<Txn<V>>, t: Txn<V>, u: Txn<V>, k: Key)
    requires Ids(b) && Committed(b, t) && Committed(b, u)
    requires k in Writes(t) && k in Writes(u)
    ensures t == u
  {
    assert Meet(Writes(t), Writes(u)) && Meet(Writes(u), Writes(t));
  }

  lemma OthersDisjoint<V(!new)>(b: set<Txn<V>>, c: set<Txn<V>>, t: Txn<V>)
    requires Ids(b) && t in CommittedSet(b) && c <= CommittedSet(b) && t !in c
    ensures forall u | u in c :: Writes(u) !! Writes(t)
  {
    forall u | u in c ensures Writes(u) !! Writes(t) {
      assert u in CommittedSet(b);
      forall k | k in Writes(u) ensures k !in Writes(t) {
        if k in Writes(t) { CommittedWritesDisjoint(b, t, u, k); }
      }
    }
  }
}
