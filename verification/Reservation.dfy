/** What the reservation registers of an epoch mean.

    A register holds the smallest id that reserved its key, or 0 when nobody did. The three
    dependency flags are computed from registers alone; the lemma below says that they detect
    exactly the conflicts with transactions of smaller id. */
module Reservation {
  import opened Aria

  type Registers = map<Key, nat>

  /** A register that was never touched reads as 0. */
  function Register(regs: Registers, k: Key): nat {
    if k in regs then regs[k] else 0
  }

  ghost function Readers<V>(b: set<Txn<V>>, k: Key): set<nat> {
    set t | t in b && t.out.ok && k in Reads(t) :: t.tid
  }

  ghost function Writers<V>(b: set<Txn<V>>, k: Key): set<nat> {
    set t | t in b && t.out.ok && k in Writes(t) :: t.tid
  }

  ghost predicate IsLeast(r: nat, ids: set<nat>) {
    if r == 0 then ids == {} else r in ids && forall i | i in ids :: r <= i
  }

  /** Every register holds the smallest id among the successful transactions of `b` that
      reserve its key. */
  ghost predicate Reserved<V(!new)>(readTable: Registers, writeTable: Registers, b: set<Txn<V>>) {
    forall k ::
      && IsLeast(Register(readTable, k), Readers(b, k))
      && IsLeast(Register(writeTable, k), Writers(b, k))
  }

  predicate Below(r: nat, tid: nat) { r != 0 && r < tid }

  /** The decision on a successful transaction by the three register tests. */
  ghost predicate TestsPass<V>(r: Registers, w: Registers, t: Txn<V>) {
    var waw := exists k :: k in Writes(t) && Below(Register(w, k), t.tid);
    var war := exists k :: k in Writes(t) && Below(Register(r, k), t.tid);
    var raw := exists k :: k in Reads(t) && Below(Register(w, k), t.tid);
    !waw && (!war || !raw)
  }

  /** Lowering a register to a transaction id, unless a smaller reservation is already there. */
  function Lowered(r: nat, tid: nat): nat {
    if r <= tid && r != 0 then r else tid
  }

  /** The registers after a transaction with these keys has reserved them. */
  ghost function Reserve(regs: Registers, keys: set<Key>, tid: nat): Registers {
    map k | k in regs.Keys + keys :: if k in keys then Lowered(Register(regs, k), tid) else regs[k]
  }

  /** The register tests of the dependency analysis compute the three conflict relations. */
  lemma FlagsAreConflicts<V(!new)>(readTable: Registers, writeTable: Registers, b: set<Txn<V>>, t: Txn<V>)
    requires Reserved(readTable, writeTable, b)
    ensures (exists k :: k in Writes(t) && Below(Register(writeTable, k), t.tid)) <==> Waw(b, t)
    ensures (exists k :: k in Writes(t) && Below(Register(readTable, k), t.tid)) <==> War(b, t)
    ensures (exists k :: k in Reads(t) && Below(Register(writeTable, k), t.tid)) <==> Raw(b, t)
  {
    forall k ensures Below(Register(writeTable, k), t.tid) <==> exists u :: Earlier(b, u, t) && k in Writes(u) {
      RegisterDetects(Register(writeTable, k), Writers(b, k), t.tid);
      if i :| i in Writers(b, k) && i < t.tid {
        var u :| u in b && u.out.ok && k in Writes(u) && u.tid == i;
        assert Earlier(b, u, t);
      }
      if u :| Earlier(b, u, t) && k in Writes(u) { assert u.tid in Writers(b, k); }
    }
    forall k ensures Below(Register(readTable, k), t.tid) <==> exists u :: Earlier(b, u, t) && k in Reads(u) {
      RegisterDetects(Register(readTable, k), Readers(b, k), t.tid);
      if i :| i in Readers(b, k) && i < t.tid {
        var u :| u in b && u.out.ok && k in Reads(u) && u.tid == i;
        assert Earlier(b, u, t);
      }
      if u :| Earlier(b, u, t) && k in Reads(u) { assert u.tid in Readers(b, k); }
    }
    if k :| k in Writes(t) && Below(Register(writeTable, k), t.tid) {
      var u :| Earlier(b, u, t) && k in Writes(u);
      assert Meet(Writes(u), Writes(t));
    }
    if k :| k in Writes(t) && Below(Register(readTable, k), t.tid) {
      var u :| Earlier(b, u, t) && k in Reads(u);
      assert Meet(Reads(u), Writes(t));
    }
    if k :| k in Reads(t) && Below(Register(writeTable, k), t.tid) {
      var u :| Earlier(b, u, t) && k in Writes(u);
      assert Meet(Writes(u), Reads(t));
    }
  }

  lemma RegisterDetects(r: nat, ids: set<nat>, tid: nat)
    requires IsLeast(r, ids)
    ensures Below(r, tid) <==> exists i :: i in ids && i < tid
  {
    if Below(r, tid) { assert r in ids && r < tid; }
  }
}
