/** What each operation of the bank does: when it succeeds, and every balance afterwards. */
module BankEffects {
  import opened Aria
  import opened SmallBank

  /** The database after an operation has run alone. */
  function Done(op: Op, db: Db<int>): Db<int> { Apply(db, Invoke(op, db).writeSet) }

  /** Nothing but what is stored at `keys` has changed. */
  ghost predicate OthersKept(db: Db<int>, d: Db<int>, keys: set<Key>) {
    forall k | k !in keys :: Lookup(d, k) == Lookup(db, k)
  }

  /** The chaincode has asked for the balances at `keys` and for no other. */
  ghost predicate ReadsOnly(op: Op, db: Db<int>, keys: set<Key>) {
    forall k :: k in Invoke(op, db).readSet <==> k in keys
  }

  /** A failed operation changes nothing. */
  lemma FailureChangesNothing(op: Op, db: Db<int>)
    requires !Invoke(op, db).ok
    ensures Done(op, db) == db
  {
  }

  /** Amounts are 32-bit numbers. */
  lemma AmountsWrap(op: Op, amount: int, db: Db<int>)
    requires (op.UpdateBalance? || op.UpdateSaving? || op.SendPayment? || op.WriteCheck?) && Same32(op.amount, amount)
    ensures Invoke(op.(amount := amount), db) == Invoke(op, db)
  {
    OneNumber(Wrap(op.amount), Wrap(amount), op.amount, amount);
    if op.SendPayment? { SamePayment(op.from, op.to, op.amount, amount, db); } else { SameAmount(op, amount, db); }
  }

  lemma SameAmount(op: Op, amount: int, db: Db<int>)
    requires (op.UpdateBalance? || op.UpdateSaving? || op.WriteCheck?) && Wrap(op.amount) == Wrap(amount)
    ensures Invoke(op.(amount := amount), db) == Invoke(op, db)
  {
  }

  lemma SamePayment(from: string, to: string, raw: int, amount: int, db: Db<int>)
    requires Wrap(raw) == Wrap(amount)
    ensures Invoke(SendPayment(from, to, amount), db) == Invoke(SendPayment(from, to, raw), db)
  {
  }

  lemma OneNumber(x: int, y: int, raw: int, amount: int)
    requires INT_MIN <= x <= INT_MAX && INT_MIN <= y <= INT_MAX
    requires Same32(x, raw) && Same32(y, amount) && Same32(raw, amount)
    ensures x == y
  {
    var a, b, c := (x - raw) / 0x1_0000_0000, (y - amount) / 0x1_0000_0000, (raw - amount) / 0x1_0000_0000;
    assert x - y == 0x1_0000_0000 * (a - b + c);
  }

  lemma ApplyOnePut(db: Db<int>, k: Key, v: int)
    ensures Apply(db, [Put(k, v)]) == db[k := v]
  {
    assert [Put(k, v)][1..] == [];
  }

  lemma StoredOne(db: Db<int>, d: Db<int>, k: Key, v: int)
    requires INT_MIN <= v <= INT_MAX && d == Apply(db, [Put(k, v)])
    ensures Balance(d, k) == v && OthersKept(db, d, {k})
  {
    ApplyOnePut(db, k, v);
  }

  lemma StoredTwo(db: Db<int>, d: Db<int>, k: Key, v: int, l: Key, w: int)
    requires k != l && INT_MIN <= v <= INT_MAX && INT_MIN <= w <= INT_MAX && d == Apply(db, [Put(k, v), Put(l, w)])
    ensures Balance(d, k) == v && Balance(d, l) == w && OthersKept(db, d, {k, l})
  {
    ApplyTwo(db, k, v, l, w);
  }

  /** A query succeeds, reads both balances and changes nothing. */
  lemma QueryEffect(a: string, db: Db<int>)
    ensures Invoke(GetBalance(a), db).ok && Done(GetBalance(a), db) == db
    ensures ReadsOnly(GetBalance(a), db, {Saving(a), Checking(a)})
  {
  }

  /** Amalgamating two accounts leaves nothing in the savings of the first, and adds it to the checking balance of
      the second. It fails on one account only. */
  lemma AmalgamateEffect(from: string, to: string, db: Db<int>)
    ensures var op := Amalgamate(from, to);
            && (Invoke(op, db).ok <==> from != to)
            && (from != to ==>
                && Balance(Done(op, db), Saving(from)) == 0
                && Same32(Balance(Done(op, db), Checking(to)), Balance(db, Checking(to)) + Balance(db, Saving(from)))
                && OthersKept(db, Done(op, db), {Saving(from), Checking(to)})
                && ReadsOnly(op, db, {Saving(from), Checking(to)}))
  {
    var op := Amalgamate(from, to);
    KeyNames(from, to);
    if from != to {
      var sum := Balance(db, Checking(to)) + Balance(db, Saving(from));
      StoredTwo(db, Done(op, db), Saving(from), 0, Checking(to), Wrap(sum));
    }
  }

  /** A deposit goes to its own account. A withdrawal, a negative deposit, fails exactly when the balance does not
      cover it; but that of the smallest int never fails. */
  lemma DepositEffect(op: Op, a: string, amount: int, k: Key, db: Db<int>)
    requires INT_MIN <= amount <= INT_MAX
    requires (op == UpdateBalance(a, amount) && k == Checking(a)) || (op == UpdateSaving(a, amount) && k == Saving(a))
    ensures Invoke(op, db).ok <==> amount >= 0 || Balance(db, k) + amount >= 0 || amount == INT_MIN
    ensures Invoke(op, db).ok ==>
              Same32(Balance(Done(op, db), k), Balance(db, k) + amount) && OthersKept(db, Done(op, db), {k})
    ensures ReadsOnly(op, db, {k})
  {
    if Invoke(op, db).ok { StoredOne(db, Done(op, db), k, Wrap(Balance(db, k) + amount)); }
  }

  /** A payment takes from one checking balance and gives to another. It fails exactly when it is to oneself, of a
      negative amount, or of more than there is and the difference still fits 32 bits. */
  lemma PaymentEffect(from: string, to: string, amount: int, db: Db<int>)
    requires INT_MIN <= amount <= INT_MAX
    ensures var op, left := SendPayment(from, to, amount), Balance(db, Checking(from)) - amount;
            && (Invoke(op, db).ok <==> from != to && amount >= 0 && (left >= 0 || left < INT_MIN))
            && (Invoke(op, db).ok ==>
                && Same32(Balance(Done(op, db), Checking(from)), left)
                && Same32(Balance(Done(op, db), Checking(to)), Balance(db, Checking(to)) + amount)
                && OthersKept(db, Done(op, db), {Checking(from), Checking(to)}))
            && (from != to ==> ReadsOnly(op, db, {Checking(from), Checking(to)}))
  {
    var op, left := SendPayment(from, to, amount), Balance(db, Checking(from)) - amount;
    WrapSign(left);
    KeyNames(from, to);
    if Invoke(op, db).ok {
      PaymentWrites(from, to, amount, db);
      StoredTwo(db, Done(op, db), Checking(from), Wrap(left), Checking(to), Wrap(Balance(db, Checking(to)) + amount));
    }
  }

  /** When a difference of two 32-bit numbers is below zero after reduction. */
  lemma WrapSign(x: int)
    requires 2 * INT_MIN <= x <= -2 * INT_MIN
    ensures Wrap(x) >= 0 <==> 0 <= x <= INT_MAX || x < INT_MIN || x == -2 * INT_MIN
  {
    assert Wrap(x) == x - 0x1_0000_0000 * Carry(x);
  }

  /** A check takes from the checking balance. It fails exactly when the difference, as a 32-bit number, is below
      zero. */
  lemma CheckEffect(a: string, amount: int, db: Db<int>)
    requires INT_MIN <= amount <= INT_MAX
    ensures var op, left := WriteCheck(a, amount), Balance(db, Checking(a)) - amount;
            && (Invoke(op, db).ok <==> 0 <= left <= INT_MAX || left < INT_MIN)
            && (Invoke(op, db).ok ==>
                Same32(Balance(Done(op, db), Checking(a)), left) && OthersKept(db, Done(op, db), {Checking(a)}))
            && ReadsOnly(op, db, {Checking(a)})
  {
    var op, left := WriteCheck(a, amount), Balance(db, Checking(a)) - amount;
    WrapSign(left);
    if Invoke(op, db).ok { StoredOne(db, Done(op, db), Checking(a), Wrap(left)); }
  }

  lemma Exact(x: int, y: int)
    requires Same32(x, y) && INT_MIN <= x <= INT_MAX && INT_MIN <= y <= INT_MAX
    ensures x == y
  {
  }

  /** A covered check is paid, from the checking balance and not from the savings. */
  lemma CoveredCheck(a: string, amount: int, db: Db<int>)
    requires 0 <= amount <= Balance(db, Checking(a))
    ensures var op := WriteCheck(a, amount);
            && Invoke(op, db).ok && Balance(Done(op, db), Checking(a)) == Balance(db, Checking(a)) - amount
            && Balance(Done(op, db), Saving(a)) == Balance(db, Saving(a))
  {
    CheckEffect(a, amount, db);
    Exact(Balance(Done(WriteCheck(a, amount), db), Checking(a)), Balance(db, Checking(a)) - amount);
    KeyNames(a, a);
  }

  /** A deposit that fits adds the amount exactly. */
  lemma FittingDeposit(op: Op, a: string, amount: int, k: Key, db: Db<int>)
    requires (op == UpdateBalance(a, amount) && k == Checking(a)) || (op == UpdateSaving(a, amount) && k == Saving(a))
    requires INT_MIN < amount <= INT_MAX && 0 <= Balance(db, k) + amount <= INT_MAX
    ensures Invoke(op, db).ok && Balance(Done(op, db), k) == Balance(db, k) + amount
  {
    DepositEffect(op, a, amount, k, db);
    Exact(Balance(Done(op, db), k), Balance(db, k) + amount);
  }

  /** A covered payment that fits moves the amount exactly. */
  lemma CoveredPayment(a: string, b: string, amount: int, db: Db<int>)
    requires a != b && 0 <= amount <= Balance(db, Checking(a)) && Balance(db, Checking(b)) + amount <= INT_MAX
    ensures var op := SendPayment(a, b, amount);
            && Invoke(op, db).ok && Balance(Done(op, db), Checking(a)) == Balance(db, Checking(a)) - amount
            && Balance(Done(op, db), Checking(b)) == Balance(db, Checking(b)) + amount
  {
    PaymentEffect(a, b, amount, db);
    var d := Done(SendPayment(a, b, amount), db);
    Exact(Balance(d, Checking(a)), Balance(db, Checking(a)) - amount);
    Exact(Balance(d, Checking(b)), Balance(db, Checking(b)) + amount);
  }

  /** On an empty database: balances start at 1000, under the names of the two tables. */
  lemma FirstCheck()
    ensures Invoke(WriteCheck("a", 100), map[]).writeSet == [Put(Key("small_bank", "checking_a"), 900)]
    ensures Invoke(UpdateSaving("a", 100), map[]).writeSet == [Put(Key("small_bank", "saving_a"), 1100)]
  {
    assert "checking" + "_" + "a" == "checking_a" && "saving" + "_" + "a" == "saving_a";
  }
}
