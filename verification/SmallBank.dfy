/** The SmallBank chaincode on 32-bit integers, and what whole epochs of it keep. Arithmetic that
    leaves 32 bits wraps around. */
module SmallBank {
  import opened Aria
  import opened Collections
  import opened Serializability

  const BALANCE: int := 1000
  const INT_MAX: int := 2147483647
  const INT_MIN: int := -2147483648

  /** The same 32-bit number. */
  predicate Same32(x: int, y: int) { (x - y) % 0x1_0000_0000 == 0 }

  /** Reduction to 32 bits. */
  function Wrap(x: int): (r: int)
    ensures INT_MIN <= r <= INT_MAX
    ensures INT_MIN <= x <= INT_MAX ==> r == x
    ensures Same32(r, x)
  {
    (x - INT_MIN) % 0x1_0000_0000 + INT_MIN
  }

  function Saving(account: string): Key { Key("small_bank", "saving" + "_" + account) }

  function Checking(account: string): Key { Key("small_bank", "checking" + "_" + account) }

  /** The balance stored at a key; a missing one is the default balance. */
  function Balance(db: Db<int>, k: Key): (r: int)
    ensures INT_MIN <= r <= INT_MAX
  {
    match Lookup(db, k)
    case None => BALANCE
    case Some(v) => Wrap(v)
  }

  /******* The six operations *******/

  datatype Op =
    | GetBalance(account: string)
    | Amalgamate(from: string, to: string)
    | UpdateBalance(from: string, amount: int)
    | UpdateSaving(from: string, amount: int)
    | SendPayment(from: string, to: string, amount: int)
    | WriteCheck(from: string, amount: int)

  function Failed(keys: seq<Key>): Outcome<int> { Outcome(false, keys, []) }

  /** Add to a balance; a withdrawal needs the balance. */
  function Deposit(db: Db<int>, k: Key, amount: int): Outcome<int> {
    var balance := Balance(db, k);
    if amount < 0 && balance < Wrap(-amount) then Failed([k])
    else Outcome(true, [k], [Put(k, Wrap(balance + amount))])
  }

  function Invoke(op: Op, db: Db<int>): Outcome<int> {
    match op
    case GetBalance(a) => Outcome(true, [Saving(a), Checking(a)], [])
    case Amalgamate(from, to) =>
      if from == to then Failed([])
      else
        var src, dest := Balance(db, Saving(from)), Balance(db, Checking(to));
        Outcome(true, [Saving(from), Checking(to)], [Put(Saving(from), 0), Put(Checking(to), Wrap(dest + src))])
    case UpdateBalance(from, amount) => Deposit(db, Checking(from), Wrap(amount))
    case UpdateSaving(from, amount) => Deposit(db, Saving(from), Wrap(amount))
    case SendPayment(from, to, raw) =>
      if from == to then Failed([])
      else
        var amount := Wrap(raw);
        var bal1, bal2 := Wrap(Balance(db, Checking(from)) - amount), Wrap(Balance(db, Checking(to)) + amount);
        if bal1 < 0 || amount < 0 then Failed([Checking(from), Checking(to)])
        else Outcome(true, [Checking(from), Checking(to)], [Put(Checking(from), bal1), Put(Checking(to), bal2)])
    case WriteCheck(from, raw) =>
      var balance := Wrap(Balance(db, Checking(from)) - Wrap(raw));
      if balance < 0 then Failed([Checking(from)])
      else Outcome(true, [Checking(from)], [Put(Checking(from), balance)])
  }

  function Code(op: Op): Db<int> -> Outcome<int> { db => Invoke(op, db) }

  /** What an operation does depends only on the keys it reads. */
  lemma OperationsAreReadDriven(op: Op)
    ensures ReadDriven(Code(op))
  {
    forall a, b | Agree(a, b, Code(op)(a).readSet) ensures Code(op)(b) == Code(op)(a) {
      SameReads(op, a, b);
    }
  }

  lemma SameBalance(a: Db<int>, b: Db<int>, keys: seq<Key>, i: nat)
    requires Agree(a, b, keys) && i < |keys|
    ensures Balance(a, keys[i]) == Balance(b, keys[i])
  {
    assert keys[i] in keys;
  }

  /** The balances at the keys of an operation decide what it does. */
  lemma SameDeposit(k: Key, amount: int, a: Db<int>, b: Db<int>)
    requires Balance(a, k) == Balance(b, k)
    ensures Deposit(b, k, amount) == Deposit(a, k, amount)
  {
  }

  lemma SameMove(op: Op, a: Db<int>, b: Db<int>, k: Key, l: Key)
    requires (op.Amalgamate? || op.SendPayment?) && op.from != op.to && l == Checking(op.to)
    requires k == if op.Amalgamate? then Saving(op.from) else Checking(op.from)
    requires Balance(a, k) == Balance(b, k) && Balance(a, l) == Balance(b, l)
    ensures Invoke(op, b) == Invoke(op, a)
  {
  }

  lemma SameReads(op: Op, a: Db<int>, b: Db<int>)
    requires Agree(a, b, Invoke(op, a).readSet)
    ensures Invoke(op, b) == Invoke(op, a)
  {
    var r := Invoke(op, a).readSet;
    if r != [] { SameBalance(a, b, r, 0); }
    if |r| > 1 { SameBalance(a, b, r, 1); }
    match op
    case GetBalance(_) =>
    case Amalgamate(from, to) => if from != to { SameMove(op, a, b, Saving(from), Checking(to)); }
    case UpdateBalance(from, amount) => SameDeposit(Checking(from), Wrap(amount), a, b);
    case UpdateSaving(from, amount) => SameDeposit(Saving(from), Wrap(amount), a, b);
    case SendPayment(from, to, _) => if from != to { SameMove(op, a, b, Checking(from), Checking(to)); }
    case WriteCheck(_, _) =>
  }

  /******* Balances below zero *******/

  /** No account is below zero. */
  ghost predicate Solvent(db: Db<int>) {
    forall k :: Balance(db, k) >= 0
  }

  /** Whether the arithmetic of an operation leaves 32 bits on its way to a stored balance. */
  predicate Overflows(op: Op, db: Db<int>) {
    match op
    case GetBalance(_) => false
    case Amalgamate(from, to) => from != to && Balance(db, Saving(from)) + Balance(db, Checking(to)) > INT_MAX
    case UpdateBalance(from, amount) => Wrap(amount) == INT_MIN || Balance(db, Checking(from)) + Wrap(amount) > INT_MAX
    case UpdateSaving(from, amount) => Wrap(amount) == INT_MIN || Balance(db, Saving(from)) + Wrap(amount) > INT_MAX
    case SendPayment(from, to, amount) =>
      from != to && 0 <= Wrap(amount) <= Balance(db, Checking(from))
          && Balance(db, Checking(to)) + Wrap(amount) > INT_MAX
    case WriteCheck(_, _) => false
  }

  ghost predicate WritesSolvent(out: Outcome<int>) {
    forall i | 0 <= i < |out.writeSet| :: out.writeSet[i].Put? && 0 <= out.writeSet[i].value <= INT_MAX
  }

  lemma WrapOver(x: int)
    requires INT_MAX < x <= 2 * INT_MAX
    ensures Wrap(x) < 0
  {
  }

  lemma DepositSolvent(db: Db<int>, k: Key, amount: int)
    requires Balance(db, k) >= 0 && INT_MIN <= amount <= INT_MAX
    ensures WritesSolvent(Deposit(db, k, amount)) <==> !(amount == INT_MIN || Balance(db, k) + amount > INT_MAX)
  {
    var w := Deposit(db, k, amount).writeSet;
    if Balance(db, k) + amount > INT_MAX { WrapOver(Balance(db, k) + amount); }
    if w != [] { assert w[0] == Put(k, Wrap(Balance(db, k) + amount)); }
  }

  lemma PairSolvent(out: Outcome<int>, a: Key, x: int, b: Key, y: int, sum: int)
    requires out.writeSet == [Put(a, x), Put(b, y)] && 0 <= x <= INT_MAX && 0 <= sum <= 2 * INT_MAX && y == Wrap(sum)
    ensures WritesSolvent(out) <==> sum <= INT_MAX
  {
    assert out.writeSet[0] == Put(a, x) && out.writeSet[1] == Put(b, y);
    if sum > INT_MAX { WrapOver(sum); }
  }

  /** On a solvent bank an operation stores no balance below zero exactly when nothing overflows. */
  lemma StoresSolvent(op: Op, db: Db<int>)
    requires Solvent(db)
    ensures WritesSolvent(Invoke(op, db)) <==> !Overflows(op, db)
  {
    var out := Invoke(op, db);
    match op
    case GetBalance(_) =>
    case Amalgamate(from, to) =>
      var src, dest := Balance(db, Saving(from)), Balance(db, Checking(to));
      if from != to { PairSolvent(out, Saving(from), 0, Checking(to), Wrap(dest + src), dest + src); }
    case UpdateBalance(from, amount) => DepositSolvent(db, Checking(from), Wrap(amount));
    case UpdateSaving(from, amount) => DepositSolvent(db, Saving(from), Wrap(amount));
    case SendPayment(from, to, raw) =>
      var bal1, bal2, amount := Balance(db, Checking(from)), Balance(db, Checking(to)), Wrap(raw);
      if out.ok { PairSolvent(out, Checking(from), bal1 - amount, Checking(to), Wrap(bal2 + amount), bal2 + amount); }
    case WriteCheck(from, raw) =>
  }

  /** A bank epoch: every transaction runs one of the operations. */
  ghost predicate BankEpoch(s: Db<int>, b: set<Txn<int>>, op: map<nat, Op>) {
    Ids(b) && forall t | t in b :: t.tid in op && t.code == Code(op[t.tid]) && t.out == Invoke(op[t.tid], s)
  }

  lemma BankEpochExecuted(s: Db<int>, b: set<Txn<int>>, op: map<nat, Op>)
    requires BankEpoch(s, b, op)
    ensures Executed(s, b)
  {
    forall t | t in b ensures ReadDriven(t.code) && t.out == t.code(s) {
      OperationsAreReadDriven(op[t.tid]);
    }
  }

  /** A bank epoch is equivalent to running its committed operations one after another. */
  lemma BankSerial(s: Db<int>, b: set<Txn<int>>, op: map<nat, Op>, d: Db<int>) returns (order: seq<Txn<int>>)
    requires BankEpoch(s, b, op) && EpochResult(s, b, d)
    ensures WitnessOrder(b, order) && SerialRun(s, order) == d
    ensures forall t | t in order :: t.tid in op && t.code == Code(op[t.tid])
  {
    BankEpochExecuted(s, b, op);
    order := EpochHasSerialOrder(s, b, d);
  }

  lemma {:induction false} LastEffectSolvent(ws: seq<Write<int>>, k: Key)
    requires k in WrittenKeys(ws) && forall i | 0 <= i < |ws| :: ws[i].Put? && 0 <= ws[i].value <= INT_MAX
    ensures LastEffect(ws, k).Some? && 0 <= LastEffect(ws, k).value <= INT_MAX
  {
    var n := |ws| - 1;
    if ws[n].key != k {
      assert ws == ws[..n] + [ws[n]];
      LastEffectSolvent(ws[..n], k);
    }
  }

  /** An epoch without overflow in a committed transaction keeps every account at zero or above. */
  lemma EpochStaysSolvent(s: Db<int>, b: set<Txn<int>>, op: map<nat, Op>, d: Db<int>)
    requires BankEpoch(s, b, op) && EpochResult(s, b, d) && Solvent(s)
    requires forall t | t in CommittedSet(b) :: !Overflows(op[t.tid], s)
    ensures Solvent(d)
  {
    forall k ensures Balance(d, k) >= 0 {
      if t :| t in CommittedSet(b) && k in Writes(t) {
        StoresSolvent(op[t.tid], s);
        LastEffectSolvent(t.out.writeSet, k);
        assert Lookup(d, k) == LastEffect(t.out.writeSet, k);
      } else {
        assert Lookup(d, k) == Lookup(s, k);
        assert Balance(s, k) >= 0;
      }
    }
  }

  /** A committed transaction that overflows leaves an account below zero. */
  lemma OverflowShows(s: Db<int>, b: set<Txn<int>>, op: map<nat, Op>, d: Db<int>, t: Txn<int>)
    requires BankEpoch(s, b, op) && EpochResult(s, b, d) && Solvent(s)
    requires t in CommittedSet(b) && Overflows(op[t.tid], s)
    ensures !Solvent(d)
  {
    var ws := t.out.writeSet;
    var n := |ws| - 1;
    OverflowWrites(op[t.tid], s);
    assert ws[n].key in Writes(t);
    assert Lookup(d, ws[n].key) == LastEffect(ws, ws[n].key) == Some(ws[n].value);
    assert Balance(d, ws[n].key) < 0;
  }

  lemma OverflowWrites(op: Op, db: Db<int>)
    requires Solvent(db) && Overflows(op, db)
    ensures var ws := Invoke(op, db).writeSet; ws != [] && ws[|ws| - 1].Put? && INT_MIN <= ws[|ws| - 1].value < 0
  {
    match op
    case GetBalance(_) =>
    case Amalgamate(from, to) => WrapOver(Balance(db, Saving(from)) + Balance(db, Checking(to)));
    case UpdateBalance(from, raw) => DepositOverflow(db, Checking(from), Wrap(raw));
    case UpdateSaving(from, raw) => DepositOverflow(db, Saving(from), Wrap(raw));
    case SendPayment(from, to, raw) => WrapOver(Balance(db, Checking(to)) + Wrap(raw));
    case WriteCheck(from, raw) =>
  }

  lemma DepositOverflow(db: Db<int>, k: Key, amount: int)
    requires Balance(db, k) >= 0 && INT_MIN <= amount <= INT_MAX
             && (amount == INT_MIN || Balance(db, k) + amount > INT_MAX)
    ensures Deposit(db, k, amount).writeSet == [Put(k, Wrap(Balance(db, k) + amount))]
            && Wrap(Balance(db, k) + amount) < 0
  {
    if Balance(db, k) + amount > INT_MAX { WrapOver(Balance(db, k) + amount); }
  }

  /** An epoch on a solvent bank stays solvent exactly when no committed transaction overflows. */
  lemma SolventExactly(s: Db<int>, b: set<Txn<int>>, op: map<nat, Op>, d: Db<int>)
    requires BankEpoch(s, b, op) && EpochResult(s, b, d) && Solvent(s)
    ensures Solvent(d) <==> forall t | t in CommittedSet(b) :: !Overflows(op[t.tid], s)
  {
    if t :| t in CommittedSet(b) && Overflows(op[t.tid], s) {
      OverflowShows(s, b, op, d, t);
    } else {
      EpochStaysSolvent(s, b, op, d);
    }
  }

  /******* The money in the bank *******/

  function Keys(accounts: seq<string>): seq<Key> {
    if accounts == [] then [] else [Saving(accounts[0]), Checking(accounts[0])] + Keys(accounts[1..])
  }

  function Sum(db: Db<int>, keys: seq<Key>): int {
    if keys == [] then 0 else Balance(db, keys[0]) + Sum(db, keys[1..])
  }

  lemma KeyNames(a: string, b: string)
    ensures Saving(a) != Checking(b)
    ensures a != b ==> Saving(a) != Saving(b) && Checking(a) != Checking(b)
  {
    assert Saving(a).name[0] == 's' && Checking(b).name[0] == 'c';
    assert Saving(a).name[7..] == a && Saving(b).name[7..] == b;
    assert Checking(a).name[9..] == a && Checking(b).name[9..] == b;
  }

  lemma {:induction false} KeysMember(accounts: seq<string>, a: string)
    ensures Saving(a) in Keys(accounts) <==> a in accounts
    ensures Checking(a) in Keys(accounts) <==> a in accounts
  {
    if accounts != [] {
      KeysMember(accounts[1..], a);
      KeyNames(a, accounts[0]);
      KeyNames(accounts[0], a);
      var keys, rest := Keys(accounts), Keys(accounts[1..]);
      assert forall k :: k in keys <==> k == Saving(accounts[0]) || k == Checking(accounts[0]) || k in rest;
      assert a in accounts <==> a == accounts[0] || a in accounts[1..];
    }
  }

  lemma {:induction false} KeysDistinct(accounts: seq<string>)
    requires Distinct(accounts)
    ensures Distinct(Keys(accounts))
  {
    if accounts != [] {
      KeysDistinct(accounts[1..]);
      KeysMember(accounts[1..], accounts[0]);
      KeyNames(accounts[0], accounts[0]);
      var rest := Keys(accounts[1..]);
      forall i | 0 <= i < |rest| ensures rest[i] != Saving(accounts[0]) && rest[i] != Checking(accounts[0]) {
        assert rest[i] in rest;
      }
    }
  }

  /** Storing a balance moves the sum by the difference. */
  lemma {:induction false} SumPut(db: Db<int>, keys: seq<Key>, k: Key, v: int)
    requires Distinct(keys) && INT_MIN <= v <= INT_MAX
    ensures Sum(db[k := v], keys) == Sum(db, keys) + if k in keys then v - Balance(db, k) else 0
  {
    if keys != [] {
      SumPut(db, keys[1..], k, v);
      assert keys == [keys[0]] + keys[1..];
      assert keys[0] == k ==> k !in keys[1..];
    }
  }

  lemma {:induction false} SumAtLeast(db: Db<int>, keys: seq<Key>, k: Key)
    requires Solvent(db) && k in keys
    ensures 0 <= Balance(db, k) <= Sum(db, keys)
  {
    SumNonNegative(db, keys[1..]);
    if keys[0] != k { SumAtLeast(db, keys[1..], k); }
  }

  lemma {:induction false} SumNonNegative(db: Db<int>, keys: seq<Key>)
    requires Solvent(db)
    ensures Sum(db, keys) >= 0
  {
    if keys != [] { SumNonNegative(db, keys[1..]); }
  }

  lemma {:induction false} SumAtLeastTwo(db: Db<int>, keys: seq<Key>, k: Key, l: Key)
    requires Solvent(db) && Distinct(keys) && k in keys && l in keys && k != l
    ensures Balance(db, k) + Balance(db, l) <= Sum(db, keys)
  {
    if keys[0] == k {
      SumAtLeast(db, keys[1..], l);
    } else if keys[0] == l {
      SumAtLeast(db, keys[1..], k);
    } else {
      SumAtLeastTwo(db, keys[1..], k, l);
    }
  }

  /** Moving money between accounts of the bank. */
  predicate Transfer(op: Op, accounts: seq<string>) {
    (op.Amalgamate? || op.SendPayment?) && op.from in accounts && op.to in accounts
  }

  /** A solvent bank with the given total. */
  ghost predicate Books(db: Db<int>, accounts: seq<string>, total: int) {
    Solvent(db) && Sum(db, Keys(accounts)) == total
  }

  lemma ApplyTwo(db: Db<int>, a: Key, x: int, b: Key, y: int)
    ensures Apply(db, [Put(a, x), Put(b, y)]) == db[a := x][b := y]
  {
    var ws: seq<Write<int>> := [Put(a, x), Put(b, y)];
    var rest := ws[1..];
    assert rest == [Put(b, y)] && rest[1..] == [];
    assert Apply(db, ws) == Apply(db[a := x], rest);
    assert Apply(db[a := x], rest) == Apply(db[a := x][b := y], rest[1..]);
  }

  lemma MoveSum(db: Db<int>, keys: seq<Key>, a: Key, x: int, b: Key, y: int)
    requires Distinct(keys) && a in keys && b in keys && a != b
    requires INT_MIN <= x <= INT_MAX && INT_MIN <= y <= INT_MAX
    ensures Sum(Apply(db, [Put(a, x), Put(b, y)]), keys) == Sum(db, keys) + x + y - Balance(db, a) - Balance(db, b)
  {
    ApplyTwo(db, a, x, b, y);
    SumPut(db, keys, a, x);
    SumPut(db[a := x], keys, b, y);
  }

  /** How often a sum of two 32-bit numbers wraps around, upwards or downwards. */
  function Carry(x: int): (r: int)
    ensures -1 <= r <= 1
    ensures 2 * INT_MIN <= x <= -2 * INT_MIN ==> Wrap(x) == x - 0x1_0000_0000 * r
  {
    if x > INT_MAX then 1 else if x < INT_MIN then -1 else 0
  }

  /** How often the balances that a transfer stores wrap around. */
  function Turns(op: Op, db: Db<int>): int {
    match op
    case Amalgamate(from, to) => Carry(Balance(db, Checking(to)) + Balance(db, Saving(from)))
    case SendPayment(from, to, raw) =>
      Carry(Balance(db, Checking(from)) - Wrap(raw)) + Carry(Balance(db, Checking(to)) + Wrap(raw))
    case _ => 0
  }

  /** Money is lost in steps of 2^32, once at most; on a solvent bank exactly when the transfer overflows. Out of
      an account below zero it can also be made. */
  lemma TurnsBound(op: Op, db: Db<int>)
    requires Invoke(op, db).ok
    ensures -1 <= Turns(op, db) <= 1
    ensures Solvent(db) && (op.Amalgamate? || op.SendPayment?) ==>
              Turns(op, db) == if Overflows(op, db) then 1 else 0
  {
  }

  lemma AmalgamateExactly(from: string, to: string, db: Db<int>, d: Db<int>, keys: seq<Key>)
    requires from != to && Distinct(keys) && Saving(from) in keys && Checking(to) in keys
    requires Balance(d, Saving(from)) == Balance(db, Saving(from))
             && Balance(d, Checking(to)) == Balance(db, Checking(to))
    ensures var op := Amalgamate(from, to);
            Sum(Apply(d, Invoke(op, db).writeSet), keys) == Sum(d, keys) - 0x1_0000_0000 * Turns(op, db)
  {
    KeyNames(from, to);
    var src, dest := Balance(db, Saving(from)), Balance(db, Checking(to));
    MoveSum(d, keys, Saving(from), 0, Checking(to), Wrap(dest + src));
  }

  lemma PaymentWrites(from: string, to: string, raw: int, db: Db<int>)
    requires Invoke(SendPayment(from, to, raw), db).ok
    ensures from != to
    ensures Invoke(SendPayment(from, to, raw), db).writeSet
            == [Put(Checking(from), Wrap(Balance(db, Checking(from)) - Wrap(raw))),
                Put(Checking(to), Wrap(Balance(db, Checking(to)) + Wrap(raw)))]
  {
  }

  lemma PaymentExactly(from: string, to: string, raw: int, db: Db<int>, d: Db<int>, keys: seq<Key>)
    requires Distinct(keys) && Checking(from) in keys && Checking(to) in keys
    requires Balance(d, Checking(from)) == Balance(db, Checking(from))
             && Balance(d, Checking(to)) == Balance(db, Checking(to))
    requires Invoke(SendPayment(from, to, raw), db).ok
    ensures var op := SendPayment(from, to, raw);
            Sum(Apply(d, Invoke(op, db).writeSet), keys) == Sum(d, keys) - 0x1_0000_0000 * Turns(op, db)
  {
    PaymentWrites(from, to, raw, db);
    KeyNames(from, to);
    var x, y := Balance(db, Checking(from)) - Wrap(raw), Balance(db, Checking(to)) + Wrap(raw);
    assert Wrap(x) == x - 0x1_0000_0000 * Carry(x) && Wrap(y) == y - 0x1_0000_0000 * Carry(y);
    MoveSum(d, keys, Checking(from), Wrap(x), Checking(to), Wrap(y));
  }

  /** A transfer executed on `db`, solvent or not, and written back to `d`, which has the same balances at
      its keys, keeps the money in the bank but for 2^32 with every turn. */
  lemma TransferExactly(op: Op, db: Db<int>, d: Db<int>, accounts: seq<string>)
    requires Transfer(op, accounts) && Distinct(accounts) && Invoke(op, db).ok
    requires forall k | k in WrittenKeys(Invoke(op, db).writeSet) :: Balance(d, k) == Balance(db, k)
    ensures Sum(Apply(d, Invoke(op, db).writeSet), Keys(accounts))
            == Sum(d, Keys(accounts)) - 0x1_0000_0000 * Turns(op, db)
  {
    KeysDistinct(accounts);
    KeysMember(accounts, op.from);
    KeysMember(accounts, op.to);
    var ws := Invoke(op, db).writeSet;
    assert ws[0].key in WrittenKeys(ws) && ws[1].key in WrittenKeys(ws);
    match op
    case Amalgamate(from, to) => AmalgamateExactly(from, to, db, d, Keys(accounts));
    case SendPayment(from, to, raw) => PaymentExactly(from, to, raw, db, d, Keys(accounts));
  }

  /** In a bank whose money fits 32 bits no transfer overflows. */
  lemma NoOverflowInBooks(op: Op, db: Db<int>, accounts: seq<string>, total: int)
    requires Transfer(op, accounts) && Distinct(accounts) && Books(db, accounts, total) && total <= INT_MAX
    ensures !Overflows(op, db)
  {
    var keys := Keys(accounts);
    KeysDistinct(accounts);
    KeysMember(accounts, op.from);
    KeysMember(accounts, op.to);
    if op.from != op.to {
      KeyNames(op.from, op.to);
      SumAtLeastTwo(db, keys, Saving(op.from), Checking(op.to));
      SumAtLeastTwo(db, keys, Checking(op.from), Checking(op.to));
    }
  }

  lemma ApplySolvent(db: Db<int>, out: Outcome<int>)
    requires Solvent(db) && WritesSolvent(out)
    ensures Solvent(Apply(db, out.writeSet))
  {
    forall k ensures Balance(Apply(db, out.writeSet), k) >= 0 {
      ApplyLookup(db, out.writeSet, k);
      assert Balance(db, k) >= 0;
      if k in WrittenKeys(out.writeSet) { LastEffectSolvent(out.writeSet, k); }
    }
  }

  /** A transfer run alone keeps the books exactly when it does not overflow. */
  lemma TransferKeepsBooks(op: Op, db: Db<int>, accounts: seq<string>, total: int)
    requires Transfer(op, accounts) && Distinct(accounts) && Books(db, accounts, total) && Invoke(op, db).ok
    ensures Books(Apply(db, Invoke(op, db).writeSet), accounts, total) <==> !Overflows(op, db)
  {
    TransferExactly(op, db, db, accounts);
    TurnsBound(op, db);
    StoresSolvent(op, db);
    if !Overflows(op, db) { ApplySolvent(db, Invoke(op, db)); }
  }

  /** Those of the transactions whose operation overflows on the snapshot. */
  ghost function Overflowing(s: Db<int>, c: set<Txn<int>>, op: map<nat, Op>): set<Txn<int>>
    requires forall t | t in c :: t.tid in op
  {
    set t | t in c && Overflows(op[t.tid], s)
  }

  /** An epoch of transfers among the accounts. */
  ghost predicate TransferEpoch(s: Db<int>, b: set<Txn<int>>, op: map<nat, Op>, accounts: seq<string>) {
    BankEpoch(s, b, op) && Distinct(accounts) && forall t | t in b :: Transfer(op[t.tid], accounts)
  }

  lemma OverlayBalance(s: Db<int>, c: set<Txn<int>>, d: Db<int>, k: Key)
    requires Overlay(s, c, d) && forall t | t in c :: k !in Writes(t)
    ensures Balance(d, k) == Balance(s, k)
  {
    assert Lookup(d, k) == Lookup(s, k);
  }

  /** Those whose stored balances turn `n` times. */
  ghost function Turning(s: Db<int>, c: set<Txn<int>>, op: map<nat, Op>, n: int): set<Txn<int>>
    requires forall t | t in c :: t.tid in op
  {
    set t | t in c && Turns(op[t.tid], s) == n
  }

  /** The 2^32s that are lost, less those that are made. */
  ghost function Losses(s: Db<int>, c: set<Txn<int>>, op: map<nat, Op>): int
    requires forall t | t in c :: t.tid in op
  {
    |Turning(s, c, op, 1)| - |Turning(s, c, op, -1)|
  }

  lemma TurningMore(s: Db<int>, c: set<Txn<int>>, op: map<nat, Op>, t: Txn<int>, n: int)
    requires t !in c && forall u | u in c + {t} :: u.tid in op
    ensures |Turning(s, c + {t}, op, n)| == |Turning(s, c, op, n)| + if Turns(op[t.tid], s) == n then 1 else 0
  {
    assert Turning(s, c + {t}, op, n) == Turning(s, c, op, n) + if Turns(op[t.tid], s) == n then {t} else {};
  }

  lemma OneMoreLoss(s: Db<int>, c: set<Txn<int>>, op: map<nat, Op>, t: Txn<int>)
    requires t !in c && forall u | u in c + {t} :: u.tid in op
    requires -1 <= Turns(op[t.tid], s) <= 1
    ensures Losses(s, c + {t}, op) == Losses(s, c, op) + Turns(op[t.tid], s)
  {
    TurningMore(s, c, op, t, 1);
    TurningMore(s, c, op, t, -1);
  }

  lemma SolventLosses(s: Db<int>, b: set<Txn<int>>, op: map<nat, Op>, accounts: seq<string>)
    requires TransferEpoch(s, b, op, accounts) && Solvent(s)
    ensures Losses(s, CommittedSet(b), op) == |Overflowing(s, CommittedSet(b), op)|
  {
    var c := CommittedSet(b);
    forall t | t in c ensures Turns(op[t.tid], s) == if Overflows(op[t.tid], s) then 1 else 0 {
      TurnsBound(op[t.tid], s);
    }
    assert Turning(s, c, op, 1) == Overflowing(s, c, op) && Turning(s, c, op, -1) == {};
  }

  lemma OneTransferMore(s: Db<int>, b: set<Txn<int>>, op: map<nat, Op>, accounts: seq<string>, c: set<Txn<int>>,
                        t: Txn<int>, d: Db<int>)
    requires TransferEpoch(s, b, op, accounts) && c <= CommittedSet(b) && t in CommittedSet(b) && t !in c
    requires Overlay(s, c, d)
    ensures Overlay(s, c + {t}, Apply(d, t.out.writeSet))
    ensures Sum(Apply(d, t.out.writeSet), Keys(accounts))
            == Sum(d, Keys(accounts)) - 0x1_0000_0000 * Turns(op[t.tid], s)
  {
    OthersDisjoint(b, c, t);
    OverlayStep(s, c, d, t);
    forall k | k in Writes(t) ensures Balance(d, k) == Balance(s, k) { OverlayBalance(s, c, d, k); }
    TransferExactly(op[t.tid], s, d, accounts);
  }

  /** Writing back committed transfers in any order. */
  lemma {:induction false} OverlayMoney(s: Db<int>, b: set<Txn<int>>, op: map<nat, Op>, accounts: seq<string>,
                                        c: set<Txn<int>>)
    returns (d: Db<int>)
    requires TransferEpoch(s, b, op, accounts) && c <= CommittedSet(b)
    ensures Overlay(s, c, d)
    ensures Sum(d, Keys(accounts)) == Sum(s, Keys(accounts)) - 0x1_0000_0000 * Losses(s, c, op)
    decreases |c|
  {
    d := s;
    if c == {} {
      assert Turning(s, c, op, 1) == Turning(s, c, op, -1) == {};
    } else {
      var t :| t in c;
      var rest := c - {t};
      var e := OverlayMoney(s, b, op, accounts, rest);
      OneTransferMore(s, b, op, accounts, rest, t, e);
      assert c == rest + {t};
      TurnsBound(op[t.tid], s);
      OneMoreLoss(s, rest, op, t);
      d := Apply(e, t.out.writeSet);
    }
  }

  /** The money in the bank after an epoch of transfers, solvent or not. */
  lemma EpochLosses(s: Db<int>, b: set<Txn<int>>, op: map<nat, Op>, d: Db<int>, accounts: seq<string>)
    requires TransferEpoch(s, b, op, accounts) && EpochResult(s, b, d)
    ensures Sum(d, Keys(accounts)) == Sum(s, Keys(accounts)) - 0x1_0000_0000 * Losses(s, CommittedSet(b), op)
  {
    var d' := OverlayMoney(s, b, op, accounts, CommittedSet(b));
    OverlayUnique(s, CommittedSet(b), d, d');
  }

  /** Conservation of money: an epoch of transfers on a solvent bank loses exactly 2^32 for every committed
      transfer that overflows, and nothing else. */
  lemma EpochMoney(s: Db<int>, b: set<Txn<int>>, op: map<nat, Op>, d: Db<int>, accounts: seq<string>)
    requires TransferEpoch(s, b, op, accounts) && EpochResult(s, b, d) && Solvent(s)
    ensures Sum(d, Keys(accounts)) == Sum(s, Keys(accounts)) - 0x1_0000_0000 * |Overflowing(s, CommittedSet(b), op)|
  {
    EpochLosses(s, b, op, d, accounts);
    SolventLosses(s, b, op, accounts);
  }

  /** An epoch of transfers keeps the total exactly when no committed transfer overflows, and then it
      keeps every account at zero or above. */
  lemma EpochKeepsBooks(s: Db<int>, b: set<Txn<int>>, op: map<nat, Op>, d: Db<int>, accounts: seq<string>, total: int)
    requires TransferEpoch(s, b, op, accounts) && EpochResult(s, b, d) && Books(s, accounts, total)
    ensures Sum(d, Keys(accounts)) == total <==> forall t | t in CommittedSet(b) :: !Overflows(op[t.tid], s)
    ensures Books(d, accounts, total) <==> forall t | t in CommittedSet(b) :: !Overflows(op[t.tid], s)
  {
    EpochMoney(s, b, op, d, accounts);
    SolventExactly(s, b, op, d);
    var o := Overflowing(s, CommittedSet(b), op);
    if t :| t in CommittedSet(b) && Overflows(op[t.tid], s) { assert t in o; } else { assert o == {}; }
  }

  /** In particular if the money in the bank fits 32 bits. */
  lemma BooksThatFit(s: Db<int>, b: set<Txn<int>>, op: map<nat, Op>, d: Db<int>, accounts: seq<string>, total: int)
    requires TransferEpoch(s, b, op, accounts) && EpochResult(s, b, d) && Books(s, accounts, total) && total <= INT_MAX
    ensures Books(d, accounts, total)
  {
    forall t | t in CommittedSet(b) ensures !Overflows(op[t.tid], s) {
      NoOverflowInBooks(op[t.tid], s, accounts, total);
    }
    EpochKeepsBooks(s, b, op, d, accounts, total);
  }

  /** An overflowing transfer exists. */
  lemma FullAccount(from: string, to: string)
    requires from != to
    ensures var db: Db<int> := map[Checking(to) := INT_MAX];
            Solvent(db) && Invoke(SendPayment(from, to, 1), db).ok && Overflows(SendPayment(from, to, 1), db)
    ensures Transfer(SendPayment(from, to, 1), [from, to]) && Transfer(Amalgamate(from, to), [from, to])
  {
    KeyNames(from, to);
  }

  /** A payment of one unit out of an account with the smallest int makes 2^32 units. */
  lemma DebtMakesMoney(from: string, to: string)
    requires from != to
    ensures var db: Db<int> := map[Checking(from) := INT_MIN, Checking(to) := 0];
            Invoke(SendPayment(from, to, 1), db).ok && Turns(SendPayment(from, to, 1), db) == -1
  {
    KeyNames(from, to);
  }

  /** A withdrawal of the smallest int from a solvent account succeeds, whatever the balance, and
      leaves the account below zero. */
  lemma SmallestAmount(account: string, db: Db<int>)
    requires Solvent(db)
    ensures var out := Invoke(UpdateBalance(account, INT_MIN), db);
            && out.ok && Overflows(UpdateBalance(account, INT_MIN), db)
            && out.writeSet == [Put(Checking(account), Balance(db, Checking(account)) + INT_MIN)]
            && Balance(db, Checking(account)) + INT_MIN < 0
  {
    assert Wrap(-INT_MIN) == INT_MIN;
  }
}
