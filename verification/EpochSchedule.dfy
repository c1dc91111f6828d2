/** One epoch run by any number of workers, interleaved at the level of single register loads,
    compare-and-swap attempts and storage writes.

    Whatever the split of the epoch into workloads and whatever the interleaving, every register
    ends at the smallest reserving id and the results and the database are those of the epoch. */
module EpochSchedule {
  import opened Aria
  import opened Reservation

  datatype Reg = ReadReg(key: Key) | WriteReg(key: Key)

  datatype Regs = Regs(readTable: Registers, writeTable: Registers)

  /** Where a worker stands in the compare-and-swap loop on one register. */
  datatype Cas = Load | Loaded(seen: nat)

  datatype Pc =
    | Reserving(n: nat, j: nat, cas: Cas)  // reserving operation j of transaction n
    | ReadDone
    | Deciding(n: nat)                     // about to analyse transaction n
    | Writing(n: nat, j: nat)              // writing back write j of transaction n
    | CommitDone

  datatype Worker<!V> = Worker(list: seq<Txn<V>>, pc: Pc)

  /** `results` maps the id of a decided transaction to whether it committed. */
  datatype State<!V> = State(regs: Regs, db: Db<V>, results: map<nat, bool>, workers: seq<Worker<V>>)

  function Value(regs: Regs, r: Reg): nat {
    match r
    case ReadReg(k) => Register(regs.readTable, k)
    case WriteReg(k) => Register(regs.writeTable, k)
  }

  function Swap(regs: Regs, r: Reg, tid: nat): Regs {
    match r
    case ReadReg(k) => regs.(readTable := regs.readTable[k := tid])
    case WriteReg(k) => regs.(writeTable := regs.writeTable[k := tid])
  }

  /** A successful transaction reserves its reads, then its writes; a failed one nothing. */
  function OpCount<V>(t: Txn<V>): nat {
    if t.out.ok then |t.out.readSet| + |t.out.writeSet| else 0
  }

  function Op<V>(t: Txn<V>, j: nat): Reg
    requires j < OpCount(t)
  {
    if j < |t.out.readSet| then ReadReg(t.out.readSet[j])
    else WriteReg(t.out.writeSet[j - |t.out.readSet|].key)
  }

  /******* Steps *******/

  ghost predicate Move<V>(st: State<V>, st': State<V>, i: nat, pc: Pc)
    requires i < |st.workers|
  {
    st'.workers == st.workers[i := Worker(st.workers[i].list, pc)]
  }

  /** A worker's step in the read phase: load a register, leave it if a smaller id is there, or
      try to swap its own id in. An attempt may fail even when the register is unchanged. */
  ghost predicate ReserveStep<V>(st: State<V>, st': State<V>, i: nat)
    requires i < |st.workers| && st.workers[i].pc.Reserving?
  {
    var Worker(list, Reserving(n, j, cas)) := st.workers[i];
    && st'.db == st.db && st'.results == st.results
    && if n >= |list| then
         st'.regs == st.regs && Move(st, st', i, ReadDone)
       else if j >= OpCount(list[n]) then
         st'.regs == st.regs && Move(st, st', i, Reserving(n + 1, 0, Load))
       else
         var r, tid := Op(list[n], j), list[n].tid;
         match cas
         case Load =>
           st'.regs == st.regs && Move(st, st', i, Reserving(n, j, Loaded(Value(st.regs, r))))
         case Loaded(seen) =>
           if seen <= tid && seen != 0 then
             st'.regs == st.regs && Move(st, st', i, Reserving(n, j + 1, Load))
           else
             || (&& Value(st.regs, r) == seen
                 && st'.regs == Swap(st.regs, r, tid) && Move(st, st', i, Reserving(n, j + 1, Load)))
             || (&& st'.regs == st.regs
                 && Move(st, st', i, Reserving(n, j, Loaded(Value(st.regs, r)))))
  }

  ghost predicate Passes<V>(regs: Regs, t: Txn<V>) {
    t.out.ok && TestsPass(regs.readTable, regs.writeTable, t)
  }

  /** A worker's step in the commit phase: decide one transaction or write back one key. */
  ghost predicate CommitStep<V>(st: State<V>, st': State<V>, i: nat)
    requires i < |st.workers|
  {
    var Worker(list, pc) := st.workers[i];
    && st'.regs == st.regs
    && match pc
       case Deciding(n) =>
         && st'.db == st.db
         && (if n >= |list| then Move(st, st', i, CommitDone) && st'.results == st.results
             else if Passes(st.regs, list[n]) then Move(st, st', i, Writing(n, 0)) && st'.results == st.results
             else Move(st, st', i, Deciding(n + 1)) && st'.results == st.results[list[n].tid := false])
       case Writing(n, j) =>
         && n < |list|
         && (if j < |list[n].out.writeSet| then
               && Move(st, st', i, Writing(n, j + 1)) && st'.results == st.results
               && st'.db == ApplyOne(st.db, list[n].out.writeSet[j])
             else
               && Move(st, st', i, Deciding(n + 1)) && st'.db == st.db
               && st'.results == st.results[list[n].tid := true])
       case _ => false
  }

  /** The commit phase starts for a worker once nobody is reserving any more. */
  ghost predicate StartCommit<V>(st: State<V>, st': State<V>, i: nat)
    requires i < |st.workers|
  {
    && st.workers[i].pc == ReadDone && (forall w | w in st.workers :: !w.pc.Reserving?)
    && Move(st, st', i, Deciding(0))
    && st'.(workers := st.workers) == st
  }

  ghost predicate StepBy<V>(st: State<V>, st': State<V>, i: nat) {
    && i < |st.workers|
    && if st.workers[i].pc.Reserving? then ReserveStep(st, st', i)
       else StartCommit(st, st', i) || CommitStep(st, st', i)
  }

  ghost predicate Step<V>(st: State<V>, st': State<V>) {
    exists i :: StepBy(st, st', i)
  }

  ghost predicate Init<V>(s: Db<V>, split: seq<seq<Txn<V>>>, st: State<V>) {
    && st.regs == Regs(map[], map[]) && st.db == s && st.results == map[]
    && |st.workers| == |split|
    && forall i | 0 <= i < |split| :: st.workers[i] == Worker(split[i], Reserving(0, 0, Load))
  }

  ghost predicate Run<V>(s: Db<V>, split: seq<seq<Txn<V>>>, tr: seq<State<V>>) {
    && tr != [] && Init(s, split, tr[0])
    && forall n | 0 < n < |tr| :: StepAt(tr, n)
  }

  /** Moment `n` of a run comes from the one before by a step. */
  ghost predicate StepAt<V>(tr: seq<State<V>>, n: nat)
    requires 0 < n < |tr|
  {
    Step(tr[n - 1], tr[n])
  }

  ghost predicate Finished<V>(st: State<V>) {
    forall w | w in st.workers :: w.pc == CommitDone
  }

  /** The workloads hold exactly the transactions of `b`. */
  ghost predicate Covers<V>(split: seq<seq<Txn<V>>>, b: set<Txn<V>>) {
    && (forall i, n | 0 <= i < |split| && 0 <= n < |split[i]| :: split[i][n] in b)
    && (forall t | t in b :: exists i, n :: 0 <= i < |split| && 0 <= n < |split[i]| && split[i][n] == t)
  }

  /** No transaction has two places. */
  ghost predicate Once<V>(split: seq<seq<Txn<V>>>) {
    forall i, n, i', n' | 0 <= i < |split| && 0 <= n < |split[i]| && 0 <= i' < |split| && 0 <= n' < |split[i']|
                          && split[i][n] == split[i'][n'] :: i == i' && n == n'
  }

  ghost predicate Splits<V>(split: seq<seq<Txn<V>>>, b: set<Txn<V>>) {
    Covers(split, b) && Once(split)
  }

  /******* The invariant *******/

  ghost predicate Reserves<V>(t: Txn<V>, r: Reg) {
    exists j :: 0 <= j < OpCount(t) && Op(t, j) == r
  }

  /** The operations a worker has finished: all up to transaction `n`, operation `j`. */
  ghost predicate Past(pc: Pc, n: nat, j: nat) {
    if pc.Reserving? then n < pc.n || (n == pc.n && j < pc.j) else true
  }

  ghost predicate Lists<V>(split: seq<seq<Txn<V>>>, st: State<V>) {
    && |st.workers| == |split|
    && forall i | 0 <= i < |split| :: st.workers[i].list == split[i]
  }

  /** A finished operation's register holds an id that is at most its own, and a reserved
      register has not gone up since it was loaded. */
  ghost predicate WorkerRegs<V>(regs: Regs, w: Worker<V>) {
    && (forall n, j | 0 <= n < |w.list| && 0 <= j < OpCount(w.list[n]) && Past(w.pc, n, j) ::
          0 < Value(regs, Op(w.list[n], j)) <= w.list[n].tid)
    && (w.pc.Reserving? && w.pc.n < |w.list| && w.pc.j < OpCount(w.list[w.pc.n])
        && w.pc.cas.Loaded? && w.pc.cas.seen != 0 ==>
          0 < Value(regs, Op(w.list[w.pc.n], w.pc.j)) <= w.pc.cas.seen)
  }

  /** Registers only hold ids of transactions that reserve them. */
  ghost predicate RegsInv<V>(split: seq<seq<Txn<V>>>, b: set<Txn<V>>, st: State<V>) {
    && Lists(split, st)
    && Origins(b, st.regs)
    && (forall i | 0 <= i < |st.workers| :: WorkerRegs(st.regs, st.workers[i]))
  }

  /** Reserved registers stay reserved and only go down. */
  ghost predicate Lowers(regs: Regs, regs': Regs) {
    forall r | Value(regs, r) != 0 :: 0 < Value(regs', r) <= Value(regs, r)
  }

  lemma LowersKeeps<V>(regs: Regs, regs': Regs, w: Worker<V>)
    requires Lowers(regs, regs') && WorkerRegs(regs, w)
    ensures WorkerRegs(regs', w)
  {
    forall n, j | 0 <= n < |w.list| && 0 <= j < OpCount(w.list[n]) && Past(w.pc, n, j)
      ensures 0 < Value(regs', Op(w.list[n], j)) <= w.list[n].tid
    {
      var r := Op(w.list[n], j);
      assert 0 < Value(regs, r) <= w.list[n].tid;
    }
  }

  /** The stepping worker: whatever it did, registers went down, and what it now counts as
      finished is reserved at or below its id. */
  lemma OwnReserve<V>(st: State<V>, st': State<V>, i: nat)
    requires i < |st.workers| && st.workers[i].pc.Reserving? && ReserveStep(st, st', i)
    requires forall n | 0 <= n < |st.workers[i].list| :: st.workers[i].list[n].tid != 0
    requires WorkerRegs(st.regs, st.workers[i])
    ensures Lowers(st.regs, st'.regs)
    ensures WorkerRegs(st'.regs, st'.workers[i])
    ensures st'.regs != st.regs ==>
              var w := st.workers[i];
              && w.pc.n < |w.list| && w.pc.j < OpCount(w.list[w.pc.n])
              && st'.regs == Swap(st.regs, Op(w.list[w.pc.n], w.pc.j), w.list[w.pc.n].tid)
  {
    var w := st.workers[i];
    LowersKeeps(st.regs, st'.regs, w);
  }

  /** A step moves one worker and, unless that worker is reserving, no register. */
  lemma StepFrame<V>(st: State<V>, st': State<V>, i: nat)
    requires StepBy(st, st', i)
    ensures |st'.workers| == |st.workers|
    ensures forall l | 0 <= l < |st.workers| && l != i :: st'.workers[l] == st.workers[l]
    ensures st'.workers[i].list == st.workers[i].list
    ensures !st.workers[i].pc.Reserving? ==> st'.regs == st.regs && !st'.workers[i].pc.Reserving?
  {
  }

  lemma RegsStep<V>(split: seq<seq<Txn<V>>>, b: set<Txn<V>>, st: State<V>, st': State<V>, i: nat)
    requires Covers(split, b) && Ids(b) && RegsInv(split, b, st) && StepBy(st, st', i)
    ensures RegsInv(split, b, st')
  {
    StepFrame(st, st', i);
    var w := st.workers[i];
    forall n | 0 <= n < |w.list| ensures w.list[n] in b { assert w.list[n] == split[i][n]; }
    if w.pc.Reserving? {
      OwnReserve(st, st', i);
      forall l | 0 <= l < |st'.workers| ensures WorkerRegs(st'.regs, st'.workers[l]) {
        if l != i { LowersKeeps(st.regs, st'.regs, st.workers[l]); }
      }
      if st'.regs != st.regs { SwapOrigins(b, st.regs, st'.regs, w.list[w.pc.n], w.pc.j); }
    } else {
      assert WorkerRegs(st.regs, w);
    }
  }

  ghost predicate Origins<V>(b: set<Txn<V>>, regs: Regs) {
    forall r | Value(regs, r) != 0 :: exists t :: t in b && t.tid == Value(regs, r) && Reserves(t, r)
  }

  lemma SwapOrigins<V>(b: set<Txn<V>>, regs: Regs, regs': Regs, t: Txn<V>, j: nat)
    requires Origins(b, regs) && t in b && j < OpCount(t) && regs' == Swap(regs, Op(t, j), t.tid)
    ensures Origins(b, regs')
  {
    forall q | Value(regs', q) != 0 ensures exists u :: u in b && u.tid == Value(regs', q) && Reserves(u, q) {
      if q == Op(t, j) { assert Reserves(t, q); } else { assert Value(regs', q) == Value(regs, q); }
    }
  }

  /** Once nobody is reserving, every register holds the smallest reserving id. */
  lemma RegsAtEnd<V(!new)>(split: seq<seq<Txn<V>>>, b: set<Txn<V>>, st: State<V>)
    requires Covers(split, b) && Ids(b) && RegsInv(split, b, st)
    requires forall w | w in st.workers :: !w.pc.Reserving?
    ensures Reserved(st.regs.readTable, st.regs.writeTable, b)
  {
    forall t, r | t in b && Reserves(t, r) ensures 0 < Value(st.regs, r) <= t.tid {
      var i, n :| 0 <= i < |split| && 0 <= n < |split[i]| && split[i][n] == t;
      var j :| 0 <= j < OpCount(t) && Op(t, j) == r;
      assert st.workers[i] in st.workers && Past(st.workers[i].pc, n, j);
      assert WorkerRegs(st.regs, st.workers[i]);
    }
    forall k
      ensures IsLeast(Register(st.regs.readTable, k), Readers(b, k))
      ensures IsLeast(Register(st.regs.writeTable, k), Writers(b, k))
    {
      forall t | t in b { ReservesItsKeys(t, k); }
      assert Value(st.regs, ReadReg(k)) == Register(st.regs.readTable, k);
      assert Value(st.regs, WriteReg(k)) == Register(st.regs.writeTable, k);
    }
  }

  lemma ReservesItsKeys<V>(t: Txn<V>, k: Key)
    ensures Reserves(t, ReadReg(k)) <==> t.out.ok && k in Reads(t)
    ensures Reserves(t, WriteReg(k)) <==> t.out.ok && k in Writes(t)
  {
    if t.out.ok && k in Reads(t) {
      var j :| 0 <= j < |t.out.readSet| && t.out.readSet[j] == k;
      assert Op(t, j) == ReadReg(k);
    }
    if t.out.ok && k in Writes(t) {
      var j :| 0 <= j < |t.out.writeSet| && t.out.writeSet[j].key == k;
      assert Op(t, |t.out.readSet| + j) == WriteReg(k);
    }
  }

  /******* The commit phase *******/

  /** How many of the writes of transaction `n` a worker has written back. */
  function Progress<V>(w: Worker<V>, n: nat): nat
    requires n < |w.list|
  {
    match w.pc
    case Deciding(m) => if n < m then |w.list[n].out.writeSet| else 0
    case Writing(m, j) =>
      if n < m then |w.list[n].out.writeSet|
      else if n == m && j <= |w.list[n].out.writeSet| then j else 0
    case CommitDone => |w.list[n].out.writeSet|
    case _ => 0
  }

  ghost predicate Decided<V>(w: Worker<V>, n: nat) {
    match w.pc
    case Deciding(m) => n < m
    case Writing(m, _) => n < m
    case CommitDone => true
    case _ => false
  }

  ghost predicate PcOk<V(!new)>(b: set<Txn<V>>, w: Worker<V>) {
    w.pc.Writing? ==> w.pc.n < |w.list| && w.pc.j <= |w.list[w.pc.n].out.writeSet| && Committed(b, w.list[w.pc.n])
  }

  /** The first `p` writes of `t` are in the database. */
  ghost predicate Written<V>(s: Db<V>, db: Db<V>, t: Txn<V>, p: nat)
    requires p <= |t.out.writeSet|
  {
    forall k | k in Writes(t) :: Lookup(db, k) == Lookup(Apply(s, t.out.writeSet[..p]), k)
  }

  ghost predicate WorkerDb<V(!new)>(s: Db<V>, b: set<Txn<V>>, db: Db<V>, w: Worker<V>) {
    forall n | 0 <= n < |w.list| && Committed(b, w.list[n]) :: Written(s, db, w.list[n], Progress(w, n))
  }

  ghost predicate Untouched<V(!new)>(s: Db<V>, b: set<Txn<V>>, db: Db<V>) {
    forall k | (forall t | Committed(b, t) :: k !in Writes(t)) :: Lookup(db, k) == Lookup(s, k)
  }

  ghost predicate WorkerResults<V>(results: map<nat, bool>, w: Worker<V>) {
    forall n | 0 <= n < |w.list| && Decided(w, n) :: w.list[n].tid in results
  }

  ghost predicate Truthful<V(!new)>(b: set<Txn<V>>, results: map<nat, bool>) {
    && (forall t | t in b && t.tid in results :: results[t.tid] <==> Committed(b, t))
    && (forall i | i in results :: exists t :: t in b && t.tid == i)
  }

  ghost predicate PhaseOk<V>(st: State<V>) {
    forall i, l | 0 <= i < |st.workers| && 0 <= l < |st.workers| && st.workers[i].pc.Reserving? ::
      st.workers[l].pc.Reserving? || st.workers[l].pc.ReadDone?
  }

  ghost predicate Good<V(!new)>(s: Db<V>, b: set<Txn<V>>, db: Db<V>, results: map<nat, bool>, w: Worker<V>) {
    PcOk(b, w) && WorkerDb(s, b, db, w) && WorkerResults(results, w)
  }

  ghost predicate CommitInv<V(!new)>(s: Db<V>, b: set<Txn<V>>, st: State<V>) {
    && (forall i | 0 <= i < |st.workers| :: Good(s, b, st.db, st.results, st.workers[i]))
    && Untouched(s, b, st.db) && Truthful(b, st.results)
  }

  /** The database is the snapshot overlaid with the writes done so far, and decided
      transactions are filed under their verdict. */
  ghost predicate Inv<V(!new)>(s: Db<V>, split: seq<seq<Txn<V>>>, b: set<Txn<V>>, st: State<V>) {
    RegsInv(split, b, st) && PhaseOk(st) && CommitInv(s, b, st)
  }

  lemma InvInit<V(!new)>(s: Db<V>, split: seq<seq<Txn<V>>>, b: set<Txn<V>>, st: State<V>)
    requires Init(s, split, st)
    ensures Inv(s, split, b, st)
  {
  }

  /** In the commit phase the register test is the commit rule. */
  lemma PassesIsCommitted<V(!new)>(split: seq<seq<Txn<V>>>, b: set<Txn<V>>, st: State<V>, t: Txn<V>)
    requires Covers(split, b) && Ids(b) && RegsInv(split, b, st)
    requires forall w | w in st.workers :: !w.pc.Reserving?
    requires t in b
    ensures Passes(st.regs, t) <==> Committed(b, t)
  {
    RegsAtEnd(split, b, st);
    FlagsAreConflicts(st.regs.readTable, st.regs.writeTable, b, t);
  }

  /** Writing back one key of a committed transaction moves that transaction forward and leaves
      every other committed transaction's keys alone. */
  lemma WriteBack<V(!new)>(s: Db<V>, b: set<Txn<V>>, db: Db<V>, u: Txn<V>, j: nat, t: Txn<V>, p: nat)
    requires Ids(b) && Committed(b, u) && Committed(b, t) && j < |u.out.writeSet| && p <= |t.out.writeSet|
    requires Written(s, db, t, p) && (t == u ==> p == j)
    ensures Written(s, ApplyOne(db, u.out.writeSet[j]), t, if t == u then j + 1 else p)
  {
    var w := u.out.writeSet[j];
    var db' := ApplyOne(db, w);
    forall k | k in Writes(t)
      ensures Lookup(db', k) == Lookup(Apply(s, t.out.writeSet[..if t == u then j + 1 else p]), k)
    {
      if t == u {
        ApplyAppend(s, u.out.writeSet[..j], w);
        assert u.out.writeSet[..j] + [w] == u.out.writeSet[..j + 1];
        assert Lookup(db, k) == Lookup(Apply(s, t.out.writeSet[..p]), k);
      } else {
        assert w.key in Writes(u);
        if k == w.key { CommittedWritesDisjoint(b, t, u, k); }
      }
    }
  }

  lemma WriteBackWorker<V(!new)>(s: Db<V>, b: set<Txn<V>>, db: Db<V>, u: Txn<V>, j: nat, w: Worker<V>, w': Worker<V>)
    requires Ids(b) && Committed(b, u) && j < |u.out.writeSet| && WorkerDb(s, b, db, w) && w'.list == w.list
    requires forall n | 0 <= n < |w.list| ::
               if w.list[n] == u then Progress(w, n) == j && Progress(w', n) == j + 1
               else Progress(w', n) == Progress(w, n)
    ensures WorkerDb(s, b, ApplyOne(db, u.out.writeSet[j]), w')
  {
    forall n | 0 <= n < |w'.list| && Committed(b, w'.list[n])
      ensures Written(s, ApplyOne(db, u.out.writeSet[j]), w'.list[n], Progress(w', n))
    {
      WriteBack(s, b, db, u, j, w.list[n], Progress(w, n));
    }
  }

  lemma WriteStep<V(!new)>(s: Db<V>, split: seq<seq<Txn<V>>>, b: set<Txn<V>>, st: State<V>, st': State<V>, i: nat,
                           n: nat, j: nat)
    requires Once(split) && Lists(split, st) && Ids(b) && CommitInv(s, b, st)
    requires i < |st.workers| && st.workers[i].pc == Writing(n, j)
    requires n < |split[i]| && j < |split[i][n].out.writeSet|
    requires Move(st, st', i, Writing(n, j + 1)) && st'.db == ApplyOne(st.db, split[i][n].out.writeSet[j])
    requires st'.results == st.results
    ensures CommitInv(s, b, st')
  {
    var u := split[i][n];
    assert Good(s, b, st.db, st.results, st.workers[i]);
    assert u.out.writeSet[j].key in Writes(u);
    forall l | 0 <= l < |st'.workers| ensures Good(s, b, st'.db, st'.results, st'.workers[l]) {
      var w, w' := st.workers[l], st'.workers[l];
      assert Good(s, b, st.db, st.results, w);
      forall m | 0 <= m < |w.list|
        ensures if w.list[m] == u then Progress(w, m) == j && Progress(w', m) == j + 1
                else Progress(w', m) == Progress(w, m)
      {
        assert split[l][m] == w.list[m];
      }
      WriteBackWorker(s, b, st.db, u, j, w, w');
    }
  }

  lemma DecideStep<V(!new)>(s: Db<V>, b: set<Txn<V>>, st: State<V>, st': State<V>, i: nat, n: nat)
    requires Ids(b) && CommitInv(s, b, st)
    requires i < |st.workers| && st.workers[i].pc == Deciding(n) && CommitStep(st, st', i)
    requires n < |st.workers[i].list| ==>
               st.workers[i].list[n] in b
                   && (Passes(st.regs, st.workers[i].list[n]) <==> Committed(b, st.workers[i].list[n]))
    ensures CommitInv(s, b, st')
  {
    var w := st.workers[i];
    assert Good(s, b, st.db, st.results, w);
    var w' := st'.workers[i];
    forall m | 0 <= m < |w'.list| && Committed(b, w'.list[m]) ensures Written(s, st'.db, w'.list[m], Progress(w', m)) {
      assert Written(s, st.db, w.list[m], Progress(w, m));
    }
    forall l | 0 <= l < |st'.workers| ensures Good(s, b, st'.db, st'.results, st'.workers[l]) {
      assert Good(s, b, st.db, st.results, st.workers[l]);
    }
  }

  lemma FinishWriteStep<V(!new)>(s: Db<V>, b: set<Txn<V>>, st: State<V>, st': State<V>, i: nat, n: nat)
    requires Ids(b) && CommitInv(s, b, st)
    requires i < |st.workers| && n < |st.workers[i].list|
    requires st.workers[i].pc == Writing(n, |st.workers[i].list[n].out.writeSet|) && CommitStep(st, st', i)
    ensures CommitInv(s, b, st')
  {
    var w := st.workers[i];
    assert Good(s, b, st.db, st.results, w);
    var w' := st'.workers[i];
    forall m | 0 <= m < |w'.list| && Committed(b, w'.list[m]) ensures Written(s, st'.db, w'.list[m], Progress(w', m)) {
      assert Written(s, st.db, w.list[m], Progress(w, m));
    }
    forall l | 0 <= l < |st'.workers| ensures Good(s, b, st'.db, st'.results, st'.workers[l]) {
      assert Good(s, b, st.db, st.results, st.workers[l]);
    }
  }

  /** Read-phase steps and the start of the commit phase leave database and results alone. */
  lemma QuietStep<V(!new)>(s: Db<V>, b: set<Txn<V>>, st: State<V>, st': State<V>, i: nat)
    requires CommitInv(s, b, st) && StepBy(st, st', i)
    requires st.workers[i].pc.Reserving? || st.workers[i].pc.ReadDone?
    ensures CommitInv(s, b, st')
  {
    var w, w' := st.workers[i], st'.workers[i];
    assert Good(s, b, st.db, st.results, w);
    forall m | 0 <= m < |w'.list| && Committed(b, w'.list[m]) ensures Written(s, st'.db, w'.list[m], Progress(w', m)) {
      assert Written(s, st.db, w.list[m], Progress(w, m));
    }
    forall l | 0 <= l < |st'.workers| ensures Good(s, b, st'.db, st'.results, st'.workers[l]) {
      assert Good(s, b, st.db, st.results, st.workers[l]);
    }
  }

  lemma PhaseStep<V>(st: State<V>, st': State<V>, i: nat)
    requires PhaseOk(st) && StepBy(st, st', i)
    ensures PhaseOk(st')
  {
    StepFrame(st, st', i);
    forall a, l | 0 <= a < |st'.workers| && 0 <= l < |st'.workers| && st'.workers[a].pc.Reserving?
      ensures st'.workers[l].pc.Reserving? || st'.workers[l].pc.ReadDone?
    {
      assert st.workers[a].pc.Reserving?;
      assert st.workers[a] in st.workers;
    }
  }

  lemma NobodyReserves<V>(st: State<V>, i: nat)
    requires PhaseOk(st) && i < |st.workers| && !st.workers[i].pc.Reserving? && !st.workers[i].pc.ReadDone?
    ensures forall w | w in st.workers :: !w.pc.Reserving?
  {
  }

  lemma CommitInvStep<V(!new)>(s: Db<V>, split: seq<seq<Txn<V>>>, b: set<Txn<V>>, st: State<V>, st': State<V>, i: nat)
    requires Splits(split, b) && Ids(b) && Inv(s, split, b, st) && StepBy(st, st', i)
    ensures CommitInv(s, b, st')
  {
    var w := st.workers[i];
    if w.pc.Reserving? || w.pc.ReadDone? {
      QuietStep(s, b, st, st', i);
    } else if w.pc.Deciding? {
      if w.pc.n < |w.list| {
        assert split[i][w.pc.n] == w.list[w.pc.n];
        NobodyReserves(st, i);
        PassesIsCommitted(split, b, st, w.list[w.pc.n]);
      }
      DecideStep(s, b, st, st', i, w.pc.n);
    } else {
      assert Good(s, b, st.db, st.results, w);
      if w.pc.j < |w.list[w.pc.n].out.writeSet| { WriteStep(s, split, b, st, st', i, w.pc.n, w.pc.j); }
      else { FinishWriteStep(s, b, st, st', i, w.pc.n); }
    }
  }

  /** Every step keeps the invariant. */
  lemma InvStep<V(!new)>(s: Db<V>, split: seq<seq<Txn<V>>>, b: set<Txn<V>>, st: State<V>, st': State<V>)
    requires Splits(split, b) && Ids(b) && Inv(s, split, b, st) && Step(st, st')
    ensures Inv(s, split, b, st')
  {
    var i :| StepBy(st, st', i);
    RegsStep(split, b, st, st', i);
    PhaseStep(st, st', i);
    CommitInvStep(s, split, b, st, st', i);
  }

  /******* Results *******/

  lemma {:induction false} RunInv<V(!new)>(s: Db<V>, split: seq<seq<Txn<V>>>, b: set<Txn<V>>, tr: seq<State<V>>, n: nat)
    requires Splits(split, b) && Ids(b) && Run(s, split, tr) && n < |tr|
    ensures Inv(s, split, b, tr[n])
    decreases n
  {
    if n == 0 {
      InvInit(s, split, b, tr[0]);
    } else {
      RunInv(s, split, b, tr, n - 1);
      assert StepAt(tr, n);
      InvStep(s, split, b, tr[n - 1], tr[n]);
    }
  }

  lemma DecidedAtEnd<V(!new)>(s: Db<V>, split: seq<seq<Txn<V>>>, b: set<Txn<V>>, st: State<V>, t: Txn<V>)
    requires Covers(split, b) && Inv(s, split, b, st) && Finished(st) && t in b
    ensures t.tid in st.results && st.results[t.tid] == Committed(b, t)
    ensures Committed(b, t) ==> Written(s, st.db, t, |t.out.writeSet|)
  {
    var i, m :| 0 <= i < |split| && 0 <= m < |split[i]| && split[i][m] == t;
    assert Good(s, b, st.db, st.results, st.workers[i]) && st.workers[i] in st.workers;
    assert st.workers[i].list[m] == t;
  }

  /** For every id whether its transaction commits. */
  ghost function Verdicts<V(!new)>(b: set<Txn<V>>): map<nat, bool>
    requires Ids(b)
  {
    map t | t in b :: t.tid := Committed(b, t)
  }

  lemma FinishedDb<V(!new)>(s: Db<V>, split: seq<seq<Txn<V>>>, b: set<Txn<V>>, st: State<V>)
    requires Covers(split, b) && Inv(s, split, b, st) && Finished(st)
    ensures EpochResult(s, b, st.db)
  {
    forall t, k | t in CommittedSet(b) && k in Writes(t) ensures Lookup(st.db, k) == LastEffect(t.out.writeSet, k) {
      DecidedAtEnd(s, split, b, st, t);
      assert t.out.writeSet[..|t.out.writeSet|] == t.out.writeSet;
      ApplyLookup(s, t.out.writeSet, k);
    }
  }

  /** A finished run leaves the epoch result, decides every transaction by the commit rule, and
      has lowered every register to the smallest reserving id. */
  lemma FinishedRun<V(!new)>(s: Db<V>, split: seq<seq<Txn<V>>>, b: set<Txn<V>>, tr: seq<State<V>>, n: nat)
    requires Splits(split, b) && Ids(b) && Run(s, split, tr) && n < |tr| && Finished(tr[n])
    ensures EpochResult(s, b, tr[n].db)
    ensures tr[n].results == Verdicts(b)
    ensures Reserved(tr[n].regs.readTable, tr[n].regs.writeTable, b)
  {
    RunInv(s, split, b, tr, n);
    RegsAtEnd(split, b, tr[n]);
    FinishedDb(s, split, b, tr[n]);
    forall t | t in b ensures t.tid in tr[n].results && tr[n].results[t.tid] == Committed(b, t) {
      DecidedAtEnd(s, split, b, tr[n], t);
    }
  }

  /** The same, transaction by transaction. */
  lemma FinishedResults<V(!new)>(s: Db<V>, split: seq<seq<Txn<V>>>, b: set<Txn<V>>, tr: seq<State<V>>, n: nat)
    requires Splits(split, b) && Ids(b) && Run(s, split, tr) && n < |tr| && Finished(tr[n])
    ensures EpochResult(s, b, tr[n].db)
    ensures forall t | t in b :: t.tid in tr[n].results && tr[n].results[t.tid] == Committed(b, t)
    ensures forall x | x in tr[n].results :: exists t :: t in b && t.tid == x
  {
    FinishedRun(s, split, b, tr, n);
  }

  lemma ReadingStep<V>(s: Db<V>, st: State<V>, st': State<V>, i: nat)
    requires PhaseOk(st) && StepBy(st, st', i) && ((exists w :: w in st.workers && w.pc.Reserving?) ==> st.db == s)
    ensures (exists w :: w in st'.workers && w.pc.Reserving?) ==> st'.db == s
  {
    if l :| 0 <= l < |st'.workers| && st'.workers[l].pc.Reserving? {
      StepFrame(st, st', i);
      assert st.workers[l].pc.Reserving? && st.workers[l] in st.workers;
    }
  }

  /** As long as a worker executes and reserves, the database is the snapshot. So a chaincode that is called
      at the moment its transaction is processed leaves the recorded outcome. */
  lemma {:induction false} ReadsTheSnapshot<V(!new)>(s: Db<V>, b: set<Txn<V>>, split: seq<seq<Txn<V>>>,
                                                     tr: seq<State<V>>, n: nat)
    requires Run(s, split, tr) && n < |tr| && Executed(s, b)
    ensures PhaseOk(tr[n])
    ensures (exists w :: w in tr[n].workers && w.pc.Reserving?) ==>
              tr[n].db == s && forall t | t in b :: t.code(tr[n].db) == t.out
    decreases n
  {
    if n > 0 {
      ReadsTheSnapshot(s, b, split, tr, n - 1);
      assert StepAt(tr, n);
      var i: nat :| StepBy(tr[n - 1], tr[n], i);
      PhaseStep(tr[n - 1], tr[n], i);
      ReadingStep(s, tr[n - 1], tr[n], i);
    }
  }

  /** Schedule independence: two servers that run the same epoch on the same snapshot, with any
      number of workers, any split into workloads and any interleaving, agree on every register,
      every result and the database. */
  lemma ScheduleIndependent<V(!new)>(s: Db<V>, b: set<Txn<V>>,
                                     split: seq<seq<Txn<V>>>, tr: seq<State<V>>, n: nat,
                                     split': seq<seq<Txn<V>>>, tr': seq<State<V>>, n': nat)
    requires Ids(b) && Splits(split, b) && Splits(split', b)
    requires Run(s, split, tr) && n < |tr| && Finished(tr[n])
    requires Run(s, split', tr') && n' < |tr'| && Finished(tr'[n'])
    ensures tr[n].db == tr'[n'].db
    ensures tr[n].results == tr'[n'].results
    ensures forall r :: Value(tr[n].regs, r) == Value(tr'[n'].regs, r)
  {
    var st, st' := tr[n], tr'[n'];
    FinishedRun(s, split, b, tr, n);
    FinishedRun(s, split', b, tr', n');
    OverlayUnique(s, CommittedSet(b), st.db, st'.db);
    forall r ensures Value(st.regs, r) == Value(st'.regs, r) {
      assert IsLeast(Register(st.regs.readTable, r.key), Readers(b, r.key));
      assert IsLeast(Register(st'.regs.readTable, r.key), Readers(b, r.key));
      assert IsLeast(Register(st.regs.writeTable, r.key), Writers(b, r.key));
      assert IsLeast(Register(st'.regs.writeTable, r.key), Writers(b, r.key));
    }
  }
}
