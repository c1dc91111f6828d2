/** The databases between the epochs, and what a server holds while an epoch runs on it: outcomes,
    reservation registers, verdicts and a database into which commits are written back. */
module EpochChain {
  import opened Aria
  import opened Reservation
  import opened Serializability
  import X = AriaExecutor

  /** The chaincode call of every transaction. */
  type Program<!V> = nat -> (Db<V> -> Outcome<V>)

  ghost function Exec<V>(prog: Program<V>, x: nat, s: Db<V>): Txn<V> { Txn(x, prog(x), prog(x)(s)) }

  ghost function ExecAll<V>(prog: Program<V>, xs: set<nat>, s: Db<V>): set<Txn<V>> {
    set x | x in xs :: Exec(prog, x, s)
  }

  lemma ExecIds<V>(prog: Program<V>, xs: set<nat>, s: Db<V>)
    requires 0 !in xs
    ensures Ids(ExecAll(prog, xs, s))
  {
  }

  /******* From database to database *******/

  ghost predicate OneEpoch<V(!new)>(prog: Program<V>, xs: set<nat>, s: Db<V>, d: Db<V>) {
    EpochResult(s, ExecAll(prog, xs, s), d)
  }

  lemma {:induction false} OverlayExists<V(!new)>(s: Db<V>, b: set<Txn<V>>, c: set<Txn<V>>) returns (d: Db<V>)
    requires Ids(b) && c <= CommittedSet(b)
    ensures Overlay(s, c, d)
    decreases |c|
  {
    d := s;
    if c != {} {
      var t :| t in c;
      var rest := c - {t};
      d := OverlayExists(s, b, rest);
      OthersDisjoint(b, rest, t);
      OverlayStep(s, rest, d, t);
      assert c == rest + {t};
      d := Apply(d, t.out.writeSet);
    }
  }

  /** The database after one epoch. */
  ghost function Next<V(!new)>(prog: Program<V>, xs: set<nat>, s: Db<V>): (d: Db<V>)
    requires 0 !in xs
    ensures OneEpoch(prog, xs, s, d)
  {
    NextExists(prog, xs, s);
    var d :| OneEpoch(prog, xs, s, d);
    d
  }

  lemma NextExists<V(!new)>(prog: Program<V>, xs: set<nat>, s: Db<V>)
    requires 0 !in xs
    ensures exists d :: OneEpoch(prog, xs, s, d)
  {
    ExecIds(prog, xs, s);
    var b := ExecAll(prog, xs, s);
    var d := OverlayExists(s, b, CommittedSet(b));
    assert OneEpoch(prog, xs, s, d);
  }

  lemma NextUnique<V(!new)>(prog: Program<V>, xs: set<nat>, s: Db<V>, d: Db<V>)
    requires 0 !in xs && OneEpoch(prog, xs, s, d)
    ensures d == Next(prog, xs, s)
  {
    OverlayUnique(s, CommittedSet(ExecAll(prog, xs, s)), d, Next(prog, xs, s));
  }

  /** Which transactions belong to which epoch. */
  type Schedule = nat -> set<nat>

  ghost predicate Named(work: Schedule) { forall e :: 0 !in work(e) }

  /** The database at the beginning of epoch `e`, if epoch `start` begins with `db`. */
  ghost function Chain<V(!new)>(prog: Program<V>, work: Schedule, start: nat, db: Db<V>, e: nat): Db<V>
    requires Named(work)
  {
    if e <= start then db else Next(prog, work(e - 1), Chain(prog, work, start, db, e - 1))
  }

  ghost predicate Deterministic<V(!new)>(prog: Program<V>) { forall x :: ReadDriven(prog(x)) }

  /** Every epoch of the chain is serializable: its database is what the committed transactions leave
      when they run one after another in the serial order. */
  lemma ChainSerializable<V(!new)>(prog: Program<V>, work: Schedule, start: nat, db: Db<V>, e: nat)
    returns (order: seq<Txn<V>>)
    requires Named(work) && Deterministic(prog) && e >= start
    ensures var s := Chain(prog, work, start, db, e);
            && WitnessOrder(ExecAll(prog, work(e), s), order)
            && SerialRun(s, order) == Chain(prog, work, start, db, e + 1)
  {
    var s := Chain(prog, work, start, db, e);
    ExecIds(prog, work(e), s);
    order := EpochHasSerialOrder(s, ExecAll(prog, work(e), s), Next(prog, work(e), s));
  }

  /******* What a server holds *******/

  datatype Data<V> = Data(db: Db<V>, outs: map<nat, Outcome<V>>, readTable: Registers, writeTable: Registers,
                          verdicts: map<nat, X.Result>)

  /** A fresh epoch on a database: no outcomes, empty registers, no verdicts. */
  function FreshData<V>(db: Db<V>): Data<V> { Data(db, map[], map[], map[], map[]) }

  /** Reserving the keys of a transaction that succeeded. */
  ghost function ReserveTxn<V>(d: Data<V>, t: Txn<V>): Data<V> {
    if !t.out.ok then d
    else d.(readTable := Reserve(d.readTable, Reads(t), t.tid), writeTable := Reserve(d.writeTable, Writes(t), t.tid))
  }

  ghost function Decide<V>(d: Data<V>, t: Txn<V>): X.Result {
    if !t.out.ok then X.AbortNoRetry else if TestsPass(d.readTable, d.writeTable, t) then X.Commit else X.Abort
  }

  /** Execute a transaction on the database as it is and reserve its keys. */
  ghost function PlayRead<V>(prog: Program<V>, d: Data<V>, x: nat): Data<V> {
    ReserveTxn(d.(outs := d.outs[x := prog(x)(d.db)]), Exec(prog, x, d.db))
  }

  /** Reserve the keys of a transaction whose outcome is known. */
  ghost function PlayAggregate<V>(prog: Program<V>, d: Data<V>, x: nat): Data<V> {
    if x in d.outs then ReserveTxn(d, Txn(x, prog(x), d.outs[x])) else d
  }

  /** Decide a transaction by the registers, and write it back if it commits. */
  ghost function PlayCommit<V>(prog: Program<V>, d: Data<V>, x: nat): Data<V> {
    if x !in d.outs then d
    else
      var v := Decide(d, Txn(x, prog(x), d.outs[x]));
      d.(db := if v == X.Commit then Apply(d.db, d.outs[x].writeSet) else d.db, verdicts := d.verdicts[x := v])
  }

  /** The committed transactions of epoch `xs` on snapshot `s` among `com`. */
  ghost function CommittedIn<V(!new)>(prog: Program<V>, xs: set<nat>, s: Db<V>, com: set<nat>): set<Txn<V>> {
    set x | x in com && Committed(ExecAll(prog, xs, s), Exec(prog, x, s)) :: Exec(prog, x, s)
  }

  ghost function VerdictOf<V(!new)>(prog: Program<V>, xs: set<nat>, s: Db<V>, x: nat): X.Result {
    X.Verdict(Committed(ExecAll(prog, xs, s), Exec(prog, x, s)), Exec(prog, x, s))
  }

  /** Epoch `xs` runs on snapshot `s`; `worked` have been reserved and `com` decided. */
  ghost predicate DataOk<V(!new)>(prog: Program<V>, xs: set<nat>, s: Db<V>, worked: set<nat>, com: set<nat>,
                                  d: Data<V>) {
    && OutsOk(prog, s, d.outs) && worked <= d.outs.Keys
    && Reserved(d.readTable, d.writeTable, ExecAll(prog, worked, s))
    && Overlay(s, CommittedIn(prog, xs, s, com), d.db)
    && VerdictsOk(prog, xs, s, com, d.verdicts)
  }

  /** Outcomes are those of the chaincodes on snapshot `s`. */
  ghost predicate OutsOk<V>(prog: Program<V>, s: Db<V>, outs: map<nat, Outcome<V>>) {
    forall x | x in outs :: outs[x] == prog(x)(s)
  }

  ghost predicate VerdictsOk<V(!new)>(prog: Program<V>, xs: set<nat>, s: Db<V>, com: set<nat>,
                                      verdicts: map<nat, X.Result>) {
    verdicts.Keys == com && forall x | x in com :: verdicts[x] == VerdictOf(prog, xs, s, x)
  }

  lemma FreshOk<V(!new)>(prog: Program<V>, xs: set<nat>, s: Db<V>)
    ensures DataOk(prog, xs, s, {}, {}, FreshData(s))
  {
    assert ExecAll(prog, {}, s) == {} && CommittedIn(prog, xs, s, {}) == {};
    forall k ensures Readers<V>({}, k) == {} && Writers<V>({}, k) == {} { }
  }

  lemma ReserveTxnOk<V(!new)>(d: Data<V>, b: set<Txn<V>>, t: Txn<V>)
    requires Reserved(d.readTable, d.writeTable, b) && t.tid != 0
    ensures var e := ReserveTxn(d, t);
            Reserved(e.readTable, e.writeTable, b + {t}) && e.db == d.db && e.outs == d.outs && e.verdicts == d.verdicts
  {
    var e := ReserveTxn(d, t);
    if t.out.ok {
      X.ReserveExtends(d.readTable, d.writeTable, e.readTable, e.writeTable, b, t);
    } else {
      X.FailedReservesNothing(d.readTable, d.writeTable, b, t);
    }
  }

  /** Before anything of the epoch commits, the database is the snapshot. */
  lemma StillSnapshot<V(!new)>(prog: Program<V>, xs: set<nat>, s: Db<V>, worked: set<nat>, d: Data<V>)
    requires DataOk(prog, xs, s, worked, {}, d)
    ensures d.db == s
  {
    assert CommittedIn(prog, xs, s, {}) == {};
    assert Overlay(s, {}, s);
    OverlayUnique(s, {}, d.db, s);
  }

  lemma ReadOk<V(!new)>(prog: Program<V>, xs: set<nat>, s: Db<V>, worked: set<nat>, d: Data<V>, x: nat)
    requires DataOk(prog, xs, s, worked, {}, d) && x != 0
    ensures DataOk(prog, xs, s, worked + {x}, {}, PlayRead(prog, d, x))
    ensures PlayRead(prog, d, x).outs.Keys == d.outs.Keys + {x}
  {
    StillSnapshot(prog, xs, s, worked, d);
    ReserveTxnOk(d.(outs := d.outs[x := prog(x)(d.db)]), ExecAll(prog, worked, s), Exec(prog, x, s));
    assert ExecAll(prog, worked + {x}, s) == ExecAll(prog, worked, s) + {Exec(prog, x, s)};
  }

  lemma AggregateOk<V(!new)>(prog: Program<V>, xs: set<nat>, s: Db<V>, worked: set<nat>, d: Data<V>, x: nat)
    requires DataOk(prog, xs, s, worked, {}, d) && x != 0 && x in d.outs
    ensures DataOk(prog, xs, s, worked + {x}, {}, PlayAggregate(prog, d, x)) && PlayAggregate(prog, d, x).outs == d.outs
  {
    ReserveTxnOk(d, ExecAll(prog, worked, s), Exec(prog, x, s));
    assert ExecAll(prog, worked + {x}, s) == ExecAll(prog, worked, s) + {Exec(prog, x, s)};
  }

  /** The register tests make the decision of the commit rule. */
  lemma DecideOk<V(!new)>(prog: Program<V>, xs: set<nat>, s: Db<V>, com: set<nat>, d: Data<V>, x: nat)
    requires DataOk(prog, xs, s, xs, com, d) && x in xs
    ensures Decide(d, Exec(prog, x, s)) == VerdictOf(prog, xs, s, x)
  {
    FlagsAreConflicts(d.readTable, d.writeTable, ExecAll(prog, xs, s), Exec(prog, x, s));
  }

  /** Writing a transaction back once more changes nothing. */
  lemma OverlayAgain<V(!new)>(s: Db<V>, c: set<Txn<V>>, d: Db<V>, t: Txn<V>)
    requires Overlay(s, c, d) && t in c
    ensures Apply(d, t.out.writeSet) == d
  {
    forall k ensures Lookup(Apply(d, t.out.writeSet), k) == Lookup(d, k) {
      ApplyLookup(d, t.out.writeSet, k);
      assert k in Writes(t) ==> Lookup(d, k) == LastEffect(t.out.writeSet, k);
    }
    SameLookups(Apply(d, t.out.writeSet), d);
  }

  lemma CommitDb<V(!new)>(prog: Program<V>, xs: set<nat>, s: Db<V>, com: set<nat>, db: Db<V>, x: nat)
    requires 0 !in xs && com <= xs && x in xs && Overlay(s, CommittedIn(prog, xs, s, com), db)
    ensures var t := Exec(prog, x, s);
            Overlay(s, CommittedIn(prog, xs, s, com + {x}),
                    if VerdictOf(prog, xs, s, x) == X.Commit then Apply(db, t.out.writeSet) else db)
  {
    var b, t, c := ExecAll(prog, xs, s), Exec(prog, x, s), CommittedIn(prog, xs, s, com);
    ExecIds(prog, xs, s);
    if !Committed(b, t) {
      assert CommittedIn(prog, xs, s, com + {x}) == c;
    } else {
      assert CommittedIn(prog, xs, s, com + {x}) == c + {t};
      if t in c {
        OverlayAgain(s, c, db, t);
        assert c + {t} == c;
      } else {
        OthersDisjoint(b, c, t);
        OverlayStep(s, c, db, t);
      }
    }
  }

  lemma CommitOk<V(!new)>(prog: Program<V>, xs: set<nat>, s: Db<V>, com: set<nat>, d: Data<V>, x: nat)
    requires DataOk(prog, xs, s, xs, com, d) && 0 !in xs && com <= xs && x in xs
    ensures DataOk(prog, xs, s, xs, com + {x}, PlayCommit(prog, d, x)) && PlayCommit(prog, d, x).outs == d.outs
  {
    DecideOk(prog, xs, s, com, d, x);
    CommitDb(prog, xs, s, com, d.db, x);
  }

  /** When all have been decided, the epoch is complete. */
  lemma FinishOk<V(!new)>(prog: Program<V>, xs: set<nat>, s: Db<V>, d: Data<V>)
    requires DataOk(prog, xs, s, xs, xs, d) && 0 !in xs
    ensures d.db == Next(prog, xs, s)
  {
    assert CommittedIn(prog, xs, s, xs) == CommittedSet(ExecAll(prog, xs, s));
    NextUnique(prog, xs, s, d.db);
  }
}
