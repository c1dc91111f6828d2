/** The bank over whole runs: what money there is, and whether accounts are below zero, between the epochs and
    on every server of a cluster. */
module BankRuns {
  import opened Aria
  import opened Collections
  import opened Counting
  import opened EpochChain
  import opened SmallBank
  import C = Cluster
  import D = Deployment
  import R = Replicas

  /** The operation of every transaction, the transactions of every epoch, and the databases between them. */
  datatype History = History(op: nat -> Op, work: seq<set<nat>>, dbs: seq<Db<int>>)

  function BankProgram(op: nat -> Op): Program<int> { x => Code(op(x)) }

  ghost predicate Valid(h: History) {
    |h.dbs| == |h.work| + 1 && forall n | 0 <= n < |h.work| :: EpochAt(h, n)
  }

  /** Epoch `n` leads from one database to the next. */
  ghost predicate EpochAt(h: History, n: nat)
    requires |h.dbs| == |h.work| + 1 && n < |h.work|
  {
    0 !in h.work[n] && OneEpoch(BankProgram(h.op), h.work[n], h.dbs[n], h.dbs[n + 1])
  }

  function Ops(op: nat -> Op, xs: set<nat>): map<nat, Op> { map x | x in xs :: op(x) }

  /** The transactions of epoch `n` as executed. */
  ghost function Txns(h: History, n: nat): (b: set<Txn<int>>)
    requires |h.dbs| == |h.work| + 1 && n < |h.work|
    ensures forall t | t in b :: t.tid in Ops(h.op, h.work[n])
  {
    ExecAll(BankProgram(h.op), h.work[n], h.dbs[n])
  }

  lemma EpochIsBank(h: History, n: nat)
    requires Valid(h) && n < |h.work|
    ensures BankEpoch(h.dbs[n], Txns(h, n), Ops(h.op, h.work[n])) && EpochResult(h.dbs[n], Txns(h, n), h.dbs[n + 1])
  {
    assert EpochAt(h, n);
    ExecIds(BankProgram(h.op), h.work[n], h.dbs[n]);
  }

  /** Every transaction moves money between the accounts. */
  ghost predicate Transfers(h: History, accounts: seq<string>) {
    Distinct(accounts) && forall n | 0 <= n < |h.work| :: TransfersIn(h, accounts, n)
  }

  ghost predicate TransfersIn(h: History, accounts: seq<string>, n: nat)
    requires n < |h.work|
  {
    forall x | x in h.work[n] :: Transfer(h.op(x), accounts)
  }

  lemma EpochIsTransfer(h: History, accounts: seq<string>, n: nat)
    requires Valid(h) && Transfers(h, accounts) && n < |h.work|
    ensures TransferEpoch(h.dbs[n], Txns(h, n), Ops(h.op, h.work[n]), accounts)
  {
    EpochIsBank(h, n);
    assert TransfersIn(h, accounts, n);
  }

  /******* Money *******/

  function Money(h: History, accounts: seq<string>, n: nat): int
    requires n < |h.dbs|
  {
    Sum(h.dbs[n], Keys(accounts))
  }

  /** The 2^32s lost, less those made, in epoch `n`. */
  ghost function LossesIn(h: History, n: nat): int
    requires Valid(h) && n < |h.work|
  {
    Losses(h.dbs[n], CommittedSet(Txns(h, n)), Ops(h.op, h.work[n]))
  }

  /** The overflowing transfers that commit in epoch `n`. */
  ghost function OverflowsIn(h: History, n: nat): nat
    requires Valid(h) && n < |h.work|
  {
    |Overflowing(h.dbs[n], CommittedSet(Txns(h, n)), Ops(h.op, h.work[n]))|
  }

  /** Epoch by epoch. */
  ghost function AllLosses(h: History): (s: seq<int>)
    requires Valid(h)
    ensures |s| == |h.work| && forall n | 0 <= n < |s| :: s[n] == LossesIn(h, n)
  {
    seq(|h.work|, n requires 0 <= n < |h.work| && Valid(h) => LossesIn(h, n))
  }

  ghost function AllOverflows(h: History): (s: seq<int>)
    requires Valid(h)
    ensures |s| == |h.work| && forall n | 0 <= n < |s| :: s[n] == OverflowsIn(h, n)
  {
    seq(|h.work|, n requires 0 <= n < |h.work| && Valid(h) => OverflowsIn(h, n))
  }

  ghost predicate FallsBy(m: seq<int>, losses: seq<int>, n: nat)
    requires |m| == |losses| + 1 && n < |losses|
  {
    m[n + 1] == m[n] - 0x1_0000_0000 * losses[n]
  }

  lemma {:induction false} Telescope(m: seq<int>, losses: seq<int>, n: nat)
    requires |m| == |losses| + 1 && n <= |losses| && forall i | 0 <= i < |losses| :: FallsBy(m, losses, i)
    ensures m[n] == m[0] - 0x1_0000_0000 * Total(losses[..n])
  {
    if n > 0 {
      Telescope(m, losses, n - 1);
      assert FallsBy(m, losses, n - 1);
      assert losses[..n][..n - 1] == losses[..n - 1];
    }
  }

  lemma MoneyStep(h: History, accounts: seq<string>, n: nat)
    requires Valid(h) && Transfers(h, accounts) && n < |h.work|
    ensures Money(h, accounts, n + 1) == Money(h, accounts, n) - 0x1_0000_0000 * LossesIn(h, n)
  {
    EpochIsBank(h, n);
    EpochIsTransfer(h, accounts, n);
    EpochLosses(h.dbs[n], Txns(h, n), Ops(h.op, h.work[n]), h.dbs[n + 1], accounts);
  }

  /** Conservation of money over any number of epochs, with accounts below zero or not. */
  lemma RunMoney(h: History, accounts: seq<string>, n: nat)
    requires Valid(h) && Transfers(h, accounts) && n <= |h.work|
    ensures Money(h, accounts, n) == Money(h, accounts, 0) - 0x1_0000_0000 * Total(AllLosses(h)[..n])
  {
    var m, losses := seq(|h.dbs|, i requires 0 <= i < |h.dbs| => Money(h, accounts, i)), AllLosses(h);
    forall i | 0 <= i < |losses| ensures FallsBy(m, losses, i) { MoneyStep(h, accounts, i); }
    Telescope(m, losses, n);
  }

  ghost predicate SolventAt(h: History, n: nat)
    requires n < |h.dbs|
  {
    Solvent(h.dbs[n])
  }

  lemma SolventEpochLosses(h: History, accounts: seq<string>, n: nat)
    requires Valid(h) && Transfers(h, accounts) && n < |h.work| && SolventAt(h, n)
    ensures LossesIn(h, n) == OverflowsIn(h, n)
  {
    EpochIsTransfer(h, accounts, n);
    SolventLosses(h.dbs[n], Txns(h, n), Ops(h.op, h.work[n]), accounts);
  }

  /** As long as the bank is solvent, 2^32 is lost with every overflowing commit of every epoch, and nothing
      else. */
  lemma SolventRunMoney(h: History, accounts: seq<string>, n: nat)
    requires Valid(h) && Transfers(h, accounts) && n <= |h.work| && forall i | 0 <= i < n :: SolventAt(h, i)
    ensures Money(h, accounts, n) == Money(h, accounts, 0) - 0x1_0000_0000 * Total(AllOverflows(h)[..n])
  {
    forall i | 0 <= i < n ensures AllLosses(h)[i] == AllOverflows(h)[i] { SolventEpochLosses(h, accounts, i); }
    assert AllLosses(h)[..n] == AllOverflows(h)[..n];
    RunMoney(h, accounts, n);
  }

  /******* Solvency *******/

  /** No commit of epoch `n` overflows. */
  ghost predicate NoOverflow(h: History, n: nat)
    requires Valid(h) && n < |h.work|
  {
    forall t | t in CommittedSet(Txns(h, n)) :: !Overflows(h.op(t.tid), h.dbs[n])
  }

  lemma EpochSolvent(h: History, n: nat)
    requires Valid(h) && n < |h.work| && SolventAt(h, n)
    ensures SolventAt(h, n + 1) <==> NoOverflow(h, n)
  {
    EpochIsBank(h, n);
    SolventExactly(h.dbs[n], Txns(h, n), Ops(h.op, h.work[n]), h.dbs[n + 1]);
  }

  /** A bank that starts without an account below zero, whatever its operations, has none after any of `n`
      epochs exactly when no commit of any of them overflows. */
  lemma {:induction false} SolventRun(h: History, n: nat)
    requires Valid(h) && n <= |h.work| && SolventAt(h, 0)
    ensures (forall i | 0 <= i <= n :: SolventAt(h, i)) <==> (forall i | 0 <= i < n :: NoOverflow(h, i))
  {
    if n > 0 {
      SolventRun(h, n - 1);
      if SolventAt(h, n - 1) { EpochSolvent(h, n - 1); }
    }
  }

  ghost predicate BooksAt(h: History, accounts: seq<string>, total: int, n: nat)
    requires n < |h.dbs|
  {
    SolventAt(h, n) && Money(h, accounts, n) == total
  }

  lemma NothingLost(h: History, n: nat)
    requires Valid(h) && n <= |h.work| && forall i | 0 <= i < n :: NoOverflow(h, i)
    ensures Total(AllOverflows(h)[..n]) == 0
  {
    forall i | 0 <= i < n ensures AllOverflows(h)[i] == 0 { NothingLostIn(h, i); }
    TotalZero(AllOverflows(h)[..n]);
  }

  lemma NothingLostIn(h: History, n: nat)
    requires Valid(h) && n < |h.work| && NoOverflow(h, n)
    ensures OverflowsIn(h, n) == 0
  {
    assert Overflowing(h.dbs[n], CommittedSet(Txns(h, n)), Ops(h.op, h.work[n])) == {};
  }

  /** Transfers keep the books over `n` epochs exactly when no commit of any of them overflows. */
  lemma BooksRun(h: History, accounts: seq<string>, total: int, n: nat)
    requires Valid(h) && Transfers(h, accounts) && n <= |h.work| && BooksAt(h, accounts, total, 0)
    ensures (forall i | 0 <= i <= n :: BooksAt(h, accounts, total, i)) <==> (forall i | 0 <= i < n :: NoOverflow(h, i))
  {
    SolventRun(h, n);
    if forall i | 0 <= i < n :: NoOverflow(h, i) {
      forall i | 0 <= i <= n ensures BooksAt(h, accounts, total, i) {
        SolventRunMoney(h, accounts, i);
        NothingLost(h, i);
      }
    } else if forall i | 0 <= i <= n :: BooksAt(h, accounts, total, i) {
      BooksSolvent(h, accounts, total, n);
    }
  }

  lemma BooksSolvent(h: History, accounts: seq<string>, total: int, n: nat)
    requires n < |h.dbs| && forall i | 0 <= i <= n :: BooksAt(h, accounts, total, i)
    ensures forall i | 0 <= i <= n :: SolventAt(h, i)
  {
    forall i | 0 <= i <= n ensures SolventAt(h, i) { assert BooksAt(h, accounts, total, i); }
  }

  lemma FittingBooksStep(h: History, accounts: seq<string>, total: int, n: nat)
    requires Valid(h) && Transfers(h, accounts) && n < |h.work| && BooksAt(h, accounts, total, n) && total <= INT_MAX
    ensures BooksAt(h, accounts, total, n + 1)
  {
    EpochIsBank(h, n);
    EpochIsTransfer(h, accounts, n);
    BooksThatFit(h.dbs[n], Txns(h, n), Ops(h.op, h.work[n]), h.dbs[n + 1], accounts, total);
  }

  /** In a bank whose money fits 32 bits transfers keep the books for ever. */
  lemma {:induction false} FittingBooksRun(h: History, accounts: seq<string>, total: int, n: nat)
    requires Valid(h) && Transfers(h, accounts) && n <= |h.work| && BooksAt(h, accounts, total, 0) && total <= INT_MAX
    ensures BooksAt(h, accounts, total, n)
  {
    if n > 0 {
      FittingBooksRun(h, accounts, total, n - 1);
      FittingBooksStep(h, accounts, total, n - 1);
    }
  }

  /******* On the servers *******/

  /** The epochs of a cluster that runs the bank, `n` of them. */
  ghost predicate HistoryOf(su: C.Setup<int>, n: nat, h: History) {
    && Named(su.work) && su.prog == BankProgram(h.op) && |h.work| == n && |h.dbs| == n + 1
    && (forall i | 0 <= i < n :: h.work[i] == su.work(su.start + i))
    && (forall i | 0 <= i <= n :: h.dbs[i] == C.At(su, su.start + i))
  }

  lemma HistoryExists(su: C.Setup<int>, op: nat -> Op, n: nat) returns (h: History)
    requires Named(su.work) && su.prog == BankProgram(op)
    ensures HistoryOf(su, n, h)
  {
    h := History(op, seq(n, i requires 0 <= i => su.work(su.start + i)),
                 seq(n + 1, i requires 0 <= i && Named(su.work) => C.At(su, su.start + i)));
  }

  lemma HistoryValid(su: C.Setup<int>, n: nat, h: History)
    requires HistoryOf(su, n, h)
    ensures Valid(h)
  {
    forall i | 0 <= i < n ensures EpochAt(h, i) { EpochValid(su, n, h, i); }
  }

  lemma EpochValid(su: C.Setup<int>, n: nat, h: History, i: nat)
    requires HistoryOf(su, n, h) && i < n
    ensures EpochAt(h, i)
  {
    var e := su.start + i;
    assert h.work[i] == su.work(e) && h.dbs[i] == C.At(su, e) && h.dbs[i + 1] == C.At(su, e + 1);
    C.AtNext(su, e);
  }

  lemma ServerHistory(su: C.Setup<int>, tr: seq<C.Servers<int>>, n: nat, i: nat, h: History)
    requires C.Run(su, tr) && n < |tr| && i < |tr[n]| && D.Over(tr[n][i].st)
    requires HistoryOf(su, |h.work|, h) && su.start + |h.work| == tr[n][i].st.epoch + 1
    ensures Valid(h) && h.dbs[0] == su.db && h.dbs[|h.work|] == tr[n][i].data.db
  {
    HistoryValid(su, |h.work|, h);
    R.DatabasesFollow(su, tr, n, i);
  }

  /** At any moment of any run of a cluster, with or without shared execution, a server that has finished an
      epoch holds the money of the beginning but for what all epochs up to that one have lost. */
  lemma ServerMoney(su: C.Setup<int>, tr: seq<C.Servers<int>>, n: nat, i: nat, h: History, accounts: seq<string>)
    requires C.Run(su, tr) && n < |tr| && i < |tr[n]| && D.Over(tr[n][i].st)
    requires HistoryOf(su, |h.work|, h) && su.start + |h.work| == tr[n][i].st.epoch + 1 && Transfers(h, accounts)
    ensures Valid(h) && Sum(tr[n][i].data.db, Keys(accounts))
                        == Sum(su.db, Keys(accounts)) - 0x1_0000_0000 * Total(AllLosses(h))
  {
    ServerHistory(su, tr, n, i, h);
    RunMoney(h, accounts, |h.work|);
    assert AllLosses(h)[..|h.work|] == AllLosses(h);
  }

  /** If the money fits 32 bits, the books of every such server are right. */
  lemma ServerBooks(su: C.Setup<int>, tr: seq<C.Servers<int>>, n: nat, i: nat, h: History, accounts: seq<string>,
                    total: int)
    requires C.Run(su, tr) && n < |tr| && i < |tr[n]| && D.Over(tr[n][i].st)
    requires HistoryOf(su, |h.work|, h) && su.start + |h.work| == tr[n][i].st.epoch + 1 && Transfers(h, accounts)
    requires Books(su.db, accounts, total) && total <= INT_MAX
    ensures Books(tr[n][i].data.db, accounts, total)
  {
    ServerHistory(su, tr, n, i, h);
    FittingBooksRun(h, accounts, total, |h.work|);
  }
}
