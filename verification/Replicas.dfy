/** What holds of the servers of a cluster in every run: they follow one chain of databases, agree, and are
    serializable. */
module Replicas {
  import opened Aria
  import opened Cluster
  import opened EpochChain
  import opened Serializability
  import D = Deployment
  import P = Phases
  import X = AriaExecutor

  /** The verdicts of the commit rule on the transactions of epoch `e`. */
  ghost function Verdicts<V(!new)>(su: Setup<V>, e: nat): map<nat, X.Result>
    requires Named(su.work)
  {
    map x | x in su.work(e) :: VerdictOf(su.prog, su.work(e), At(su, e), x)
  }

  lemma OverMeans<V(!new)>(su: Setup<V>, count: nat, i: nat, v: Server<V>)
    requires count > 0 && Named(su.work) && ServerOk(su, count, i, v) && D.Over(v.st)
    ensures v.data.db == At(su, v.st.epoch + 1) && v.data.verdicts == Verdicts(su, v.st.epoch)
  {
    var e := v.st.epoch;
    AllReserved(su, count, i, v.st);
    AtNext(su, e);
    FinalHolds(su.prog, su.work(e), At(su, e), D.Work(v.st.log, e), D.Commits(v.st.log, e), v.data);
  }

  lemma FinalHolds<V(!new)>(prog: Program<V>, xs: set<nat>, s: Db<V>, worked: set<nat>, com: set<nat>, d: Data<V>)
    requires 0 !in xs && worked == com == xs && Holds(prog, xs, s, worked, com, P.CommitPhase, d)
    ensures d.db == Next(prog, xs, s) && d.verdicts == map x | x in xs :: VerdictOf(prog, xs, s, x)
  {
    FinishOk(prog, xs, s, d);
  }

  /** At every moment of every run, the database of every server is one of a chain that depends on the
      schedule only: that of its epoch until it commits, and that of the next when it is done. Then it
      has given every transaction of the epoch the verdict of the commit rule, and no other any. */
  lemma DatabasesFollow<V(!new)>(su: Setup<V>, tr: seq<Servers<V>>, n: nat, i: nat)
    requires Run(su, tr) && n < |tr| && i < |tr[n]|
    ensures var v := tr[n][i];
            && (P.CurrentPhase(v.st.pc) != P.CommitPhase ==> v.data.db == At(su, v.st.epoch))
            && (D.Over(v.st) ==> v.data.db == At(su, v.st.epoch + 1) && v.data.verdicts == Verdicts(su, v.st.epoch))
  {
    var v := tr[n][i];
    RunInv(su, tr, n);
    assert ServerOk(su, |tr[n]|, i, v);
    var e := v.st.epoch;
    if P.CurrentPhase(v.st.pc) != P.CommitPhase {
      D.NothingAhead(su.agg, v.st, e);
      StillSnapshot(su.prog, su.work(e), At(su, e), D.Work(v.st.log, e), v.data);
    }
    if D.Over(v.st) { OverMeans(su, |tr[n]|, i, v); }
  }

  /** Two setups for the same work: execution may be shared in one and not in the other. */
  ghost predicate SameWork<V(!new)>(su: Setup<V>, su': Setup<V>) {
    su' == su.(agg := su'.agg)
  }

  /** Servers agree. Two servers, of one cluster or of two of any sizes, with and without shared
      execution, at any moments of any runs, that have finished the same epoch have the same database
      and the same verdicts. */
  lemma ServersAgree<V(!new)>(su: Setup<V>, tr: seq<Servers<V>>, n: nat, i: nat, su': Setup<V>,
                              tr': seq<Servers<V>>, m: nat, j: nat)
    requires Run(su, tr) && n < |tr| && i < |tr[n]| && D.Over(tr[n][i].st)
    requires Run(su', tr') && m < |tr'| && j < |tr'[m]| && D.Over(tr'[m][j].st)
    requires SameWork(su, su') && tr[n][i].st.epoch == tr'[m][j].st.epoch
    ensures tr[n][i].data.db == tr'[m][j].data.db && tr[n][i].data.verdicts == tr'[m][j].data.verdicts
  {
    DatabasesFollow(su, tr, n, i);
    DatabasesFollow(su', tr', m, j);
  }

  /** Every run of every server is serializable: from epoch to epoch its database is what the committed
      transactions leave when they run one after another in the serial order. */
  lemma RunSerializable<V(!new)>(su: Setup<V>, tr: seq<Servers<V>>, n: nat, i: nat) returns (order: seq<Txn<V>>)
    requires Run(su, tr) && n < |tr| && i < |tr[n]| && D.Over(tr[n][i].st) && Deterministic(su.prog)
    ensures var e, v := tr[n][i].st.epoch, tr[n][i].data;
            && WitnessOrder(ExecAll(su.prog, su.work(e), At(su, e)), order)
            && v.db == SerialRun(At(su, e), order)
  {
    RunInv(su, tr, n);
    assert ServerOk(su, |tr[n]|, i, tr[n][i]);
    DatabasesFollow(su, tr, n, i);
    order := ChainSerializable(su.prog, su.work, su.start, su.db, tr[n][i].st.epoch);
  }

  /** The check on received messages never fails: what another server sends for an epoch is scheduled
      for that epoch and not executed here. */
  lemma MessagesFit<V(!new)>(su: Setup<V>, tr: seq<Servers<V>>, n: nat, i: nat, j: nat, e: nat, x: nat)
    requires Run(su, tr) && n < |tr| && i < |tr[n]| && j < |tr[n]| && i != j && su.agg
    requires e in tr[n][j].sent && x in tr[n][j].sent[e]
    ensures x in su.work(e) && !Executes(su.agg, |tr[n]|, i, x) && tr[n][j].sent[e][x] == su.prog(x)(At(su, e))
  {
    RunInv(su, tr, n);
    assert ServerOk(su, |tr[n]|, j, tr[n][j]);
    assert MessageOk(su, |tr[n]|, j, e, tr[n][j].sent[e]);
  }
}
