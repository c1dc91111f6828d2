/** Servers that try aborted transactions again: the transactions of an epoch are the new ones and those that
    the server itself has aborted in the epoch before. No server is told what the others try again, and yet all
    deploy the same. */
module Reuse {
  import opened Aria
  import opened Cluster
  import opened EpochChain
  import D = Deployment
  import P = Phases
  import R = Replicas
  import X = AriaExecutor

  /******* The schedule with retries *******/

  ghost function Aborted<V(!new)>(prog: Program<V>, xs: set<nat>, s: Db<V>): set<nat> {
    set x | x in xs && VerdictOf(prog, xs, s, x) == X.Abort
  }

  /** What the commit rule aborts in epoch `e`. */
  ghost function AbortedAt<V(!new)>(ru: Setup<V>, e: nat): set<nat>
    requires Named(ru.work)
  {
    Aborted(ru.prog, ru.work(e), At(ru, e))
  }

  ghost predicate RetriesAt<V(!new)>(su: Setup<V>, ru: Setup<V>, e: nat)
    requires Named(ru.work)
  {
    ru.work(e + 1) == su.work(e + 1) + if e < su.start then {} else AbortedAt(ru, e)
  }

  /** `su` has the new transactions of every epoch, and `ru` has also what the epoch before has aborted. */
  ghost predicate Retries<V(!new)>(su: Setup<V>, ru: Setup<V>) {
    && Named(su.work) && Named(ru.work) && ru == su.(work := ru.work) && ru.work(0) == su.work(0)
    && forall e: nat :: RetriesAt(su, ru, e)
  }

  /** Its transactions and its databases, epoch by epoch. */
  ghost function PlanWork<V(!new)>(su: Setup<V>, e: nat): (r: set<nat>)
    requires Named(su.work)
    ensures 0 !in r
    decreases e, 0
  {
    if e <= su.start then su.work(e) else su.work(e) + Aborted(su.prog, PlanWork(su, e - 1), PlanDb(su, e - 1))
  }

  ghost function PlanDb<V(!new)>(su: Setup<V>, e: nat): Db<V>
    requires Named(su.work)
    decreases e, 0
  {
    if e <= su.start then su.db else Next(su.prog, PlanWork(su, e - 1), PlanDb(su, e - 1))
  }

  ghost predicate Planned<V(!new)>(su: Setup<V>, ru: Setup<V>, e: nat)
    requires Named(su.work)
  {
    ru.work(e) == PlanWork(su, e)
  }

  /** There is one. */
  lemma RetriesExist<V(!new)>(su: Setup<V>) returns (ru: Setup<V>)
    requires Named(su.work)
    ensures Retries(su, ru)
  {
    ru := su.(work := e => PlanWork(su, e));
    forall e: nat ensures RetriesAt(su, ru, e) { PlanFollows(su, ru, e); }
  }

  lemma {:induction false} PlanFollows<V(!new)>(su: Setup<V>, ru: Setup<V>, e: nat)
    requires Named(su.work) && Named(ru.work) && ru == su.(work := ru.work)
    requires forall f: nat :: Planned(su, ru, f)
    ensures At(ru, e) == PlanDb(su, e)
  {
    if e > su.start {
      PlanFollows(su, ru, e - 1);
      assert Planned(su, ru, e - 1);
      AtNext(ru, e - 1);
    }
  }

  /******* What a server does *******/

  /** `again[e]`: what the server has put into epoch `e` to try again. */
  type Filed = map<nat, set<nat>>

  datatype Local<V> = Local(servers: Servers<V>, again: seq<Filed>)

  /** What a server deploys: new transactions, and what it has filed. */
  function OwnWork(added: Schedule, again: Filed): Schedule {
    e => added(e) + if e in again then again[e] else {}
  }

  /** At the end of an epoch a server files what it has aborted for the next one. */
  ghost predicate Files<V>(v: Server<V>, v': Server<V>, again: Filed, again': Filed) {
    if v'.st.epoch == v.st.epoch then again' == again
    else again' == again[v'.st.epoch := set x | x in v.data.verdicts && v.data.verdicts[x] == X.Abort]
  }

  ghost predicate LocalStepBy<V(!new)>(su: Setup<V>, l: Local<V>, l': Local<V>, i: nat) {
    && i < |l.servers| == |l.again| == |l'.servers| == |l'.again| && l'.again == l.again[i := l'.again[i]]
    && Files(l.servers[i], l'.servers[i], l.again[i], l'.again[i])
    && StepBy(su.(work := OwnWork(su.work, l'.again[i])), l.servers, l'.servers, i)
  }

  ghost predicate LocalStep<V(!new)>(su: Setup<V>, l: Local<V>, l': Local<V>) {
    exists i: nat :: LocalStepBy(su, l, l', i)
  }

  ghost predicate LocalInit<V(!new)>(su: Setup<V>, l: Local<V>) {
    Init(su, l.servers) && |l.again| == |l.servers| && forall i | 0 <= i < |l.again| :: l.again[i] == map[]
  }

  ghost predicate LocalRun<V(!new)>(su: Setup<V>, tr: seq<Local<V>>) {
    && Named(su.work) && tr != [] && LocalInit(su, tr[0])
    && forall n | 0 < n < |tr| :: LocalStepAt(su, tr, n)
  }

  ghost predicate LocalStepAt<V(!new)>(su: Setup<V>, tr: seq<Local<V>>, n: nat)
    requires 0 < n < |tr|
  {
    LocalStep(su, tr[n - 1], tr[n])
  }

  /******* All file the same *******/

  /** What a server in epoch `epoch` has filed is what the commit rule aborts. */
  ghost predicate FiledOk<V(!new)>(ru: Setup<V>, epoch: nat, again: Filed)
    requires Named(ru.work)
  {
    && (forall e | e in again :: e > ru.start && FiledAt(ru, again, e))
    && (forall e: nat | ru.start < e <= epoch :: e in again)
  }

  ghost predicate FiledAt<V(!new)>(ru: Setup<V>, again: Filed, e: nat)
    requires Named(ru.work) && e > 0 && e in again
  {
    again[e] == AbortedAt(ru, e - 1)
  }

  ghost predicate LocalInv<V(!new)>(ru: Setup<V>, l: Local<V>)
    requires Named(ru.work)
  {
    && |l.again| == |l.servers| && Inv(ru, l.servers)
    && forall i | 0 <= i < |l.again| :: FiledOk(ru, l.servers[i].st.epoch, l.again[i])
  }

  lemma OwnWorkRight<V(!new)>(su: Setup<V>, ru: Setup<V>, epoch: nat, again: Filed, e: nat)
    requires Retries(su, ru) && FiledOk(ru, epoch, again)
    ensures OwnWork(su.work, again)(e) <= ru.work(e)
    ensures e <= epoch ==> OwnWork(su.work, again)(e) == ru.work(e)
  {
    if e > 0 { assert RetriesAt(su, ru, e - 1); }
    if e in again { assert FiledAt(ru, again, e); }
  }

  /** A server that deploys by a schedule deploys by one that has more in later epochs. */
  lemma DeploysMore(work: Schedule, work': Schedule, agg: bool, count: nat, i: nat, st: P.State)
    requires count > 0 && Deploys(work, agg, count, i, st)
    requires work(st.epoch) == work'(st.epoch) && forall e :: work(e) <= work'(e)
    ensures Deploys(work', agg, count, i, st)
  {
    forall ev | DeploysEvent(work, agg, count, i, ev) ensures DeploysEvent(work', agg, count, i, ev) {
      assert work(ev.epoch) <= work'(ev.epoch);
    }
  }

  lemma FilesRight<V(!new)>(ru: Setup<V>, c: Servers<V>, i: nat, v': Server<V>, again: Filed, again': Filed)
    requires Named(ru.work) && Inv(ru, c) && i < |c| && P.Step(ru.agg, c[i].st, v'.st)
    requires FiledOk(ru, c[i].st.epoch, again) && Files(c[i], v', again, again')
    ensures FiledOk(ru, v'.st.epoch, again')
  {
    var v := c[i];
    assert ServerOk(ru, |c|, i, v);
    if v'.st.epoch != v.st.epoch {
      PhaseMoves(ru.agg, v.st, v'.st);
      R.OverMeans(ru, |c|, i, v);
      FiledNext(ru, v.st.epoch, v.data.verdicts, again, again');
    }
  }

  lemma FiledNext<V(!new)>(ru: Setup<V>, epoch: nat, verdicts: map<nat, X.Result>, again: Filed, again': Filed)
    requires Named(ru.work) && ru.start <= epoch && FiledOk(ru, epoch, again) && verdicts == R.Verdicts(ru, epoch)
    requires again' == again[epoch + 1 := set x | x in verdicts && verdicts[x] == X.Abort]
    ensures FiledOk(ru, epoch + 1, again')
  {
    assert again'[epoch + 1] == AbortedAt(ru, epoch);
    forall e: nat | e in again' ensures e > ru.start && FiledAt(ru, again', e) {
      if e != epoch + 1 { assert FiledAt(ru, again, e); }
    }
  }

  lemma OwnMoveIsMove<V(!new)>(su: Setup<V>, ru: Setup<V>, c: Servers<V>, i: nat, v': Server<V>, again: Filed)
    requires Retries(su, ru) && i < |c| && FiledOk(ru, v'.st.epoch, again)
    requires Move(su.(work := OwnWork(su.work, again)), c, i, v')
    ensures Move(ru, c, i, v')
  {
    var own := OwnWork(su.work, again);
    forall e: nat ensures own(e) <= ru.work(e) && (e <= v'.st.epoch ==> own(e) == ru.work(e)) {
      OwnWorkRight(su, ru, v'.st.epoch, again, e);
    }
    DeploysMore(own, ru.work, su.agg, |c|, i, v'.st);
  }

  /** A step of a server with its own schedule is a step with the schedule of all. */
  lemma LocalStepIsStep<V(!new)>(su: Setup<V>, ru: Setup<V>, l: Local<V>, l': Local<V>, i: nat)
    requires Retries(su, ru) && LocalInv(ru, l) && LocalStepBy(su, l, l', i)
    ensures FiledOk(ru, l'.servers[i].st.epoch, l'.again[i]) && StepBy(ru, l.servers, l'.servers, i)
  {
    assert FiledOk(ru, l.servers[i].st.epoch, l.again[i]);
    if !Send(su.agg, l.servers[i], l'.servers[i]) {
      FilesRight(ru, l.servers, i, l'.servers[i], l.again[i], l'.again[i]);
      OwnMoveIsMove(su, ru, l.servers, i, l'.servers[i], l'.again[i]);
    }
  }

  lemma LocalStepKeeps<V(!new)>(su: Setup<V>, ru: Setup<V>, l: Local<V>, l': Local<V>)
    requires Retries(su, ru) && LocalInv(ru, l) && LocalStep(su, l, l')
    ensures LocalInv(ru, l') && Step(ru, l.servers, l'.servers)
  {
    var i: nat :| LocalStepBy(su, l, l', i);
    LocalStepIsStep(su, ru, l, l', i);
    StepKeeps(ru, l.servers, l'.servers);
    forall j | 0 <= j < |l'.again| ensures FiledOk(ru, l'.servers[j].st.epoch, l'.again[j]) {
      if j != i { assert FiledOk(ru, l.servers[j].st.epoch, l.again[j]); }
    }
  }

  lemma {:induction false} LocalRunInv<V(!new)>(su: Setup<V>, ru: Setup<V>, tr: seq<Local<V>>, n: nat)
    requires Retries(su, ru) && LocalRun(su, tr) && n < |tr|
    ensures LocalInv(ru, tr[n])
    decreases n
  {
    if n == 0 {
      InitInv(ru, tr[0].servers);
    } else {
      LocalRunInv(su, ru, tr, n - 1);
      assert LocalStepAt(su, tr, n);
      LocalStepKeeps(su, ru, tr[n - 1], tr[n]);
    }
  }

  function ServersOf<V>(tr: seq<Local<V>>): (r: seq<Servers<V>>)
    ensures |r| == |tr| && forall n | 0 <= n < |r| :: r[n] == tr[n].servers
  {
    seq(|tr|, n requires 0 <= n < |tr| => tr[n].servers)
  }

  /** Every run of servers that each file their own aborted transactions is a run of the cluster that is given
      the schedule with retries beforehand. So what holds of clusters holds of them. */
  lemma LocalIsCluster<V(!new)>(su: Setup<V>, ru: Setup<V>, tr: seq<Local<V>>)
    requires Retries(su, ru) && LocalRun(su, tr)
    ensures Run(ru, ServersOf(tr))
  {
    var c := ServersOf(tr);
    forall n | 0 < n < |c| ensures StepAt(ru, c, n) {
      LocalRunInv(su, ru, tr, n - 1);
      assert LocalStepAt(su, tr, n);
      LocalStepKeeps(su, ru, tr[n - 1], tr[n]);
    }
  }

  /** What a server tries again in an epoch is what the commit rule aborts in the epoch before on the common
      database: the same on every server that has come so far. */
  lemma SameRetries<V(!new)>(su: Setup<V>, ru: Setup<V>, tr: seq<Local<V>>, n: nat, i: nat, e: nat)
    requires Retries(su, ru) && LocalRun(su, tr)
    requires n < |tr| && i < |tr[n].servers| && su.start < e <= tr[n].servers[i].st.epoch
    ensures |tr[n].again| == |tr[n].servers| && e in tr[n].again[i] && tr[n].again[i][e] == AbortedAt(ru, e - 1)
  {
    LocalRunInv(su, ru, tr, n);
    assert FiledOk(ru, tr[n].servers[i].st.epoch, tr[n].again[i]);
    assert FiledAt(ru, tr[n].again[i], e);
  }

  /** Servers agree with retries: two servers, of one cluster or of two, with and without shared execution, that
      are given the same new transactions and have finished the same epoch have the same database and verdicts. */
  lemma RetryingServersAgree<V(!new)>(su: Setup<V>, tr: seq<Local<V>>, n: nat, i: nat, su': Setup<V>,
                                      tr': seq<Local<V>>, m: nat, j: nat)
    requires LocalRun(su, tr) && n < |tr| && i < |tr[n].servers| && D.Over(tr[n].servers[i].st)
    requires LocalRun(su', tr') && m < |tr'| && j < |tr'[m].servers| && D.Over(tr'[m].servers[j].st)
    requires R.SameWork(su, su') && tr[n].servers[i].st.epoch == tr'[m].servers[j].st.epoch
    ensures var a, b := tr[n].servers[i].data, tr'[m].servers[j].data; a.db == b.db && a.verdicts == b.verdicts
  {
    var ru := RetriesExist(su);
    var ru' := ru.(agg := su'.agg);
    SharedRetries(su, ru, su', ru');
    LocalIsCluster(su, ru, tr);
    LocalIsCluster(su', ru', tr');
    R.ServersAgree(ru, ServersOf(tr), n, i, ru', ServersOf(tr'), m, j);
  }

  lemma SharedRetries<V(!new)>(su: Setup<V>, ru: Setup<V>, su': Setup<V>, ru': Setup<V>)
    requires Retries(su, ru) && R.SameWork(su, su') && ru' == ru.(agg := su'.agg)
    ensures Retries(su', ru')
  {
    forall e: nat ensures RetriesAt(su', ru', e) { assert RetriesAt(su, ru, e); }
  }
}
