/** A cluster of servers, each with its own coordinator, workers, registers and database.

    With `agg` set, every transaction is executed on one server only: at the end of its read phase a
    server sends the outcomes of what it executed to all others, waits for theirs, and reserves and
    commits the transactions of all. Without it, every server executes everything. Nothing is shared
    but messages, and servers may be in different epochs. */
module Cluster {
  import opened Aria
  import opened EpochChain
  import D = Deployment
  import P = Phases
  import Ranks

  /** `sent` are the messages of past exchanges: for an epoch, the outcomes of what was executed here. */
  datatype Server<V> = Server(st: P.State, data: Data<V>, sent: map<nat, map<nat, Outcome<V>>>)

  type Servers<V> = seq<Server<V>>

  /** Chaincodes, schedule, whether execution is shared, and the first epoch with its database. */
  datatype Setup<!V> = Setup(prog: Program<V>, work: Schedule, agg: bool, start: nat, db: Db<V>)

  /******* Steps *******/

  /** Server `i` of `count` executes transaction `x`. */
  predicate Executes(agg: bool, count: nat, i: nat, x: nat)
    requires count > 0
  {
    !agg || Ranks.IsLocal(x, count, i)
  }

  ghost predicate Assigning(pc: P.CoordPc) {
    pc.Assign? || pc.AwaitAssigned? || pc.ReplaceWorkload? || pc.SignalRead?
  }

  /** Server `i` deploys the transactions of the schedule, in the right kind of workload; and all those
      of an epoch before it goes on. */
  ghost predicate Deploys(work: Schedule, agg: bool, count: nat, i: nat, st: P.State)
    requires count > 0
  {
    && (forall ev | ev in st.deployed :: DeploysEvent(work, agg, count, i, ev))
    && (st.pc.ReplaceWorkload? ==>
       forall ev | ev in P.EventsOf(agg, st.pc.load) :: DeploysEvent(work, agg, count, i, ev))
    && (!Assigning(st.pc) ==> D.Work(st.deployed, st.epoch) == work(st.epoch))
  }

  ghost predicate DeploysEvent(work: Schedule, agg: bool, count: nat, i: nat, ev: P.Event)
    requires count > 0
  {
    && ev.tx in work(ev.epoch)
    && (ev.phase == P.ReadPhase ==> Executes(agg, count, i, ev.tx))
    && (ev.phase == P.AggregatePhase ==> !Executes(agg, count, i, ev.tx))
  }

  /** At the end of the read phase: send what was executed here. */
  ghost predicate Send<V>(agg: bool, v: Server<V>, v': Server<V>) {
    && agg && v.st.pc == P.Sync(P.ReadPhase, |v.st.workers|) && v.st.epoch !in v.sent
    && v' == v.(sent := v.sent[v.st.epoch := v.data.outs])
  }

  ghost predicate Exchanges(agg: bool, st: P.State, st': P.State) {
    agg && st.pc == P.Sync(P.ReadPhase, |st.workers|) && st'.pc == P.Broadcast(P.AggregatePhase, 0)
  }

  /** Outcome `out` of `x` is in the message of some server for epoch `e`. */
  ghost predicate Told<V>(c: Servers<V>, e: nat, x: nat, out: Outcome<V>) {
    exists j: nat :: j < |c| && e in c[j].sent && x in c[j].sent[e] && c[j].sent[e][x] == out
  }

  /** The messages of all servers for the epoch have come, and their outcomes are taken over. */
  ghost predicate Receive<V(!new)>(c: Servers<V>, e: nat, outs: map<nat, Outcome<V>>, outs': map<nat, Outcome<V>>) {
    && (forall j | 0 <= j < |c| :: e in c[j].sent && c[j].sent[e].Keys <= outs'.Keys)
    && outs.Keys <= outs'.Keys
    && (forall x | x in outs' :: (x in outs && outs'[x] == outs[x]) || Told(c, e, x, outs'[x]))
  }

  /** What processing a transaction in a phase does to the data. */
  ghost function Play<V>(prog: Program<V>, d: Data<V>, p: P.Phase, x: nat): Data<V> {
    match p
    case ReadPhase => PlayRead(prog, d, x)
    case AggregatePhase => PlayAggregate(prog, d, x)
    case CommitPhase => PlayCommit(prog, d, x)
  }

  /** What a step of the coordinator or of a worker does to the data. */
  ghost predicate Moves<V(!new)>(prog: Program<V>, agg: bool, c: Servers<V>, v: Server<V>, st': P.State, d': Data<V>) {
    var st, d := v.st, v.data;
    if Exchanges(agg, st, st') then
      d' == d.(outs := d'.outs) && Receive(c, st.epoch, d.outs, d'.outs)
    else if st'.epoch != st.epoch then
      d' == FreshData(d.db)
    else if |st'.log| > |st.log| then
      var ev := st'.log[|st.log|];
      d' == Play(prog, d, ev.phase, ev.tx)
    else
      d' == d
  }

  ghost predicate Move<V(!new)>(su: Setup<V>, c: Servers<V>, i: nat, v': Server<V>)
    requires i < |c|
  {
    && P.Step(su.agg, c[i].st, v'.st) && Deploys(su.work, su.agg, |c|, i, v'.st)
    && Moves(su.prog, su.agg, c, c[i], v'.st, v'.data) && v'.sent == c[i].sent
  }

  ghost predicate StepBy<V(!new)>(su: Setup<V>, c: Servers<V>, c': Servers<V>, i: nat) {
    && i < |c| && |c'| == |c| && c' == c[i := c'[i]]
    && (Send(su.agg, c[i], c'[i]) || Move(su, c, i, c'[i]))
  }

  ghost predicate Step<V(!new)>(su: Setup<V>, c: Servers<V>, c': Servers<V>) {
    exists i: nat :: StepBy(su, c, c', i)
  }

  ghost predicate Init<V(!new)>(su: Setup<V>, c: Servers<V>) {
    forall i | 0 <= i < |c| ::
      P.Init(c[i].st) && c[i].st.epoch == su.start && c[i].data == FreshData(su.db) && c[i].sent == map[]
  }

  ghost predicate Run<V(!new)>(su: Setup<V>, tr: seq<Servers<V>>) {
    && Named(su.work) && tr != [] && Init(su, tr[0])
    && forall n | 0 < n < |tr| :: StepAt(su, tr, n)
  }

  /** Moment `n` of a run comes from the one before by a step. */
  ghost predicate StepAt<V(!new)>(su: Setup<V>, tr: seq<Servers<V>>, n: nat)
    requires 0 < n < |tr|
  {
    Step(su, tr[n - 1], tr[n])
  }

  /******* The invariant *******/

  /** The database at the beginning of epoch `e`, the same for all servers. */
  ghost function At<V(!new)>(su: Setup<V>, e: nat): Db<V>
    requires Named(su.work)
  {
    Chain(su.prog, su.work, su.start, su.db, e)
  }

  ghost predicate ThreadsOk<V(!new)>(su: Setup<V>, count: nat, i: nat, st: P.State)
    requires count > 0
  {
    && P.Inv(su.agg, st) && P.Conserved(su.agg, st) && D.Paired(st.deployed)
    && Deploys(su.work, su.agg, count, i, st) && su.start <= st.epoch
  }

  /** The data in phase `p` of epoch `xs` on snapshot `s`: `worked` are reserved and `com` decided. */
  ghost predicate Holds<V(!new)>(prog: Program<V>, xs: set<nat>, s: Db<V>, worked: set<nat>, com: set<nat>,
                                 p: P.Phase, d: Data<V>) {
    && DataOk(prog, xs, s, worked, com, d)
    && (p == P.ReadPhase ==> d.outs.Keys == worked)
    && (p != P.ReadPhase ==> xs <= d.outs.Keys)
  }

  ghost predicate HoldsOk<V(!new)>(prog: Program<V>, xs: set<nat>, s: Db<V>, st: P.State, d: Data<V>) {
    Holds(prog, xs, s, D.Work(st.log, st.epoch), D.Commits(st.log, st.epoch), P.CurrentPhase(st.pc), d)
  }

  /** A message of server `i` for epoch `e`: what it executes, on the database of that epoch. */
  ghost predicate MessageOk<V(!new)>(su: Setup<V>, count: nat, i: nat, e: nat, outs: map<nat, Outcome<V>>)
    requires count > 0 && Named(su.work)
  {
    && OutsOk(su.prog, At(su, e), outs)
    && forall x :: x in outs <==> x in su.work(e) && Executes(su.agg, count, i, x)
  }

  ghost predicate ServerOk<V(!new)>(su: Setup<V>, count: nat, i: nat, v: Server<V>)
    requires count > 0 && Named(su.work)
  {
    && ThreadsOk(su, count, i, v.st)
    && HoldsOk(su.prog, su.work(v.st.epoch), At(su, v.st.epoch), v.st, v.data)
    && (forall e | e in v.sent :: MessageOk(su, count, i, e, v.sent[e]))
    && (su.agg ==> SentSoFar(su.start, v))
  }

  /** A message has been sent for every epoch that is past its exchange. */
  ghost predicate SentSoFar<V>(start: nat, v: Server<V>) {
    forall f | start <= f
      && (f < v.st.epoch || (f == v.st.epoch && P.CurrentPhase(v.st.pc) != P.ReadPhase)) :: f in v.sent
  }

  ghost predicate Inv<V(!new)>(su: Setup<V>, c: Servers<V>)
    requires Named(su.work)
  {
    forall i | 0 <= i < |c| :: ServerOk(su, |c|, i, c[i])
  }

  lemma InitInv<V(!new)>(su: Setup<V>, c: Servers<V>)
    requires Named(su.work) && Init(su, c)
    ensures Inv(su, c)
  {
    forall i | 0 <= i < |c| ensures ServerOk(su, |c|, i, c[i]) {
      FreshOk(su.prog, su.work(su.start), su.db);
      D.NothingAhead(su.agg, c[i].st, su.start);
      assert D.Work(c[i].st.log, su.start) == {} && D.Commits(c[i].st.log, su.start) == {};
    }
  }

  /******* Steps of the threads *******/

  /** How the coordinator goes from phase to phase and from epoch to epoch. */
  lemma PhaseMoves(agg: bool, st: P.State, st': P.State)
    requires P.Step(agg, st, st') && P.CoordOk(agg, st)
    ensures st'.epoch != st.epoch ==>
              && st.pc == P.Sync(P.CommitPhase, |st.workers|) && st'.pc == P.Assign
              && st'.epoch == st.epoch + 1 && st'.log == st.log && st'.deployed == st.deployed
    ensures st'.epoch == st.epoch ==>
              || P.CurrentPhase(st'.pc) == P.CurrentPhase(st.pc)
              || (&& st.pc == P.Sync(P.ReadPhase, |st.workers|)
                  && st'.pc == P.Broadcast(P.NextPhase(agg, P.ReadPhase), 0) && st'.log == st.log)
              || (P.CurrentPhase(st.pc) == P.AggregatePhase && P.CurrentPhase(st'.pc) == P.CommitPhase
                 && st'.log == st.log)
  {
    if !P.AssignStep(agg, st, st') && !P.PhaseStep(agg, st, st') {
      var i: nat :| P.WorkerStep(agg, st, st', i);
      P.WorkerFrame(agg, st, st', i);
    }
  }

  lemma MoveThreads<V(!new)>(su: Setup<V>, count: nat, i: nat, st: P.State, st': P.State)
    requires count > 0 && ThreadsOk(su, count, i, st) && P.Step(su.agg, st, st')
             && Deploys(su.work, su.agg, count, i, st')
    ensures ThreadsOk(su, count, i, st')
  {
    P.StepKeeps(su.agg, st, st');
    P.StepConserves(su.agg, st, st');
    D.StepPaired(su.agg, st, st');
    PhaseMoves(su.agg, st, st');
  }

  /** When the read phase ends, a server has executed exactly what it is to execute. */
  lemma OwnDone<V(!new)>(su: Setup<V>, count: nat, i: nat, st: P.State, x: nat)
    requires count > 0 && ThreadsOk(su, count, i, st) && st.pc == P.Sync(P.ReadPhase, |st.workers|)
    ensures x in D.Work(st.log, st.epoch) <==> x in su.work(st.epoch) && Executes(su.agg, count, i, x)
  {
    var e := st.epoch;
    D.NothingAhead(su.agg, st, e);
    D.ReadsDone(su.agg, st, e);
    D.InWork(st.deployed, e, x);
    assert P.Event(e, P.ReadPhase, x) in st.deployed ==>
           DeploysEvent(su.work, su.agg, count, i, P.Event(e, P.ReadPhase, x));
    assert P.Event(e, P.AggregatePhase, x) in st.deployed ==>
           DeploysEvent(su.work, su.agg, count, i, P.Event(e, P.AggregatePhase, x));
  }

  /** Only scheduled transactions are processed. */
  lemma Scheduled<V(!new)>(su: Setup<V>, count: nat, i: nat, st: P.State, ev: P.Event)
    requires count > 0 && ThreadsOk(su, count, i, st) && ev in st.log
    ensures ev.tx in su.work(ev.epoch)
  {
    D.Done(su.agg, st, ev);
    assert DeploysEvent(su.work, su.agg, count, i, ev);
  }

  /** While transactions commit, all of the epoch have been reserved, and only those commit. */
  lemma AllReserved<V(!new)>(su: Setup<V>, count: nat, i: nat, st: P.State)
    requires count > 0 && ThreadsOk(su, count, i, st) && P.CurrentPhase(st.pc) == P.CommitPhase
    ensures D.Work(st.log, st.epoch) == su.work(st.epoch) && D.Commits(st.log, st.epoch) <= su.work(st.epoch)
    ensures D.Over(st) ==> D.Commits(st.log, st.epoch) == su.work(st.epoch)
  {
    var e := st.epoch;
    D.WorkDone(su.agg, st, e);
    forall x | x in D.Commits(st.log, e) ensures x in su.work(e) {
      D.InWork(st.log, e, x);
      Scheduled(su, count, i, st, P.Event(e, P.CommitPhase, x));
    }
    if D.Over(st) { D.CommitsDone(su.agg, st, e); }
  }

  /******* Steps of the data *******/

  lemma SendKeeps<V(!new)>(su: Setup<V>, count: nat, i: nat, v: Server<V>, v': Server<V>)
    requires count > 0 && Named(su.work) && ServerOk(su, count, i, v) && Send(su.agg, v, v')
    ensures ServerOk(su, count, i, v')
  {
    var e := v.st.epoch;
    forall x ensures x in v.data.outs <==> x in su.work(e) && Executes(su.agg, count, i, x) {
      OwnDone(su, count, i, v.st, x);
    }
    assert MessageOk(su, count, i, e, v.data.outs);
  }

  lemma PlayKeeps<V(!new)>(prog: Program<V>, xs: set<nat>, s: Db<V>, worked: set<nat>, com: set<nat>, p: P.Phase,
                           d: Data<V>, x: nat)
    requires Holds(prog, xs, s, worked, com, p, d) && 0 !in xs && x in xs && com <= xs
    requires if p == P.CommitPhase then worked == xs else com == {}
    ensures Holds(prog, xs, s, if p == P.CommitPhase then worked else worked + {x},
                  if p == P.CommitPhase then com + {x} else com, p, Play(prog, d, p, x))
  {
    match p
    case ReadPhase => ReadOk(prog, xs, s, worked, d, x);
    case AggregatePhase => AggregateOk(prog, xs, s, worked, d, x);
    case CommitPhase => CommitOk(prog, xs, s, com, d, x);
  }

  /** What one event is about. */
  lemma EventSets<V(!new)>(su: Setup<V>, count: nat, i: nat, st: P.State, st': P.State, ev: P.Event)
    requires count > 0 && ThreadsOk(su, count, i, st) && ThreadsOk(su, count, i, st')
    requires st'.log == st.log + [ev] && st'.epoch == st.epoch == ev.epoch && ev.phase == P.CurrentPhase(st.pc)
    ensures ev.tx in su.work(st.epoch) && D.Commits(st.log, st.epoch) <= su.work(st.epoch)
    ensures if ev.phase == P.CommitPhase then D.Work(st.log, st.epoch) == su.work(st.epoch)
            else D.Commits(st.log, st.epoch) == {}
    ensures D.Work(st'.log, st.epoch)
         == if ev.phase == P.CommitPhase then D.Work(st.log, st.epoch) else D.Work(st.log, st.epoch) + {ev.tx}
    ensures D.Commits(st'.log, st.epoch)
         == if ev.phase == P.CommitPhase then D.Commits(st.log, st.epoch) + {ev.tx} else D.Commits(st.log, st.epoch)
  {
    assert st'.log[|st.log|] == ev;
    Scheduled(su, count, i, st', ev);
    D.WorkNext(st.log, ev, st.epoch);
    D.NothingAhead(su.agg, st, st.epoch);
    if ev.phase == P.CommitPhase { AllReserved(su, count, i, st); }
  }

  /** One event in the log, played on the data. */
  lemma EventKeeps<V(!new)>(su: Setup<V>, count: nat, i: nat, st: P.State, st': P.State, d: Data<V>, ev: P.Event)
    requires count > 0 && Named(su.work) && ThreadsOk(su, count, i, st) && ThreadsOk(su, count, i, st')
    requires HoldsOk(su.prog, su.work(st.epoch), At(su, st.epoch), st, d)
    requires st'.log == st.log + [ev] && st'.pc == st.pc && st'.epoch == st.epoch == ev.epoch
             && ev.phase == P.CurrentPhase(st.pc)
    ensures HoldsOk(su.prog, su.work(st.epoch), At(su, st.epoch), st', Play(su.prog, d, ev.phase, ev.tx))
  {
    var e := st.epoch;
    EventSets(su, count, i, st, st', ev);
    PlayKeeps(su.prog, su.work(e), At(su, e), D.Work(st.log, e), D.Commits(st.log, e), ev.phase, d, ev.tx);
  }

  /** The end of an epoch: the database has become that of the next one. */
  lemma EpochKeeps<V(!new)>(su: Setup<V>, count: nat, i: nat, st: P.State, st': P.State, d: Data<V>)
    requires count > 0 && Named(su.work) && ThreadsOk(su, count, i, st)
    requires HoldsOk(su.prog, su.work(st.epoch), At(su, st.epoch), st, d)
    requires st.pc == P.Sync(P.CommitPhase, |st.workers|) && st'.pc == P.Assign && st'.epoch == st.epoch + 1
             && st'.log == st.log
    ensures HoldsOk(su.prog, su.work(st'.epoch), At(su, st'.epoch), st', FreshData(d.db))
  {
    AllReserved(su, count, i, st);
    D.NothingAhead(su.agg, st, st'.epoch);
    AtNext(su, st.epoch);
    NextHolds(su.prog, su.work(st.epoch), At(su, st.epoch), D.Work(st.log, st.epoch), D.Commits(st.log, st.epoch), d,
              su.work(st'.epoch), At(su, st'.epoch), D.Work(st.log, st'.epoch), D.Commits(st.log, st'.epoch));
  }

  lemma AtNext<V(!new)>(su: Setup<V>, e: nat)
    requires Named(su.work) && su.start <= e
    ensures At(su, e + 1) == Next(su.prog, su.work(e), At(su, e))
  {
  }

  lemma NextHolds<V(!new)>(prog: Program<V>, xs: set<nat>, s: Db<V>, worked: set<nat>, com: set<nat>, d: Data<V>,
                           xs': set<nat>, s': Db<V>, worked': set<nat>, com': set<nat>)
    requires 0 !in xs && worked == com == xs && Holds(prog, xs, s, worked, com, P.CommitPhase, d)
    requires s' == Next(prog, xs, s) && worked' == com' == {}
    ensures Holds(prog, xs', s', worked', com', P.ReadPhase, FreshData(d.db))
  {
    FinishOk(prog, xs, s, d);
    FreshOk(prog, xs', s');
  }

  /** What a server is told about a transaction is its outcome on the database of the epoch. */
  lemma ToldRight<V(!new)>(su: Setup<V>, c: Servers<V>, e: nat, x: nat, out: Outcome<V>)
    requires Named(su.work) && Inv(su, c) && Told(c, e, x, out)
    ensures out == su.prog(x)(At(su, e))
  {
    var j: nat :| j < |c| && e in c[j].sent && x in c[j].sent[e] && c[j].sent[e][x] == out;
    assert ServerOk(su, |c|, j, c[j]);
    assert MessageOk(su, |c|, j, e, c[j].sent[e]);
  }

  /** The messages of all servers cover the epoch. */
  lemma AllTold<V(!new)>(su: Setup<V>, c: Servers<V>, e: nat, outs': map<nat, Outcome<V>>, x: nat)
    requires Named(su.work) && c != [] && Inv(su, c) && su.agg && x in su.work(e)
    requires forall j | 0 <= j < |c| :: e in c[j].sent && c[j].sent[e].Keys <= outs'.Keys
    ensures x in outs'
  {
    var r := x % |c|;
    assert ServerOk(su, |c|, r, c[r]);
    assert MessageOk(su, |c|, r, e, c[r].sent[e]);
    assert x in c[r].sent[e].Keys;
  }

  lemma ExchangeKeeps<V(!new)>(su: Setup<V>, c: Servers<V>, i: nat, st': P.State, d': Data<V>)
    requires Named(su.work) && Inv(su, c) && i < |c| && st'.epoch == c[i].st.epoch && st'.log == c[i].st.log
    requires Exchanges(su.agg, c[i].st, st') && d' == c[i].data.(outs := d'.outs)
             && Receive(c, st'.epoch, c[i].data.outs, d'.outs)
    ensures HoldsOk(su.prog, su.work(st'.epoch), At(su, st'.epoch), st', d')
  {
    var e := st'.epoch;
    assert ServerOk(su, |c|, i, c[i]);
    forall x | x in d'.outs ensures d'.outs[x] == su.prog(x)(At(su, e)) {
      if Told(c, e, x, d'.outs[x]) { ToldRight(su, c, e, x, d'.outs[x]); }
    }
    forall x | x in su.work(e) ensures x in d'.outs { AllTold(su, c, e, d'.outs, x); }
  }

  /** A step that only moves threads. */
  lemma QuietKeeps<V(!new)>(su: Setup<V>, count: nat, i: nat, st: P.State, st': P.State, d: Data<V>)
    requires count > 0 && Named(su.work) && ThreadsOk(su, count, i, st) && P.Step(su.agg, st, st')
    requires HoldsOk(su.prog, su.work(st.epoch), At(su, st.epoch), st, d)
    requires st'.epoch == st.epoch && st'.log == st.log && !Exchanges(su.agg, st, st')
    ensures HoldsOk(su.prog, su.work(st'.epoch), At(su, st'.epoch), st', d)
  {
    PhaseMoves(su.agg, st, st');
    if P.CurrentPhase(st.pc) == P.ReadPhase != P.CurrentPhase(st'.pc) {
      forall x | x in su.work(st.epoch) ensures x in d.outs { OwnDone(su, count, i, st, x); }
    }
  }

  lemma MoveKeeps<V(!new)>(su: Setup<V>, c: Servers<V>, i: nat, v': Server<V>)
    requires Named(su.work) && Inv(su, c) && i < |c| && Move(su, c, i, v')
    ensures ServerOk(su, |c|, i, v')
  {
    var v := c[i];
    assert ServerOk(su, |c|, i, v);
    MoveThreads(su, |c|, i, v.st, v'.st);
    PhaseMoves(su.agg, v.st, v'.st);
    D.StepLog(su.agg, v.st, v'.st);
    if Exchanges(su.agg, v.st, v'.st) {
      ExchangeKeeps(su, c, i, v'.st, v'.data);
    } else if v'.st.epoch != v.st.epoch {
      EpochKeeps(su, |c|, i, v.st, v'.st, v.data);
    } else if |v'.st.log| > |v.st.log| {
      EventKeeps(su, |c|, i, v.st, v'.st, v.data, v'.st.log[|v.st.log|]);
    } else {
      QuietKeeps(su, |c|, i, v.st, v'.st, v.data);
    }
  }

  lemma StepKeeps<V(!new)>(su: Setup<V>, c: Servers<V>, c': Servers<V>)
    requires Named(su.work) && Inv(su, c) && Step(su, c, c')
    ensures Inv(su, c')
  {
    var i: nat :| StepBy(su, c, c', i);
    assert ServerOk(su, |c|, i, c[i]);
    if Send(su.agg, c[i], c'[i]) { SendKeeps(su, |c|, i, c[i], c'[i]); } else { MoveKeeps(su, c, i, c'[i]); }
    forall j | 0 <= j < |c'| ensures ServerOk(su, |c'|, j, c'[j]) {
      assert ServerOk(su, |c|, j, c[j]);
    }
  }

  lemma {:induction false} RunInv<V(!new)>(su: Setup<V>, tr: seq<Servers<V>>, n: nat)
    requires Run(su, tr) && n < |tr|
    ensures Inv(su, tr[n])
    decreases n
  {
    if n == 0 {
      InitInv(su, tr[0]);
    } else {
      RunInv(su, tr, n - 1);
      assert StepAt(su, tr, n);
      StepKeeps(su, tr[n - 1], tr[n]);
    }
  }
}
