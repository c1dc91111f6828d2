/** What the log of a server says about the transactions deployed on it: which have been worked on and
    which committed, epoch by epoch, at any moment of a run of the coordinator and its workers. */
module Deployment {
  import opened Phases

  /** The transactions worked on in an epoch: executed here, or reserved after execution elsewhere. */
  ghost function Work(log: seq<Event>, e: nat): set<Tx> {
    set i | 0 <= i < |log| && log[i].epoch == e && log[i].phase != CommitPhase :: log[i].tx
  }

  ghost function Executed(log: seq<Event>, e: nat): set<Tx> {
    set i | 0 <= i < |log| && log[i].epoch == e && log[i].phase == ReadPhase :: log[i].tx
  }

  ghost function Commits(log: seq<Event>, e: nat): set<Tx> {
    set i | 0 <= i < |log| && log[i].epoch == e && log[i].phase == CommitPhase :: log[i].tx
  }

  lemma InWork(log: seq<Event>, e: nat, x: Tx)
    ensures x in Work(log, e) <==> Event(e, ReadPhase, x) in log || Event(e, AggregatePhase, x) in log
    ensures x in Executed(log, e) <==> Event(e, ReadPhase, x) in log
    ensures x in Commits(log, e) <==> Event(e, CommitPhase, x) in log
  {
    if i :| 0 <= i < |log| && log[i].epoch == e && log[i].phase != CommitPhase && log[i].tx == x {
      assert log[i] == Event(e, ReadPhase, x) || log[i] == Event(e, AggregatePhase, x);
    }
    if i :| 0 <= i < |log| && log[i].epoch == e && log[i].phase == CommitPhase && log[i].tx == x {
      assert log[i] == Event(e, CommitPhase, x);
    }
    if i :| 0 <= i < |log| && log[i].epoch == e && log[i].phase == ReadPhase && log[i].tx == x {
      assert log[i] == Event(e, ReadPhase, x);
    }
  }

  /** One more event. */
  lemma WorkNext(log: seq<Event>, ev: Event, e: nat)
    ensures Work(log + [ev], e) == Work(log, e) + if ev.epoch == e && ev.phase != CommitPhase then {ev.tx} else {}
    ensures Executed(log + [ev], e) == Executed(log, e) + if ev.epoch == e && ev.phase == ReadPhase then {ev.tx} else {}
    ensures Commits(log + [ev], e) == Commits(log, e) + if ev.epoch == e && ev.phase == CommitPhase then {ev.tx} else {}
  {
    var next := log + [ev];
    forall x
      ensures x in Work(next, e) <==> x in Work(log, e) || (ev.tx == x && ev.epoch == e && ev.phase != CommitPhase)
      ensures x in Executed(next, e) <==>
                x in Executed(log, e) || (ev.tx == x && ev.epoch == e && ev.phase == ReadPhase)
      ensures x in Commits(next, e) <==>
                x in Commits(log, e) || (ev.tx == x && ev.epoch == e && ev.phase == CommitPhase)
    {
      InWork(log, e, x);
      InWork(next, e, x);
    }
  }

  /******* Deployment *******/

  /** What is worked on is committed, and nothing else. */
  ghost predicate Paired(log: seq<Event>) {
    forall e: nat :: Work(log, e) == Commits(log, e)
  }

  lemma LoadPaired(agg: bool, load: Workload, e: nat, x: Tx)
    ensures var evs := EventsOf(agg, load); x in Work(evs, e) <==> x in Commits(evs, e)
  {
    var evs, n := EventsOf(agg, load), |load.list|;
    InWork(evs, e, x);
    if i :| 0 <= i < |evs| && evs[i].epoch == e && evs[i].phase != CommitPhase && evs[i].tx == x {
      assert evs[i + n] == Event(e, CommitPhase, x);
    }
    if i :| 0 <= i < |evs| && evs[i].epoch == e && evs[i].phase == CommitPhase && evs[i].tx == x {
      assert evs[i - n].epoch == e && evs[i - n].phase != CommitPhase && evs[i - n].tx == x;
    }
  }

  lemma DeployPaired(agg: bool, a: seq<Event>, load: Workload)
    requires Paired(a)
    ensures Paired(a + EventsOf(agg, load))
  {
    var evs := EventsOf(agg, load);
    forall e: nat ensures Work(a + evs, e) == Commits(a + evs, e) {
      forall x ensures x in Work(a + evs, e) <==> x in Commits(a + evs, e) {
        InWork(a, e, x);
        InWork(evs, e, x);
        InWork(a + evs, e, x);
        LoadPaired(agg, load, e, x);
        assert x in Work(a, e) <==> x in Commits(a, e);
      }
    }
  }

  /** A step deploys one workload or none. */
  lemma StepDeploys(agg: bool, st: State, st': State) returns (load: Workload)
    requires Step(agg, st, st')
    ensures st'.deployed == st.deployed || st'.deployed == st.deployed + EventsOf(agg, load)
  {
    load := Workload(0, [], false);
    if AssignStep(agg, st, st') && st.pc.ReplaceWorkload? {
      load := st.pc.load;
    } else if AssignStep(agg, st, st') && st.pc == Assign {
      if l: Workload :| StartNew(agg, st, st', l) { load := l; }
    } else if i: nat :| WorkerStep(agg, st, st', i) {
      WorkerFrame(agg, st, st', i);
    }
  }

  lemma StepPaired(agg: bool, st: State, st': State)
    requires Step(agg, st, st') && Paired(st.deployed)
    ensures Paired(st'.deployed)
  {
    var load := StepDeploys(agg, st, st');
    DeployPaired(agg, st.deployed, load);
  }

  /******* Pending work *******/

  lemma {:induction false} InSum(a: seq<multiset<Event>>, ev: Event)
    requires forall i | 0 <= i < |a| :: ev !in a[i]
    ensures ev !in Sum(a)
    decreases |a|
  {
    if a != [] { InSum(a[..|a| - 1], ev); }
  }

  ghost predicate Pending(agg: bool, st: State, ev: Event) {
    exists i: nat :: i < |st.workers| && ev in Todo(agg, st.pc, i, st.workers[i])
  }

  /** What is deployed and not pending has been done; nothing else has. */
  lemma Done(agg: bool, st: State, ev: Event)
    requires Conserved(agg, st)
    ensures ev in st.log ==> ev in st.deployed
    ensures !Pending(agg, st, ev) ==> (ev in st.deployed <==> ev in st.log)
  {
    var a := Shares(agg, st.pc, st.workers);
    assert (multiset(st.log) + Sum(a))[ev] == multiset(st.deployed)[ev];
    assert ev in st.log <==> ev in multiset(st.log);
    assert ev in st.deployed <==> ev in multiset(st.deployed);
    if !Pending(agg, st, ev) {
      forall i | 0 <= i < |a| ensures ev !in a[i] {
        assert a[i] == multiset(Todo(agg, st.pc, i, st.workers[i]));
      }
      InSum(a, ev);
    }
  }

  /** The run is past the epoch: all workers are idle or have left. */
  ghost predicate Over(st: State) {
    st.pc == Sync(CommitPhase, |st.workers|) || Exiting(st.pc)
  }

  /** What may be pending, by the position of the coordinator. */
  lemma PendingPhase(agg: bool, st: State, ev: Event)
    requires WorkersOk(agg, st) && Pending(agg, st, ev)
    ensures ev.epoch == st.epoch && !Over(st)
    ensures CurrentPhase(st.pc) == CommitPhase ==> ev.phase == CommitPhase
    ensures st.pc == Sync(ReadPhase, |st.workers|) ==> ev.phase != ReadPhase
  {
    var i: nat :| i < |st.workers| && ev in Todo(agg, st.pc, i, st.workers[i]);
    assert WorkerOk(agg, st.epoch, st.pc, i, st.workers[i]);
    TodoPhase(agg, st.epoch, st.pc, i, st.workers[i], |st.workers|, ev);
  }

  lemma TodoPhase(agg: bool, epoch: nat, pc: CoordPc, i: nat, w: Worker, n: nat, ev: Event)
    requires i < n && WorkerOk(agg, epoch, pc, i, w) && ev in Todo(agg, pc, i, w)
    ensures ev.epoch == epoch && pc != Sync(CommitPhase, n) && !Exiting(pc)
    ensures CurrentPhase(pc) == CommitPhase ==> ev.phase == CommitPhase
    ensures pc == Sync(ReadPhase, n) ==> ev.phase != ReadPhase
  {
    assert ev in EventsIn(w.load, WorkPhase(agg, w.load)) || ev in EventsIn(w.load, CommitPhase);
  }

  /** While transactions commit, all work of the epochs so far is done. */
  lemma WorkDone(agg: bool, st: State, f: nat)
    requires WorkersOk(agg, st) && Conserved(agg, st) && (CurrentPhase(st.pc) == CommitPhase || f != st.epoch)
    ensures Work(st.log, f) == Work(st.deployed, f)
  {
    forall x ensures x in Work(st.log, f) <==> x in Work(st.deployed, f) {
      InWork(st.log, f, x);
      InWork(st.deployed, f, x);
      DoneUnlessPending(agg, st, Event(f, ReadPhase, x));
      DoneUnlessPending(agg, st, Event(f, AggregatePhase, x));
    }
  }

  lemma DoneUnlessPending(agg: bool, st: State, ev: Event)
    requires WorkersOk(agg, st) && Conserved(agg, st)
    requires ev.epoch != st.epoch || Over(st) || (CurrentPhase(st.pc) == CommitPhase && ev.phase != CommitPhase)
             || (st.pc == Sync(ReadPhase, |st.workers|) && ev.phase == ReadPhase)
    ensures ev in st.deployed <==> ev in st.log
  {
    if Pending(agg, st, ev) { PendingPhase(agg, st, ev); }
    Done(agg, st, ev);
  }

  /** When the read phase ends, all transactions to be executed here have been. */
  lemma ReadsDone(agg: bool, st: State, f: nat)
    requires WorkersOk(agg, st) && Conserved(agg, st) && st.pc == Sync(ReadPhase, |st.workers|)
    ensures Executed(st.log, f) == Executed(st.deployed, f)
  {
    forall x ensures x in Executed(st.log, f) <==> x in Executed(st.deployed, f) {
      InWork(st.log, f, x);
      InWork(st.deployed, f, x);
      DoneUnlessPending(agg, st, Event(f, ReadPhase, x));
    }
  }

  /** When the commit phase ends, all deployed transactions have been committed. */
  lemma CommitsDone(agg: bool, st: State, f: nat)
    requires WorkersOk(agg, st) && Conserved(agg, st) && Over(st)
    ensures Commits(st.log, f) == Commits(st.deployed, f)
  {
    forall x ensures x in Commits(st.log, f) <==> x in Commits(st.deployed, f) {
      InWork(st.log, f, x);
      InWork(st.deployed, f, x);
      DoneUnlessPending(agg, st, Event(f, CommitPhase, x));
    }
  }

  /******* Steps *******/

  /** A step does nothing that the log records, or one event of the current epoch and phase. */
  lemma StepLog(agg: bool, st: State, st': State)
    requires Inv(agg, st) && Step(agg, st, st')
    ensures || st'.log == st.log
            || (&& |st'.log| == |st.log| + 1 && st'.log == st.log + [st'.log[|st.log|]] && st'.pc == st.pc
               && st'.epoch == st.epoch
                && st'.log[|st.log|].epoch == st.epoch && st'.log[|st.log|].phase == CurrentPhase(st.pc)
                   && st'.deployed == st.deployed)
  {
    if !AssignStep(agg, st, st') && !PhaseStep(agg, st, st') {
      var i: nat :| WorkerStep(agg, st, st', i);
      WorkerFrame(agg, st, st', i);
      assert WorkerOk(agg, st.epoch, st.pc, i, st.workers[i]);
      WorkerKeepsLog(agg, st, st', i);
    }
  }

  /** In the log there is nothing of an epoch to come, and no commit of the epoch being read. */
  lemma NothingAhead(agg: bool, st: State, f: nat)
    requires LogOk(st)
    ensures f > st.epoch ==> Work(st.log, f) == {} && Commits(st.log, f) == {}
    ensures f == st.epoch && CurrentPhase(st.pc) != CommitPhase ==> Commits(st.log, f) == {}
    ensures f == st.epoch && CurrentPhase(st.pc) == ReadPhase ==> Work(st.log, f) == Executed(st.log, f)
  {
    var p := CurrentPhase(st.pc);
    forall x
      ensures f > st.epoch ==> x !in Work(st.log, f) && x !in Commits(st.log, f)
      ensures f == st.epoch && p != CommitPhase ==> x !in Commits(st.log, f)
      ensures f == st.epoch && p == ReadPhase ==> (x in Work(st.log, f) <==> x in Executed(st.log, f))
    {
      InWork(st.log, f, x);
      assert Event(f, ReadPhase, x) in st.log ==> Rank(f, ReadPhase) <= Rank(st.epoch, p);
      assert Event(f, AggregatePhase, x) in st.log ==> Rank(f, AggregatePhase) <= Rank(st.epoch, p);
      assert Event(f, CommitPhase, x) in st.log ==> Rank(f, CommitPhase) <= Rank(st.epoch, p);
    }
  }
}
