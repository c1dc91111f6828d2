/** Every run of the coordinator and its workers can be brought to its end. */
module PhaseProgress {
  import opened Counting
  import opened Phases

  /** The steps that a worker has left before it waits for work again or has exited. */
  function Left(w: Worker): int {
    var n := |w.load.list|;
    match w.pc
    case Starting => 2 * n + 8
    case WaitRead => if w.state == ASSIGNED then 2 * n + 7 else 2
    case Reading(k) => 2 * n + 5 - if k <= n then k else n
    case WaitAggregate => 2 * n + 6
    case Aggregating(k) => 2 * n + 5 - if k <= n then k else n
    case WaitCommit => n + 4
    case Committing(k) => n + 3 - if k <= n then k else n
    case Exited => 0
  }

  function Lefts(workers: seq<Worker>): seq<int> {
    seq(|workers|, i requires 0 <= i < |workers| => Left(workers[i]))
  }

  function WorkersLeft(st: State): int { Total(Lefts(st.workers)) }

  lemma WorkerLess(agg: bool, st: State, st': State, i: nat)
    requires WorkerStep(agg, st, st', i) && WorkerOk(agg, st.epoch, st.pc, i, st.workers[i])
    ensures i < |st'.workers| && Left(st'.workers[i]) < Left(st.workers[i])
  {
  }

  /** Every step of a worker leaves it less to do. */
  lemma WorkersLess(agg: bool, st: State, st': State, i: nat)
    requires Inv(agg, st) && WorkerStep(agg, st, st', i)
    ensures st'.pc == st.pc && |st'.workers| == |st.workers| && 0 <= WorkersLeft(st') < WorkersLeft(st)
  {
    WorkerFrame(agg, st, st', i);
    assert WorkerOk(agg, st.epoch, st.pc, i, st.workers[i]);
    WorkerLess(agg, st, st', i);
    TotalUpdate(Lefts(st.workers), i, Left(st'.workers[i]));
    assert Lefts(st'.workers) == Lefts(st.workers)[i := Left(st'.workers[i])];
    TotalAtLeast(Lefts(st'.workers));
  }

  /******* Exits *******/

  /** The workers that the coordinator has waited for at the end have exited. */
  ghost predicate ExitsOk(st: State) {
    && (st.pc.ExitSync? ==> forall l | 0 <= l < |st.workers| && l < st.pc.i :: st.workers[l].pc == Exited)
    && (st.pc.Stopped? ==> forall l | 0 <= l < |st.workers| :: st.workers[l].pc == Exited)
  }

  lemma StepExits(agg: bool, st: State, st': State)
    requires Inv(agg, st) && ExitsOk(st) && Step(agg, st, st')
    ensures ExitsOk(st')
  {
    if i: nat :| WorkerStep(agg, st, st', i) {
      WorkerFrame(agg, st, st', i);
    } else if PhaseStep(agg, st, st') && st.pc.ExitSync? && st.pc.i < |st.workers| {
      assert WorkerOk(agg, st.epoch, st.pc, st.pc.i, st.workers[st.pc.i]);
    }
  }

  lemma {:induction false} RunExits(agg: bool, tr: seq<State>, n: nat)
    requires Run(agg, tr) && n < |tr|
    ensures ExitsOk(tr[n])
  {
    if n > 0 {
      RunExits(agg, tr, n - 1);
      RunInv(agg, tr, n - 1);
      assert StepAt(agg, tr, n);
      StepExits(agg, tr[n - 1], tr[n]);
    }
  }

  /** In every run: a worker is told to exit only when it has nothing to do. */
  lemma ExitsIdle(agg: bool, tr: seq<State>, n: nat, i: nat)
    requires Run(agg, tr) && n < |tr| && i < |tr[n].workers| && tr[n].workers[i].signal == EXIT
    ensures tr[n].workers[i].pc == Exited || (tr[n].workers[i].pc == WaitRead && tr[n].workers[i].state == READY)
  {
    RunInv(agg, tr, n);
    assert WorkerOk(agg, tr[n].epoch, tr[n].pc, i, tr[n].workers[i]);
  }

  /** When the coordinator has stopped, all workers have exited, and every transaction ever deployed has been
      executed once and committed once. */
  lemma StoppedMeans(agg: bool, tr: seq<State>, n: nat)
    requires Run(agg, tr) && n < |tr| && tr[n].pc == Stopped
    ensures forall l | 0 <= l < |tr[n].workers| :: tr[n].workers[l].pc == Exited
    ensures multiset(tr[n].log) == multiset(tr[n].deployed)
  {
    var st := tr[n];
    RunExits(agg, tr, n);
    RunConserved(agg, tr, n);
    var a := Shares(agg, st.pc, st.workers);
    forall i | 0 <= i < |a| ensures a[i] == multiset{} { assert st.workers[i].pc == Exited; }
    SumEmpty(a);
  }

  /******* Every run can be continued *******/

  lemma Extend(agg: bool, tr: seq<State>, st: State)
    requires Run(agg, tr) && Step(agg, tr[|tr| - 1], st)
    ensures Run(agg, tr + [st])
  {
    var more := tr + [st];
    forall n | 0 < n < |more| ensures StepAt(agg, more, n) { assert n < |tr| ==> StepAt(agg, tr, n); }
  }

  lemma NotNegative(st: State)
    ensures CoordLeft(st.pc, |st.workers|) >= 0 && WorkersLeft(st) >= 0
  {
    TotalAtLeast(Lefts(st.workers));
  }

  ghost predicate Less(st': State, st: State) {
    var left, left' := CoordLeft(st.pc, |st.workers|), CoordLeft(st'.pc, |st'.workers|);
    left' < left || (left' == left && WorkersLeft(st') < WorkersLeft(st))
  }

  lemma MovesLess(agg: bool, st: State, st': State)
    requires Inv(agg, st) && MovesOn(agg, st, st')
    ensures Less(st', st)
  {
    if i: nat :| WorkerStep(agg, st, st', i) { WorkersLess(agg, st, st', i); }
  }

  lemma Onward(agg: bool, tr: seq<State>) returns (st': State)
    requires Run(agg, tr) && tr[|tr| - 1].pc != Stopped
    ensures Run(agg, tr + [st']) && Less(st', tr[|tr| - 1])
  {
    RunInv(agg, tr, |tr| - 1);
    st' := CanMove(agg, tr[|tr| - 1]);
    MovesLess(agg, tr[|tr| - 1], st');
    Extend(agg, tr, st');
  }

  /** Every run can be continued until the coordinator has stopped. */
  lemma {:induction false} CanStop(agg: bool, tr: seq<State>) returns (whole: seq<State>)
    requires Run(agg, tr)
    ensures Run(agg, whole) && tr <= whole && whole[|whole| - 1].pc == Stopped
    decreases CoordLeft(tr[|tr| - 1].pc, |tr[|tr| - 1].workers|), WorkersLeft(tr[|tr| - 1])
  {
    if tr[|tr| - 1].pc == Stopped {
      whole := tr;
    } else {
      var st' := Onward(agg, tr);
      NotNegative(tr[|tr| - 1]);
      NotNegative(st');
      whole := CanStop(agg, tr + [st']);
    }
  }

  /** A ready worker can be given any workload of the current epoch. */
  lemma ReadyIsReused(agg: bool, tr: seq<State>, w: nat, load: Workload) returns (whole: seq<State>)
    requires Run(agg, tr) && tr[|tr| - 1].pc == Assign && w < |tr[|tr| - 1].workers|
    requires tr[|tr| - 1].workers[w].state == READY && load.epoch == tr[|tr| - 1].epoch && (load.aggregation ==> agg)
    ensures Run(agg, whole) && tr <= whole
    ensures var st, st' := tr[|tr| - 1], whole[|whole| - 1];
            && st'.pc == Assign && st'.deployed == st.deployed + EventsOf(agg, load)
            && st'.workers == st.workers[w := st.workers[w].(state := ASSIGNED, load := load, signal := READ)]
  {
    var st := tr[|tr| - 1];
    var a := SetWorker(st, w, st.workers[w].(state := ASSIGNED)).(pc := ReplaceWorkload(w, load));
    assert PickReady(agg, st, a, w, load) && AssignStep(agg, st, a);
    Extend(agg, tr, a);
    var b := SetWorker(a, w, a.workers[w].(load := load))
      .(pc := SignalRead(w), deployed := a.deployed + EventsOf(agg, load));
    assert AssignStep(agg, a, b);
    Extend(agg, tr + [a], b);
    var c := SetSignal(b, w, READ).(pc := Assign);
    assert AssignStep(agg, b, c);
    Extend(agg, tr + [a] + [b], c);
    whole := tr + [a] + [b] + [c];
  }
}
