/** The coordinator and its workers as threads that communicate through per-worker state and
    signal variables only.

    The machine covers both coordinators: with `agg` set, workloads of transactions executed
    elsewhere wait for an extra aggregate phase. Every read, aggregate or commit of one
    transaction is one event of the log. */
module Phases {

  type Tx = nat

  datatype WorkerState = READY | ASSIGNED | FINISH_READ | FINISH_AGGREGATE | EXITED

  datatype Signal = START | READ | AGGREGATE | COMMIT | EXIT

  /** Where a worker thread stands; the index counts the transactions it has processed. */
  datatype WorkerPc =
    | Starting
    | WaitRead
    | Reading(i: nat)
    | WaitAggregate
    | Aggregating(i: nat)
    | WaitCommit
    | Committing(i: nat)
    | Exited

  datatype Workload = Workload(epoch: nat, list: seq<Tx>, aggregation: bool)

  datatype Worker = Worker(state: WorkerState, signal: Signal, pc: WorkerPc, load: Workload)

  datatype Phase = ReadPhase | AggregatePhase | CommitPhase

  /** Where the coordinator stands; the index counts the workers a loop has visited. */
  datatype CoordPc =
    | Assign
    | AwaitAssigned(w: nat)
    | ReplaceWorkload(w: nat, load: Workload)
    | SignalRead(w: nat)
    | Broadcast(p: Phase, i: nat)
    | Sync(p: Phase, i: nat)
    | ExitBroadcast(i: nat)
    | ExitSync(i: nat)
    | Stopped

  datatype Event = Event(epoch: nat, phase: Phase, tx: Tx)

  datatype State = State(epoch: nat, pc: CoordPc, workers: seq<Worker>, log: seq<Event>, deployed: seq<Event>)

  function PhaseRank(p: Phase): nat {
    match p case ReadPhase => 0 case AggregatePhase => 1 case CommitPhase => 2
  }

  /** Events in epoch order and, within an epoch, in phase order. */
  function Rank(epoch: nat, p: Phase): nat { 3 * epoch + PhaseRank(p) }

  /******* Steps *******/

  function SetWorker(st: State, i: nat, w: Worker): State
    requires i < |st.workers|
  {
    st.(workers := st.workers[i := w])
  }

  function SetSignal(st: State, i: nat, s: Signal): State
    requires i < |st.workers|
  {
    SetWorker(st, i, st.workers[i].(signal := s))
  }

  /** The state a worker announces when its transactions have been read or aggregated. */
  function Finish(agg: bool): WorkerState { if agg then FINISH_AGGREGATE else FINISH_READ }

  /** Processing the next transaction of the workload in phase `p`. */
  function Process(st: State, i: nat, k: nat, p: Phase, pc: WorkerPc): State
    requires i < |st.workers| && k < |st.workers[i].load.list|
  {
    var w := st.workers[i];
    SetWorker(st, i, w.(pc := pc)).(log := st.log + [Event(w.load.epoch, p, w.load.list[k])])
  }

  ghost predicate WorkerStep(agg: bool, st: State, st': State, i: nat) {
    && i < |st.workers|
    && var w := st.workers[i];
       match w.pc
       case Starting => st' == SetWorker(st, i, w.(state := ASSIGNED, pc := WaitRead))
       case WaitRead =>
         || (w.signal == EXIT && st' == SetWorker(st, i, w.(state := EXITED, pc := Exited)))
         || (w.signal == READ && st' == SetWorker(st, i, if agg && w.load.aggregation
                                                         then w.(state := FINISH_READ, pc := WaitAggregate)
                                                         else w.(pc := Reading(0))))
       case Reading(k) =>
         if k < |w.load.list| then st' == Process(st, i, k, ReadPhase, Reading(k + 1))
         else st' == SetWorker(st, i, w.(state := Finish(agg), pc := WaitCommit))
       case WaitAggregate =>
         || (w.signal == EXIT && st' == SetWorker(st, i, w.(state := EXITED, pc := Exited)))
         || (w.signal == AGGREGATE && st' == SetWorker(st, i, w.(pc := Aggregating(0))))
       case Aggregating(k) =>
         if k < |w.load.list| then st' == Process(st, i, k, AggregatePhase, Aggregating(k + 1))
         else st' == SetWorker(st, i, w.(state := Finish(agg), pc := WaitCommit))
       case WaitCommit =>
         || (w.signal == EXIT && st' == SetWorker(st, i, w.(state := EXITED, pc := Exited)))
         || (w.signal == COMMIT && st' == SetWorker(st, i, w.(pc := Committing(0))))
       case Committing(k) =>
         if k < |w.load.list| then st' == Process(st, i, k, CommitPhase, Committing(k + 1))
         else st' == SetWorker(st, i, w.(state := READY, pc := WaitRead))
       case Exited => false
  }

  function EventsIn(load: Workload, p: Phase): seq<Event> {
    seq(|load.list|, k requires 0 <= k < |load.list| => Event(load.epoch, p, load.list[k]))
  }

  /** Where a workload's transactions are executed or, if that happened on another server,
      reserved. */
  function WorkPhase(agg: bool, load: Workload): Phase {
    if agg && load.aggregation then AggregatePhase else ReadPhase
  }

  /** What a workload has to contribute to the log. */
  function EventsOf(agg: bool, load: Workload): seq<Event> {
    EventsIn(load, WorkPhase(agg, load)) + EventsIn(load, CommitPhase)
  }

  /** A workload of the current epoch goes to a ready worker, which is marked first. */
  ghost predicate PickReady(agg: bool, st: State, st': State, w: nat, load: Workload) {
    && w < |st.workers| && st.workers[w].state == READY
    && load.epoch == st.epoch && (load.aggregation ==> agg)
    && st' == SetWorker(st, w, st.workers[w].(state := ASSIGNED)).(pc := ReplaceWorkload(w, load))
  }

  /** A workload of the current epoch goes to a new worker, which is started. */
  ghost predicate StartNew(agg: bool, st: State, st': State, load: Workload) {
    && load.epoch == st.epoch && (load.aggregation ==> agg)
    && st' == st.(workers := st.workers + [Worker(READY, START, Starting, load)],
                  deployed := st.deployed + EventsOf(agg, load), pc := AwaitAssigned(|st.workers|))
  }

  ghost predicate AssignStep(agg: bool, st: State, st': State) {
    match st.pc
    case Assign =>
      || (exists w, load :: PickReady(agg, st, st', w, load))
      || (exists load :: StartNew(agg, st, st', load))
      || st' == st.(pc := Broadcast(ReadPhase, 0))
    case AwaitAssigned(w) =>
      w < |st.workers| && st.workers[w].state == ASSIGNED && st' == st.(pc := SignalRead(w))
    case ReplaceWorkload(w, load) =>
      w < |st.workers| && st' == SetWorker(st, w, st.workers[w].(load := load))
                                   .(pc := SignalRead(w), deployed := st.deployed + EventsOf(agg, load))
    case SignalRead(w) =>
      w < |st.workers| && st' == SetSignal(st, w, READ).(pc := Assign)
    case _ => false
  }

  function SignalOf(p: Phase): Signal {
    match p case ReadPhase => READ case AggregatePhase => AGGREGATE case CommitPhase => COMMIT
  }

  /** The worker states that end a phase. */
  function Goal(agg: bool, p: Phase): set<WorkerState> {
    match p
    case ReadPhase => {FINISH_READ, Finish(agg)}
    case AggregatePhase => {FINISH_AGGREGATE}
    case CommitPhase => {READY}
  }

  function NextPhase(agg: bool, p: Phase): Phase {
    if p == ReadPhase && agg then AggregatePhase else CommitPhase
  }

  /** The phase loops: ready workers are neither signalled nor waited for. */
  ghost predicate PhaseStep(agg: bool, st: State, st': State) {
    match st.pc
    case Broadcast(p, i) =>
      if i >= |st.workers| then st' == st.(pc := Sync(p, 0))
      else st' == (if st.workers[i].state == READY then st else SetSignal(st, i, SignalOf(p)))
                    .(pc := Broadcast(p, i + 1))
    case Sync(p, i) =>
      if i < |st.workers| then
        (st.workers[i].state == READY || st.workers[i].state in Goal(agg, p)) && st' == st.(pc := Sync(p, i + 1))
      else if p == CommitPhase then
        st' == st.(epoch := st.epoch + 1, pc := Assign) || st' == st.(pc := ExitBroadcast(0))
      else
        st' == st.(pc := Broadcast(NextPhase(agg, p), 0))
    case ExitBroadcast(i) =>
      if i >= |st.workers| then st' == st.(pc := ExitSync(0))
      else st' == SetSignal(st, i, EXIT).(pc := ExitBroadcast(i + 1))
    case ExitSync(i) =>
      if i >= |st.workers| then st' == st.(pc := Stopped)
      else st.workers[i].state == EXITED && st' == st.(pc := ExitSync(i + 1))
    case _ => false
  }

  ghost predicate Step(agg: bool, st: State, st': State) {
    AssignStep(agg, st, st') || PhaseStep(agg, st, st') || exists i :: WorkerStep(agg, st, st', i)
  }

  ghost predicate Init(st: State) {
    st.pc == Assign && st.workers == [] && st.log == [] && st.deployed == []
  }

  ghost predicate Run(agg: bool, tr: seq<State>) {
    && tr != [] && Init(tr[0])
    && forall n | 0 < n < |tr| :: StepAt(agg, tr, n)
  }

  /** Moment `n` of a run comes from the one before by a step. */
  ghost predicate StepAt(agg: bool, tr: seq<State>, n: nat)
    requires 0 < n < |tr|
  {
    Step(agg, tr[n - 1], tr[n])
  }

  /******* The invariant *******/

  /** The phase in which workers may process transactions. */
  function CurrentPhase(pc: CoordPc): Phase {
    match pc
    case Broadcast(p, _) => p
    case Sync(p, _) => p
    case ExitBroadcast(_) => CommitPhase
    case ExitSync(_) => CommitPhase
    case Stopped => CommitPhase
    case _ => ReadPhase
  }

  ghost predicate InDeploy(pc: CoordPc, i: nat) {
    pc == SignalRead(i) || pc == AwaitAssigned(i) || (pc.ReplaceWorkload? && pc.w == i)
  }

  ghost predicate Exiting(pc: CoordPc) { pc.ExitBroadcast? || pc.ExitSync? || pc.Stopped? }

  /** The read loop has not passed worker `i`. */
  ghost predicate ReadOpen(pc: CoordPc, i: nat) {
    CurrentPhase(pc) == ReadPhase && (pc.Sync? ==> pc.i <= i)
  }

  /** Worker `i` has been signalled for phase `p` and not waited for yet. */
  ghost predicate Open(pc: CoordPc, p: Phase, i: nat) {
    (pc.Broadcast? && pc.p == p && i < pc.i) || (pc.Sync? && pc.p == p && pc.i <= i)
  }

  /** Phase `p` comes later for worker `i`. */
  ghost predicate Ahead(pc: CoordPc, p: Phase, i: nat) {
    PhaseRank(CurrentPhase(pc)) < PhaseRank(p) || (pc.Broadcast? && pc.p == p && pc.i <= i)
  }

  /** A worker without work. */
  ghost predicate Idle(w: Worker) {
    w.pc == WaitRead && w.state == READY && w.signal == COMMIT
  }

  /** What the coordinator's position says about worker `i`. */
  ghost predicate WorkerOk(agg: bool, epoch: nat, pc: CoordPc, i: nat, w: Worker) {
    match w.pc
    case Starting => w.state == READY && w.signal == START && pc == AwaitAssigned(i) && w.load.epoch == epoch
    case WaitRead =>
      || (Idle(w) && !(pc.ExitBroadcast? && i < pc.i) && !pc.ExitSync? && !pc.Stopped?)
      || (w.state == ASSIGNED && w.signal in {START, COMMIT} && InDeploy(pc, i)
          && (!pc.ReplaceWorkload? ==> w.load.epoch == epoch))
      || (w.state == ASSIGNED && w.signal == READ && ReadOpen(pc, i) && !InDeploy(pc, i) && w.load.epoch == epoch)
      || (w.signal == EXIT && w.state == READY && Exiting(pc))
    case Reading(k) =>
      && w.state == ASSIGNED && w.signal == READ && ReadOpen(pc, i) && !InDeploy(pc, i)
      && w.load.epoch == epoch && k <= |w.load.list| && WorkPhase(agg, w.load) == ReadPhase
    case WaitAggregate =>
      && WorkPhase(agg, w.load) == AggregatePhase && w.state == FINISH_READ && !InDeploy(pc, i) && w.load.epoch == epoch
      && ((w.signal == READ && Ahead(pc, AggregatePhase, i)) || (w.signal == AGGREGATE && Open(pc, AggregatePhase, i)))
    case Aggregating(k) =>
      && WorkPhase(agg, w.load) == AggregatePhase && w.state == FINISH_READ && w.signal == AGGREGATE
         && Open(pc, AggregatePhase, i)
      && w.load.epoch == epoch && k <= |w.load.list|
    case WaitCommit =>
      && w.state == Finish(agg) && !InDeploy(pc, i) && w.load.epoch == epoch
      && ((w.signal in {READ, AGGREGATE} && Ahead(pc, CommitPhase, i))
         || (w.signal == COMMIT && Open(pc, CommitPhase, i)))
    case Committing(k) =>
      && w.state == Finish(agg) && w.signal == COMMIT && Open(pc, CommitPhase, i)
      && w.load.epoch == epoch && k <= |w.load.list|
    case Exited => w.state == EXITED && Exiting(pc)
  }

  ghost predicate CoordOk(agg: bool, st: State) {
    match st.pc
    case AwaitAssigned(w) => w < |st.workers|
        && (st.workers[w].pc == Starting
           || (st.workers[w].pc == WaitRead && st.workers[w].state == ASSIGNED && st.workers[w].signal == START))
    case ReplaceWorkload(w, load) =>
      && w < |st.workers| && load.epoch == st.epoch
      && st.workers[w].pc == WaitRead && st.workers[w].state == ASSIGNED && st.workers[w].signal == COMMIT
    case SignalRead(w) =>
      && w < |st.workers| && st.workers[w].pc == WaitRead && st.workers[w].state == ASSIGNED
      && st.workers[w].signal in {START, COMMIT} && st.workers[w].load.epoch == st.epoch
    case Sync(p, i) => i <= |st.workers| && (p == AggregatePhase ==> agg)
    case _ => CurrentPhase(st.pc) == AggregatePhase ==> agg
  }

  ghost predicate Sorted(log: seq<Event>) {
    forall i, j | 0 <= i < j < |log| :: Rank(log[i].epoch, log[i].phase) <= Rank(log[j].epoch, log[j].phase)
  }

  ghost predicate LogOk(st: State) {
    && Sorted(st.log)
    && forall e | e in st.log :: Rank(e.epoch, e.phase) <= Rank(st.epoch, CurrentPhase(st.pc))
  }

  ghost predicate WorkersOk(agg: bool, st: State) {
    forall i | 0 <= i < |st.workers| :: WorkerOk(agg, st.epoch, st.pc, i, st.workers[i])
  }

  ghost predicate Inv(agg: bool, st: State) {
    LogOk(st) && CoordOk(agg, st) && WorkersOk(agg, st)
  }

  /** A worker's step touches that worker and the log only. */
  lemma WorkerFrame(agg: bool, st: State, st': State, i: nat)
    requires WorkerStep(agg, st, st', i)
    ensures st'.pc == st.pc && st'.epoch == st.epoch && st'.deployed == st.deployed
    ensures |st'.workers| == |st.workers| && st'.workers == st.workers[i := st'.workers[i]]
  {
  }

  lemma WorkerKeepsItself(agg: bool, st: State, st': State, i: nat)
    requires WorkerStep(agg, st, st', i) && WorkerOk(agg, st.epoch, st.pc, i, st.workers[i])
    ensures WorkerOk(agg, st.epoch, st.pc, i, st'.workers[i])
  {
  }

  /** The stepping worker processes transactions of the current epoch and phase only. */
  lemma WorkerKeepsLog(agg: bool, st: State, st': State, i: nat)
    requires WorkerStep(agg, st, st', i) && WorkerOk(agg, st.epoch, st.pc, i, st.workers[i])
    ensures st'.log == st.log || (st'.log == st.log + [st'.log[|st.log|]]
                                  && Rank(st'.log[|st.log|].epoch, st'.log[|st.log|].phase)
                                     == Rank(st.epoch, CurrentPhase(st.pc)))
  {
  }

  lemma WorkerKeeps(agg: bool, st: State, st': State, i: nat)
    requires Inv(agg, st) && WorkerStep(agg, st, st', i)
    ensures Inv(agg, st')
  {
    WorkerFrame(agg, st, st', i);
    WorkerKeepsItself(agg, st, st', i);
    WorkerKeepsLog(agg, st, st', i);
  }

  lemma PickKeeps(agg: bool, st: State, st': State, w: nat, load: Workload)
    requires Inv(agg, st) && st.pc == Assign && PickReady(agg, st, st', w, load)
    ensures Inv(agg, st')
  {
    assert WorkerOk(agg, st.epoch, st.pc, w, st.workers[w]);
    forall l | 0 <= l < |st'.workers| ensures WorkerOk(agg, st'.epoch, st'.pc, l, st'.workers[l]) {
      assert WorkerOk(agg, st.epoch, st.pc, l, st.workers[l]);
    }
  }

  lemma StartKeeps(agg: bool, st: State, st': State, load: Workload)
    requires Inv(agg, st) && st.pc == Assign && StartNew(agg, st, st', load)
    ensures Inv(agg, st')
  {
    forall l | 0 <= l < |st'.workers| ensures WorkerOk(agg, st'.epoch, st'.pc, l, st'.workers[l]) {
      if l < |st.workers| { assert WorkerOk(agg, st.epoch, st.pc, l, st.workers[l]); }
    }
  }

  lemma DeployKeeps(agg: bool, st: State, st': State)
    requires Inv(agg, st) && AssignStep(agg, st, st') && st.pc != Assign
    ensures Inv(agg, st')
  {
    var w := st.pc.w;
    assert WorkerOk(agg, st.epoch, st.pc, w, st.workers[w]);
    forall l | 0 <= l < |st'.workers| ensures WorkerOk(agg, st'.epoch, st'.pc, l, st'.workers[l]) {
      assert WorkerOk(agg, st.epoch, st.pc, l, st.workers[l]);
    }
  }

  lemma AssignKeeps(agg: bool, st: State, st': State)
    requires Inv(agg, st) && AssignStep(agg, st, st')
    ensures Inv(agg, st')
  {
    if st.pc != Assign {
      DeployKeeps(agg, st, st');
    } else if w: nat, load: Workload :| PickReady(agg, st, st', w, load) {
      PickKeeps(agg, st, st', w, load);
    } else if load: Workload :| StartNew(agg, st, st', load) {
      StartKeeps(agg, st, st', load);
    }
  }

  /** A turn of a phase loop keeps what is known about worker `l`. */
  lemma PhaseKeepsWorker(agg: bool, st: State, st': State, l: nat)
    requires PhaseStep(agg, st, st') && CoordOk(agg, st) && l < |st.workers|
    requires WorkerOk(agg, st.epoch, st.pc, l, st.workers[l])
    ensures |st'.workers| == |st.workers| && WorkerOk(agg, st'.epoch, st'.pc, l, st'.workers[l])
  {
    match st.pc
    case Broadcast(p, i) =>
    case Sync(p, i) =>
    case ExitBroadcast(i) =>
    case ExitSync(i) =>
  }

  lemma PhaseKeepsLog(agg: bool, st: State, st': State)
    requires PhaseStep(agg, st, st') && LogOk(st) && CoordOk(agg, st)
    ensures LogOk(st') && CoordOk(agg, st') && |st'.workers| == |st.workers| && st'.deployed == st.deployed
  {
    assert st'.log == st.log;
    assert Rank(st.epoch, CurrentPhase(st.pc)) <= Rank(st'.epoch, CurrentPhase(st'.pc));
  }

  lemma PhaseKeeps(agg: bool, st: State, st': State)
    requires Inv(agg, st) && PhaseStep(agg, st, st')
    ensures Inv(agg, st')
  {
    PhaseKeepsLog(agg, st, st');
    forall l | 0 <= l < |st'.workers| ensures WorkerOk(agg, st'.epoch, st'.pc, l, st'.workers[l]) {
      PhaseKeepsWorker(agg, st, st', l);
    }
  }

  lemma StepKeeps(agg: bool, st: State, st': State)
    requires Inv(agg, st) && Step(agg, st, st')
    ensures Inv(agg, st')
  {
    if AssignStep(agg, st, st') {
      AssignKeeps(agg, st, st');
    } else if PhaseStep(agg, st, st') {
      PhaseKeeps(agg, st, st');
    } else {
      var i: nat :| WorkerStep(agg, st, st', i);
      WorkerKeeps(agg, st, st', i);
    }
  }

  lemma {:induction false} RunInv(agg: bool, tr: seq<State>, n: nat)
    requires Run(agg, tr) && n < |tr|
    ensures Inv(agg, tr[n])
    decreases n
  {
    if n > 0 {
      RunInv(agg, tr, n - 1);
      assert StepAt(agg, tr, n);
      StepKeeps(agg, tr[n - 1], tr[n]);
    }
  }

  /******* Work still to do *******/

  function Todo(agg: bool, pc: CoordPc, i: nat, w: Worker): seq<Event> {
    match w.pc
    case Starting => EventsOf(agg, w.load)
    case WaitRead =>
      if w.state == ASSIGNED && !(pc.ReplaceWorkload? && pc.w == i) then EventsOf(agg, w.load) else []
    case Reading(k) =>
      if k <= |w.load.list| then EventsIn(w.load, ReadPhase)[k..] + EventsIn(w.load, CommitPhase) else []
    case WaitAggregate => EventsOf(agg, w.load)
    case Aggregating(k) =>
      if k <= |w.load.list| then EventsIn(w.load, AggregatePhase)[k..] + EventsIn(w.load, CommitPhase) else []
    case WaitCommit => EventsIn(w.load, CommitPhase)
    case Committing(k) => if k <= |w.load.list| then EventsIn(w.load, CommitPhase)[k..] else []
    case Exited => []
  }

  function Sum(shares: seq<multiset<Event>>): multiset<Event> {
    if shares == [] then multiset{} else Sum(shares[..|shares| - 1]) + shares[|shares| - 1]
  }

  /** Changing one share changes the sum by that share. */
  lemma {:induction false} SumUpdate(a: seq<multiset<Event>>, i: nat, x: multiset<Event>)
    requires i < |a|
    ensures Sum(a[i := x]) + a[i] == Sum(a) + x
    decreases |a|
  {
    var n := |a| - 1;
    if i < n {
      SumUpdate(a[..n], i, x);
      assert a[i := x][..n] == a[..n][i := x] && a[i := x][n] == a[n];
      assert Sum(a[i := x]) + a[i] == Sum(a[..n][i := x]) + a[..n][i] + a[n];
    } else {
      assert a[i := x][..n] == a[..n];
    }
  }

  function Shares(agg: bool, pc: CoordPc, ws: seq<Worker>): seq<multiset<Event>> {
    seq(|ws|, i requires 0 <= i < |ws| => multiset(Todo(agg, pc, i, ws[i])))
  }

  lemma ShareUpdate(agg: bool, pc: CoordPc, ws: seq<Worker>, i: nat, w: Worker)
    requires i < |ws|
    ensures Shares(agg, pc, ws[i := w]) == Shares(agg, pc, ws)[i := multiset(Todo(agg, pc, i, w))]
  {
  }

  /** Nothing is dropped or done twice: what was done plus what is to do is what was deployed. */
  ghost predicate Conserved(agg: bool, st: State) {
    multiset(st.log) + Sum(Shares(agg, st.pc, st.workers)) == multiset(st.deployed)
  }

  /** Events move from one worker's share to the log. */
  lemma Move(log: seq<Event>, added: seq<Event>, a: seq<multiset<Event>>, i: nat, share: multiset<Event>,
             all: multiset<Event>)
    requires i < |a| && multiset(log) + Sum(a) == all && a[i] == multiset(added) + share
    ensures multiset(log + added) + Sum(a[i := share]) == all
  {
    SumUpdate(a, i, share);
    assert multiset(log + added) == multiset(log) + multiset(added);
    forall e ensures (Sum(a[i := share]) + multiset(added))[e] == Sum(a)[e] {
      assert (Sum(a[i := share]) + a[i])[e] == (Sum(a) + share)[e];
    }
    assert Sum(a[i := share]) + multiset(added) == Sum(a);
  }

  lemma WorkerConserves(agg: bool, st: State, st': State, i: nat, added: seq<Event>, before: seq<Event>,
                        after: seq<Event>)
    requires i < |st.workers| && st'.log == st.log + added && st'.pc == st.pc && st'.deployed == st.deployed
    requires |st'.workers| == |st.workers| && st'.workers == st.workers[i := st'.workers[i]]
    requires before == Todo(agg, st.pc, i, st.workers[i]) && after == Todo(agg, st.pc, i, st'.workers[i])
    requires before == added + after
    requires Conserved(agg, st)
    ensures Conserved(agg, st')
  {
    var a := Shares(agg, st.pc, st.workers);
    assert a[i] == multiset(before);
    assert multiset(added + after) == multiset(added) + multiset(after);
    Move(st.log, added, a, i, multiset(after), multiset(st.deployed));
    ShareUpdate(agg, st.pc, st.workers, i, st'.workers[i]);
  }

  /** Work is deployed by giving it to one worker. */
  lemma DeployConserves(agg: bool, st: State, st': State, i: nat, load: Workload)
    requires st'.log == st.log && st'.deployed == st.deployed + EventsOf(agg, load)
    requires i < |st'.workers| && Todo(agg, st'.pc, i, st'.workers[i]) == EventsOf(agg, load)
    requires |st'.workers| == |st.workers| && Todo(agg, st.pc, i, st.workers[i]) == []
    requires forall l | 0 <= l < |st.workers|
             && l != i :: Todo(agg, st'.pc, l, st'.workers[l]) == Todo(agg, st.pc, l, st.workers[l])
    requires Conserved(agg, st)
    ensures Conserved(agg, st')
  {
    var a, share := Shares(agg, st.pc, st.workers), multiset(EventsOf(agg, load));
    SumUpdate(a, i, share);
    assert Shares(agg, st'.pc, st'.workers) == a[i := share];
    assert Sum(a[i := share]) == Sum(a) + share;
  }

  lemma StartConserves(agg: bool, st: State, st': State, load: Workload)
    requires st'.log == st.log && st'.deployed == st.deployed + EventsOf(agg, load)
    requires |st'.workers| == |st.workers| + 1
    requires Todo(agg, st'.pc, |st.workers|, st'.workers[|st.workers|]) == EventsOf(agg, load)
    requires forall l | 0 <= l < |st.workers| ::
             Todo(agg, st'.pc, l, st'.workers[l]) == Todo(agg, st.pc, l, st.workers[l])
    requires Conserved(agg, st)
    ensures Conserved(agg, st')
  {
    var a' := Shares(agg, st'.pc, st'.workers);
    assert a'[..|a'| - 1] == Shares(agg, st.pc, st.workers);
  }

  lemma QuietConserves(agg: bool, st: State, st': State)
    requires st'.log == st.log && st'.deployed == st.deployed && |st'.workers| == |st.workers|
    requires forall l | 0 <= l < |st.workers| ::
             Todo(agg, st'.pc, l, st'.workers[l]) == Todo(agg, st.pc, l, st.workers[l])
    requires Conserved(agg, st)
    ensures Conserved(agg, st')
  {
    assert Shares(agg, st'.pc, st'.workers) == Shares(agg, st.pc, st.workers);
  }

  /** A share does not depend on signals, nor on the coordinator except while the workload is
      being replaced. */
  lemma TodoFrame(agg: bool, pc: CoordPc, pc': CoordPc, l: nat, w: Worker, s: Signal)
    requires (pc.ReplaceWorkload? && pc.w == l) == (pc'.ReplaceWorkload? && pc'.w == l)
    ensures Todo(agg, pc', l, w.(signal := s)) == Todo(agg, pc, l, w)
  {
  }

  lemma PickConserves(agg: bool, st: State, st': State, w: nat, load: Workload)
    requires Inv(agg, st) && st.pc == Assign && PickReady(agg, st, st', w, load) && Conserved(agg, st)
    ensures Conserved(agg, st')
  {
    assert WorkerOk(agg, st.epoch, st.pc, w, st.workers[w]);
    forall l | 0 <= l < |st.workers| ensures Todo(agg, st'.pc, l, st'.workers[l])
      == Todo(agg, st.pc, l, st.workers[l]) {
      if l != w { TodoFrame(agg, st.pc, st'.pc, l, st.workers[l], st.workers[l].signal); }
    }
    QuietConserves(agg, st, st');
  }

  lemma ReplaceConserves(agg: bool, st: State, st': State)
    requires Inv(agg, st) && st.pc.ReplaceWorkload? && AssignStep(agg, st, st') && Conserved(agg, st)
    ensures Conserved(agg, st')
  {
    var w, load := st.pc.w, st.pc.load;
    forall l | 0 <= l < |st.workers|
      && l != w ensures Todo(agg, st'.pc, l, st'.workers[l]) == Todo(agg, st.pc, l, st.workers[l]) {
      TodoFrame(agg, st.pc, st'.pc, l, st.workers[l], st.workers[l].signal);
    }
    DeployConserves(agg, st, st', w, load);
  }

  /** A step that only moves the coordinator or changes signals. */
  lemma SignalConserves(agg: bool, st: State, st': State)
    requires !st.pc.ReplaceWorkload? && !st'.pc.ReplaceWorkload? && |st'.workers| == |st.workers|
    requires forall l | 0 <= l < |st.workers| :: st'.workers[l] == st.workers[l].(signal := st'.workers[l].signal)
    requires st'.log == st.log && st'.deployed == st.deployed && Conserved(agg, st)
    ensures Conserved(agg, st')
  {
    forall l | 0 <= l < |st.workers| ensures Todo(agg, st'.pc, l, st'.workers[l])
      == Todo(agg, st.pc, l, st.workers[l]) {
      TodoFrame(agg, st.pc, st'.pc, l, st.workers[l], st'.workers[l].signal);
    }
    QuietConserves(agg, st, st');
  }

  lemma StartNewConserves(agg: bool, st: State, st': State, load: Workload)
    requires st.pc == Assign && StartNew(agg, st, st', load) && Conserved(agg, st)
    ensures Conserved(agg, st')
  {
    forall l | 0 <= l < |st.workers| ensures Todo(agg, st'.pc, l, st'.workers[l])
      == Todo(agg, st.pc, l, st.workers[l]) {
      TodoFrame(agg, st.pc, st'.pc, l, st.workers[l], st.workers[l].signal);
    }
    StartConserves(agg, st, st', load);
  }

  lemma AssignConserves(agg: bool, st: State, st': State)
    requires Inv(agg, st) && AssignStep(agg, st, st') && Conserved(agg, st)
    ensures Conserved(agg, st')
  {
    if st.pc.ReplaceWorkload? {
      ReplaceConserves(agg, st, st');
    } else if st.pc != Assign {
      SignalConserves(agg, st, st');
    } else if w: nat, load: Workload :| PickReady(agg, st, st', w, load) {
      PickConserves(agg, st, st', w, load);
    } else if load: Workload :| StartNew(agg, st, st', load) {
      StartNewConserves(agg, st, st', load);
    } else {
      SignalConserves(agg, st, st');
    }
  }

  lemma PhaseConserves(agg: bool, st: State, st': State)
    requires PhaseStep(agg, st, st') && Conserved(agg, st)
    ensures Conserved(agg, st')
  {
    SignalConserves(agg, st, st');
  }

  lemma WorkerLog(agg: bool, st: State, st': State, i: nat)
    requires WorkerStep(agg, st, st', i)
    ensures |st.log| <= |st'.log| && st'.log[..|st.log|] == st.log
  {
  }

  /** A worker about to process a transaction of its workload. */
  predicate AtTransaction(w: Worker) {
    match w.pc
    case Reading(k) => k < |w.load.list|
    case Aggregating(k) => k < |w.load.list|
    case Committing(k) => k < |w.load.list|
    case _ => false
  }

  lemma ProcessShare(agg: bool, st: State, st': State, i: nat)
    requires WorkerStep(agg, st, st', i) && AtTransaction(st.workers[i]) && |st.log| <= |st'.log|
    ensures Todo(agg, st.pc, i, st.workers[i]) == st'.log[|st.log|..] + Todo(agg, st'.pc, i, st'.workers[i])
  {
  }

  lemma MoveShare(agg: bool, st: State, st': State, i: nat)
    requires WorkerStep(agg, st, st', i) && WorkerOk(agg, st.epoch, st.pc, i, st.workers[i])
             && !AtTransaction(st.workers[i])
    ensures st'.log == st.log && Todo(agg, st.pc, i, st.workers[i]) == Todo(agg, st'.pc, i, st'.workers[i])
  {
  }

  /** The stepping worker's events move from its share to the log. */
  lemma WorkerShare(agg: bool, st: State, st': State, i: nat)
    requires WorkerStep(agg, st, st', i) && WorkerOk(agg, st.epoch, st.pc, i, st.workers[i]) && |st.log| <= |st'.log|
    ensures Todo(agg, st.pc, i, st.workers[i]) == st'.log[|st.log|..] + Todo(agg, st'.pc, i, st'.workers[i])
  {
    if AtTransaction(st.workers[i]) { ProcessShare(agg, st, st', i); } else { MoveShare(agg, st, st', i); }
  }

  lemma WorkerStepConserves(agg: bool, st: State, st': State, i: nat)
    requires WorkersOk(agg, st) && WorkerStep(agg, st, st', i) && Conserved(agg, st)
    ensures Conserved(agg, st')
  {
    WorkerFrame(agg, st, st', i);
    WorkerLog(agg, st, st', i);
    WorkerShare(agg, st, st', i);
    var added := st'.log[|st.log|..];
    assert st'.log == st.log + added;
    WorkerConserves(agg, st, st', i, added, Todo(agg, st.pc, i, st.workers[i]), Todo(agg, st.pc, i, st'.workers[i]));
  }

  lemma StepConserves(agg: bool, st: State, st': State)
    requires Inv(agg, st) && Step(agg, st, st') && Conserved(agg, st)
    ensures Conserved(agg, st')
  {
    if AssignStep(agg, st, st') {
      AssignConserves(agg, st, st');
    } else if PhaseStep(agg, st, st') {
      PhaseConserves(agg, st, st');
    } else {
      var i: nat :| WorkerStep(agg, st, st', i);
      WorkerStepConserves(agg, st, st', i);
    }
  }

  lemma {:induction false} RunConserved(agg: bool, tr: seq<State>, n: nat)
    requires Run(agg, tr) && n < |tr|
    ensures Conserved(agg, tr[n])
    decreases n
  {
    if n > 0 {
      RunConserved(agg, tr, n - 1);
      RunInv(agg, tr, n - 1);
      assert StepAt(agg, tr, n);
      StepConserves(agg, tr[n - 1], tr[n]);
    }
  }

  /******* Results *******/

  /** Phase separation: in every run, with any number of workers, no commit of an epoch comes
      before a read or aggregation of that epoch, and nothing of a later epoch is read before a
      commit of an earlier one. */
  lemma PhaseSeparation(agg: bool, tr: seq<State>, n: nat, i: nat, j: nat)
    requires Run(agg, tr) && n < |tr| && i < j < |tr[n].log|
    ensures tr[n].log[i].epoch <= tr[n].log[j].epoch
    ensures tr[n].log[i].epoch == tr[n].log[j].epoch ==> PhaseRank(tr[n].log[i].phase) <= PhaseRank(tr[n].log[j].phase)
  {
    RunInv(agg, tr, n);
    assert Rank(tr[n].log[i].epoch, tr[n].log[i].phase) <= Rank(tr[n].log[j].epoch, tr[n].log[j].phase);
  }

  /** The barrier between the phases: while one worker is past its commit signal, no worker executes or
      reserves, nor will any in this epoch. */
  lemma CommitAlone(agg: bool, tr: seq<State>, n: nat, i: nat, j: nat)
    requires Run(agg, tr) && n < |tr| && i < |tr[n].workers| && j < |tr[n].workers|
    requires tr[n].workers[i].pc.Committing? || (tr[n].workers[i].pc.WaitCommit? && tr[n].workers[i].signal == COMMIT)
    ensures !tr[n].workers[j].pc.Reading? && !tr[n].workers[j].pc.Aggregating? && CurrentPhase(tr[n].pc) == CommitPhase
    ensures forall ev | ev in Todo(agg, tr[n].pc, j, tr[n].workers[j]) :: ev.phase == CommitPhase
  {
    RunInv(agg, tr, n);
    assert WorkerOk(agg, tr[n].epoch, tr[n].pc, i, tr[n].workers[i]);
    assert WorkerOk(agg, tr[n].epoch, tr[n].pc, j, tr[n].workers[j]);
  }

  /** While the coordinator replaces a workload its worker cannot take any step. */
  lemma ReplacedWorkloadUntouched(agg: bool, tr: seq<State>, n: nat, st': State)
    requires Run(agg, tr) && n < |tr| && tr[n].pc.ReplaceWorkload?
    ensures !WorkerStep(agg, tr[n], st', tr[n].pc.w)
  {
    RunInv(agg, tr, n);
  }

  /** When an epoch's commit phase ends, every transaction ever deployed has been executed exactly
      once and committed exactly once, and no worker has anything left to do. */
  lemma EpochComplete(agg: bool, tr: seq<State>, n: nat)
    requires Run(agg, tr) && n < |tr| && tr[n].pc == Sync(CommitPhase, |tr[n].workers|)
    ensures multiset(tr[n].log) == multiset(tr[n].deployed)
    ensures forall i | 0 <= i < |tr[n].workers| :: Idle(tr[n].workers[i])
  {
    var st := tr[n];
    RunInv(agg, tr, n);
    RunConserved(agg, tr, n);
    var a := Shares(agg, st.pc, st.workers);
    forall i | 0 <= i < |a| ensures a[i] == multiset{} && Idle(st.workers[i]) {
      assert WorkerOk(agg, st.epoch, st.pc, i, st.workers[i]);
    }
    SumEmpty(a);
  }

  lemma {:induction false} SumEmpty(a: seq<multiset<Event>>)
    requires forall i | 0 <= i < |a| :: a[i] == multiset{}
    ensures Sum(a) == multiset{}
    decreases |a|
  {
    if a != [] { SumEmpty(a[..|a| - 1]); }
  }

  /** No deadlock: until the coordinator has stopped, some thread can move. */
  lemma NoDeadlock(agg: bool, tr: seq<State>, n: nat) returns (st': State)
    requires Run(agg, tr) && n < |tr| && tr[n].pc != Stopped
    ensures Step(agg, tr[n], st')
  {
    RunInv(agg, tr, n);
    st' := CanMove(agg, tr[n]);
  }

  /** The steps that the coordinator has left with `n` workers if it stops after this epoch. */
  function CoordLeft(pc: CoordPc, n: nat): int {
    match pc
    case Assign => 8 * n + 9
    case SignalRead(_) => 8 * n + 10
    case AwaitAssigned(_) => 8 * n + 11
    case ReplaceWorkload(_, _) => 8 * n + 11
    case Broadcast(p, i) => PhasesAfter(p, n) + 2 * n + 2 - if i <= n then i else n
    case Sync(p, i) => PhasesAfter(p, n) + n + 1 - if i <= n then i else n
    case ExitBroadcast(i) => 2 * n + 2 - if i <= n then i else n
    case ExitSync(i) => n + 1 - if i <= n then i else n
    case Stopped => 0
  }

  function PhasesAfter(p: Phase, n: nat): int {
    match p case ReadPhase => 6 * n + 6 case AggregatePhase => 4 * n + 4 case CommitPhase => 2 * n + 2
  }

  /** A worker has moved, or the coordinator has less to do. */
  ghost predicate MovesOn(agg: bool, st: State, st': State) {
    || (exists i: nat :: WorkerStep(agg, st, st', i))
    || (|st'.workers| == |st.workers| && CoordLeft(st'.pc, |st.workers|) < CoordLeft(st.pc, |st.workers|))
  }

  /** Some thread can move; and if the coordinator is not about to assign, without deploying anything but
      a workload already chosen. */
  lemma CanMove(agg: bool, st: State) returns (st': State)
    requires Inv(agg, st) && st.pc != Stopped
    ensures Step(agg, st, st') && MovesOn(agg, st, st')
    ensures st'.deployed == st.deployed + if st.pc.ReplaceWorkload? then EventsOf(agg, st.pc.load) else []
  {
    if st.pc.Assign? || st.pc.AwaitAssigned? || st.pc.ReplaceWorkload? || st.pc.SignalRead? {
      st' := CanAssign(agg, st);
    } else {
      st' := CanPhase(agg, st);
    }
  }

  lemma CanAssign(agg: bool, st: State) returns (st': State)
    requires Inv(agg, st) && (st.pc.Assign? || st.pc.AwaitAssigned? || st.pc.ReplaceWorkload? || st.pc.SignalRead?)
    ensures Step(agg, st, st') && MovesOn(agg, st, st')
    ensures st'.deployed == st.deployed + if st.pc.ReplaceWorkload? then EventsOf(agg, st.pc.load) else []
  {
    match st.pc
    case Assign => st' := st.(pc := Broadcast(ReadPhase, 0)); assert AssignStep(agg, st, st');
    case AwaitAssigned(w) =>
      if st.workers[w].state == ASSIGNED { st' := st.(pc := SignalRead(w)); assert AssignStep(agg, st, st'); }
      else { st' := Resume(agg, st, w); }
    case ReplaceWorkload(w, load) =>
      st' := SetWorker(st, w, st.workers[w].(load := load))
        .(pc := SignalRead(w), deployed := st.deployed + EventsOf(agg, load));
      assert AssignStep(agg, st, st');
    case SignalRead(w) => st' := SetSignal(st, w, READ).(pc := Assign); assert AssignStep(agg, st, st');
  }

  lemma CanPhase(agg: bool, st: State) returns (st': State)
    requires Inv(agg, st) && (st.pc.Broadcast? || st.pc.Sync? || st.pc.ExitBroadcast? || st.pc.ExitSync?)
    ensures Step(agg, st, st') && MovesOn(agg, st, st') && st'.deployed == st.deployed
  {
    if st.pc.Sync? && st.pc.i < |st.workers| && st.workers[st.pc.i].state !in Goal(agg, st.pc.p) + {READY} {
      st' := Resume(agg, st, st.pc.i);
    } else if st.pc.ExitSync? && st.pc.i < |st.workers| && st.workers[st.pc.i].state != EXITED {
      st' := Resume(agg, st, st.pc.i);
    } else {
      st' := CanLoop(agg, st);
    }
  }

  lemma CanLoop(agg: bool, st: State) returns (st': State)
    requires st.pc.Broadcast? || st.pc.Sync? || st.pc.ExitBroadcast? || st.pc.ExitSync?
    requires st.pc.Sync? && st.pc.i < |st.workers| ==> st.workers[st.pc.i].state in Goal(agg, st.pc.p) + {READY}
    requires st.pc.ExitSync? && st.pc.i < |st.workers| ==> st.workers[st.pc.i].state == EXITED
    ensures PhaseStep(agg, st, st') && MovesOn(agg, st, st') && st'.deployed == st.deployed
  {
    match st.pc
    case Broadcast(p, i) =>
      st' := if i >= |st.workers| then st.(pc := Sync(p, 0))
             else (if st.workers[i].state == READY then st else SetSignal(st, i, SignalOf(p)))
                    .(pc := Broadcast(p, i + 1));
    case Sync(p, i) =>
      st' := if i < |st.workers| then st.(pc := Sync(p, i + 1))
             else st.(pc := if p == CommitPhase then ExitBroadcast(0) else Broadcast(NextPhase(agg, p), 0));
    case ExitBroadcast(i) =>
      st' := if i >= |st.workers| then st.(pc := ExitSync(0)) else SetSignal(st, i, EXIT).(pc := ExitBroadcast(i + 1));
    case ExitSync(i) =>
      st' := st.(pc := if i < |st.workers| then ExitSync(i + 1) else Stopped);
  }

  /** A worker that the coordinator waits for can move: it is starting, processing, or holds the
      signal it waits for. */
  lemma Resume(agg: bool, st: State, i: nat) returns (st': State)
    requires i < |st.workers| && WorkerOk(agg, st.epoch, st.pc, i, st.workers[i]) && CoordOk(agg, st)
    requires match st.pc
             case AwaitAssigned(_) => st.workers[i].pc == Starting
             case Sync(p, j) => j == i && st.workers[i].state != READY && st.workers[i].state !in Goal(agg, p)
             case ExitSync(j) => j == i && st.workers[i].state != EXITED
             case _ => false
    ensures WorkerStep(agg, st, st', i) && st'.deployed == st.deployed && st'.pc == st.pc
  {
    var w := st.workers[i];
    st' := match w.pc
      case Starting => SetWorker(st, i, w.(state := ASSIGNED, pc := WaitRead))
      case WaitRead =>
        if w.signal == EXIT then SetWorker(st, i, w.(state := EXITED, pc := Exited))
        else SetWorker(st, i, if agg && w.load.aggregation then w.(state := FINISH_READ, pc := WaitAggregate)
                              else w.(pc := Reading(0)))
      case Reading(k) =>
        if k < |w.load.list| then Process(st, i, k, ReadPhase, Reading(k + 1))
        else SetWorker(st, i, w.(state := Finish(agg), pc := WaitCommit))
      case WaitAggregate => SetWorker(st, i, w.(pc := Aggregating(0)))
      case Aggregating(k) =>
        if k < |w.load.list| then Process(st, i, k, AggregatePhase, Aggregating(k + 1))
        else SetWorker(st, i, w.(state := Finish(agg), pc := WaitCommit))
      case WaitCommit => SetWorker(st, i, w.(pc := Committing(0)))
      case Committing(k) =>
        if k < |w.load.list| then Process(st, i, k, CommitPhase, Committing(k + 1))
        else SetWorker(st, i, w.(state := READY, pc := WaitRead))
      case Exited => st;
  }
}
