/** What a call of the blocking queue does in a run, and that it can be made. */
module QueueCalls {
  import R = MpmcRing
  import S = Semaphore
  import C = SemaphoreCalls
  import P = QueueProgress
  import opened BlockingQueue

  /******* A pop returns with an element *******/

  /** Inside a pop that will return an element: one that waits for a permit, or any with a permit. */
  predicate InPop(op: Op) { op == Acquiring(true) || op.MustPop? || op.Popping? }

  /** Such a pop goes on, or it ends with the release of the slot whose element it has taken. */
  lemma PopGoesOn<T(!new)>(q: Queue<T>, q': Queue<T>, i: nat)
    requires Inv(q) && StepBy(q, q', i) && InPop(q.ops[i])
    ensures i < |q'.ops| && i < |q.ring.threads|
    ensures InPop(q'.ops[i]) || (q'.ops[i].Outside? && q.ring.threads[i].PopRelease?)
  {
    assert InRing(q.ops[i], q.ring.threads[i]);
  }

  lemma OthersPop<T(!new)>(q: Queue<T>, q': Queue<T>, i: nat, j: nat)
    requires StepBy(q, q', j) && i < |q.ops| && i != j
    ensures i < |q'.ops| && q'.ops[i] == q.ops[i]
  {
  }

  /** In every run: a pop, and a try_pop that has got a permit, return with an element, the one that was pushed
      under their ticket, and not otherwise. */
  lemma PopReturnsElement<T(!new)>(cap: nat, tr: seq<Queue<T>>, n: nat, i: nat)
    requires Run(cap, tr) && n + 1 < |tr| && i < |tr[n].ops| && InPop(tr[n].ops[i])
    requires i < |tr[n + 1].ops| && !InPop(tr[n + 1].ops[i])
    ensures i < |tr[n].ring.threads| && tr[n].ring.threads[i].PopRelease?
    ensures var th, r := tr[n].ring.threads[i], tr[n + 1].ring;
            th.t in r.pushed && r.pushed[th.t] == th.v && th.t in r.popped && r.popped[th.t] == th.v
    ensures tr[n + 1].ops[i].Outside?
  {
    RunInv(cap, tr, n);
    assert StepAt(tr, n + 1);
    var j: nat :| StepBy(tr[n], tr[n + 1], j);
    if j != i {
      OthersPop(tr[n], tr[n + 1], i, j);
    } else {
      PopGoesOn(tr[n], tr[n + 1], i);
      Released(tr[n], tr[n + 1], i);
    }
  }

  lemma Released<T(!new)>(q: Queue<T>, q': Queue<T>, i: nat)
    requires Inv(q) && StepBy(q, q', i) && i < |q.ring.threads| && q.ops[i].Popping? && q.ring.threads[i].PopRelease?
    ensures var th, r := q.ring.threads[i], q'.ring;
            th.t in r.pushed && r.pushed[th.t] == th.v && th.t in r.popped && r.popped[th.t] == th.v
  {
    assert R.ThreadOk(q.ring, q.ring.threads[i]);
  }

  /******* Calls can be made, and go on *******/

  /** A thread outside can begin to push any value, to pop, and to try to pop. */
  lemma CanBegin<T(!new)>(q: Queue<T>, i: nat, v: T) returns (push: Queue<T>, pop: Queue<T>, try: Queue<T>)
    requires Inv(q) && i < |q.ops| && q.ops[i].Outside?
    ensures StepBy(q, push, i) && i < |push.ops| && push.ops[i].Pushing?
    ensures q.ring.head in push.ring.pushed && push.ring.pushed[q.ring.head] == v
    ensures StepBy(q, pop, i) && i < |pop.ops| && pop.ops[i] == Acquiring(true)
    ensures StepBy(q, try, i) && i < |try.ops| && try.ops[i] == Acquiring(false)
  {
    assert InRing(q.ops[i], q.ring.threads[i]) && InSem(q.ops[i], q.sem.threads[i]);
    push := q.(ring := R.DrawPush(q.ring, i, R.PushWait(q.ring.head, v), v), ops := q.ops[i := Pushing]);
    assert R.BeginPush(q.ring, push.ring, i, v) && PushBegins(q, push, i, v);
    pop := q.(sem := S.BeginWait(q.sem, i, 1, true), ops := q.ops[i := Acquiring(true)]);
    try := q.(sem := S.BeginWait(q.sem, i, 1, false), ops := q.ops[i := Acquiring(false)]);
    assert SemMoves(q, pop, i, Acquiring(true)) && SemMoves(q, try, i, Acquiring(false));
  }

  /** The thread waits for the turn of its slot. */
  ghost predicate Spins<T>(r: R.Ring<T>, i: nat)
    requires R.Shaped(r) && i < |r.threads|
  {
    match r.threads[i]
    case PushWait(h, _) => R.At(r.g, r.slots, h).turn != R.Free(r.g, h)
    case PopWait(t) => R.At(r.g, r.slots, t).turn != R.Free(r.g, t) + 1
    case _ => false
  }

  lemma SignalMoves<T(!new)>(q: Queue<T>, i: nat) returns (q': Queue<T>)
    requires Inv(q) && i < |q.ops| && q.ops[i].MustSignal?
    ensures StepBy(q, q', i)
  {
    assert InSem(q.ops[i], q.sem.threads[i]);
    var sem := S.BeginSignal(q.sem, i, 1);
    q' := q.(sem := sem, ops := q.ops[i := if sem.threads[i].Idle? then Outside else Signalling]);
  }

  lemma SemaphoreMoves<T(!new)>(q: Queue<T>, i: nat) returns (q': Queue<T>)
    requires Inv(q) && i < |q.ops| && (q.ops[i].Signalling? || (q.ops[i].Acquiring? && !q.sem.threads[i].Idle?))
    ensures StepBy(q, q', i)
  {
    assert InSem(q.ops[i], q.sem.threads[i]);
    var sem := C.Onward(q.sem, i);
    S.StepDelta(q.sem, sem, i);
    var idle := sem.threads[i].Idle?;
    var op := if q.ops[i].Signalling? then if idle then Outside else Signalling
              else if sem.acquired > q.sem.acquired then MustPop(q.ops[i].blocking)
              else if idle && !q.ops[i].blocking then Outside
              else q.ops[i];
    q' := q.(sem := sem, ops := q.ops[i := op]);
  }

  lemma EntersRing<T(!new)>(q: Queue<T>, i: nat) returns (q': Queue<T>)
    requires Inv(q) && i < |q.ops| && q.ops[i].MustPop?
    ensures StepBy(q, q', i)
  {
    assert InRing(q.ops[i], q.ring.threads[i]);
    var r := q.ring;
    var ring := if q.ops[i].blocking then R.To(r, i, R.PopWait(r.tail)).(tail := r.tail + 1)
                else R.To(r, i, R.TryPopCheck(r.tail));
    q' := q.(ring := ring, ops := q.ops[i := Popping(q.ops[i].blocking)]);
  }

  predicate Pushes<T>(th: R.Thread<T>) {
    th.PushWait? || th.PushConstruct? || th.PushPublish? || th.TryPushCheck? || th.TryPushCas? || th.TryPushReload?
  }

  lemma PushMovesOn<T(!new)>(r: R.Ring<T>, i: nat) returns (r': R.Ring<T>)
    requires R.Inv(r) && i < |r.threads| && Pushes(r.threads[i]) && !Spins(r, i)
    ensures R.StepBy(r, r', i)
  {
    assert R.ThreadOk(r, r.threads[i]);
    match r.threads[i]
    case PushWait(h, v) => r' := R.To(r, i, R.PushConstruct(h, v));
    case PushConstruct(h, v) => r' := R.Constructed(r, i, h, v);
    case PushPublish(h) => r' := R.MadeVisible(r, i, h);
    case TryPushCheck(h, v) =>
      var free := R.At(r.g, r.slots, h).turn == R.Free(r.g, h);
      r' := R.To(r, i, if free then R.TryPushCas(h, v) else R.TryPushReload(h, v));
    case TryPushCas(h, v) =>
      r' := if r.head == h then R.DrawPush(r, i, R.PushConstruct(h, v), v) else R.To(r, i, R.TryPushCheck(r.head, v));
    case TryPushReload(h, v) => r' := R.To(r, i, if r.head == h then R.Idle else R.TryPushCheck(r.head, v));
  }

  lemma PopMovesOn<T(!new)>(r: R.Ring<T>, i: nat) returns (r': R.Ring<T>)
    requires R.Inv(r) && i < |r.threads| && !Pushes(r.threads[i]) && !r.threads[i].Idle? && !Spins(r, i)
    ensures R.StepBy(r, r', i)
  {
    assert R.ThreadOk(r, r.threads[i]);
    match r.threads[i]
    case PopWait(t) => r' := R.To(r, i, R.PopTake(t));
    case PopTake(t) =>
      R.Take(r, i, t);
      r' := R.Taken(r, i, t);
    case PopRelease(t, _) => r' := R.HandedOn(r, i, t);
    case TryPopCheck(t) =>
      var there := R.At(r.g, r.slots, t).turn == R.Free(r.g, t) + 1;
      r' := R.To(r, i, if there then R.TryPopCas(t) else R.TryPopReload(t));
    case TryPopCas(t) =>
      r' := if r.tail == t then R.To(r, i, R.PopTake(t)).(tail := t + 1) else R.To(r, i, R.TryPopCheck(r.tail));
    case TryPopReload(t) => r' := R.To(r, i, if r.tail == t then R.Idle else R.TryPopCheck(r.tail));
  }

  lemma WaitsAgain<T(!new)>(q: Queue<T>, i: nat) returns (q': Queue<T>)
    requires Inv(q) && i < |q.ops| && q.ops[i].Acquiring? && q.sem.threads[i].Idle?
    ensures StepBy(q, q', i)
  {
    assert InSem(q.ops[i], q.sem.threads[i]);
    q' := q.(sem := S.BeginWait(q.sem, i, 1, true));
    assert q'.ops == q.ops[i := Acquiring(true)];
  }

  /** In every run: a thread inside a call can take a step, unless it waits for the turn of its slot. */
  lemma NeverStuck<T(!new)>(cap: nat, tr: seq<Queue<T>>, n: nat, i: nat) returns (q': Queue<T>)
    requires Run(cap, tr) && n < |tr| && i < |tr[n].ops| && !tr[n].ops[i].Outside?
    requires R.Shaped(tr[n].ring) && i < |tr[n].ring.threads| && !Spins(tr[n].ring, i)
    ensures StepBy(tr[n], q', i)
  {
    RunInv(cap, tr, n);
    q' := Moves(tr[n], i);
  }

  lemma Moves<T(!new)>(q: Queue<T>, i: nat) returns (q': Queue<T>)
    requires Inv(q) && i < |q.ops| && !q.ops[i].Outside? && !Spins(q.ring, i)
    ensures StepBy(q, q', i)
  {
    assert InRing(q.ops[i], q.ring.threads[i]);
    match q.ops[i]
    case MustSignal => q' := SignalMoves(q, i);
    case Signalling => q' := SemaphoreMoves(q, i);
    case MustPop(_) => q' := EntersRing(q, i);
    case Acquiring(_) =>
      if q.sem.threads[i].Idle? { q' := WaitsAgain(q, i); } else { q' := SemaphoreMoves(q, i); }
    case Pushing =>
      var r' := PushMovesOn(q.ring, i);
      q' := P.RingStepIsQueueStep(q, r', i);
    case Popping(_) =>
      var r' := PopMovesOn(q.ring, i);
      q' := P.RingStepIsQueueStep(q, r', i);
  }
}
