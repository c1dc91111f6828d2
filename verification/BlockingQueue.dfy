/** The blocking queue: the ring guarded by the semaphore. A push publishes its element and then
    signals; a pop acquires a permit and then draws a ticket. */
module BlockingQueue {
  import R = MpmcRing
  import S = Semaphore
  import opened Counting

  datatype Op =
    | Outside
    | Pushing                    // inside the ring's emplace
    | MustSignal                 // element published, about to signal
    | Signalling
    | Acquiring(blocking: bool)  // pop waits until it has a permit, try_pop tries once
    | MustPop(blocking: bool)    // has a permit, about to enter the ring
    | Popping(blocking: bool)

  /** `finished` counts the elements published. */
  datatype Queue<T> = Queue(ring: R.Ring<T>, sem: S.Sem, ops: seq<Op>, finished: nat)

  ghost predicate Sized<T>(q: Queue<T>, i: nat) {
    i < |q.ops| && |q.ring.threads| == |q.ops| == |q.sem.threads| && R.Shaped(q.ring)
  }

  ghost predicate RingMoves<T(!new)>(q: Queue<T>, q': Queue<T>, i: nat, op: Op) {
    R.StepBy(q.ring, q'.ring, i) && q'.sem == q.sem && i < |q.ops| && q'.ops == q.ops[i := op]
  }

  ghost predicate SemMoves<T>(q: Queue<T>, q': Queue<T>, i: nat, op: Op) {
    S.StepBy(q.sem, q'.sem, i) && q'.ring == q.ring && i < |q.ops| && q'.ops == q.ops[i := op]
        && q'.finished == q.finished
  }

  ghost predicate PushBegins<T>(q: Queue<T>, q': Queue<T>, i: nat, v: T)
    requires Sized(q, i)
  {
    q'.ring == R.DrawPush(q.ring, i, R.PushWait(q.ring.head, v), v)
  }

  ghost predicate StepBy<T(!new)>(q: Queue<T>, q': Queue<T>, i: nat) {
    && Sized(q, i)
    && match q.ops[i]
       case Outside =>
         || (RingMoves(q, q', i, Pushing) && q'.finished == q.finished && exists v :: PushBegins(q, q', i, v))
         || (exists blocking :: SemMoves(q, q', i, Acquiring(blocking)) && q'.sem == S.BeginWait(q.sem, i, 1, blocking))
       case Pushing =>
         var done := q'.ring.threads != [] && i < |q'.ring.threads| && q'.ring.threads[i].Idle?;
         && RingMoves(q, q', i, if done then MustSignal else Pushing) && R.PushStep(q.ring, q'.ring, i)
         && q'.finished == if done then q.finished + 1 else q.finished
       case MustSignal =>
         && q'.sem == S.BeginSignal(q.sem, i, 1)
         && SemMoves(q, q', i, if q'.sem.threads[i].Idle? then Outside else Signalling)
       case Signalling =>
         && S.Continue(q.sem, q'.sem, i) && i < |q'.sem.threads|
         && SemMoves(q, q', i, if q'.sem.threads[i].Idle? then Outside else Signalling)
       case Acquiring(blocking) =>
         if q.sem.threads[i].Idle? then
           blocking && SemMoves(q, q', i, Acquiring(true)) && q'.sem == S.BeginWait(q.sem, i, 1, true)
         else
           && S.Continue(q.sem, q'.sem, i) && i < |q'.sem.threads|
           && SemMoves(q, q', i, if q'.sem.acquired > q.sem.acquired then MustPop(blocking)
                                 else if q'.sem.threads[i].Idle? && !blocking then Outside
                                 else Acquiring(blocking))
       case MustPop(blocking) =>
         && RingMoves(q, q', i, Popping(blocking)) && q'.finished == q.finished
         && q'.ring == if blocking then R.To(q.ring, i, R.PopWait(q.ring.tail)).(tail := q.ring.tail + 1)
                       else R.To(q.ring, i, R.TryPopCheck(q.ring.tail))
       case Popping(blocking) =>
         var back := i < |q'.ring.threads| && q'.ring.threads[i].Idle?;
         && R.PopStep(q.ring, q'.ring, i) && q'.finished == q.finished
         && RingMoves(q, q', i, if !back then Popping(blocking)
                                else if q.ring.threads[i].PopRelease? then Outside
                                else MustPop(blocking))
  }

  ghost predicate Step<T(!new)>(q: Queue<T>, q': Queue<T>) {
    exists i :: StepBy(q, q', i)
  }

  ghost predicate Init<T>(cap: nat, q: Queue<T>) {
    && R.Init(cap, q.ring) && S.Init(q.sem) && q.sem.initial == 0 && q.finished == 0
    && |q.ring.threads| == |q.ops| == |q.sem.threads|
    && forall i | 0 <= i < |q.ops| :: q.ops[i] == Outside
  }

  ghost predicate Run<T(!new)>(cap: nat, tr: seq<Queue<T>>) {
    && tr != [] && Init(cap, tr[0])
    && forall n | 0 < n < |tr| :: StepAt(tr, n)
  }

  /** Moment `n` of a run comes from the one before by a step. */
  ghost predicate StepAt<T(!new)>(tr: seq<Queue<T>>, n: nat)
    requires 0 < n < |tr|
  {
    Step(tr[n - 1], tr[n])
  }

  /******* The invariant *******/

  ghost predicate InRing<T>(op: Op, th: R.Thread<T>) {
    match op
    case Pushing => R.PushTicket(th) != -1
    case Popping(_) => R.PopTicket(th) != -1 || th.TryPopCheck? || th.TryPopCas? || th.TryPopReload?
    case _ => th.Idle?
  }

  ghost predicate InSem(op: Op, th: S.Thread) {
    match op
    case Signalling => th.Posting? && th.k > 0
    case Acquiring(blocking) =>
      if th.Idle? then blocking
      else !th.Posting? && !th.More? && th.max == 1 && if th.TrySeen? then th.insist == blocking else blocking
    case _ => th.Idle?
  }

  function PushShare(op: Op): int { if op.Pushing? then 1 else 0 }

  function SignalShare(op: Op): int { if op.MustSignal? then 1 else 0 }

  /** A permit acquired and not yet turned into a ticket. */
  function PermitShare<T>(op: Op, th: R.Thread<T>): int {
    if op.MustPop? || (op.Popping? && R.PopTicket(th) == -1) then 1 else 0
  }

  function PushShares(ops: seq<Op>): seq<int> { seq(|ops|, i requires 0 <= i < |ops| => PushShare(ops[i])) }

  function SignalShares(ops: seq<Op>): seq<int> { seq(|ops|, i requires 0 <= i < |ops| => SignalShare(ops[i])) }

  function PermitShares<T>(ops: seq<Op>, ths: seq<R.Thread<T>>): seq<int>
    requires |ths| == |ops|
  {
    seq(|ops|, i requires 0 <= i < |ops| => PermitShare(ops[i], ths[i]))
  }

  ghost predicate Placed<T>(q: Queue<T>) {
    && |q.ring.threads| == |q.ops| == |q.sem.threads|
    && forall i | 0 <= i < |q.ops| :: InRing(q.ops[i], q.ring.threads[i]) && InSem(q.ops[i], q.sem.threads[i])
  }

  ghost predicate Books<T>(q: Queue<T>)
    requires |q.ring.threads| == |q.ops|
  {
    && q.ring.head == q.finished + Total(PushShares(q.ops))
    && q.finished == q.sem.signalled + Total(SignalShares(q.ops))
    && q.sem.acquired == q.ring.tail + Total(PermitShares(q.ops, q.ring.threads))
    && q.sem.initial == 0
  }

  ghost predicate Inv<T>(q: Queue<T>) {
    R.Inv(q.ring) && S.Accounted(q.sem) && Placed(q) && Books(q)
  }

  lemma RingKeeps<T(!new)>(r: R.Ring<T>, r': R.Ring<T>, i: nat)
    requires R.Inv(r) && R.StepBy(r, r', i)
    ensures R.Inv(r')
  {
    if R.PushStep(r, r', i) { R.PushKeeps(r, r', i); } else { R.PopKeeps(r, r', i); }
  }

  lemma PushTurn<T(!new)>(r: R.Ring<T>, r': R.Ring<T>, i: nat)
    requires R.Shaped(r) && i < |r.threads| && R.PushStep(r, r', i) && R.PushTicket(r.threads[i]) != -1
    ensures r'.head == r.head && r'.tail == r.tail && |r'.threads| == |r.threads|
    ensures r'.threads[i].Idle? || R.PushTicket(r'.threads[i]) != -1
  {
  }

  lemma PopTurn<T(!new)>(r: R.Ring<T>, r': R.Ring<T>, i: nat)
    requires R.Shaped(r) && i < |r.threads| && R.PopStep(r, r', i) && InRing(Popping(true), r.threads[i])
    ensures r'.head == r.head && |r'.threads| == |r.threads|
    ensures r'.threads[i].Idle? || InRing(Popping(true), r'.threads[i])
    ensures r'.threads[i].Idle? ==> r'.tail == r.tail && (r.threads[i].PopRelease? || r.threads[i].TryPopReload?)
    ensures !r'.threads[i].Idle? ==>
              r'.tail - r.tail == (if R.PopTicket(r.threads[i]) == -1 then 1 else 0)
                                  - (if R.PopTicket(r'.threads[i]) == -1 then 1 else 0)
  {
  }

  lemma WaitTurn(s: S.Sem, s': S.Sem, i: nat, blocking: bool)
    requires i < |s.threads| && S.Continue(s, s', i) && InSem(Acquiring(blocking), s.threads[i]) && !s.threads[i].Idle?
    ensures |s'.threads| == |s.threads| && s'.initial == s.initial
    ensures s'.threads[i].Idle? || InSem(Acquiring(blocking), s'.threads[i])
    ensures s'.signalled == s.signalled && s.acquired <= s'.acquired <= s.acquired + 1
    ensures s'.acquired > s.acquired ==> s'.threads[i].Idle?
  {
  }

  /** The stepping thread's books balance, and it stays where its operation says. */
  ghost predicate Delta<T>(q: Queue<T>, q': Queue<T>, i: nat) {
    && i < |q.ops| == |q'.ops| && q'.ops == q.ops[i := q'.ops[i]]
    && |q.ring.threads| == |q'.ring.threads| == |q.ops| == |q.sem.threads| == |q'.sem.threads|
    && InRing(q'.ops[i], q'.ring.threads[i]) && InSem(q'.ops[i], q'.sem.threads[i])
    && q'.ring.head - q.ring.head == q'.finished - q.finished + PushShare(q'.ops[i]) - PushShare(q.ops[i])
    && q'.finished - q.finished == q'.sem.signalled - q.sem.signalled + SignalShare(q'.ops[i]) - SignalShare(q.ops[i])
    && q'.sem.acquired - q.sem.acquired == q'.ring.tail - q.ring.tail
       + PermitShare(q'.ops[i], q'.ring.threads[i]) - PermitShare(q.ops[i], q.ring.threads[i])
    && q'.sem.initial == q.sem.initial
  }

  lemma DeltaOutside<T(!new)>(q: Queue<T>, q': Queue<T>, i: nat)
    requires Placed(q) && StepBy(q, q', i) && (q.ops[i].Outside? || q.ops[i].MustPop? || q.ops[i].MustSignal?)
    ensures Delta(q, q', i)
  {
    assert InRing(q.ops[i], q.ring.threads[i]) && InSem(q.ops[i], q.sem.threads[i]);
  }

  lemma DeltaRing<T(!new)>(q: Queue<T>, q': Queue<T>, i: nat)
    requires Placed(q) && StepBy(q, q', i) && (q.ops[i].Pushing? || q.ops[i].Popping?)
    ensures Delta(q, q', i)
  {
    assert InRing(q.ops[i], q.ring.threads[i]) && InSem(q.ops[i], q.sem.threads[i]);
    if q.ops[i].Pushing? { PushTurn(q.ring, q'.ring, i); } else { PopTurn(q.ring, q'.ring, i); }
  }

  lemma DeltaSem<T(!new)>(q: Queue<T>, q': Queue<T>, i: nat)
    requires Placed(q) && StepBy(q, q', i) && (q.ops[i].Signalling? || q.ops[i].Acquiring?)
    ensures Delta(q, q', i)
  {
    assert InRing(q.ops[i], q.ring.threads[i]) && InSem(q.ops[i], q.sem.threads[i]);
    if q.ops[i].Acquiring? && !q.sem.threads[i].Idle? { WaitTurn(q.sem, q'.sem, i, q.ops[i].blocking); }
  }

  lemma SharesUpdate<T>(ops: seq<Op>, ths: seq<R.Thread<T>>, i: nat, op: Op, th: R.Thread<T>)
    requires |ths| == |ops| && i < |ops|
    ensures Total(PushShares(ops[i := op])) == Total(PushShares(ops)) - PushShare(ops[i]) + PushShare(op)
    ensures Total(SignalShares(ops[i := op])) == Total(SignalShares(ops)) - SignalShare(ops[i]) + SignalShare(op)
    ensures Total(PermitShares(ops[i := op], ths[i := th])) ==
            Total(PermitShares(ops, ths)) - PermitShare(ops[i], ths[i]) + PermitShare(op, th)
  {
    TotalUpdate(PushShares(ops), i, PushShare(op));
    TotalUpdate(SignalShares(ops), i, SignalShare(op));
    TotalUpdate(PermitShares(ops, ths), i, PermitShare(op, th));
    assert PushShares(ops[i := op]) == PushShares(ops)[i := PushShare(op)];
    assert SignalShares(ops[i := op]) == SignalShares(ops)[i := SignalShare(op)];
    assert PermitShares(ops[i := op], ths[i := th]) == PermitShares(ops, ths)[i := PermitShare(op, th)];
  }

  /** Whatever a queue step does, it is a step of the ring or a step of the semaphore. */
  lemma Projects<T(!new)>(q: Queue<T>, q': Queue<T>, i: nat)
    requires StepBy(q, q', i)
    ensures (R.StepBy(q.ring, q'.ring, i) && q'.sem == q.sem) || (S.StepBy(q.sem, q'.sem, i) && q'.ring == q.ring)
  {
  }

  lemma StepDelta<T(!new)>(q: Queue<T>, q': Queue<T>, i: nat)
    requires Placed(q) && StepBy(q, q', i)
    ensures Delta(q, q', i)
  {
    if q.ops[i].Pushing? || q.ops[i].Popping? { DeltaRing(q, q', i); }
    else if q.ops[i].Signalling? || q.ops[i].Acquiring? { DeltaSem(q, q', i); }
    else { DeltaOutside(q, q', i); }
  }

  lemma BooksStep<T>(q: Queue<T>, q': Queue<T>, i: nat)
    requires Placed(q) && Books(q) && Delta(q, q', i)
    requires q'.ring.threads == q.ring.threads[i := q'.ring.threads[i]]
    requires q'.sem.threads == q.sem.threads[i := q'.sem.threads[i]]
    ensures Placed(q') && Books(q')
  {
    SharesUpdate(q.ops, q.ring.threads, i, q'.ops[i], q'.ring.threads[i]);
  }

  lemma PartsKeep<T(!new)>(q: Queue<T>, q': Queue<T>, i: nat)
    requires R.Inv(q.ring) && S.Accounted(q.sem) && StepBy(q, q', i)
    ensures R.Inv(q'.ring) && S.Accounted(q'.sem)
    ensures |q'.ring.threads| == |q.ring.threads| && q'.ring.threads == q.ring.threads[i := q'.ring.threads[i]]
    ensures |q'.sem.threads| == |q.sem.threads| && q'.sem.threads == q.sem.threads[i := q'.sem.threads[i]]
  {
    Projects(q, q', i);
    if q'.sem == q.sem && R.StepBy(q.ring, q'.ring, i) {
      R.StepFrame(q.ring, q'.ring, i);
      RingKeeps(q.ring, q'.ring, i);
    } else {
      S.StepDelta(q.sem, q'.sem, i);
      S.StepAccounted(q.sem, q'.sem, i);
    }
  }

  lemma StepKeeps<T(!new)>(q: Queue<T>, q': Queue<T>, i: nat)
    requires Inv(q) && StepBy(q, q', i)
    ensures Inv(q')
  {
    PartsKeep(q, q', i);
    StepDelta(q, q', i);
    BooksStep(q, q', i);
  }

  lemma NextKeeps<T(!new)>(q: Queue<T>, q': Queue<T>)
    requires Inv(q) && Step(q, q')
    ensures Inv(q')
  {
    var i: nat :| StepBy(q, q', i);
    StepKeeps(q, q', i);
  }

  lemma InitInv<T>(cap: nat, q: Queue<T>)
    requires Init(cap, q)
    ensures Inv(q)
  {
    R.InitOk(cap, q.ring);
    TotalZero(S.WaitShares(q.sem.threads));
    TotalZero(S.OweShares(q.sem.threads));
    TotalZero(PushShares(q.ops));
    TotalZero(SignalShares(q.ops));
    TotalZero(PermitShares(q.ops, q.ring.threads));
    forall i | 0 <= i < |q.ops| ensures q.ring.threads[i].Idle? { assert q.ring.threads[i] in q.ring.threads; }
  }

  lemma {:induction false} RunInv<T(!new)>(cap: nat, tr: seq<Queue<T>>, n: nat)
    requires Run(cap, tr) && n < |tr|
    ensures Inv(tr[n])
    decreases n
  {
    if n == 0 {
      InitInv(cap, tr[0]);
    } else {
      RunInv(cap, tr, n - 1);
      assert StepAt(tr, n);
      NextKeeps(tr[n - 1], tr[n]);
    }
  }

  /** Consumers never overtake producers: consumer tickets drawn are at most permits acquired, at
      most permits signalled, at most elements published, at most producer tickets drawn. */
  lemma ConsumersNeverOvertake<T(!new)>(cap: nat, tr: seq<Queue<T>>, n: nat)
    requires Run(cap, tr) && n < |tr|
    ensures tr[n].ring.tail <= tr[n].sem.acquired <= tr[n].sem.signalled <= tr[n].finished <= tr[n].ring.head
  {
    RunInv(cap, tr, n);
    var q := tr[n];
    TotalAtLeast(S.OweShares(q.sem.threads));
    TotalAtLeast(PushShares(q.ops));
    TotalAtLeast(SignalShares(q.ops));
    TotalAtLeast(PermitShares(q.ops, q.ring.threads));
  }

  /** The queue delivers under each ticket the element pushed under that ticket. */
  lemma DeliversPushed<T(!new)>(cap: nat, tr: seq<Queue<T>>, n: nat, t: nat)
    requires Run(cap, tr) && n < |tr| && t in tr[n].ring.popped
    ensures t in tr[n].ring.pushed && tr[n].ring.popped[t] == tr[n].ring.pushed[t]
  {
    RunInv(cap, tr, n);
  }
}
