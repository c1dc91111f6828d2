/** A consumer with a permit does not wait in vain: the element it waits for is there, or a producer is about to
    put it there, and someone whose ticket is not later than its own can move. */
module QueueProgress {
  import opened MpmcRing
  import opened Counting
  import RingRuns
  import Q = BlockingQueue

  /******* Drawn tickets are held until they are done *******/

  ghost predicate HoldsPush<T>(threads: seq<Thread<T>>, t: nat, j: nat) {
    j < |threads| && PushTicket(threads[j]) == t
  }

  ghost predicate HoldsPop<T>(threads: seq<Thread<T>>, t: nat, j: nat) {
    j < |threads| && PopTicket(threads[j]) == t
  }

  /** A drawn producer ticket is published, or a thread holds it. */
  ghost predicate PushPending<T>(r: Ring<T>, t: nat)
    requires Shaped(r)
  {
    Published(r.g, r.slots, t) || exists j: nat :: HoldsPush(r.threads, t, j)
  }

  /** A drawn consumer ticket is consumed, or a thread holds it. */
  ghost predicate PopPending<T>(r: Ring<T>, t: nat)
    requires Shaped(r)
  {
    Consumed(r.g, r.slots, t) || exists j: nat :: HoldsPop(r.threads, t, j)
  }

  ghost predicate Held<T>(r: Ring<T>) {
    && Shaped(r) && (forall t: nat | t < r.head :: PushPending(r, t))
    && forall t: nat | t < r.tail :: PopPending(r, t)
  }

  /** What a step of thread `i` does to turns. */
  ghost predicate TurnsGrow<T>(r: Ring<T>, r': Ring<T>)
    requires Shaped(r)
  {
    Shaped(r') && r'.g == r.g && forall t: nat :: At(r'.g, r'.slots, t).turn >= At(r.g, r.slots, t).turn
  }

  lemma PushTurns<T(!new)>(r: Ring<T>, r': Ring<T>, i: nat)
    requires Inv(r) && i < |r.threads| && PushStep(r, r', i)
    ensures TurnsGrow(r, r')
  {
    assert ThreadOk(r, r.threads[i]);
  }

  lemma PopTurns<T(!new)>(r: Ring<T>, r': Ring<T>, i: nat)
    requires Inv(r) && i < |r.threads| && PopStep(r, r', i)
    ensures TurnsGrow(r, r')
  {
    assert ThreadOk(r, r.threads[i]);
  }

  lemma PushGoesOn<T(!new)>(r: Ring<T>, r': Ring<T>, i: nat)
    requires Shaped(r) && i < |r.threads| && PushStep(r, r', i) && !r.threads[i].PushPublish?
    ensures i < |r'.threads|
    ensures || (r'.head == r.head && PushTicket(r'.threads[i]) == PushTicket(r.threads[i]))
            || (r'.head == r.head + 1 && PushTicket(r.threads[i]) == -1 && PushTicket(r'.threads[i]) == r.head)
  {
  }

  lemma PopGoesOn<T(!new)>(r: Ring<T>, r': Ring<T>, i: nat)
    requires Shaped(r) && i < |r.threads| && PopStep(r, r', i) && !r.threads[i].PopRelease?
    ensures i < |r'.threads|
    ensures || (r'.tail == r.tail && PopTicket(r'.threads[i]) == PopTicket(r.threads[i]))
            || (r'.tail == r.tail + 1 && PopTicket(r.threads[i]) == -1 && PopTicket(r'.threads[i]) == r.tail)
  {
  }

  lemma PushOthers<T(!new)>(r: Ring<T>, r': Ring<T>, i: nat)
    requires Shaped(r) && i < |r.threads| && PushStep(r, r', i)
    ensures i < |r'.threads| && PopTicket(r'.threads[i]) == PopTicket(r.threads[i]) == -1
  {
  }

  lemma PopOthers<T(!new)>(r: Ring<T>, r': Ring<T>, i: nat)
    requires Shaped(r) && i < |r.threads| && PopStep(r, r', i)
    ensures i < |r'.threads| && PushTicket(r'.threads[i]) == PushTicket(r.threads[i]) == -1
  {
  }

  /** A push step keeps the ticket of the thread, draws the next one, or is through with it. */
  lemma PushOnly<T(!new)>(r: Ring<T>, r': Ring<T>, i: nat)
    requires Shaped(r) && i < |r.threads| && PushStep(r, r', i) && TurnsGrow(r, r')
    ensures i < |r'.threads|
    ensures || (r'.head == r.head && PushTicket(r'.threads[i]) == PushTicket(r.threads[i]))
            || (r'.head == r.head + 1 && PushTicket(r.threads[i]) == -1 && PushTicket(r'.threads[i]) == r.head)
            || (r'.head == r.head && PushTicket(r.threads[i]) != -1
                && Published(r'.g, r'.slots, PushTicket(r.threads[i])))
  {
    if !r.threads[i].PushPublish? { PushGoesOn(r, r', i); }
  }

  lemma PopOnly<T(!new)>(r: Ring<T>, r': Ring<T>, i: nat)
    requires Shaped(r) && i < |r.threads| && PopStep(r, r', i) && TurnsGrow(r, r')
    ensures i < |r'.threads|
    ensures || (r'.tail == r.tail && PopTicket(r'.threads[i]) == PopTicket(r.threads[i]))
            || (r'.tail == r.tail + 1 && PopTicket(r.threads[i]) == -1 && PopTicket(r'.threads[i]) == r.tail)
            || (r'.tail == r.tail && PopTicket(r.threads[i]) != -1 && Consumed(r'.g, r'.slots, PopTicket(r.threads[i])))
  {
    if !r.threads[i].PopRelease? { PopGoesOn(r, r', i); }
  }

  lemma StillHeld<T>(a: seq<Thread<T>>, b: seq<Thread<T>>, i: nat, t: nat, j: nat)
    requires i < |a| == |b| && b == a[i := b[i]]
    ensures HoldsPush(a, t, j) && (j != i || PushTicket(b[i]) == PushTicket(a[i])) ==> HoldsPush(b, t, j)
    ensures HoldsPop(a, t, j) && (j != i || PopTicket(b[i]) == PopTicket(a[i])) ==> HoldsPop(b, t, j)
  {
  }

  lemma PushHolds<T(!new)>(r: Ring<T>, r': Ring<T>, i: nat)
    requires Inv(r) && Held(r) && i < |r.threads| && PushStep(r, r', i)
    ensures Held(r')
  {
    PushFrame(r, r', i);
    PushTurns(r, r', i);
    PushOthers(r, r', i);
    PushOnly(r, r', i);
    forall t: nat | t < r'.head ensures PushPending(r', t) {
      if t == r.head {
        assert HoldsPush(r'.threads, t, i);
      } else {
        assert PushPending(r, t);
        if j: nat :| HoldsPush(r.threads, t, j) { StillHeld(r.threads, r'.threads, i, t, j); }
      }
    }
    forall t: nat | t < r'.tail ensures PopPending(r', t) {
      assert PopPending(r, t);
      if j: nat :| HoldsPop(r.threads, t, j) { StillHeld(r.threads, r'.threads, i, t, j); }
    }
  }

  lemma PopHolds<T(!new)>(r: Ring<T>, r': Ring<T>, i: nat)
    requires Inv(r) && Held(r) && i < |r.threads| && PopStep(r, r', i)
    ensures Held(r')
  {
    PopFrame(r, r', i);
    PopTurns(r, r', i);
    PopOthers(r, r', i);
    PopOnly(r, r', i);
    forall t: nat | t < r'.head ensures PushPending(r', t) {
      assert PushPending(r, t);
      if j: nat :| HoldsPush(r.threads, t, j) { StillHeld(r.threads, r'.threads, i, t, j); }
    }
    forall t: nat | t < r'.tail ensures PopPending(r', t) {
      if t == r.tail {
        assert HoldsPop(r'.threads, t, i);
      } else {
        assert PopPending(r, t);
        if j: nat :| HoldsPop(r.threads, t, j) { StillHeld(r.threads, r'.threads, i, t, j); }
      }
    }
  }

  lemma StepHolds<T(!new)>(q: Q.Queue<T>, q': Q.Queue<T>, i: nat)
    requires Inv(q.ring) && Held(q.ring) && Q.StepBy(q, q', i)
    ensures Held(q'.ring) && q'.ring.g == q.ring.g
  {
    Q.Projects(q, q', i);
    GeometryStays(q, q', i);
    if q'.ring != q.ring {
      if PushStep(q.ring, q'.ring, i) { PushHolds(q.ring, q'.ring, i); } else { PopHolds(q.ring, q'.ring, i); }
    }
  }

  lemma NextHolds<T(!new)>(q: Q.Queue<T>, q': Q.Queue<T>)
    requires Q.Inv(q) && Held(q.ring) && Q.Step(q, q')
    ensures Held(q'.ring) && q'.ring.g == q.ring.g
  {
    var i: nat :| Q.StepBy(q, q', i);
    StepHolds(q, q', i);
  }

  lemma InitHeld<T>(cap: nat, r: Ring<T>)
    requires Init(cap, r)
    ensures Held(r)
  {
    RingSound(cap);
  }

  lemma {:induction false} RunHeld<T(!new)>(cap: nat, tr: seq<Q.Queue<T>>, n: nat)
    requires Q.Run(cap, tr) && n < |tr|
    ensures Held(tr[n].ring) && tr[n].ring.g == RingGeometry(cap)
    decreases n
  {
    if n == 0 {
      InitHeld(cap, tr[0].ring);
    } else {
      RunHeld(cap, tr, n - 1);
      Q.RunInv(cap, tr, n - 1);
      assert Q.StepAt(tr, n);
      NextHolds(tr[n - 1], tr[n]);
    }
  }

  lemma QueueHeld<T(!new)>(cap: nat, tr: seq<Q.Queue<T>>, n: nat)
    requires Q.Run(cap, tr) && n < |tr|
    ensures Q.Inv(tr[n]) && Held(tr[n].ring) && tr[n].ring.g == RingGeometry(cap)
  {
    Q.RunInv(cap, tr, n);
    RunHeld(cap, tr, n);
  }

  lemma GeometryStays<T(!new)>(q: Q.Queue<T>, q': Q.Queue<T>, i: nat)
    requires Q.StepBy(q, q', i)
    ensures q'.ring.g == q.ring.g
  {
    Q.Projects(q, q', i);
  }

  /******* Someone can move *******/

  ghost predicate CanStep<T(!new)>(r: Ring<T>, j: nat) {
    exists r' :: StepBy(r, r', j)
  }

  /** A thread inside push or pop with a ticket up to `t`. */
  ghost predicate NotLater<T>(th: Thread<T>, t: nat) {
    0 <= PushTicket(th) <= t || 0 <= PopTicket(th) <= t
  }

  lemma PushCanStep<T(!new)>(r: Ring<T>, j: nat)
    requires Inv(r) && j < |r.threads| && PushTicket(r.threads[j]) != -1
    requires r.threads[j].PushWait? ==> At(r.g, r.slots, r.threads[j].h).turn == Free(r.g, r.threads[j].h)
    ensures CanStep(r, j)
  {
    match r.threads[j]
    case PushWait(h, v) => assert StepBy(r, To(r, j, PushConstruct(h, v)), j);
    case PushConstruct(h, v) => assert StepBy(r, Constructed(r, j, h, v), j);
    case PushPublish(h) => assert StepBy(r, MadeVisible(r, j, h), j);
  }

  lemma PopCanStep<T(!new)>(r: Ring<T>, j: nat)
    requires Inv(r) && j < |r.threads| && PopTicket(r.threads[j]) != -1
    requires r.threads[j].PopWait? ==> At(r.g, r.slots, r.threads[j].t).turn == Free(r.g, r.threads[j].t) + 1
    ensures CanStep(r, j)
  {
    match r.threads[j]
    case PopWait(t) => assert StepBy(r, To(r, j, PopTake(t)), j);
    case PopTake(t) =>
      Take(r, j, t);
      assert StepBy(r, Taken(r, j, t), j);
    case PopRelease(t, _) => assert StepBy(r, HandedOn(r, j, t), j);
  }

  /** As long as the element of a consumer ticket has not been taken out, a thread whose ticket is not later can
      move: the consumer, its producer, or those who still use their slot. */
  lemma {:induction false} SomeoneMoves<T(!new)>(cap: nat, r: Ring<T>, t: nat) returns (j: nat)
    requires cap > 0 && r.g == RingGeometry(cap) && Inv(r) && Held(r) && r.tail <= r.head
    requires t < r.tail && !Consumed(r.g, r.slots, t)
    ensures j < |r.threads| && NotLater(r.threads[j], t) && CanStep(r, j)
    decreases t
  {
    assert PopPending(r, t);
    j :| HoldsPop(r.threads, t, j);
    if Published(r.g, r.slots, t) {
      PopCanStep(r, j);
    } else {
      assert PushPending(r, t);
      j :| HoldsPush(r.threads, t, j);
      assert ThreadOk(r, r.threads[j]);
      if At(r.g, r.slots, t).turn == Free(r.g, t) {
        PushCanStep(r, j);
      } else {
        RingRuns.PreviousRound(cap, t);
        j := SomeoneMoves(cap, r, t - cap);
      }
    }
  }

  /******* How long it takes *******/

  /** The steps that a thread with a ticket up to `t` still has to make. */
  function StepsLeft<T>(th: Thread<T>, t: nat): int {
    match th
    case PushWait(h, _) => if h <= t then 3 else 0
    case PushConstruct(h, _) => if h <= t then 2 else 0
    case PushPublish(h) => if h <= t then 1 else 0
    case PopWait(u) => if u <= t then 3 else 0
    case PopTake(u) => if u <= t then 2 else 0
    case PopRelease(u, _) => if u <= t then 1 else 0
    case _ => 0
  }

  function Shares<T>(threads: seq<Thread<T>>, t: nat): seq<int> {
    seq(|threads|, i requires 0 <= i < |threads| => StepsLeft(threads[i], t))
  }

  function Work<T>(r: Ring<T>, t: nat): int { Total(Shares(r.threads, t)) }

  lemma PushWork<T(!new)>(r: Ring<T>, r': Ring<T>, i: nat, t: nat)
    requires Shaped(r) && i < |r.threads| && PushStep(r, r', i) && t < r.head
    ensures i < |r'.threads|
    ensures StepsLeft(r'.threads[i], t) == StepsLeft(r.threads[i], t) - if NotLater(r.threads[i], t) then 1 else 0
  {
  }

  lemma PopWork<T(!new)>(r: Ring<T>, r': Ring<T>, i: nat, t: nat)
    requires Shaped(r) && i < |r.threads| && PopStep(r, r', i) && t < r.tail
    ensures i < |r'.threads|
    ensures StepsLeft(r'.threads[i], t) == StepsLeft(r.threads[i], t) - if NotLater(r.threads[i], t) then 1 else 0
  {
  }

  /** A step of a thread with a ticket up to `t` is one step less, and no other step is one more. */
  lemma WorkStep<T(!new)>(r: Ring<T>, r': Ring<T>, i: nat, t: nat)
    requires StepBy(r, r', i) && t < r.tail <= r.head
    ensures Work(r', t) == Work(r, t) - if NotLater(r.threads[i], t) then 1 else 0
  {
    StepFrame(r, r', i);
    if PushStep(r, r', i) { PushWork(r, r', i, t); } else { PopWork(r, r', i, t); }
    TotalUpdate(Shares(r.threads, t), i, StepsLeft(r'.threads[i], t));
    assert Shares(r'.threads, t) == Shares(r.threads, t)[i := StepsLeft(r'.threads[i], t)];
  }

  lemma {:induction false} WorkBound<T>(threads: seq<Thread<T>>, t: nat)
    ensures 0 <= Total(Shares(threads, t)) <= 3 * |threads|
  {
    if threads != [] {
      var n := |threads| - 1;
      WorkBound(threads[..n], t);
      assert Shares(threads, t)[..n] == Shares(threads[..n], t);
    }
  }

  /******* In the queue *******/

  /** What a thread inside push or pop can do in the ring it can do in the queue. */
  lemma RingStepIsQueueStep<T(!new)>(q: Q.Queue<T>, r': Ring<T>, j: nat) returns (q': Q.Queue<T>)
    requires Q.Inv(q) && StepBy(q.ring, r', j)
    requires !q.ring.threads[j].Idle?
    ensures Q.StepBy(q, q', j) && q'.ring == r'
  {
    StepFrame(q.ring, r', j);
    assert Q.InRing(q.ops[j], q.ring.threads[j]);
    var back := r'.threads[j].Idle?;
    if q.ops[j].Pushing? {
      q' := Q.Queue(r', q.sem, q.ops[j := if back then Q.MustSignal else Q.Pushing],
                    if back then q.finished + 1 else q.finished);
    } else {
      var blocking := q.ops[j].blocking;
      var op := if !back then Q.Popping(blocking) else if q.ring.threads[j].PopRelease? then Q.Outside
                else Q.MustPop(blocking);
      q' := Q.Queue(r', q.sem, q.ops[j := op], q.finished);
    }
  }

  /** A consumer with a permit and no ticket yet: the next ticket has been drawn by a producer, and its element
      is published or in the hands of a thread inside push. */
  lemma PermitCovered<T(!new)>(cap: nat, tr: seq<Q.Queue<T>>, n: nat, i: nat)
    requires Q.Run(cap, tr) && n < |tr| && i < |tr[n].ops|
    requires |tr[n].ring.threads| == |tr[n].ops| && Q.PermitShare(tr[n].ops[i], tr[n].ring.threads[i]) == 1
    ensures Shaped(tr[n].ring) && tr[n].ring.tail < tr[n].ring.head && PushPending(tr[n].ring, tr[n].ring.tail)
  {
    QueueHeld(cap, tr, n);
    Q.ConsumersNeverOvertake(cap, tr, n);
    var shares := Q.PermitShares(tr[n].ops, tr[n].ring.threads);
    TotalAtLeast(shares);
    assert shares[i] == 1;
  }

  /** A consumer with a ticket: its element is published, or in the hands of a thread inside push; and as long
      as it has not been taken out, some thread with a ticket that is not later can take a step in the queue,
      of which at most three per thread are left. */
  lemma ConsumerServed<T(!new)>(cap: nat, tr: seq<Q.Queue<T>>, n: nat, i: nat) returns (j: nat, q': Q.Queue<T>)
    requires Q.Run(cap, tr) && n < |tr| && i < |tr[n].ring.threads| && tr[n].ring.threads[i].PopWait?
    ensures var t := tr[n].ring.threads[i].t;
            && Shaped(tr[n].ring) && PushPending(tr[n].ring, t)
            && Q.StepBy(tr[n], q', j) && NotLater(tr[n].ring.threads[j], t)
            && Work(q'.ring, t) < Work(tr[n].ring, t) <= 3 * |tr[n].ring.threads|
  {
    QueueHeld(cap, tr, n);
    Q.ConsumersNeverOvertake(cap, tr, n);
    var r := tr[n].ring;
    var t := r.threads[i].t;
    assert ThreadOk(r, r.threads[i]);
    assert cap > 0 && PushPending(r, t);
    j := SomeoneMoves(cap, r, t);
    var r' :| StepBy(r, r', j);
    WorkStep(r, r', j, t);
    WorkBound(r.threads, t);
    q' := RingStepIsQueueStep(tr[n], r', j);
  }
}
