/** The lightweight semaphore over a kernel semaphore, interleaved at the level of single atomic
    operations. Waits may time out at any moment.

    `wait` is `waitMany` for one permit. A thread that decremented the count to below zero is
    registered: it owns one kernel post, sent or still owed, until it takes it or undoes the
    decrement. */
module Semaphore {
  import opened Counting

  datatype Thread =
    | Idle
    | TrySeen(seen: int, max: nat, insist: bool)  // tryWaitMany with a loaded count
    | Spin(max: nat)                              // between spins
    | SpinSeen(seen: int, max: nat)               // spinning with a loaded count
    | Blocked(max: nat)                           // registered, in the kernel wait
    | Undo(max: nat)                              // registered, timed out, about to load the count
    | UndoSeen(seen: int, max: nat)               // registered, timed out, with a loaded count
    | More(max: nat)                              // has one permit, about to try for the rest
    | Posting(k: nat)                             // in signal, k posts to go

  /** `initial`, `signalled` and `acquired` are totals over the run. */
  datatype Sem = Sem(count: int, tokens: nat, threads: seq<Thread>, initial: nat, signalled: nat, acquired: nat)

  function To(s: Sem, i: nat, th: Thread): Sem
    requires i < |s.threads|
  {
    s.(threads := s.threads[i := th])
  }

  /** What is left of `seen` permits after taking up to `max`. */
  function Rest(seen: int, max: nat): int {
    if seen > max then seen - max else 0
  }

  function Got(max: nat): Thread { if max > 1 then More(max) else Idle }

  /** Swapping the count from a positive `seen` to what is left. */
  function Grab(s: Sem, i: nat, seen: int, max: nat): Sem
    requires i < |s.threads| && seen > 0
  {
    To(s, i, Idle).(count := Rest(seen, max), acquired := s.acquired + (seen - Rest(seen, max)))
  }

  function Posts(count: int, n: nat): nat {
    var release := if -count < n then -count else n;
    if release > 0 then release else 0
  }

  /******* Steps *******/

  function BeginWait(s: Sem, i: nat, max: nat, insist: bool): Sem
    requires i < |s.threads|
  {
    To(s, i, TrySeen(s.count, max, insist))
  }

  function BeginSignal(s: Sem, i: nat, n: nat): Sem
    requires i < |s.threads|
  {
    To(s, i, if Posts(s.count, n) > 0 then Posting(Posts(s.count, n)) else Idle)
      .(count := s.count + n, signalled := s.signalled + n)
  }

  /** A step of a thread that is inside an operation. */
  ghost predicate Continue(s: Sem, s': Sem, i: nat)
    requires i < |s.threads|
  {
    match s.threads[i]
    case Idle => false
    case TrySeen(seen, max, insist) =>
      if seen > 0 then
        || (s.count == seen && s' == Grab(s, i, seen, max))
        || s' == To(s, i, TrySeen(s.count, max, insist))
      else s' == To(s, i, if insist && max > 0 then Spin(max) else Idle)
    case Spin(max) =>
      || s' == To(s, i, SpinSeen(s.count, max))
      || (if s.count > 0 then s' == To(s, i, Got(max)).(count := s.count - 1, acquired := s.acquired + 1)
          else s' == To(s, i, Blocked(max)).(count := s.count - 1))
    case SpinSeen(seen, max) =>
      || (seen > 0 && s.count == seen && s' == Grab(s, i, seen, max))
      || s' == To(s, i, Spin(max))
    case Blocked(max) =>
      || (s.tokens > 0 && s' == To(s, i, Got(max)).(tokens := s.tokens - 1, acquired := s.acquired + 1))
      || s' == To(s, i, Undo(max))
    case Undo(max) => s' == To(s, i, UndoSeen(s.count, max))
    case UndoSeen(seen, max) =>
      if seen >= 0 then
        if s.tokens > 0 then s' == To(s, i, Got(max)).(tokens := s.tokens - 1, acquired := s.acquired + 1)
        else s' == To(s, i, Undo(max))
      else if s.count == seen then s' == To(s, i, Idle).(count := s.count + 1)
      else s' == To(s, i, Undo(max))
    case More(max) => max > 0 && s' == To(s, i, TrySeen(s.count, max - 1, false))
    case Posting(k) => k > 0 && s' == To(s, i, if k > 1 then Posting(k - 1) else Idle).(tokens := s.tokens + 1)
  }

  ghost predicate StepBy(s: Sem, s': Sem, i: nat) {
    && i < |s.threads|
    && (|| (s.threads[i].Idle? && exists max: nat, insist :: s' == BeginWait(s, i, max, insist))
        || (s.threads[i].Idle? && exists n: nat :: s' == BeginSignal(s, i, n))
        || Continue(s, s', i))
  }

  ghost predicate Step(s: Sem, s': Sem) {
    exists i :: StepBy(s, s', i)
  }

  ghost predicate Init(s: Sem) {
    && s.count == s.initial && s.tokens == 0 && s.signalled == 0 && s.acquired == 0
    && forall i | 0 <= i < |s.threads| :: s.threads[i] == Idle
  }

  ghost predicate Run(tr: seq<Sem>) {
    && tr != [] && Init(tr[0])
    && forall n | 0 < n < |tr| :: StepAt(tr, n)
  }

  /** Moment `n` of a run comes from the one before by a step. */
  ghost predicate StepAt(tr: seq<Sem>, n: nat)
    requires 0 < n < |tr|
  {
    Step(tr[n - 1], tr[n])
  }

  /******* Accounting *******/

  function Waits(th: Thread): int { if th.Blocked? || th.Undo? || th.UndoSeen? then 1 else 0 }

  function Owes(th: Thread): int { if th.Posting? then th.k else 0 }

  function WaitShares(ths: seq<Thread>): seq<int> { seq(|ths|, i requires 0 <= i < |ths| => Waits(ths[i])) }

  function OweShares(ths: seq<Thread>): seq<int> { seq(|ths|, i requires 0 <= i < |ths| => Owes(ths[i])) }

  /** Threads that have decremented the count without getting a permit yet. */
  function Registered(s: Sem): int { Total(WaitShares(s.threads)) }

  /** Kernel posts that signalling threads have not made yet. */
  function Owed(s: Sem): int { Total(OweShares(s.threads)) }

  function Shortage(s: Sem): int { if s.count < 0 then -s.count else 0 }

  ghost predicate Accounted(s: Sem) {
    && Registered(s) == s.tokens + Owed(s) + Shortage(s)
    && s.count == s.initial + s.signalled - s.acquired - Registered(s)
  }

  lemma ThreadUpdate(ths: seq<Thread>, i: nat, th: Thread)
    requires i < |ths|
    ensures Total(WaitShares(ths[i := th])) == Total(WaitShares(ths)) - Waits(ths[i]) + Waits(th)
    ensures Total(OweShares(ths[i := th])) == Total(OweShares(ths)) - Owes(ths[i]) + Owes(th)
  {
    TotalUpdate(WaitShares(ths), i, Waits(th));
    TotalUpdate(OweShares(ths), i, Owes(th));
    assert WaitShares(ths[i := th]) == WaitShares(ths)[i := Waits(th)];
    assert OweShares(ths[i := th]) == OweShares(ths)[i := Owes(th)];
  }

  /** The books of the stepping thread balance on their own. */
  lemma StepDelta(s: Sem, s': Sem, i: nat)
    requires StepBy(s, s', i)
    ensures |s'.threads| == |s.threads| && s'.threads == s.threads[i := s'.threads[i]] && s'.initial == s.initial
    ensures Waits(s'.threads[i]) - Waits(s.threads[i]) ==
            s'.tokens - s.tokens + Owes(s'.threads[i]) - Owes(s.threads[i]) + Shortage(s') - Shortage(s)
    ensures s'.count - s.count ==
            s'.signalled - s.signalled - (s'.acquired - s.acquired) - (Waits(s'.threads[i]) - Waits(s.threads[i]))
  {
  }

  /** Every step keeps the books. */
  lemma StepAccounted(s: Sem, s': Sem, i: nat)
    requires Accounted(s) && StepBy(s, s', i)
    ensures Accounted(s')
  {
    StepDelta(s, s', i);
    ThreadUpdate(s.threads, i, s'.threads[i]);
  }

  lemma {:induction false} RunAccounted(tr: seq<Sem>, n: nat)
    requires Run(tr) && n < |tr|
    ensures Accounted(tr[n])
    decreases n
  {
    if n == 0 {
      TotalZero(WaitShares(tr[0].threads));
      TotalZero(OweShares(tr[0].threads));
    } else {
      RunAccounted(tr, n - 1);
      assert StepAt(tr, n);
      var i: nat :| StepBy(tr[n - 1], tr[n], i);
      StepAccounted(tr[n - 1], tr[n], i);
    }
  }

  /******* Results *******/

  /** Permits are never invented, even when waits time out. */
  lemma NeverOverAcquired(tr: seq<Sem>, n: nat)
    requires Run(tr) && n < |tr|
    ensures tr[n].acquired <= tr[n].initial + tr[n].signalled
  {
    RunAccounted(tr, n);
    TotalAtLeast(OweShares(tr[n].threads));
  }

  /** No wake-up is lost: a thread can only be left waiting for the kernel, with no post on its
      way, when every permit there ever was has been acquired. */
  lemma NoLostWakeup(tr: seq<Sem>, n: nat)
    requires Run(tr) && n < |tr|
    requires Registered(tr[n]) > tr[n].tokens + Owed(tr[n])
    ensures tr[n].acquired + tr[n].tokens + Owed(tr[n]) == tr[n].initial + tr[n].signalled
  {
    RunAccounted(tr, n);
  }

  /** With a count of at least zero every registered thread has a post of its own. */
  lemma EveryWaiterServed(tr: seq<Sem>, n: nat)
    requires Run(tr) && n < |tr| && tr[n].count >= 0
    ensures Registered(tr[n]) == tr[n].tokens + Owed(tr[n])
  {
    RunAccounted(tr, n);
  }
}
