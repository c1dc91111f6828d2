/** What a single call of the semaphore does in a run in which other threads interleave at will. */
module SemaphoreCalls {
  import opened Semaphore

  /******* No thread gets stuck *******/

  /** What the counters in a thread have to be for it to have a next step. */
  predicate ThreadOk(th: Thread) {
    match th
    case Idle => true
    case TrySeen(_, _, _) => true
    case More(max) => max > 1
    case Posting(k) => k > 0
    case _ => th.max > 0
  }

  ghost predicate ThreadsOk(s: Sem) {
    forall i | 0 <= i < |s.threads| :: ThreadOk(s.threads[i])
  }

  lemma {:induction false} RunThreads(tr: seq<Sem>, n: nat)
    requires Run(tr) && n < |tr|
    ensures ThreadsOk(tr[n])
    decreases n
  {
    if n > 0 {
      RunThreads(tr, n - 1);
      assert StepAt(tr, n);
      var i: nat :| StepBy(tr[n - 1], tr[n], i);
      StepThread(tr[n - 1], tr[n], i);
    }
  }

  lemma StepThread(s: Sem, s': Sem, i: nat)
    requires ThreadsOk(s) && StepBy(s, s', i)
    ensures ThreadsOk(s')
  {
    StepDelta(s, s', i);
    assert ThreadOk(s.threads[i]);
    assert ThreadOk(s'.threads[i]);
  }

  /** In every run, a thread that is inside an operation always has a step it can take. */
  lemma NeverStuck(tr: seq<Sem>, n: nat, i: nat) returns (s': Sem)
    requires Run(tr) && n < |tr| && i < |tr[n].threads| && !tr[n].threads[i].Idle?
    ensures Continue(tr[n], s', i)
  {
    RunThreads(tr, n);
    var s := tr[n];
    assert ThreadOk(s.threads[i]);
    s' := Onward(s, i);
  }

  lemma Onward(s: Sem, i: nat) returns (s': Sem)
    requires i < |s.threads| && !s.threads[i].Idle? && ThreadOk(s.threads[i])
    ensures Continue(s, s', i)
  {
    match s.threads[i]
    case TrySeen(seen, max, insist) =>
      s' := To(s, i, if seen > 0 then TrySeen(s.count, max, insist) else if insist && max > 0 then Spin(max) else Idle);
    case Spin(max) => s' := To(s, i, SpinSeen(s.count, max));
    case SpinSeen(_, max) => s' := To(s, i, Spin(max));
    case Blocked(max) => s' := To(s, i, Undo(max));
    case Undo(max) => s' := To(s, i, UndoSeen(s.count, max));
    case UndoSeen(seen, max) =>
      if seen >= 0 && s.tokens > 0 {
        s' := To(s, i, Got(max)).(tokens := s.tokens - 1, acquired := s.acquired + 1);
      } else if seen < 0 && s.count == seen {
        s' := To(s, i, Idle).(count := s.count + 1);
      } else {
        s' := To(s, i, Undo(max));
      }
    case More(max) => s' := To(s, i, TrySeen(s.count, max - 1, false));
    case Posting(k) => s' := To(s, i, if k > 1 then Posting(k - 1) else Idle).(tokens := s.tokens + 1);
  }

  /** There is a permit for thread `i`: in the count it has loaded, in the count, or in the kernel. */
  predicate Offered(s: Sem, i: nat)
    requires i < |s.threads|
  {
    match s.threads[i]
    case TrySeen(seen, max, _) => seen == s.count > 0 && max > 0
    case SpinSeen(seen, max) => seen == s.count > 0 && max > 0
    case Spin(_) => s.count > 0
    case Blocked(_) => s.tokens > 0
    case UndoSeen(seen, _) => seen >= 0 && s.tokens > 0
    case _ => false
  }

  /** A permit that is there can be taken. */
  lemma PermitTaken(s: Sem, i: nat) returns (s': Sem)
    requires i < |s.threads| && Offered(s, i)
    ensures Continue(s, s', i) && s'.acquired > s.acquired
  {
    match s.threads[i]
    case TrySeen(seen, max, _) => s' := Grab(s, i, seen, max);
    case SpinSeen(seen, max) => s' := Grab(s, i, seen, max);
    case Spin(max) => s' := To(s, i, Got(max)).(count := s.count - 1, acquired := s.acquired + 1);
    case Blocked(max) => s' := To(s, i, Got(max)).(tokens := s.tokens - 1, acquired := s.acquired + 1);
    case UndoSeen(_, max) => s' := To(s, i, Got(max)).(tokens := s.tokens - 1, acquired := s.acquired + 1);
  }

  /******* What a call takes *******/

  /** Permits that the steps of thread `i` took from moment `m` to moment `n`. */
  ghost function Taken(tr: seq<Sem>, i: nat, m: nat, n: nat): int
    requires m <= n < |tr| && forall k | m <= k <= n :: i < |tr[k].threads|
    decreases n
  {
    if m == n then 0
    else
      Taken(tr, i, m, n - 1)
      + if tr[n].threads[i] != tr[n - 1].threads[i] then tr[n].acquired - tr[n - 1].acquired else 0
  }

  /** Thread `i` begins a wait for up to `max` permits just after `m` and is still in it just before `n`. */
  ghost predicate InCall(tr: seq<Sem>, i: nat, m: nat, n: nat, max: nat, insist: bool) {
    && m < n < |tr| && (forall k | m <= k <= n :: i < |tr[k].threads|)
    && tr[m].threads[i].Idle? && tr[m + 1] == BeginWait(tr[m], i, max, insist)
    && (forall k | m < k < n :: !tr[k].threads[i].Idle?)
  }

  /** Where a call for up to `max` permits can be when it has taken `taken` of them. */
  predicate CallAt(th: Thread, max: nat, insist: bool, taken: int) {
    match th
    case Idle => 0 <= taken <= max
    case TrySeen(_, mx, again) =>
      || (taken == 0 && mx == max && again == insist)
      || (taken == 1 && mx == max - 1 && insist && !again)
    case More(mx) => taken == 1 && mx == max && insist
    case Posting(_) => false
    case _ => taken == 0 && th.max == max && insist && max > 0
  }

  /** Giving up: without a permit in the count, or, for a wait, when it is also owed none by the kernel. */
  predicate GivesUp(s: Sem, i: nat, insist: bool)
    requires i < |s.threads|
  {
    var th := s.threads[i];
    if insist then th.UndoSeen? && th.seen < 0 && s.count == th.seen else th.TrySeen? && th.seen <= 0
  }

  lemma CallStep(s: Sem, s': Sem, i: nat, max: nat, insist: bool, taken: int)
    requires StepBy(s, s', i) && !s.threads[i].Idle? && ThreadOk(s.threads[i])
    requires CallAt(s.threads[i], max, insist, taken)
    ensures i < |s'.threads| && CallAt(s'.threads[i], max, insist, taken + s'.acquired - s.acquired)
    ensures s'.threads[i].Idle? && taken + s'.acquired == s.acquired && max > 0 ==> GivesUp(s, i, insist)
    ensures s'.threads[i] == s.threads[i] ==> s'.acquired == s.acquired
  {
  }

  /** A call takes no more permits than it asked for, and a wait that ends without one has given up. */
  lemma {:induction false} CallTakes(tr: seq<Sem>, i: nat, m: nat, n: nat, max: nat, insist: bool)
    requires Run(tr) && InCall(tr, i, m, n, max, insist)
    ensures CallAt(tr[n].threads[i], max, insist, Taken(tr, i, m, n))
    ensures tr[n].threads[i].Idle? && Taken(tr, i, m, n) == 0 && max > 0 ==> GivesUp(tr[n - 1], i, insist)
    decreases n
  {
    if n == m + 1 {
      assert Taken(tr, i, m, n) == 0;
    } else {
      assert InCall(tr, i, m, n - 1, max, insist);
      CallTakes(tr, i, m, n - 1, max, insist);
      RunThreads(tr, n - 1);
      assert ThreadOk(tr[n - 1].threads[i]);
      assert StepAt(tr, n);
      var j: nat :| StepBy(tr[n - 1], tr[n], j);
      if j == i {
        CallStep(tr[n - 1], tr[n], i, max, insist, Taken(tr, i, m, n - 1));
      } else {
        StepDelta(tr[n - 1], tr[n], j);
      }
    }
  }
}
