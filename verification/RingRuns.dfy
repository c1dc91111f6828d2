/** What holds of the ring in every run: values, capacity, and attempts that fail. */
module RingRuns {
  import opened Collections
  import opened Counting
  import opened MpmcRing

  /** The tickets whose element sits in the ring. */
  ghost function Live<T>(r: Ring<T>): set<nat>
    requires Shaped(r)
  {
    set t: nat | t < r.head && Published(r.g, r.slots, t) && !Consumed(r.g, r.slots, t)
  }

  /** Every ticket takes what the same ticket stored, and takes it once; a slot is empty when an
      element is constructed in it; at most `capacity` elements are live. */
  lemma RingCorrect<T(!new)>(cap: nat, tr: seq<Ring<T>>, n: nat)
    requires Run(cap, tr) && n < |tr|
    ensures Shaped(tr[n]) && tr[n].g == RingGeometry(cap)
    ensures forall t | t in tr[n].popped :: t in tr[n].pushed && tr[n].popped[t] == tr[n].pushed[t]
    ensures forall i, t | 0 <= i < |tr[n].threads| && tr[n].threads[i] == PopTake(t) ::
              t !in tr[n].popped && t in tr[n].pushed && At(tr[n].g, tr[n].slots, t).storage == Some(tr[n].pushed[t])
    ensures forall i, h, v | 0 <= i < |tr[n].threads| && tr[n].threads[i] == PushConstruct(h, v) ::
              At(tr[n].g, tr[n].slots, h).storage == None
    ensures |Live(tr[n])| <= cap
  {
    RunInv(cap, tr, n);
    var r := tr[n];
    forall i, t | 0 <= i < |r.threads| && r.threads[i] == PopTake(t)
      ensures t !in r.popped && t in r.pushed && At(r.g, r.slots, t).storage == Some(r.pushed[t])
    {
      Take(r, i, t);
    }
    forall i, h, v | 0 <= i < |r.threads| && r.threads[i] == PushConstruct(h, v)
      ensures At(r.g, r.slots, h).storage == None
    {
      Construct(r, i, h, v);
    }
    LiveBound(r.g, r.slots, Live(r), r.g.cap);
  }

  /** Live tickets use different slots. */
  lemma {:induction false} LiveBound<T>(g: Geometry, slots: seq<Slot<T>>, live: set<nat>, m: nat)
    requires Sound(g) && |slots| == g.cap
    requires forall t | t in live :: g.idx(t) < m && Published(g, slots, t) && !Consumed(g, slots, t)
    ensures |live| <= m
    decreases m
  {
    if m > 0 {
      if t :| t in live && g.idx(t) == m - 1 {
        assert forall u | u in live :: g.idx(u) == m - 1 ==> g.round(u) == g.round(t);
        LiveBound(g, slots, live - {t}, m - 1);
      } else {
        LiveBound(g, slots, live, m - 1);
      }
    } else {
      assert live == {};
    }
  }

  /** `try_emplace` gives up only on a full ring: when the slot of the current head is not free
      for it, the element pushed one round earlier has not been taken out yet. */
  lemma TryPushSeesFull<T>(cap: nat, r: Ring<T>)
    requires cap > 0 && Inv(r) && r.g == RingGeometry(cap)
    requires At(r.g, r.slots, r.head).turn != Free(r.g, r.head)
    ensures r.head >= cap && !Consumed(r.g, r.slots, r.head - cap)
  {
    assert !Published(r.g, r.slots, r.head);
    PreviousRound(cap, r.head);
  }

  lemma PreviousRound(cap: nat, h: nat)
    requires cap > 0
    ensures h < cap ==> h / cap == 0
    ensures h >= cap ==> (h - cap) % cap == h % cap && (h - cap) / cap == h / cap - 1
  {
    if h >= cap {
      var q, m := (h - cap) / cap, (h - cap) % cap;
      QuotientUnique(cap, q + 1, m, h / cap, h % cap);
    }
  }

  /** `try_pop` gives up only when the element of the current tail is not there yet. */
  lemma TryPopSeesEmpty<T>(r: Ring<T>)
    requires Inv(r) && At(r.g, r.slots, r.tail).turn != Free(r.g, r.tail) + 1
    ensures !Published(r.g, r.slots, r.tail)
  {
    assert !Consumed(r.g, r.slots, r.tail);
  }

  /******* Failed attempts *******/

  lemma PushGaveUp<T(!new)>(r: Ring<T>, r': Ring<T>, i: nat, h: nat, v: T)
    requires StepBy(r, r', i) && r'.threads[i] == TryPushReload(h, v)
    ensures r.threads[i] == TryPushCheck(h, v) && At(r.g, r.slots, h).turn != Free(r.g, h)
  {
  }

  lemma PopGaveUp<T(!new)>(r: Ring<T>, r': Ring<T>, i: nat, t: nat)
    requires StepBy(r, r', i) && r'.threads[i] == TryPopReload(t)
    ensures r.threads[i] == TryPopCheck(t) && At(r.g, r.slots, t).turn != Free(r.g, t) + 1
  {
  }

  lemma IdleAtStart<T(!new)>(cap: nat, tr: seq<Ring<T>>, i: nat)
    requires Run(cap, tr) && i < |tr[0].threads|
    ensures tr[0].threads[i] == Idle
  {
    assert tr[0].threads[i] in tr[0].threads;
  }

  lemma PushCameFrom<T(!new)>(r: Ring<T>, r': Ring<T>, i: nat, h: nat, v: T)
    requires Step(r, r') && i < |r'.threads| && r'.threads[i] == TryPushReload(h, v)
    ensures Shaped(r) && |r.threads| == |r'.threads| && r.head <= r'.head
    ensures r.threads[i] == TryPushReload(h, v)
            || (r.threads[i] == TryPushCheck(h, v) && At(r.g, r.slots, h).turn != Free(r.g, h))
  {
    var j: nat :| StepBy(r, r', j);
    StepFrame(r, r', j);
    if j == i { PushGaveUp(r, r', i, h, v); }
  }

  lemma PopCameFrom<T(!new)>(r: Ring<T>, r': Ring<T>, i: nat, t: nat)
    requires Step(r, r') && i < |r'.threads| && r'.threads[i] == TryPopReload(t)
    ensures Shaped(r) && |r.threads| == |r'.threads| && r.tail <= r'.tail
    ensures r.threads[i] == TryPopReload(t)
            || (r.threads[i] == TryPopCheck(t) && At(r.g, r.slots, t).turn != Free(r.g, t) + 1)
  {
    var j: nat :| StepBy(r, r', j);
    StepFrame(r, r', j);
    if j == i { PopGaveUp(r, r', i, t); }
  }

  /** Thread `i` is at `th` from just after moment `m` to moment `n`. */
  ghost predicate Stays<T>(tr: seq<Ring<T>>, m: nat, n: nat, i: nat, th: Thread<T>)
    requires n < |tr|
  {
    forall k | m < k <= n :: i < |tr[k].threads| && tr[k].threads[i] == th
  }

  /** Where a thread that gives up pushing has loaded the turn. */
  lemma {:induction false} PushChecked<T(!new)>(cap: nat, tr: seq<Ring<T>>, n: nat, i: nat, h: nat, v: T)
    returns (m: nat)
    requires Run(cap, tr) && n < |tr| && i < |tr[n].threads| && tr[n].threads[i] == TryPushReload(h, v)
    ensures m < n && Stays(tr, m, n, i, TryPushReload(h, v))
    ensures Shaped(tr[m]) && i < |tr[m].threads| && tr[m].threads[i] == TryPushCheck(h, v) && tr[m].head <= tr[n].head
    ensures At(tr[m].g, tr[m].slots, h).turn != Free(tr[m].g, h)
    decreases n
  {
    if n == 0 { IdleAtStart(cap, tr, i); }
    m := n - 1;
    assert StepAt(tr, n);
    PushCameFrom(tr[m], tr[n], i, h, v);
    if tr[m].threads[i] == TryPushReload(h, v) { m := PushChecked(cap, tr, m, i, h, v); }
  }

  lemma {:induction false} PopChecked<T(!new)>(cap: nat, tr: seq<Ring<T>>, n: nat, i: nat, t: nat) returns (m: nat)
    requires Run(cap, tr) && n < |tr| && i < |tr[n].threads| && tr[n].threads[i] == TryPopReload(t)
    ensures m < n && Stays(tr, m, n, i, TryPopReload(t))
    ensures Shaped(tr[m]) && i < |tr[m].threads| && tr[m].threads[i] == TryPopCheck(t) && tr[m].tail <= tr[n].tail
    ensures At(tr[m].g, tr[m].slots, t).turn != Free(tr[m].g, t) + 1
    decreases n
  {
    if n == 0 { IdleAtStart(cap, tr, i); }
    m := n - 1;
    assert StepAt(tr, n);
    PopCameFrom(tr[m], tr[n], i, t);
    if tr[m].threads[i] == TryPopReload(t) { m := PopChecked(cap, tr, m, i, t); }
  }

  /** The thread that leaves a failed attempt has seen the same head again. */
  lemma LeavesPush<T(!new)>(r: Ring<T>, r': Ring<T>, i: nat, h: nat, v: T)
    requires Step(r, r') && i < |r.threads| && r.threads[i] == TryPushReload(h, v)
    requires i < |r'.threads| && r'.threads[i].Idle?
    ensures r.head == h
  {
    var j: nat :| StepBy(r, r', j);
    StepFrame(r, r', j);
  }

  lemma LeavesPop<T(!new)>(r: Ring<T>, r': Ring<T>, i: nat, t: nat)
    requires Step(r, r') && i < |r.threads| && r.threads[i] == TryPopReload(t)
    requires i < |r'.threads| && r'.threads[i].Idle?
    ensures r.tail == t
  {
    var j: nat :| StepBy(r, r', j);
    StepFrame(r, r', j);
  }

  /** A try_emplace that returns false: at a moment of the call, when it loaded the turn, the head was
      where it is at the end and the element pushed one round earlier had not been taken out, so the
      ring was full. */
  lemma TryPushFails<T(!new)>(cap: nat, tr: seq<Ring<T>>, n: nat, i: nat, h: nat, v: T) returns (m: nat)
    requires Run(cap, tr) && n + 1 < |tr| && i < |tr[n].threads| && tr[n].threads[i] == TryPushReload(h, v)
    requires i < |tr[n + 1].threads| && tr[n + 1].threads[i].Idle?
    ensures tr[n].head == h && m < n && Stays(tr, m, n, i, TryPushReload(h, v))
    ensures Shaped(tr[m]) && i < |tr[m].threads| && tr[m].threads[i] == TryPushCheck(h, v) && tr[m].head == h
    ensures h >= cap && !Consumed(tr[m].g, tr[m].slots, h - cap)
  {
    assert StepAt(tr, n + 1);
    LeavesPush(tr[n], tr[n + 1], i, h, v);
    m := PushChecked(cap, tr, n, i, h, v);
    RunInv(cap, tr, m);
    assert ThreadOk(tr[m], tr[m].threads[i]);
    TryPushSeesFull(cap, tr[m]);
  }

  /** A try_pop that returns false: at a moment of the call the tail was where it is at the end and its
      element was not there yet, so the ring had nothing to give. */
  lemma TryPopFails<T(!new)>(cap: nat, tr: seq<Ring<T>>, n: nat, i: nat, t: nat) returns (m: nat)
    requires Run(cap, tr) && n + 1 < |tr| && i < |tr[n].threads| && tr[n].threads[i] == TryPopReload(t)
    requires i < |tr[n + 1].threads| && tr[n + 1].threads[i].Idle?
    ensures tr[n].tail == t && m < n && Stays(tr, m, n, i, TryPopReload(t))
    ensures Shaped(tr[m]) && i < |tr[m].threads| && tr[m].threads[i] == TryPopCheck(t) && tr[m].tail == t
    ensures !Published(tr[m].g, tr[m].slots, t)
  {
    assert StepAt(tr, n + 1);
    LeavesPop(tr[n], tr[n + 1], i, t);
    m := PopChecked(cap, tr, n, i, t);
    RunInv(cap, tr, m);
    assert ThreadOk(tr[m], tr[m].threads[i]);
    TryPopSeesEmpty(tr[m]);
  }
}
