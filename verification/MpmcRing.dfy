/** The bounded multi-producer multi-consumer ring, interleaved at the level of single atomic
    loads, stores and read-modify-writes.

    Tickets are drawn from `head` by producers and from `tail` by consumers. Ticket t uses slot
    t % capacity in round t / capacity; a slot's turn is 2r when it is free for round r and 2r+1
    while it holds the element of round r. */
module MpmcRing {

  import opened Collections

  datatype Slot<T> = Slot(turn: nat, storage: Option<T>)

  datatype Thread<T> =
    | Idle
    // emplace
    | PushWait(h: nat, v: T)       // holds ticket h, spins on the slot's turn
    | PushConstruct(h: nat, v: T)  // may construct
    | PushPublish(h: nat)          // constructed, about to store the turn
    // try_emplace
    | TryPushCheck(h: nat, v: T)   // read head as h, about to load the turn
    | TryPushCas(h: nat, v: T)     // turn matched, about to swap head
    | TryPushReload(h: nat, v: T)  // turn did not match, about to reload head
    // pop
    | PopWait(t: nat)
    | PopTake(t: nat)
    | PopRelease(t: nat, v: T)     // moved the value out, about to destroy and store the turn
    // try_pop
    | TryPopCheck(t: nat)
    | TryPopCas(t: nat)
    | TryPopReload(t: nat)

  /** Which slot a ticket uses, and in which round. */
  datatype Geometry = Geometry(cap: nat, idx: nat -> nat, round: nat -> nat)

  ghost predicate Sound(g: Geometry) {
    && g.cap > 0 && (forall t: nat :: g.idx(t) < g.cap)
    && forall a: nat, b: nat | g.idx(a) == g.idx(b) && g.round(a) == g.round(b) :: a == b
  }

  function RingGeometry(cap: nat): Geometry
    requires cap > 0
  {
    Geometry(cap, (t: nat) => t % cap, (t: nat) => t / cap)
  }

  lemma RingSound(cap: nat)
    requires cap > 0
    ensures Sound(RingGeometry(cap))
  {
    forall a: nat, b: nat | a % cap == b % cap && a / cap == b / cap ensures a == b {
      assert a == cap * (a / cap) + a % cap;
      assert b == cap * (b / cap) + b % cap;
    }
  }

  /** `pushed` and `popped` record the value each ticket stored and took, `built` the tickets
      whose element has been constructed. */
  datatype Ring<T> = Ring(g: Geometry, head: nat, tail: nat, slots: seq<Slot<T>>, threads: seq<Thread<T>>,
                          pushed: map<nat, T>, built: set<nat>, popped: map<nat, T>)

  ghost predicate Shaped<T>(r: Ring<T>) {
    Sound(r.g) && |r.slots| == r.g.cap
  }

  /** The slot of ticket `t`. */
  function At<T>(g: Geometry, slots: seq<Slot<T>>, t: nat): Slot<T>
    requires Sound(g) && |slots| == g.cap
  {
    slots[g.idx(t)]
  }

  /** The turn at which the slot of ticket `t` is free for it. */
  function Free(g: Geometry, t: nat): nat {
    2 * g.round(t)
  }

  /******* Steps *******/

  function To<T>(r: Ring<T>, i: nat, th: Thread<T>): Ring<T>
    requires i < |r.threads|
  {
    r.(threads := r.threads[i := th])
  }

  function SetSlot<T>(r: Ring<T>, t: nat, s: Slot<T>): Ring<T>
    requires Shaped(r)
  {
    r.(slots := r.slots[r.g.idx(t) := s])
  }

  function DrawPush<T>(r: Ring<T>, i: nat, th: Thread<T>, v: T): Ring<T>
    requires i < |r.threads|
  {
    To(r, i, th).(head := r.head + 1, pushed := r.pushed[r.head := v])
  }

  ghost predicate BeginPush<T>(r: Ring<T>, r': Ring<T>, i: nat, v: T)
    requires i < |r.threads|
  {
    r' == DrawPush(r, i, PushWait(r.head, v), v) || r' == To(r, i, TryPushCheck(r.head, v))
  }

  ghost predicate PushStep<T(!new)>(r: Ring<T>, r': Ring<T>, i: nat)
    requires Shaped(r) && i < |r.threads|
  {
    match r.threads[i]
    case Idle =>
      exists v :: BeginPush(r, r', i, v)
    case PushWait(h, v) => At(r.g, r.slots, h).turn == Free(r.g, h) && r' == To(r, i, PushConstruct(h, v))
    case PushConstruct(h, v) =>
      r' == SetSlot(To(r, i, PushPublish(h)), h, At(r.g, r.slots, h).(storage := Some(v))).(built := r.built + {h})
    case PushPublish(h) => r' == SetSlot(To(r, i, Idle), h, At(r.g, r.slots, h).(turn := Free(r.g, h) + 1))
    case TryPushCheck(h, v) =>
      r' == To(r, i, if At(r.g, r.slots, h).turn == Free(r.g, h) then TryPushCas(h, v) else TryPushReload(h, v))
    case TryPushCas(h, v) =>
      if r.head == h then r' == DrawPush(r, i, PushConstruct(h, v), v)
      else r' == To(r, i, TryPushCheck(r.head, v))
    case TryPushReload(h, v) =>
      r' == To(r, i, if r.head == h then Idle else TryPushCheck(r.head, v))
    case _ => false
  }

  ghost predicate PopStep<T(!new)>(r: Ring<T>, r': Ring<T>, i: nat)
    requires Shaped(r) && i < |r.threads|
  {
    match r.threads[i]
    case Idle =>
      || r' == To(r, i, PopWait(r.tail)).(tail := r.tail + 1)
      || r' == To(r, i, TryPopCheck(r.tail))
    case PopWait(t) => At(r.g, r.slots, t).turn == Free(r.g, t) + 1 && r' == To(r, i, PopTake(t))
    case PopTake(t) =>
      && At(r.g, r.slots, t).storage.Some?
      && var v := At(r.g, r.slots, t).storage.value;
         r' == To(r, i, PopRelease(t, v)).(popped := r.popped[t := v])
    case PopRelease(t, _) => r' == SetSlot(To(r, i, Idle), t, Slot(Free(r.g, t) + 2, None))
    case TryPopCheck(t) =>
      r' == To(r, i, if At(r.g, r.slots, t).turn == Free(r.g, t) + 1 then TryPopCas(t) else TryPopReload(t))
    case TryPopCas(t) =>
      if r.tail == t then r' == To(r, i, PopTake(t)).(tail := t + 1)
      else r' == To(r, i, TryPopCheck(r.tail))
    case TryPopReload(t) =>
      r' == To(r, i, if r.tail == t then Idle else TryPopCheck(r.tail))
    case _ => false
  }

  ghost predicate StepBy<T(!new)>(r: Ring<T>, r': Ring<T>, i: nat) {
    Shaped(r) && i < |r.threads| && (PushStep(r, r', i) || PopStep(r, r', i))
  }

  ghost predicate Step<T(!new)>(r: Ring<T>, r': Ring<T>) {
    exists i :: StepBy(r, r', i)
  }

  ghost predicate Init<T>(cap: nat, r: Ring<T>) {
    && cap > 0 && r.g == RingGeometry(cap) && r.head == 0 && r.tail == 0
    && r.pushed == map[] && r.popped == map[] && r.built == {}
    && |r.slots| == cap && (forall s | s in r.slots :: s == Slot(0, None))
    && forall th | th in r.threads :: th == Idle
  }

  ghost predicate Run<T(!new)>(cap: nat, tr: seq<Ring<T>>) {
    && tr != [] && Init(cap, tr[0])
    && forall n | 0 < n < |tr| :: StepAt(tr, n)
  }

  /** Moment `n` of a run comes from the one before by a step. */
  ghost predicate StepAt<T(!new)>(tr: seq<Ring<T>>, n: nat)
    requires 0 < n < |tr|
  {
    Step(tr[n - 1], tr[n])
  }

  /******* The invariant *******/

  /** The element of ticket `t` has been made visible, or taken out again. */
  ghost predicate Published<T>(g: Geometry, slots: seq<Slot<T>>, t: nat)
    requires Sound(g) && |slots| == g.cap
  {
    At(g, slots, t).turn > Free(g, t)
  }

  ghost predicate Consumed<T>(g: Geometry, slots: seq<Slot<T>>, t: nat)
    requires Sound(g) && |slots| == g.cap
  {
    At(g, slots, t).turn >= Free(g, t) + 2
  }

  /** The producer ticket a thread holds, or -1. */
  function PushTicket<T>(th: Thread<T>): int {
    if th.PushWait? || th.PushConstruct? || th.PushPublish? then th.h else -1
  }

  function PopTicket<T>(th: Thread<T>): int {
    if th.PopWait? || th.PopTake? || th.PopRelease? then th.t else -1
  }

  /** No two threads hold one ticket. */
  ghost predicate Exclusive<T>(threads: seq<Thread<T>>) {
    forall i, j | 0 <= i < j < |threads| ::
      && (PushTicket(threads[i]) == -1 || PushTicket(threads[i]) != PushTicket(threads[j]))
      && (PopTicket(threads[i]) == -1 || PopTicket(threads[i]) != PopTicket(threads[j]))
  }

  ghost predicate ThreadOk<T>(r: Ring<T>, th: Thread<T>)
    requires Shaped(r)
  {
    match th
    case Idle => true
    case PushWait(h, v) =>
      h < r.head && !Published(r.g, r.slots, h) && h in r.pushed && r.pushed[h] == v && h !in r.built
    case PushConstruct(h, v) =>
      h < r.head && At(r.g, r.slots, h).turn == Free(r.g, h) && h in r.pushed && r.pushed[h] == v && h !in r.built
    case PushPublish(h) =>
      h < r.head && At(r.g, r.slots, h).turn == Free(r.g, h) && h in r.pushed
          && At(r.g, r.slots, h).storage == Some(r.pushed[h]) && h in r.built
    case TryPushCheck(h, _) => h <= r.head
    case TryPushCas(h, _) => h <= r.head && At(r.g, r.slots, h).turn >= Free(r.g, h)
    case TryPushReload(h, _) => h <= r.head
    case PopWait(t) => t < r.tail && !Consumed(r.g, r.slots, t) && t !in r.popped
    case PopTake(t) => t < r.tail && At(r.g, r.slots, t).turn == Free(r.g, t) + 1 && t !in r.popped
    case PopRelease(t, v) => t < r.tail && At(r.g, r.slots, t).turn == Free(r.g, t) + 1 && t in r.popped
        && r.popped[t] == v
    case TryPopCheck(t) => t <= r.tail
    case TryPopCas(t) => t <= r.tail && At(r.g, r.slots, t).turn >= Free(r.g, t) + 1
    case TryPopReload(t) => t <= r.tail
  }

  ghost predicate Tickets<T>(r: Ring<T>)
    requires Shaped(r)
  {
    && (forall t :: t in r.pushed <==> 0 <= t < r.head)
    && (forall t | t in r.built :: t < r.head)
    && (forall t | t in r.popped :: t < r.tail && t in r.pushed && r.popped[t] == r.pushed[t])
    && (forall t: nat | Published(r.g, r.slots, t) :: t < r.head)
    && (forall t: nat | Consumed(r.g, r.slots, t) :: t < r.tail && t in r.popped)
  }

  /** What a slot holds in each of its states. */
  ghost predicate SlotsOk<T>(r: Ring<T>)
    requires Shaped(r)
  {
    && (forall t: nat | t in r.pushed
       && At(r.g, r.slots, t).turn == Free(r.g, t) + 1 :: At(r.g, r.slots, t).storage == Some(r.pushed[t]))
    && (forall t: nat | At(r.g, r.slots, t).turn == Free(r.g, t) && At(r.g, r.slots, t).storage.Some? :: t in r.built)
  }

  ghost predicate Threads<T>(r: Ring<T>)
    requires Shaped(r)
  {
    forall i | 0 <= i < |r.threads| :: ThreadOk(r, r.threads[i])
  }

  ghost predicate Inv<T>(r: Ring<T>) {
    Shaped(r) && Exclusive(r.threads) && Tickets(r) && SlotsOk(r) && Threads(r)
  }

  /** A thread may take a ticket that nobody else holds. */
  lemma ExclusiveMove<T>(threads: seq<Thread<T>>, i: nat, th: Thread<T>)
    requires Exclusive(threads) && i < |threads|
    requires PushTicket(th) != -1 ==> forall j | 0 <= j < |threads|
             && j != i :: PushTicket(threads[j]) != PushTicket(th)
    requires PopTicket(th) != -1 ==> forall j | 0 <= j < |threads| && j != i :: PopTicket(threads[j]) != PopTicket(th)
    ensures Exclusive(threads[i := th])
  {
  }

  lemma InitOk<T>(cap: nat, r: Ring<T>)
    requires Init(cap, r)
    ensures Inv(r)
  {
    RingSound(cap);
    forall t: nat ensures At(r.g, r.slots, t) == Slot(0, None) { assert At(r.g, r.slots, t) in r.slots; }
    forall i | 0 <= i < |r.threads| ensures r.threads[i] == Idle { assert r.threads[i] in r.threads; }
  }

  /** A step that only moves one thread, which keeps the ticket it holds. */
  lemma Silent<T>(r: Ring<T>, i: nat, th: Thread<T>)
    requires Inv(r) && i < |r.threads| && ThreadOk(r, th)
    requires PushTicket(th) == PushTicket(r.threads[i]) && PopTicket(th) == PopTicket(r.threads[i])
    ensures Inv(To(r, i, th))
  {
    var r' := To(r, i, th);
    forall j | 0 <= j < |r'.threads| ensures ThreadOk(r', r'.threads[j]) {
      assert ThreadOk(r, if j == i then th else r.threads[j]);
    }
  }

  lemma DrawThreads<T>(r: Ring<T>, i: nat, th: Thread<T>, v: T)
    requires Inv(r) && i < |r.threads|
    requires th == PushWait(r.head, v)
             || (th == PushConstruct(r.head, v) && At(r.g, r.slots, r.head).turn >= Free(r.g, r.head))
    ensures Threads(DrawPush(r, i, th, v))
    ensures forall j | 0 <= j < |r.threads| :: PushTicket(r.threads[j]) < r.head
  {
    var r' := DrawPush(r, i, th, v);
    assert !Published(r.g, r.slots, r.head);
    forall j | 0 <= j < |r.threads|
      ensures PushTicket(r.threads[j]) < r.head && (j != i ==> ThreadOk(r', r'.threads[j]))
    {
      assert ThreadOk(r, r.threads[j]);
    }
  }

  /** Drawing a producer ticket. */
  lemma Draw<T>(r: Ring<T>, i: nat, th: Thread<T>, v: T)
    requires Inv(r) && i < |r.threads| && PushTicket(r.threads[i]) == -1 && PopTicket(r.threads[i]) == -1
    requires th == PushWait(r.head, v)
             || (th == PushConstruct(r.head, v) && At(r.g, r.slots, r.head).turn >= Free(r.g, r.head))
    ensures Inv(DrawPush(r, i, th, v))
  {
    assert !Published(r.g, r.slots, r.head);
    DrawThreads(r, i, th, v);
    ExclusiveMove(r.threads, i, th);
  }

  lemma DrawPop<T>(r: Ring<T>, i: nat, th: Thread<T>)
    requires Inv(r) && i < |r.threads| && PushTicket(r.threads[i]) == -1 && PopTicket(r.threads[i]) == -1
    requires th == PopWait(r.tail) || (th == PopTake(r.tail) && At(r.g, r.slots, r.tail).turn >= Free(r.g, r.tail) + 1)
    ensures Inv(To(r, i, th).(tail := r.tail + 1))
  {
    var r' := To(r, i, th).(tail := r.tail + 1);
    assert !Consumed(r.g, r.slots, r.tail);
    forall j | 0 <= j < |r'.threads| && j != i ensures ThreadOk(r', r'.threads[j]) && PopTicket(r.threads[j]) < r.tail {
      assert ThreadOk(r, r.threads[j]);
    }
    ExclusiveMove(r.threads, i, th);
  }

  function Constructed<T>(r: Ring<T>, i: nat, h: nat, v: T): Ring<T>
    requires Shaped(r) && i < |r.threads|
  {
    SetSlot(To(r, i, PushPublish(h)), h, At(r.g, r.slots, h).(storage := Some(v))).(built := r.built + {h})
  }

  lemma ConstructThreads<T>(r: Ring<T>, i: nat, h: nat, v: T)
    requires Inv(r) && i < |r.threads| && r.threads[i] == PushConstruct(h, v)
    ensures Threads(Constructed(r, i, h, v))
  {
    var r' := Constructed(r, i, h, v);
    assert ThreadOk(r, r.threads[i]);
    forall t: nat ensures At(r'.g, r'.slots, t).turn == At(r.g, r.slots, t).turn { }
    forall j | 0 <= j < |r'.threads| && j != i ensures ThreadOk(r', r'.threads[j]) {
      assert ThreadOk(r, r.threads[j]);
    }
  }

  lemma ConstructSlots<T>(r: Ring<T>, i: nat, h: nat, v: T)
    requires Shaped(r) && Tickets(r) && SlotsOk(r) && i < |r.threads| && r.threads[i] == PushConstruct(h, v)
             && ThreadOk(r, r.threads[i])
    ensures Tickets(Constructed(r, i, h, v)) && SlotsOk(Constructed(r, i, h, v))
  {
    var r' := Constructed(r, i, h, v);
    forall t: nat ensures At(r'.g, r'.slots, t).turn == At(r.g, r.slots, t).turn { }
    forall t: nat ensures Published(r'.g, r'.slots, t) == Published(r.g, r.slots, t)
                  ensures Consumed(r'.g, r'.slots, t) == Consumed(r.g, r.slots, t) { }
  }

  /** Constructing an element: only its own slot changes, and that slot was empty. */
  lemma Construct<T>(r: Ring<T>, i: nat, h: nat, v: T)
    requires Inv(r) && i < |r.threads| && r.threads[i] == PushConstruct(h, v)
    ensures At(r.g, r.slots, h).storage == None
    ensures Inv(Constructed(r, i, h, v))
  {
    assert ThreadOk(r, r.threads[i]);
    ConstructThreads(r, i, h, v);
    ConstructSlots(r, i, h, v);
    ExclusiveMove(r.threads, i, PushPublish(h));
  }

  function MadeVisible<T>(r: Ring<T>, i: nat, h: nat): Ring<T>
    requires Shaped(r) && i < |r.threads|
  {
    SetSlot(To(r, i, Idle), h, At(r.g, r.slots, h).(turn := Free(r.g, h) + 1))
  }

  lemma PublishThreads<T>(r: Ring<T>, i: nat, h: nat)
    requires Inv(r) && i < |r.threads| && r.threads[i] == PushPublish(h)
    ensures Threads(MadeVisible(r, i, h))
  {
    var r' := MadeVisible(r, i, h);
    assert ThreadOk(r, r.threads[i]);
    forall j | 0 <= j < |r'.threads| && j != i ensures ThreadOk(r', r'.threads[j]) {
      assert ThreadOk(r, r.threads[j]);
    }
  }

  lemma PublishSlots<T>(r: Ring<T>, i: nat, h: nat)
    requires Shaped(r) && Tickets(r) && SlotsOk(r) && i < |r.threads| && r.threads[i] == PushPublish(h)
             && ThreadOk(r, r.threads[i])
    ensures Tickets(MadeVisible(r, i, h)) && SlotsOk(MadeVisible(r, i, h))
  {
    var r' := MadeVisible(r, i, h);
    forall t: nat | Published(r'.g, r'.slots, t) ensures t < r.head {
      if !Published(r.g, r.slots, t) { assert t == h; }
    }
    forall t: nat | Consumed(r'.g, r'.slots, t) ensures t < r.tail && t in r.popped {
      assert Consumed(r.g, r.slots, t);
    }
  }

  /** Making an element visible. */
  lemma Publish<T>(r: Ring<T>, i: nat, h: nat)
    requires Inv(r) && i < |r.threads| && r.threads[i] == PushPublish(h)
    ensures Inv(MadeVisible(r, i, h))
  {
    assert ThreadOk(r, r.threads[i]);
    PublishThreads(r, i, h);
    PublishSlots(r, i, h);
    ExclusiveMove<T>(r.threads, i, Idle);
  }

  function Taken<T>(r: Ring<T>, i: nat, t: nat): Ring<T>
    requires i < |r.threads| && t in r.pushed
  {
    To(r, i, PopRelease(t, r.pushed[t])).(popped := r.popped[t := r.pushed[t]])
  }

  lemma TakeThreads<T>(r: Ring<T>, i: nat, t: nat)
    requires Shaped(r) && Threads(r) && Exclusive(r.threads) && i < |r.threads| && r.threads[i] == PopTake(t)
    requires t in r.pushed
    ensures Threads(Taken(r, i, t))
  {
    var r' := Taken(r, i, t);
    assert ThreadOk(r, r.threads[i]);
    forall j | 0 <= j < |r'.threads| && j != i ensures ThreadOk(r', r'.threads[j]) {
      assert ThreadOk(r, r.threads[j]);
    }
  }

  /** Moving an element out: it is the one pushed under the same ticket, and nobody has taken it
      before. */
  lemma Take<T>(r: Ring<T>, i: nat, t: nat)
    requires Inv(r) && i < |r.threads| && r.threads[i] == PopTake(t)
    ensures t in r.pushed && At(r.g, r.slots, t).storage == Some(r.pushed[t]) && t !in r.popped
    ensures Inv(Taken(r, i, t))
  {
    assert ThreadOk(r, r.threads[i]);
    assert Published(r.g, r.slots, t);
    TakeThreads(r, i, t);
  }

  function HandedOn<T>(r: Ring<T>, i: nat, t: nat): Ring<T>
    requires Shaped(r) && i < |r.threads|
  {
    SetSlot(To(r, i, Idle), t, Slot(Free(r.g, t) + 2, None))
  }

  lemma ReleaseThreads<T>(r: Ring<T>, i: nat, t: nat, v: T)
    requires Inv(r) && i < |r.threads| && r.threads[i] == PopRelease(t, v)
    ensures Threads(HandedOn(r, i, t))
  {
    var r' := HandedOn(r, i, t);
    assert ThreadOk(r, r.threads[i]);
    forall j | 0 <= j < |r'.threads| && j != i ensures ThreadOk(r', r'.threads[j]) {
      assert ThreadOk(r, r.threads[j]);
    }
  }

  lemma ReleaseSlots<T>(r: Ring<T>, i: nat, t: nat, v: T)
    requires Shaped(r) && Tickets(r) && SlotsOk(r) && i < |r.threads| && r.threads[i] == PopRelease(t, v)
             && ThreadOk(r, r.threads[i])
    ensures Tickets(HandedOn(r, i, t)) && SlotsOk(HandedOn(r, i, t))
  {
    var r' := HandedOn(r, i, t);
    forall u: nat | Published(r'.g, r'.slots, u) ensures u < r.head {
      assert Published(r.g, r.slots, u);
    }
    forall u: nat | Consumed(r'.g, r'.slots, u) ensures u < r.tail && u in r.popped {
      if !Consumed(r.g, r.slots, u) { assert u == t; }
    }
  }

  /** Handing the slot to the next round. */
  lemma Release<T>(r: Ring<T>, i: nat, t: nat, v: T)
    requires Inv(r) && i < |r.threads| && r.threads[i] == PopRelease(t, v)
    ensures Inv(HandedOn(r, i, t))
  {
    assert ThreadOk(r, r.threads[i]);
    ReleaseThreads(r, i, t, v);
    ReleaseSlots(r, i, t, v);
    ExclusiveMove<T>(r.threads, i, Idle);
  }

  lemma PushMove<T(!new)>(r: Ring<T>, r': Ring<T>, i: nat)
    requires Inv(r) && i < |r.threads| && PushStep(r, r', i)
    requires var th := r.threads[i];
             th.PushWait? || th.TryPushCheck? || th.TryPushReload? || (th.TryPushCas? && th.h != r.head)
    ensures Inv(r')
  {
    assert ThreadOk(r, r.threads[i]);
    Silent(r, i, r'.threads[i]);
  }

  lemma PushBegin<T(!new)>(r: Ring<T>, r': Ring<T>, i: nat)
    requires Inv(r) && i < |r.threads| && r.threads[i].Idle? && PushStep(r, r', i)
    ensures Inv(r')
  {
    var v :| BeginPush(r, r', i, v);
    if r' == DrawPush(r, i, PushWait(r.head, v), v) { Draw(r, i, PushWait(r.head, v), v); }
    else { Silent(r, i, TryPushCheck(r.head, v)); }
  }

  lemma PushHeld<T(!new)>(r: Ring<T>, r': Ring<T>, i: nat)
    requires Inv(r) && i < |r.threads| && PushStep(r, r', i)
             && (r.threads[i].PushConstruct? || r.threads[i].PushPublish?)
    ensures Inv(r')
  {
    var th := r.threads[i];
    if th.PushConstruct? {
      assert r' == Constructed(r, i, th.h, th.v);
      Construct(r, i, th.h, th.v);
    } else {
      assert r' == MadeVisible(r, i, th.h);
      Publish(r, i, th.h);
    }
  }

  lemma PushClaim<T(!new)>(r: Ring<T>, r': Ring<T>, i: nat)
    requires Inv(r) && i < |r.threads| && PushStep(r, r', i) && r.threads[i].TryPushCas? && r.threads[i].h == r.head
    ensures Inv(r')
  {
    var th := r.threads[i];
    assert ThreadOk(r, th);
    Draw(r, i, PushConstruct(th.h, th.v), th.v);
  }

  lemma PushKeeps<T(!new)>(r: Ring<T>, r': Ring<T>, i: nat)
    requires Inv(r) && i < |r.threads| && PushStep(r, r', i)
    ensures Inv(r')
  {
    var th := r.threads[i];
    if th.Idle? {
      PushBegin(r, r', i);
    } else if th.PushConstruct? || th.PushPublish? {
      PushHeld(r, r', i);
    } else if th.TryPushCas? && th.h == r.head {
      PushClaim(r, r', i);
    } else {
      PushMove(r, r', i);
    }
  }

  lemma PopMove<T(!new)>(r: Ring<T>, r': Ring<T>, i: nat)
    requires Inv(r) && i < |r.threads| && PopStep(r, r', i)
    requires var th := r.threads[i];
             th.PopWait? || th.TryPopCheck? || th.TryPopReload? || (th.TryPopCas? && th.t != r.tail)
    ensures Inv(r')
  {
    assert ThreadOk(r, r.threads[i]);
    Silent(r, i, r'.threads[i]);
  }

  lemma PopBegin<T(!new)>(r: Ring<T>, r': Ring<T>, i: nat)
    requires Inv(r) && i < |r.threads| && r.threads[i].Idle? && PopStep(r, r', i)
    ensures Inv(r')
  {
    if r' == To(r, i, TryPopCheck(r.tail)) { Silent(r, i, TryPopCheck(r.tail)); }
    else { DrawPop(r, i, PopWait(r.tail)); }
  }

  lemma PopHeld<T(!new)>(r: Ring<T>, r': Ring<T>, i: nat)
    requires Inv(r) && i < |r.threads| && PopStep(r, r', i) && (r.threads[i].PopTake? || r.threads[i].PopRelease?)
    ensures Inv(r')
  {
    var th := r.threads[i];
    if th.PopTake? {
      Take(r, i, th.t);
    } else {
      assert r' == HandedOn(r, i, th.t);
      Release(r, i, th.t, th.v);
    }
  }

  lemma PopClaim<T(!new)>(r: Ring<T>, r': Ring<T>, i: nat)
    requires Inv(r) && i < |r.threads| && PopStep(r, r', i) && r.threads[i].TryPopCas? && r.threads[i].t == r.tail
    ensures Inv(r')
  {
    var th := r.threads[i];
    assert ThreadOk(r, th);
    DrawPop(r, i, PopTake(th.t));
  }

  lemma PopKeeps<T(!new)>(r: Ring<T>, r': Ring<T>, i: nat)
    requires Inv(r) && i < |r.threads| && PopStep(r, r', i)
    ensures Inv(r')
  {
    var th := r.threads[i];
    if th.Idle? {
      PopBegin(r, r', i);
    } else if th.PopTake? || th.PopRelease? {
      PopHeld(r, r', i);
    } else if th.TryPopCas? && th.t == r.tail {
      PopClaim(r, r', i);
    } else {
      PopMove(r, r', i);
    }
  }

  lemma PushFrame<T(!new)>(r: Ring<T>, r': Ring<T>, i: nat)
    requires Shaped(r) && i < |r.threads| && PushStep(r, r', i)
    ensures |r'.threads| == |r.threads| && r'.threads == r.threads[i := r'.threads[i]]
    ensures r'.head >= r.head && r'.tail == r.tail
  {
  }

  lemma PopFrame<T(!new)>(r: Ring<T>, r': Ring<T>, i: nat)
    requires Shaped(r) && i < |r.threads| && PopStep(r, r', i)
    ensures |r'.threads| == |r.threads| && r'.threads == r.threads[i := r'.threads[i]]
    ensures r'.head == r.head && r'.tail >= r.tail
  {
  }

  /** A step changes one thread, and tickets are never given back. */
  lemma StepFrame<T(!new)>(r: Ring<T>, r': Ring<T>, i: nat)
    requires StepBy(r, r', i)
    ensures |r'.threads| == |r.threads| && r'.threads == r.threads[i := r'.threads[i]]
    ensures r'.head >= r.head && r'.tail >= r.tail
  {
    if PushStep(r, r', i) { PushFrame(r, r', i); } else { PopFrame(r, r', i); }
  }

  lemma NextKeeps<T(!new)>(r: Ring<T>, r': Ring<T>)
    requires Inv(r) && Step(r, r')
    ensures Inv(r') && r'.g == r.g
  {
    var i: nat :| StepBy(r, r', i);
    if PushStep(r, r', i) { PushKeeps(r, r', i); } else { PopKeeps(r, r', i); }
  }

  lemma {:induction false} RunInv<T(!new)>(cap: nat, tr: seq<Ring<T>>, n: nat)
    requires Run(cap, tr) && n < |tr|
    ensures Inv(tr[n]) && tr[n].g == RingGeometry(cap)
    decreases n
  {
    if n == 0 {
      InitOk(cap, tr[0]);
    } else {
      RunInv(cap, tr, n - 1);
      assert StepAt(tr, n);
      NextKeeps(tr[n - 1], tr[n]);
    }
  }
}
