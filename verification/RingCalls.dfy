/** What calls of the ring do when nobody interferes: the sequential queue that the ring implements. */
module RingCalls {
  import opened Collections
  import opened MpmcRing
  import opened RingRuns

  /** All steps of `tr` are steps of thread `i`. */
  ghost predicate Alone<T(!new)>(tr: seq<Ring<T>>, i: nat) {
    tr != [] && forall k | 0 < k < |tr| :: AloneAt(tr, k, i)
  }

  ghost predicate AloneAt<T(!new)>(tr: seq<Ring<T>>, k: nat, i: nat)
    requires 0 < k < |tr|
  {
    StepBy(tr[k - 1], tr[k], i)
  }

  /** From `r`, thread `i` by itself can get to `z`. */
  ghost predicate Leads<T(!new)>(r: Ring<T>, z: Ring<T>, i: nat) {
    exists tr: seq<Ring<T>> :: Alone(tr, i) && tr[0] == r && tr[|tr| - 1] == z
  }

  lemma Stay<T(!new)>(r: Ring<T>, i: nat)
    ensures Leads(r, r, i)
  {
    assert Alone([r], i);
  }

  lemma OneMore<T(!new)>(r: Ring<T>, y: Ring<T>, z: Ring<T>, i: nat)
    requires Leads(r, y, i) && StepBy(y, z, i)
    ensures Leads(r, z, i)
  {
    var tr: seq<Ring<T>> :| Alone(tr, i) && tr[0] == r && tr[|tr| - 1] == y;
    var more := tr + [z];
    forall k | 0 < k < |more| ensures AloneAt(more, k, i) { assert k < |tr| ==> AloneAt(tr, k, i); }
    assert Alone(more, i);
  }

  lemma Join<T(!new)>(r: Ring<T>, y: Ring<T>, z: Ring<T>, i: nat)
    requires Leads(r, y, i) && Leads(y, z, i)
    ensures Leads(r, z, i)
  {
    var a: seq<Ring<T>> :| Alone(a, i) && a[0] == r && a[|a| - 1] == y;
    var b: seq<Ring<T>> :| Alone(b, i) && b[0] == y && b[|b| - 1] == z;
    var c := a[..|a| - 1] + b;
    forall k | 0 < k < |c| ensures AloneAt(c, k, i) {
      if k < |a| { assert AloneAt(a, k, i); } else { assert AloneAt(b, k - |a| + 1, i); }
    }
    assert Alone(c, i);
  }

  lemma Steps<T(!new)>(r: Ring<T>, x: Ring<T>, y: Ring<T>, z: Ring<T>, i: nat)
    requires StepBy(r, x, i) && StepBy(x, y, i) && StepBy(y, z, i)
    ensures Leads(r, z, i)
  {
    Stay(r, i);
    OneMore(r, r, x, i);
    OneMore(r, x, y, i);
    OneMore(r, y, z, i);
  }

  /******* One call *******/

  /** The element `v` has been put into the ring, and nothing else has happened. */
  ghost predicate Added<T>(r: Ring<T>, z: Ring<T>, v: T)
    requires Shaped(r)
  {
    && z.g == r.g && z.threads == r.threads && z.tail == r.tail && z.popped == r.popped
    && z.head == r.head + 1 && z.pushed == r.pushed[r.head := v]
    && z.slots == r.slots[r.g.idx(r.head) := Slot(Free(r.g, r.head) + 1, Some(v))]
  }

  /** The element of the current tail has been taken out, and nothing else has happened. */
  ghost predicate Removed<T>(r: Ring<T>, z: Ring<T>)
    requires Shaped(r)
  {
    && z.g == r.g && z.threads == r.threads && z.head == r.head && z.pushed == r.pushed && z.built == r.built
    && r.tail in r.pushed && z.tail == r.tail + 1 && z.popped == r.popped[r.tail := r.pushed[r.tail]]
    && z.slots == r.slots[r.g.idx(r.tail) := Slot(Free(r.g, r.tail) + 2, None)]
  }

  /** The slot of the current head is free for it. */
  ghost predicate HasRoom<T>(r: Ring<T>)
    requires Shaped(r)
  {
    At(r.g, r.slots, r.head).turn == Free(r.g, r.head)
  }

  /** The element of the current tail is there. */
  ghost predicate HasElement<T>(r: Ring<T>)
    requires Shaped(r)
  {
    At(r.g, r.slots, r.tail).turn == Free(r.g, r.tail) + 1
  }

  lemma Finishes<T(!new)>(r: Ring<T>, y: Ring<T>, i: nat, v: T) returns (z: Ring<T>)
    requires Shaped(r) && i < |r.threads| && HasRoom(r) && r.threads[i].Idle?
    requires y == DrawPush(r, i, PushConstruct(r.head, v), v)
    ensures Leads(y, z, i) && Added(r, z, v)
  {
    var x := Constructed(y, i, r.head, v);
    z := MadeVisible(x, i, r.head);
    Stay(y, i);
    OneMore(y, y, x, i);
    OneMore(y, x, z, i);
    assert z.threads == r.threads;
  }

  /** A push into a ring with room. */
  lemma PushAlone<T(!new)>(r: Ring<T>, i: nat, v: T) returns (z: Ring<T>)
    requires Shaped(r) && i < |r.threads| && r.threads[i].Idle? && HasRoom(r)
    ensures Leads(r, z, i) && Added(r, z, v)
  {
    var x := DrawPush(r, i, PushWait(r.head, v), v);
    var y := To(x, i, PushConstruct(r.head, v));
    assert BeginPush(r, x, i, v);
    Stay(r, i);
    OneMore(r, r, x, i);
    OneMore(r, x, y, i);
    assert y == DrawPush(r, i, PushConstruct(r.head, v), v);
    z := Finishes(r, y, i, v);
    Join(r, y, z, i);
  }

  /** An attempt to push puts the element into the ring if there is room, and otherwise changes nothing. */
  lemma TryPushAlone<T(!new)>(r: Ring<T>, i: nat, v: T) returns (z: Ring<T>)
    requires Shaped(r) && i < |r.threads| && r.threads[i].Idle?
    ensures Leads(r, z, i) && if HasRoom(r) then Added(r, z, v) else z == r
  {
    var x := To(r, i, TryPushCheck(r.head, v));
    assert BeginPush(r, x, i, v);
    if HasRoom(r) {
      var y := To(x, i, TryPushCas(r.head, v));
      var w := DrawPush(y, i, PushConstruct(r.head, v), v);
      Steps(r, x, y, w, i);
      assert w == DrawPush(r, i, PushConstruct(r.head, v), v);
      z := Finishes(r, w, i, v);
      Join(r, w, z, i);
    } else {
      var y := To(x, i, TryPushReload(r.head, v));
      z := To(y, i, Idle);
      Steps(r, x, y, z, i);
      assert z.threads == r.threads;
    }
  }

  lemma ElementStored<T>(r: Ring<T>)
    requires Inv(r) && HasElement(r)
    ensures r.tail in r.pushed && At(r.g, r.slots, r.tail).storage == Some(r.pushed[r.tail])
  {
    assert Published(r.g, r.slots, r.tail);
  }

  lemma TakesOut<T(!new)>(r: Ring<T>, y: Ring<T>, i: nat) returns (z: Ring<T>)
    requires Shaped(r) && i < |r.threads| && r.threads[i].Idle? && r.tail in r.pushed
    requires At(r.g, r.slots, r.tail) == Slot(Free(r.g, r.tail) + 1, Some(r.pushed[r.tail]))
    requires y == To(r, i, PopTake(r.tail)).(tail := r.tail + 1)
    ensures Leads(y, z, i) && Removed(r, z)
  {
    var v := r.pushed[r.tail];
    var x := To(y, i, PopRelease(r.tail, v)).(popped := r.popped[r.tail := v]);
    z := HandedOn(x, i, r.tail);
    Stay(y, i);
    OneMore(y, y, x, i);
    OneMore(y, x, z, i);
    assert z.threads == r.threads;
  }

  /** A pop from a ring with an element at its tail. */
  lemma PopAlone<T(!new)>(r: Ring<T>, i: nat) returns (z: Ring<T>)
    requires Inv(r) && i < |r.threads| && r.threads[i].Idle? && HasElement(r)
    ensures Leads(r, z, i) && Removed(r, z)
  {
    var x := To(r, i, PopWait(r.tail)).(tail := r.tail + 1);
    var y := To(x, i, PopTake(r.tail));
    Stay(r, i);
    OneMore(r, r, x, i);
    OneMore(r, x, y, i);
    assert y == To(r, i, PopTake(r.tail)).(tail := r.tail + 1);
    ElementStored(r);
    z := TakesOut(r, y, i);
    Join(r, y, z, i);
  }

  /** An attempt to pop takes the element at the tail if there is one, and otherwise changes nothing. */
  lemma TryPopAlone<T(!new)>(r: Ring<T>, i: nat) returns (z: Ring<T>)
    requires Inv(r) && i < |r.threads| && r.threads[i].Idle?
    ensures Leads(r, z, i) && if HasElement(r) then Removed(r, z) else z == r
  {
    var x := To(r, i, TryPopCheck(r.tail));
    if HasElement(r) {
      var y := To(x, i, TryPopCas(r.tail));
      var w := To(y, i, PopTake(r.tail)).(tail := r.tail + 1);
      Steps(r, x, y, w, i);
      assert w == To(r, i, PopTake(r.tail)).(tail := r.tail + 1);
      ElementStored(r);
      z := TakesOut(r, w, i);
      Join(r, w, z, i);
    } else {
      var y := To(x, i, TryPopReload(r.tail));
      z := To(y, i, Idle);
      Steps(r, x, y, z, i);
      assert z.threads == r.threads;
    }
  }

  /******* First in, first out *******/

  lemma {:induction false} AloneKeeps<T(!new)>(tr: seq<Ring<T>>, i: nat, n: nat)
    requires Alone(tr, i) && Inv(tr[0]) && n < |tr|
    ensures Inv(tr[n])
    decreases n
  {
    if n > 0 {
      AloneKeeps(tr, i, n - 1);
      assert AloneAt(tr, n, i);
      if PushStep(tr[n - 1], tr[n], i) { PushKeeps(tr[n - 1], tr[n], i); } else { PopKeeps(tr[n - 1], tr[n], i); }
    }
  }

  lemma LeadsKeeps<T(!new)>(r: Ring<T>, z: Ring<T>, i: nat)
    requires Leads(r, z, i) && Inv(r)
    ensures Inv(z)
  {
    var tr: seq<Ring<T>> :| Alone(tr, i) && tr[0] == r && tr[|tr| - 1] == z;
    AloneKeeps(tr, i, |tr| - 1);
  }

  /** Nobody is inside a call: every ticket that was drawn is done. */
  ghost predicate Quiet<T>(cap: nat, r: Ring<T>) {
    && cap > 0 && r.g == RingGeometry(cap) && Inv(r)
    && (forall t: nat | t < r.head :: Published(r.g, r.slots, t))
    && (forall t: nat | t < r.tail :: Consumed(r.g, r.slots, t))
  }

  lemma QuietRoom<T>(cap: nat, r: Ring<T>)
    requires Quiet(cap, r) && r.head < r.tail + cap
    ensures HasRoom(r)
  {
    PreviousRound(cap, r.head);
    assert !Published(r.g, r.slots, r.head);
    if r.head >= cap { assert Consumed(r.g, r.slots, r.head - cap); }
  }

  lemma QuietElement<T>(cap: nat, r: Ring<T>)
    requires Quiet(cap, r) && r.tail < r.head
    ensures HasElement(r)
  {
    assert Published(r.g, r.slots, r.tail) && !Consumed(r.g, r.slots, r.tail);
  }

  lemma AddedQuiet<T>(cap: nat, r: Ring<T>, z: Ring<T>, v: T)
    requires Quiet(cap, r) && HasRoom(r) && Added(r, z, v) && Inv(z)
    ensures Quiet(cap, z)
  {
    forall t: nat | t < z.head ensures Published(z.g, z.slots, t) {
      assert t < r.head ==> Published(r.g, r.slots, t);
    }
    forall t: nat | t < z.tail ensures Consumed(z.g, z.slots, t) { assert Consumed(r.g, r.slots, t); }
  }

  lemma RemovedQuiet<T>(cap: nat, r: Ring<T>, z: Ring<T>)
    requires Quiet(cap, r) && HasElement(r) && Removed(r, z) && Inv(z)
    ensures Quiet(cap, z)
  {
    forall t: nat | t < z.head ensures Published(z.g, z.slots, t) { assert Published(r.g, r.slots, t); }
    forall t: nat | t < z.tail ensures Consumed(z.g, z.slots, t) {
      assert t < r.tail ==> Consumed(r.g, r.slots, t);
    }
  }

  lemma PushOne<T(!new)>(cap: nat, r: Ring<T>, i: nat, v: T) returns (z: Ring<T>)
    requires Quiet(cap, r) && i < |r.threads| && r.threads[i].Idle? && r.head < r.tail + cap
    ensures Leads(r, z, i) && Quiet(cap, z) && Added(r, z, v)
  {
    QuietRoom(cap, r);
    z := PushAlone(r, i, v);
    LeadsKeeps(r, z, i);
    AddedQuiet(cap, r, z, v);
  }

  lemma PopOne<T(!new)>(cap: nat, r: Ring<T>, i: nat) returns (z: Ring<T>)
    requires Quiet(cap, r) && i < |r.threads| && r.threads[i].Idle? && r.tail < r.head
    ensures Leads(r, z, i) && Quiet(cap, z)
    ensures z.threads == r.threads && z.head == r.head && z.pushed == r.pushed && z.tail == r.tail + 1
  {
    QuietElement(cap, r);
    z := PopAlone(r, i);
    LeadsKeeps(r, z, i);
    RemovedQuiet(cap, r, z);
  }

  /** Thread `i` is outside of the ring and can use it. */
  ghost predicate Ready<T>(cap: nat, r: Ring<T>, i: nat) {
    i < |r.threads| && r.threads[i].Idle? && Quiet(cap, r)
  }

  /** The tickets from `t` on get the values `xs`. */
  ghost function Filled<T>(m: map<nat, T>, t: nat, xs: seq<T>): map<nat, T> {
    if xs == [] then m else Filled(m, t, xs[..|xs| - 1])[t + |xs| - 1 := xs[|xs| - 1]]
  }

  lemma {:induction false} PushAll<T(!new)>(cap: nat, r: Ring<T>, i: nat, xs: seq<T>) returns (z: Ring<T>)
    requires Ready(cap, r, i) && r.head + |xs| <= r.tail + cap
    ensures Leads(r, z, i) && Ready(cap, z, i)
    ensures z.tail == r.tail && z.head == r.head + |xs| && z.pushed == Filled(r.pushed, r.head, xs)
    decreases |xs|
  {
    if xs == [] {
      Stay(r, i);
      z := r;
    } else {
      var y := PushAll(cap, r, i, xs[..|xs| - 1]);
      z := PushOne(cap, y, i, xs[|xs| - 1]);
      Join(r, y, z, i);
    }
  }

  lemma {:induction false} PopAll<T(!new)>(cap: nat, r: Ring<T>, i: nat, n: nat) returns (z: Ring<T>)
    requires Ready(cap, r, i) && r.tail + n <= r.head
    ensures Leads(r, z, i) && Ready(cap, z, i) && z.head == r.head && z.tail == r.tail + n && z.pushed == r.pushed
    decreases n
  {
    if n == 0 {
      Stay(r, i);
      z := r;
    } else {
      var y := PopAll(cap, r, i, n - 1);
      z := PopOne(cap, y, i);
      Join(r, y, z, i);
    }
  }

  /** The tickets from `t` on have the values `xs`. */
  ghost predicate Has<T>(m: map<nat, T>, t: nat, xs: seq<T>) {
    forall u | t <= u < t + |xs| :: u in m && m[u] == xs[u - t]
  }

  lemma {:induction false} FilledHas<T>(m: map<nat, T>, t: nat, xs: seq<T>)
    ensures Has(Filled(m, t, xs), t, xs)
  {
    if xs != [] { FilledHas(m, t, xs[..|xs| - 1]); }
  }

  lemma PoppedHas<T>(cap: nat, r: Ring<T>, t: nat, xs: seq<T>)
    requires Quiet(cap, r) && t + |xs| <= r.tail && Has(r.pushed, t, xs)
    ensures Has(r.popped, t, xs)
  {
    forall u | t <= u < t + |xs| ensures u in r.popped && r.popped[u] == xs[u - t] {
      assert Consumed(r.g, r.slots, u);
    }
  }

  /** Whatever fits into a ring that is quiet and empty can be put into it, and comes out in the same order. */
  lemma FirstInFirstOut<T(!new)>(cap: nat, r: Ring<T>, i: nat, xs: seq<T>) returns (y: Ring<T>, z: Ring<T>)
    requires Ready(cap, r, i) && r.head == r.tail && |xs| <= cap
    ensures Leads(r, y, i) && y.head == r.head + |xs| && Has(y.pushed, r.head, xs)
    ensures Leads(y, z, i) && z.tail == z.head == y.head && Has(z.popped, r.tail, xs)
  {
    y := PushAll(cap, r, i, xs);
    FilledHas(r.pushed, r.head, xs);
    z := PopAll(cap, y, i, |xs|);
    PoppedHas(cap, z, r.tail, xs);
  }

  lemma FirstIsQuiet<T>(cap: nat, r: Ring<T>)
    requires Init(cap, r)
    ensures Quiet(cap, r) && r.head == r.tail
  {
    InitOk(cap, r);
  }
}
