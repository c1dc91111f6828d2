/** The per-proxy epoch buffers and the barrier that orders their emptying.

    Each client proxy receives transactions epoch by epoch and hands every finished epoch to its
    worker. The worker waits at a barrier for the workers of all proxies, then pushes the epoch to
    the shared queue. This is the non-eager mode. */
module EpochBuffer {
  import opened Collections

  datatype Txn = Txn(proxy: nat, id: nat, epoch: nat)

  /** Where a worker is: without a task, inside the barrier's wait, notified, or emptying its buffer. */
  datatype Pc = Idle | Blocked | Released | Draining

  /** `finished` epochs were handed to the worker, which is through with `done` of them. */
  datatype Proxy = Proxy(buffer: Buffers, finished: nat, done: nat, pc: Pc)

  /** `generation` counts the openings of the barrier; `queue` and `received` are all that was ever
      pushed to the shared queue and received by the proxies, in order. */
  datatype State = State(
    proxies: seq<Proxy>, currentWaits: nat, generation: nat, queue: seq<Txn>, received: seq<Txn>)

  type Buffers = map<nat, seq<Txn>>

  function Buffered(b: Buffers, e: nat): seq<Txn> {
    if e in b then b[e] else []
  }

  ghost predicate Init(s: State) {
    && |s.proxies| > 0 && s.currentWaits == s.generation == 0 && s.queue == s.received == []
    && forall p | 0 <= p < |s.proxies| :: s.proxies[p] == Proxy(map[], 0, 0, Idle)
  }

  /******* Steps *******/

  /** Receive a transaction of the current epoch of the proxy. */
  ghost predicate Receive(start: nat, s: State, t: State, p: nat, id: nat) {
    && p < |s.proxies|
    && var x := s.proxies[p];
       var e := start + x.finished;
       var tx := Txn(p, id, e);
       t == s.(proxies := s.proxies[p := x.(buffer := x.buffer[e := Buffered(x.buffer, e) + [tx]])],
           received := s.received + [tx])
  }

  /** The current epoch of the proxy is over: hand it to the worker. */
  ghost predicate Finish(s: State, t: State, p: nat) {
    && p < |s.proxies|
    && t == s.(proxies := s.proxies[p := s.proxies[p].(finished := s.proxies[p].finished + 1)])
  }

  function Notified(proxies: seq<Proxy>): (r: seq<Proxy>)
    ensures |r| == |proxies|
    ensures forall q | 0 <= q < |proxies| ::
              r[q] == if proxies[q].pc == Blocked then proxies[q].(pc := Released) else proxies[q]
  {
    seq(|proxies|, q requires 0 <= q < |proxies| =>
      if proxies[q].pc == Blocked then proxies[q].(pc := Released) else proxies[q])
  }

  /** Enter the barrier. The last worker opens it for all; the others wait to be notified. */
  ghost predicate Await(s: State, t: State, p: nat) {
    && p < |s.proxies|
    && var x := s.proxies[p];
       && x.pc == Idle && x.done < x.finished
       && var waits := if s.currentWaits < |s.proxies| then s.currentWaits + 1 else s.currentWaits;
          if waits >= |s.proxies| then
            t == s.(proxies := Notified(s.proxies)[p := x.(pc := Draining)], currentWaits := 0,
                generation := s.generation + 1)
          else
            t == s.(proxies := s.proxies[p := x.(pc := Blocked)], currentWaits := waits)
  }

  /** A notified worker leaves the barrier. */
  ghost predicate Wake(s: State, t: State, p: nat) {
    && p < |s.proxies| && s.proxies[p].pc == Released
    && t == s.(proxies := s.proxies[p := s.proxies[p].(pc := Draining)])
  }

  /** Push the first buffered transaction of the epoch. */
  ghost predicate Push(start: nat, s: State, t: State, p: nat) {
    && p < |s.proxies| && s.proxies[p].pc == Draining
    && var x := s.proxies[p];
       var e := start + x.done;
       var b := Buffered(x.buffer, e);
       && b != []
       && t == s.(proxies := s.proxies[p := x.(buffer := x.buffer[e := b[1..]])], queue := s.queue + [b[0]])
  }

  /** The buffer of the epoch is empty: the emptying is done. */
  ghost predicate Done(start: nat, s: State, t: State, p: nat) {
    && p < |s.proxies| && s.proxies[p].pc == Draining && Buffered(s.proxies[p].buffer, start + s.proxies[p].done) == []
    && t == s.(proxies := s.proxies[p := s.proxies[p].(pc := Idle, done := s.proxies[p].done + 1)])
  }

  ghost predicate Next(start: nat, s: State, t: State) {
    exists p: nat, id: nat :: StepOf(start, s, t, p, id)
  }

  ghost predicate StepOf(start: nat, s: State, t: State, p: nat, id: nat) {
    || Receive(start, s, t, p, id) || Finish(s, t, p) || Await(s, t, p)
    || Wake(s, t, p) || Push(start, s, t, p) || Done(start, s, t, p)
  }

  ghost predicate Run(start: nat, tr: seq<State>) {
    tr != [] && Init(tr[0]) && forall n | 0 < n < |tr| :: StepAt(start, tr, n)
  }

  /** Moment `n` of a run comes from the one before by a step. */
  ghost predicate StepAt(start: nat, tr: seq<State>, n: nat)
    requires 0 < n < |tr|
  {
    Next(start, tr[n - 1], tr[n])
  }

  /******* The invariant *******/

  /** The transactions of one proxy and epoch, in order. */
  function Of(s: seq<Txn>, p: nat, e: nat): seq<Txn> {
    if s == [] then []
    else
      var tx := s[|s| - 1];
      Of(s[..|s| - 1], p, e) + (if tx.proxy == p && tx.epoch == e then [tx] else [])
  }

  lemma OfAppend(s: seq<Txn>, tx: Txn, p: nat, e: nat)
    ensures Of(s + [tx], p, e) == Of(s, p, e) + (if tx.proxy == p && tx.epoch == e then [tx] else [])
  {
    assert (s + [tx])[..|s|] == s;
  }

  /** A worker is one epoch behind the barrier exactly while it empties a buffer. */
  ghost predicate WorkerOk(x: Proxy, generation: nat) {
    && x.done <= x.finished && (x.pc != Idle ==> x.done < x.finished)
    && (if x.pc == Idle || x.pc == Blocked then x.done == generation else x.done + 1 == generation)
  }

  /** A buffer holds what is its own. */
  ghost predicate Owns(p: nat, e: nat, b: seq<Txn>) {
    forall i | 0 <= i < |b| :: b[i].proxy == p && b[i].epoch == e
  }

  /** Buffers hold nothing of an epoch that is over. */
  ghost predicate BufferOk(b: Buffers, p: nat, lo: nat, hi: nat) {
    forall e | e in b :: Owns(p, e, b[e]) && (b[e] != [] ==> lo <= e <= hi)
  }

  /** What was received from a proxy in an epoch was pushed, in order, or is still buffered. */
  ghost predicate Conserved(b: Buffers, p: nat, queue: seq<Txn>, received: seq<Txn>) {
    forall e :: Of(received, p, e) == Of(queue, p, e) + Buffered(b, e)
  }

  ghost function BlockedIds(proxies: seq<Proxy>): set<nat> {
    set p: nat | p < |proxies| && proxies[p].pc == Blocked
  }

  predicate Ordered(queue: seq<Txn>) {
    forall i, j | 0 <= i < j < |queue| :: queue[i].epoch <= queue[j].epoch
  }

  ghost predicate Workers(s: State) {
    && s.currentWaits == |BlockedIds(s.proxies)| < |s.proxies|
    && (forall p | 0 <= p < |s.proxies| :: WorkerOk(s.proxies[p], s.generation))
  }

  ghost predicate Contents(start: nat, s: State) {
    forall p | 0 <= p < |s.proxies| ::
      BufferOk(s.proxies[p].buffer, p, start + s.proxies[p].done, start + s.proxies[p].finished)
  }

  ghost predicate History(s: State) {
    forall p | 0 <= p < |s.proxies| :: Conserved(s.proxies[p].buffer, p, s.queue, s.received)
  }

  ghost predicate Pushed(start: nat, s: State) {
    Ordered(s.queue) && forall i | 0 <= i < |s.queue| :: s.queue[i].epoch < start + s.generation
  }

  ghost predicate Inv(start: nat, s: State) {
    Workers(s) && Contents(start, s) && History(s) && Pushed(start, s)
  }

  /******* Steps keep it *******/

  lemma BlockedSame(a: seq<Proxy>, b: seq<Proxy>)
    requires |a| == |b| && forall p | 0 <= p < |a| :: a[p].pc == Blocked <==> b[p].pc == Blocked
    ensures BlockedIds(a) == BlockedIds(b)
  {
  }

  lemma ReceiveConserves(b: Buffers, p: nat, queue: seq<Txn>, received: seq<Txn>, tx: Txn)
    requires Conserved(b, p, queue, received)
    ensures tx.proxy != p ==> Conserved(b, p, queue, received + [tx])
    ensures tx.proxy == p ==> Conserved(b[tx.epoch := Buffered(b, tx.epoch) + [tx]], p, queue, received + [tx])
  {
    forall e ensures Of(received + [tx], p, e)
      == Of(received, p, e) + (if tx.proxy == p && tx.epoch == e then [tx] else []) {
      OfAppend(received, tx, p, e);
    }
  }

  lemma ReceiveHistory(start: nat, s: State, t: State, p: nat, id: nat)
    requires History(s) && Receive(start, s, t, p, id)
    ensures History(t)
  {
    var tx := Txn(p, id, start + s.proxies[p].finished);
    forall q | 0 <= q < |t.proxies| ensures Conserved(t.proxies[q].buffer, q, t.queue, t.received) {
      ReceiveConserves(s.proxies[q].buffer, q, s.queue, s.received, tx);
    }
  }

  lemma ReceiveContents(start: nat, s: State, t: State, p: nat, id: nat)
    requires Contents(start, s) && Receive(start, s, t, p, id) && s.proxies[p].done <= s.proxies[p].finished
    ensures Contents(start, t)
  {
    var x, y := s.proxies[p], t.proxies[p];
    assert BufferOk(x.buffer, p, start + x.done, start + x.finished);
    assert BufferOk(y.buffer, p, start + y.done, start + y.finished);
  }

  lemma ReceiveKeeps(start: nat, s: State, t: State, p: nat, id: nat)
    requires Inv(start, s) && Receive(start, s, t, p, id)
    ensures Inv(start, t)
  {
    assert WorkerOk(s.proxies[p], s.generation);
    ReceiveHistory(start, s, t, p, id);
    ReceiveContents(start, s, t, p, id);
    BlockedSame(s.proxies, t.proxies);
  }

  /** Steps that leave the buffers alone keep what is known of them. */
  lemma SameBuffers(start: nat, s: State, t: State)
    requires Contents(start, s) && History(s) && t.queue == s.queue && t.received == s.received
             && |t.proxies| == |s.proxies|
    requires forall q | 0 <= q < |s.proxies| :: t.proxies[q].buffer == s.proxies[q].buffer
    requires forall q | 0 <= q < |s.proxies| ::
               t.proxies[q].done == s.proxies[q].done && s.proxies[q].finished <= t.proxies[q].finished
    ensures Contents(start, t) && History(t)
  {
  }

  lemma FinishKeeps(start: nat, s: State, t: State, p: nat)
    requires Inv(start, s) && Finish(s, t, p)
    ensures Inv(start, t)
  {
    BlockedSame(s.proxies, t.proxies);
    SameBuffers(start, s, t);
  }

  lemma OtherPushConserves(b: Buffers, p: nat, queue: seq<Txn>, received: seq<Txn>, tx: Txn)
    requires Conserved(b, p, queue, received) && tx.proxy != p
    ensures Conserved(b, p, queue + [tx], received)
  {
    forall f ensures Of(received, p, f) == Of(queue + [tx], p, f) + Buffered(b, f) {
      OfAppend(queue, tx, p, f);
      assert Of(received, p, f) == Of(queue, p, f) + Buffered(b, f);
    }
  }

  lemma PushConserves(b: Buffers, p: nat, e: nat, queue: seq<Txn>, received: seq<Txn>, tx: Txn)
    requires Conserved(b, p, queue, received) && tx.proxy == p && tx.epoch == e
    requires Buffered(b, e) != [] && Buffered(b, e)[0] == tx
    ensures Conserved(b[e := Buffered(b, e)[1..]], p, queue + [tx], received)
  {
    var b' := b[e := Buffered(b, e)[1..]];
    forall f ensures Of(received, p, f) == Of(queue + [tx], p, f) + Buffered(b', f) {
      OfAppend(queue, tx, p, f);
      assert Of(received, p, f) == Of(queue, p, f) + Buffered(b, f);
      if f == e { Regroup(Of(queue, p, e), Buffered(b, e)); }
    }
  }

  lemma Regroup(a: seq<Txn>, b: seq<Txn>)
    requires b != []
    ensures a + b == a + [b[0]] + b[1..]
  {
  }

  lemma PushHistory(start: nat, s: State, t: State, p: nat, tx: Txn)
    requires History(s) && Push(start, s, t, p) && tx == Buffered(s.proxies[p].buffer, start + s.proxies[p].done)[0]
    requires tx.proxy == p && tx.epoch == start + s.proxies[p].done
    ensures History(t)
  {
    forall q | 0 <= q < |t.proxies| ensures Conserved(t.proxies[q].buffer, q, t.queue, t.received) {
      if q == p {
        PushConserves(s.proxies[q].buffer, q, tx.epoch, s.queue, s.received, tx);
      } else {
        OtherPushConserves(s.proxies[q].buffer, q, s.queue, s.received, tx);
      }
    }
  }

  lemma PushKeeps(start: nat, s: State, t: State, p: nat)
    requires Inv(start, s) && Push(start, s, t, p)
    ensures Inv(start, t)
  {
    BlockedSame(s.proxies, t.proxies);
    var x := s.proxies[p];
    var e := start + x.done;
    assert WorkerOk(x, s.generation) && Owns(p, e, x.buffer[e]);
    PushHistory(start, s, t, p, Buffered(x.buffer, e)[0]);
  }

  lemma WakeKeeps(start: nat, s: State, t: State, p: nat)
    requires Inv(start, s) && Wake(s, t, p)
    ensures Inv(start, t)
  {
    BlockedSame(s.proxies, t.proxies);
    assert WorkerOk(s.proxies[p], s.generation);
    SameBuffers(start, s, t);
  }

  lemma DoneContents(start: nat, s: State, t: State, p: nat)
    requires Contents(start, s) && Done(start, s, t, p)
    ensures Contents(start, t)
  {
    var x, y := s.proxies[p], t.proxies[p];
    assert BufferOk(x.buffer, p, start + x.done, start + x.finished);
    assert BufferOk(y.buffer, p, start + y.done, start + y.finished);
  }

  lemma DoneKeeps(start: nat, s: State, t: State, p: nat)
    requires Inv(start, s) && Done(start, s, t, p)
    ensures Inv(start, t)
  {
    BlockedSame(s.proxies, t.proxies);
    assert WorkerOk(s.proxies[p], s.generation);
    DoneContents(start, s, t, p);
  }

  /** When the last worker comes to the barrier all others are blocked in it. */
  lemma LastComes(proxies: seq<Proxy>, p: nat)
    requires p < |proxies| && proxies[p].pc == Idle && |BlockedIds(proxies)| + 1 >= |proxies|
    ensures forall q | 0 <= q < |proxies| && q != p :: proxies[q].pc == Blocked
  {
    AllButOne(BlockedIds(proxies), |proxies|, p);
    forall q | 0 <= q < |proxies| && q != p ensures proxies[q].pc == Blocked { assert q in BlockedIds(proxies); }
  }

  lemma AwaitWorkers(s: State, t: State, p: nat)
    requires Workers(s) && Await(s, t, p)
    ensures Workers(t)
  {
    assert WorkerOk(s.proxies[p], s.generation);
    if s.currentWaits + 1 >= |s.proxies| {
      LastComes(s.proxies, p);
      assert BlockedIds(t.proxies) == {};
    } else {
      assert BlockedIds(t.proxies) == BlockedIds(s.proxies) + {p};
    }
  }

  lemma AwaitKeeps(start: nat, s: State, t: State, p: nat)
    requires Inv(start, s) && Await(s, t, p)
    ensures Inv(start, t)
  {
    AwaitWorkers(s, t, p);
    SameBuffers(start, s, t);
  }

  lemma StepKeeps(start: nat, s: State, t: State, p: nat, id: nat)
    requires Inv(start, s) && StepOf(start, s, t, p, id)
    ensures Inv(start, t)
  {
    if Receive(start, s, t, p, id) { ReceiveKeeps(start, s, t, p, id); }
    else if Finish(s, t, p) { FinishKeeps(start, s, t, p); }
    else if Await(s, t, p) { AwaitKeeps(start, s, t, p); }
    else if Push(start, s, t, p) { PushKeeps(start, s, t, p); }
    else if Wake(s, t, p) { WakeKeeps(start, s, t, p); }
    else { DoneKeeps(start, s, t, p); }
  }

  lemma InitInv(start: nat, s: State)
    requires Init(s)
    ensures Inv(start, s)
  {
    assert BlockedIds(s.proxies) == {};
  }

  lemma {:induction false} RunInv(start: nat, tr: seq<State>, n: nat)
    requires Run(start, tr) && n < |tr|
    ensures Inv(start, tr[n])
  {
    if n == 0 {
      InitInv(start, tr[0]);
    } else {
      RunInv(start, tr, n - 1);
      assert StepAt(start, tr, n);
      var p: nat, id: nat :| StepOf(start, tr[n - 1], tr[n], p, id);
      StepKeeps(start, tr[n - 1], tr[n], p, id);
    }
  }

  /******* Results *******/

  /** Transactions reach the shared queue in the order of their epochs. */
  lemma QueueOrdered(start: nat, tr: seq<State>, n: nat)
    requires Run(start, tr) && n < |tr|
    ensures Ordered(tr[n].queue)
  {
    RunInv(start, tr, n);
  }

  lemma StepFrom(start: nat, s: State, t: State)
    requires Contents(start, s) && Next(start, s, t) && forall i | 0 <= i < |s.queue| :: s.queue[i].epoch >= start
    ensures forall i | 0 <= i < |t.queue| :: t.queue[i].epoch >= start
  {
    var p: nat, id: nat :| StepOf(start, s, t, p, id);
    if Push(start, s, t, p) {
      var x := s.proxies[p];
      assert Owns(p, start + x.done, x.buffer[start + x.done]);
    }
  }

  /** Nothing in the queue is of an epoch before the first. */
  lemma {:induction false} QueueFrom(start: nat, tr: seq<State>, n: nat)
    requires Run(start, tr) && n < |tr|
    ensures forall i | 0 <= i < |tr[n].queue| :: tr[n].queue[i].epoch >= start
  {
    if n > 0 {
      QueueFrom(start, tr, n - 1);
      RunInv(start, tr, n - 1);
      assert StepAt(start, tr, n);
      StepFrom(start, tr[n - 1], tr[n]);
    }
  }

  /** Every transaction a proxy received is pushed once, in order, as soon as the worker is through with its epoch. */
  lemma DeliveredOnce(start: nat, tr: seq<State>, n: nat, p: nat, e: nat)
    requires Run(start, tr) && n < |tr| && p < |tr[n].proxies|
    ensures Of(tr[n].queue, p, e) <= Of(tr[n].received, p, e)
    ensures e < start + tr[n].proxies[p].done ==> Of(tr[n].queue, p, e) == Of(tr[n].received, p, e)
  {
    RunInv(start, tr, n);
    var b := tr[n].proxies[p].buffer;
    assert Conserved(b, p, tr[n].queue, tr[n].received);
    assert BufferOk(b, p, start + tr[n].proxies[p].done, start + tr[n].proxies[p].finished);
    assert Of(tr[n].received, p, e) == Of(tr[n].queue, p, e) + Buffered(b, e);
  }

  /** No worker pushes a transaction of an epoch before every proxy has finished that epoch. */
  lemma PushAfterAllFinished(start: nat, tr: seq<State>, n: nat, i: nat, p: nat)
    requires Run(start, tr) && n < |tr| && i < |tr[n].queue| && p < |tr[n].proxies|
    ensures tr[n].queue[i].epoch < start + tr[n].proxies[p].finished
  {
    RunInv(start, tr, n);
    assert WorkerOk(tr[n].proxies[p], tr[n].generation);
  }
}
