/** The barrier waits without a condition, so a worker may leave it although nobody notified it. When that
    breaks the order of the queue. */
module SpuriousWakes {
  import opened EpochBuffer

  /** A worker leaves the barrier's wait although nobody notified it. */
  ghost predicate SpuriousWake(s: State, t: State, p: nat) {
    && p < |s.proxies| && s.proxies[p].pc == Blocked
    && t == s.(proxies := s.proxies[p := s.proxies[p].(pc := Draining)])
  }

  ghost predicate LooseNext(start: nat, s: State, t: State) {
    Next(start, s, t) || exists p: nat :: SpuriousWake(s, t, p)
  }

  ghost predicate LooseRun(start: nat, tr: seq<State>) {
    tr != [] && Init(tr[0]) && forall n | 0 < n < |tr| :: LooseStepAt(start, tr, n)
  }

  ghost predicate LooseStepAt(start: nat, tr: seq<State>, n: nat)
    requires 0 < n < |tr|
  {
    LooseNext(start, tr[n - 1], tr[n])
  }

  /******* What holds even so *******/

  ghost predicate TaskOk(x: Proxy) { x.done <= x.finished && (x.pc != Idle ==> x.done < x.finished) }

  ghost predicate Tasks(s: State) { forall p | 0 <= p < |s.proxies| :: TaskOk(s.proxies[p]) }

  ghost predicate LooseInv(start: nat, s: State) { Tasks(s) && Contents(start, s) && History(s) }

  lemma LoosePush(start: nat, s: State, t: State, p: nat)
    requires LooseInv(start, s) && Push(start, s, t, p)
    ensures LooseInv(start, t)
    ensures t.queue[|s.queue|].epoch == start + s.proxies[p].done
  {
    var x := s.proxies[p];
    var e := start + x.done;
    assert TaskOk(x) && BufferOk(x.buffer, p, e, start + x.finished) && Owns(p, e, x.buffer[e]);
    PushHistory(start, s, t, p, Buffered(x.buffer, e)[0]);
  }

  lemma LooseDone(start: nat, s: State, t: State, p: nat)
    requires LooseInv(start, s) && Done(start, s, t, p)
    ensures LooseInv(start, t)
  {
    assert TaskOk(s.proxies[p]);
  }

  lemma LooseReceive(start: nat, s: State, t: State, p: nat, id: nat)
    requires LooseInv(start, s) && Receive(start, s, t, p, id)
    ensures LooseInv(start, t)
  {
    assert TaskOk(s.proxies[p]);
    ReceiveHistory(start, s, t, p, id);
    ReceiveContents(start, s, t, p, id);
  }

  /** Steps that leave the buffers alone. */
  lemma LooseMove(start: nat, s: State, t: State, p: nat)
    requires LooseInv(start, s) && (Finish(s, t, p) || Await(s, t, p) || Wake(s, t, p) || SpuriousWake(s, t, p))
    ensures LooseInv(start, t)
  {
    assert TaskOk(s.proxies[p]);
    SameBuffers(start, s, t);
    forall q | 0 <= q < |t.proxies| ensures TaskOk(t.proxies[q]) { assert TaskOk(s.proxies[q]); }
  }

  lemma LooseStep(start: nat, s: State, t: State)
    requires LooseInv(start, s) && LooseNext(start, s, t)
    ensures LooseInv(start, t)
  {
    if p: nat :| SpuriousWake(s, t, p) {
      LooseMove(start, s, t, p);
    } else {
      var p: nat, id: nat :| StepOf(start, s, t, p, id);
      if Receive(start, s, t, p, id) {
        LooseReceive(start, s, t, p, id);
      } else if Push(start, s, t, p) {
        LoosePush(start, s, t, p);
      } else if Done(start, s, t, p) {
        LooseDone(start, s, t, p);
      } else {
        LooseMove(start, s, t, p);
      }
    }
  }

  lemma {:induction false} LooseRunInv(start: nat, tr: seq<State>, n: nat)
    requires LooseRun(start, tr) && n < |tr|
    ensures LooseInv(start, tr[n])
  {
    if n > 0 {
      LooseRunInv(start, tr, n - 1);
      assert LooseStepAt(start, tr, n);
      LooseStep(start, tr[n - 1], tr[n]);
    }
  }

  /******* A sharper condition *******/

  /** A worker pushes a transaction while another is not yet through with an earlier epoch. */
  ghost predicate Overtakes(start: nat, s: State, t: State) {
    exists p: nat, q: nat :: PushesAhead(start, s, t, p, q)
  }

  ghost predicate PushesAhead(start: nat, s: State, t: State, p: nat, q: nat) {
    Push(start, s, t, p) && q < |s.proxies| && s.proxies[q].done < s.proxies[p].done
  }

  /** All workers have come to the epoch of everything that has been pushed. */
  ghost predicate Reached(start: nat, s: State) {
    forall i, q | 0 <= i < |s.queue| && 0 <= q < |s.proxies| :: s.queue[i].epoch <= start + s.proxies[q].done
  }

  lemma ReachedStep(start: nat, s: State, t: State)
    requires LooseInv(start, s) && LooseNext(start, s, t) && !Overtakes(start, s, t)
    requires Ordered(s.queue) && Reached(start, s)
    ensures Ordered(t.queue) && Reached(start, t)
  {
    if p: nat :| Push(start, s, t, p) {
      ReachedPush(start, s, t, p);
    } else {
      assert t.queue == s.queue && |t.proxies| == |s.proxies|;
      forall q | 0 <= q < |s.proxies| ensures s.proxies[q].done <= t.proxies[q].done { }
    }
  }

  lemma ReachedPush(start: nat, s: State, t: State, p: nat)
    requires LooseInv(start, s) && Push(start, s, t, p) && !Overtakes(start, s, t)
    requires Ordered(s.queue) && Reached(start, s)
    ensures Ordered(t.queue) && Reached(start, t)
  {
    LoosePush(start, s, t, p);
    forall q | 0 <= q < |s.proxies| ensures s.proxies[p].done <= s.proxies[q].done {
      assert !PushesAhead(start, s, t, p, q);
    }
  }

  /** With any number of spurious wake-ups, the queue is ordered by epoch as long as no worker pushes while
      another is behind. */
  lemma {:induction false} OrderedUnlessOvertaken(start: nat, tr: seq<State>, n: nat)
    requires LooseRun(start, tr) && n < |tr|
    requires forall m | 0 < m <= n :: !Overtakes(start, tr[m - 1], tr[m])
    ensures Ordered(tr[n].queue) && Reached(start, tr[n])
  {
    if n > 0 {
      OrderedUnlessOvertaken(start, tr, n - 1);
      LooseRunInv(start, tr, n - 1);
      assert LooseStepAt(start, tr, n);
      ReachedStep(start, tr[n - 1], tr[n]);
    }
  }

  lemma {:induction false} OfLonger(s: seq<Txn>, k: nat, p: nat, e: nat)
    requires k <= |s|
    ensures |Of(s[..k], p, e)| <= |Of(s, p, e)|
    ensures |Of(s[..k], p, e)| < |Of(s, p, e)| ==> exists j | k <= j < |s| :: s[j].epoch == e
  {
    if k == |s| {
      assert s[..k] == s;
    } else {
      var n := |s| - 1;
      OfLonger(s[..n], k, p, e);
      assert s[..n][..k] == s[..k];
    }
  }

  lemma GrowStep(start: nat, s: State, t: State)
    requires LooseNext(start, s, t)
    ensures s.queue <= t.queue && s.received <= t.received && |t.proxies| == |s.proxies|
  {
  }

  lemma {:induction false} Grows(start: nat, tr: seq<State>, m: nat, n: nat)
    requires LooseRun(start, tr) && m <= n < |tr|
    ensures tr[m].queue <= tr[n].queue && tr[m].received <= tr[n].received && |tr[m].proxies| == |tr[n].proxies|
  {
    if m < n {
      Grows(start, tr, m, n - 1);
      assert LooseStepAt(start, tr, n);
      GrowStep(start, tr[n - 1], tr[n]);
    }
  }

  /** And the order is lost for good once something of a later epoch has been pushed while a worker has a
      transaction of an earlier one in its buffer: as soon as that worker is through with the earlier epoch. */
  lemma OvertakenIsLate(start: nat, tr: seq<State>, m: nat, n: nat, i: nat, q: nat, e: nat)
    requires LooseRun(start, tr) && m <= n < |tr| && i < |tr[m].queue| && q < |tr[m].proxies| == |tr[n].proxies|
    requires Buffered(tr[m].proxies[q].buffer, e) != [] && e < tr[m].queue[i].epoch
    requires e < start + tr[n].proxies[q].done
    ensures !Ordered(tr[n].queue)
  {
    Grows(start, tr, m, n);
    LooseRunInv(start, tr, m);
    LooseRunInv(start, tr, n);
    var x, y := tr[m].proxies[q], tr[n].proxies[q];
    assert Conserved(x.buffer, q, tr[m].queue, tr[m].received) && Conserved(y.buffer, q, tr[n].queue, tr[n].received);
    assert Of(tr[m].received, q, e) == Of(tr[m].queue, q, e) + Buffered(x.buffer, e);
    assert Of(tr[n].received, q, e) == Of(tr[n].queue, q, e) + Buffered(y.buffer, e);
    assert BufferOk(y.buffer, q, start + y.done, start + y.finished);
    OfLonger(tr[n].received, |tr[m].received|, q, e);
    OfLonger(tr[n].queue, |tr[m].queue|, q, e);
    assert tr[n].received[..|tr[m].received|] == tr[m].received && tr[n].queue[..|tr[m].queue|] == tr[m].queue;
    var j :| |tr[m].queue| <= j < |tr[n].queue| && tr[n].queue[j].epoch == e;
    assert tr[n].queue[i] == tr[m].queue[i];
  }

  /******* It happens *******/

  /** The barrier waits without a condition: two workers that wake without being notified push epoch 1
      before epoch 0. */
  lemma SpuriousWakeBreaksOrder()
    ensures exists tr: seq<State> :: LooseRun(0, tr) && !Ordered(tr[|tr| - 1].queue)
  {
    var tr, s := Overtaken();
    s := Late(tr, s);
  }

  lemma Extended(start: nat, tr: seq<State>, t: State) returns (tr': seq<State>)
    requires LooseRun(start, tr) && LooseNext(start, tr[|tr| - 1], t)
    ensures LooseRun(start, tr') && tr' == tr + [t]
  {
    tr' := tr + [t];
    forall n | 0 < n < |tr'| ensures LooseStepAt(start, tr', n) {
      if n < |tr| { assert LooseStepAt(start, tr, n); }
    }
  }

  function Put(x: Proxy, e: nat, b: seq<Txn>): Proxy { x.(buffer := x.buffer[e := b]) }

  /** The first worker wakes early, and opens the barrier alone with its next epoch. */
  lemma Overtaken() returns (tr: seq<State>, s: State)
    ensures LooseRun(0, tr) && s == tr[|tr| - 1]
    ensures |s.proxies| == 2 && s.queue == [Txn(0, 1, 1)] && s.currentWaits == 0
    ensures var x := s.proxies[1]; Buffered(x.buffer, 0) == [Txn(1, 0, 0)] && x.finished == x.done == 0 && x.pc == Idle
  {
    var x := Proxy(map[], 0, 0, Idle);
    var b, a := Txn(1, 0, 0), Txn(0, 1, 1);
    var y := Put(x, 0, Buffered(x.buffer, 0) + [b]);
    var s0 := State([x, x], 0, 0, [], []);
    var s1 := State(s0.proxies[1 := y], 0, 0, [], [] + [b]);
    assert Receive(0, s0, s1, 1, 0);
    var s2 := s1.(proxies := s1.proxies[0 := x.(finished := 1)]);
    var s3 := s2.(proxies := s2.proxies[0 := x.(finished := 1, pc := Blocked)], currentWaits := 1);
    var s4 := s3.(proxies := s3.proxies[0 := x.(finished := 1, pc := Draining)]);
    assert Finish(s1, s2, 0) && Await(s2, s3, 0) && SpuriousWake(s3, s4, 0);
    var z := x.(finished := 1, done := 1);
    var s5 := s4.(proxies := s4.proxies[0 := z]);
    assert Done(0, s4, s5, 0);
    tr := [s0, s1, s2, s3, s4, s5];
    assert StepOf(0, s0, s1, 1, 0) && StepOf(0, s1, s2, 0, 0) && StepOf(0, s2, s3, 0, 0) && StepOf(0, s4, s5, 0, 0);
    tr, s := Alone(tr, s5, y);
  }

  lemma Alone(tr0: seq<State>, s5: State, y: Proxy) returns (tr: seq<State>, s: State)
    requires LooseRun(0, tr0) && s5 == tr0[|tr0| - 1] && s5.queue == [] && s5.currentWaits == 1 && y.pc == Idle
    requires s5.proxies == [Proxy(map[], 1, 1, Idle), y]
    ensures LooseRun(0, tr) && s == tr[|tr| - 1]
    ensures |s.proxies| == 2 && s.queue == [Txn(0, 1, 1)] && s.currentWaits == 0 && s.proxies[1] == y
  {
    var a, z := Txn(0, 1, 1), s5.proxies[0];
    var z1 := Put(z, 1, Buffered(z.buffer, 1) + [a]);
    var s6 := s5.(proxies := s5.proxies[0 := z1], received := s5.received + [a]);
    assert Receive(0, s5, s6, 0, 1) && StepOf(0, s5, s6, 0, 1);
    var z2 := z1.(finished := 2);
    var s7 := s6.(proxies := s6.proxies[0 := z2]);
    assert Finish(s6, s7, 0) && StepOf(0, s6, s7, 0, 0);
    tr := Extended(0, tr0, s6);
    tr := Extended(0, tr, s7);
    tr, s := Opened(tr, s7, y);
  }

  lemma Opened(tr0: seq<State>, s7: State, y: Proxy) returns (tr: seq<State>, s: State)
    requires LooseRun(0, tr0) && s7 == tr0[|tr0| - 1] && s7.queue == [] && s7.currentWaits == 1 && y.pc == Idle
    requires |s7.proxies| == 2 && s7.proxies[1] == y
    requires var x := s7.proxies[0]; Buffered(x.buffer, 1) == [Txn(0, 1, 1)] && x.finished == 2 && x.done == 1
                                     && x.pc == Idle
    ensures LooseRun(0, tr) && s == tr[|tr| - 1]
    ensures |s.proxies| == 2 && s.queue == [Txn(0, 1, 1)] && s.currentWaits == 0 && s.proxies[1] == y
  {
    var z3 := s7.proxies[0].(pc := Draining);
    var s8 := s7.(proxies := Notified(s7.proxies)[0 := z3], currentWaits := 0, generation := s7.generation + 1);
    assert Await(s7, s8, 0) && StepOf(0, s7, s8, 0, 0);
    var z4 := Put(z3, 1, Buffered(z3.buffer, 1)[1..]);
    s := s8.(proxies := s8.proxies[0 := z4], queue := s8.queue + [Buffered(z3.buffer, 1)[0]]);
    assert Push(0, s8, s, 0) && StepOf(0, s8, s, 0, 0);
    tr := Extended(0, tr0, s8);
    tr := Extended(0, tr, s);
  }

  /** The second worker wakes early as well and pushes its first epoch. */
  lemma Late(tr: seq<State>, s: State) returns (t: State)
    requires LooseRun(0, tr) && s == tr[|tr| - 1] && |s.proxies| == 2 && s.queue == [Txn(0, 1, 1)]
             && s.currentWaits == 0
    requires var x := s.proxies[1]; Buffered(x.buffer, 0) == [Txn(1, 0, 0)] && x.finished == x.done == 0 && x.pc == Idle
    ensures exists tr: seq<State> :: LooseRun(0, tr) && t == tr[|tr| - 1] && !Ordered(t.queue)
  {
    var x := s.proxies[1];
    var s1 := s.(proxies := s.proxies[1 := x.(finished := 1)]);
    assert Finish(s, s1, 1) && StepOf(0, s, s1, 1, 0);
    var s2 := s1.(proxies := s1.proxies[1 := x.(finished := 1, pc := Blocked)], currentWaits := 1);
    assert Await(s1, s2, 1) && StepOf(0, s1, s2, 1, 0);
    var y := x.(finished := 1, pc := Draining);
    var s3 := s2.(proxies := s2.proxies[1 := y]);
    assert SpuriousWake(s2, s3, 1);
    t := s3.(proxies := s3.proxies[1 := Put(y, 0, Buffered(y.buffer, 0)[1..])],
        queue := s3.queue + [Buffered(y.buffer, 0)[0]]);
    assert Push(0, s3, t, 1) && StepOf(0, s3, t, 1, 0);
    var tr' := Extended(0, tr, s1);
    tr' := Extended(0, tr', s2);
    tr' := Extended(0, tr', s3);
    tr' := Extended(0, tr', t);
    assert t.queue[0].epoch > t.queue[1].epoch;
  }
}
