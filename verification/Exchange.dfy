/** Receiving the messages of an exchange: one thread per other server takes its messages in order, puts
    each into a shared buffer and waits at a barrier for the other threads. For every epoch the coordinator
    starts as many tasks as there are other servers; each takes one message, checks that it is of the epoch
    being aggregated, and signals. The coordinator waits for all signals before it goes on. */
module Exchange {
  import opened Collections
  import opened Counting

  /** Where a receiving thread is: before its next message, before the barrier, inside its wait, notified. */
  datatype Pc = Ready | AtBarrier | Blocked | Released

  /** `taken` messages of its server have been put into the buffer. */
  datatype Receiver = Receiver(taken: nat, pc: Pc)

  /** `buffer` are the epochs of all messages ever put into the buffer, in order; the first `popped` of them
      have been taken. The coordinator aggregates epoch `broadcastEpoch`; `left` of its tasks have no message
      yet, and `hands` are the epochs of the messages that tasks have taken and not signalled. */
  datatype State = State(receivers: seq<Receiver>, currentWaits: nat, generation: nat, buffer: seq<nat>,
                         popped: nat, broadcastEpoch: int, left: nat, hands: seq<nat>)

  /******* Steps *******/

  /** The next message of server `j`: servers send one per epoch, from `start` on. */
  ghost predicate Put(start: nat, s: State, t: State, j: nat) {
    && j < |s.receivers| && s.receivers[j].pc == Ready
    && t == s.(receivers := s.receivers[j := Receiver(s.receivers[j].taken + 1, AtBarrier)],
               buffer := s.buffer + [start + s.receivers[j].taken])
  }

  function Notified(receivers: seq<Receiver>): (r: seq<Receiver>)
    ensures |r| == |receivers|
    ensures forall q | 0 <= q < |r| ::
              r[q] == if receivers[q].pc == Blocked then receivers[q].(pc := Released) else receivers[q]
  {
    seq(|receivers|, q requires 0 <= q < |receivers| =>
      if receivers[q].pc == Blocked then receivers[q].(pc := Released) else receivers[q])
  }

  /** The last thread opens the barrier for all; the others wait to be notified. */
  ghost predicate Await(s: State, t: State, j: nat) {
    && j < |s.receivers| && s.receivers[j].pc == AtBarrier
    && var x := s.receivers[j];
       if s.currentWaits + 1 >= |s.receivers| then
         t == s.(receivers := Notified(s.receivers)[j := x.(pc := Ready)], currentWaits := 0,
                 generation := s.generation + 1)
       else
         t == s.(receivers := s.receivers[j := x.(pc := Blocked)], currentWaits := s.currentWaits + 1)
  }

  ghost predicate Wake(s: State, t: State, j: nat) {
    && j < |s.receivers| && s.receivers[j].pc == Released
    && t == s.(receivers := s.receivers[j := s.receivers[j].(pc := Ready)])
  }

  /** All signals of the last epoch have come: aggregate the next one. */
  ghost predicate Aggregate(s: State, t: State) {
    s.left == 0 && s.hands == [] && t == s.(broadcastEpoch := s.broadcastEpoch + 1, left := |s.receivers|)
  }

  /** A task takes a message. */
  ghost predicate Pop(s: State, t: State) {
    && s.left > 0 && s.popped < |s.buffer|
    && t == s.(popped := s.popped + 1, left := s.left - 1, hands := s.hands + [s.buffer[s.popped]])
  }

  /** A task is through with its message. */
  ghost predicate Signal(s: State, t: State, k: nat) {
    k < |s.hands| && t == s.(hands := s.hands[..k] + s.hands[k + 1..])
  }

  ghost predicate Coordinator(s: State, t: State) {
    Aggregate(s, t) || Pop(s, t) || exists k: nat :: Signal(s, t, k)
  }

  ghost predicate Next(start: nat, s: State, t: State) {
    Coordinator(s, t) || exists j: nat :: StepOf(start, s, t, j)
  }

  ghost predicate StepOf(start: nat, s: State, t: State, j: nat) {
    Put(start, s, t, j) || Await(s, t, j) || Wake(s, t, j)
  }

  ghost predicate Init(start: nat, s: State) {
    && s.broadcastEpoch == start - 1 && s.left == 0 && s.hands == []
    && |s.receivers| > 0 && s.currentWaits == s.generation == s.popped == 0 && s.buffer == []
    && forall j | 0 <= j < |s.receivers| :: s.receivers[j] == Receiver(0, Ready)
  }

  ghost predicate Run(start: nat, tr: seq<State>) {
    tr != [] && Init(start, tr[0]) && forall n | 0 < n < |tr| :: StepAt(start, tr, n)
  }

  /** Moment `n` of a run comes from the one before by a step. */
  ghost predicate StepAt(start: nat, tr: seq<State>, n: nat)
    requires 0 < n < |tr|
  {
    Next(start, tr[n - 1], tr[n])
  }

  /******* The invariant *******/

  /** The threads that have put their message of the current round. */
  ghost function Through(s: State): set<nat> {
    set j: nat | j < |s.receivers| && s.receivers[j].pc in {AtBarrier, Blocked}
  }

  ghost function Waiting(s: State): set<nat> {
    set j: nat | j < |s.receivers| && s.receivers[j].pc == Blocked
  }

  ghost predicate ReceiverOk(x: Receiver, generation: nat) {
    x.taken == if x.pc in {AtBarrier, Blocked} then generation + 1 else generation
  }

  /** Message `m` of `count` senders is of round `m / count`. */
  ghost predicate InRounds(start: nat, count: nat, buffer: seq<nat>)
    requires count > 0
  {
    forall m | 0 <= m < |buffer| :: buffer[m] == start + m / count
  }

  ghost predicate Inv(start: nat, s: State) {
    && |s.receivers| > 0 && (forall j | 0 <= j < |s.receivers| :: ReceiverOk(s.receivers[j], s.generation))
    && s.currentWaits == |Waiting(s)| < |s.receivers| && |s.buffer| == |s.receivers| * s.generation + |Through(s)|
    && InRounds(start, |s.receivers|, s.buffer) && CoordinatorOk(start, s)
  }

  /** A whole number of rounds has been asked for, and what tasks hold is of the epoch being aggregated. */
  ghost predicate CoordinatorOk(start: nat, s: State) {
    && s.popped <= |s.buffer| && s.left <= |s.receivers| && s.broadcastEpoch >= start - 1
    && s.popped + s.left == |s.receivers| * (s.broadcastEpoch - start + 1)
    && forall k | 0 <= k < |s.hands| :: s.hands[k] == s.broadcastEpoch
  }

  lemma RoundOf(count: nat, g: nat, r: nat)
    requires r < count
    ensures (count * g + r) / count == g
  {
    var m := count * g + r;
    QuotientUnique(count, g, r, m / count, m % count);
  }

  lemma RoundsAppend(start: nat, count: nat, buffer: seq<nat>, e: nat)
    requires count > 0 && InRounds(start, count, buffer) && e == start + |buffer| / count
    ensures InRounds(start, count, buffer + [e])
  {
  }

  lemma PutSets(start: nat, s: State, t: State, j: nat)
    requires Put(start, s, t, j)
    ensures |Waiting(t)| == |Waiting(s)| && |Through(t)| == |Through(s)| + 1 <= |s.receivers|
  {
    assert Waiting(t) == Waiting(s);
    assert Through(t) == Through(s) + {j};
    SubsetSize(Through(t), Indices(|s.receivers|));
  }

  lemma PutKeeps(start: nat, s: State, t: State, j: nat)
    requires Inv(start, s) && Put(start, s, t, j)
    ensures Inv(start, t)
  {
    var count, g, r := |s.receivers|, s.generation, |Through(s)|;
    assert ReceiverOk(s.receivers[j], g);
    PutSets(start, s, t, j);
    RoundOf(count, g, r);
    RoundsAppend(start, count, s.buffer, start + s.receivers[j].taken);
  }

  /** The thread that opens the barrier is the last: all others wait in it. */
  lemma LastComes(s: State, j: nat)
    requires j < |s.receivers| && s.receivers[j].pc == AtBarrier && |Waiting(s)| + 1 >= |s.receivers|
    ensures forall q: nat | q < |s.receivers| && q != j :: s.receivers[q].pc == Blocked
    ensures |Through(s)| == |s.receivers|
  {
    AllButOne(Waiting(s), |s.receivers|, j);
    forall q: nat | q < |s.receivers| && q != j ensures s.receivers[q].pc == Blocked { assert q in Waiting(s); }
    assert Through(s) == Indices(|s.receivers|);
  }

  lemma OpenKeeps(start: nat, s: State, t: State, j: nat)
    requires Inv(start, s) && Await(s, t, j) && s.currentWaits + 1 >= |s.receivers|
    ensures Inv(start, t)
  {
    LastComes(s, j);
    assert Waiting(t) == {} && Through(t) == {};
    forall q | 0 <= q < |t.receivers| ensures ReceiverOk(t.receivers[q], t.generation) {
      assert ReceiverOk(s.receivers[q], s.generation);
    }
    assert |s.receivers| * (s.generation + 1) == |s.receivers| * s.generation + |s.receivers|;
  }

  lemma BlockKeeps(start: nat, s: State, t: State, j: nat)
    requires Inv(start, s) && Await(s, t, j) && s.currentWaits + 1 < |s.receivers|
    ensures Inv(start, t)
  {
    assert ReceiverOk(s.receivers[j], s.generation);
    assert Through(t) == Through(s);
    assert Waiting(t) == Waiting(s) + {j};
  }

  lemma WakeKeeps(start: nat, s: State, t: State, j: nat)
    requires Inv(start, s) && Wake(s, t, j)
    ensures Inv(start, t)
  {
    assert ReceiverOk(s.receivers[j], s.generation);
    assert Through(t) == Through(s) && Waiting(t) == Waiting(s);
  }

  /** The next message in the buffer is of the epoch for which tasks without one have been started. */
  lemma NextMessage(start: nat, s: State)
    requires |s.receivers| > 0 && InRounds(start, |s.receivers|, s.buffer) && CoordinatorOk(start, s)
    requires s.left > 0 && s.popped < |s.buffer|
    ensures s.buffer[s.popped] == s.broadcastEpoch
  {
    var count, rounds := |s.receivers|, s.broadcastEpoch - start + 1;
    assert rounds > 0;
    assert s.popped == count * (rounds - 1) + (count - s.left);
    RoundOf(count, rounds - 1, count - s.left);
  }

  lemma CoordinatorKeeps(start: nat, s: State, t: State)
    requires |s.receivers| > 0 && InRounds(start, |s.receivers|, s.buffer) && CoordinatorOk(start, s)
    requires Coordinator(s, t)
    ensures CoordinatorOk(start, t)
  {
    if Aggregate(s, t) {
      var count, rounds := |s.receivers|, s.broadcastEpoch - start + 1;
      assert count * (rounds + 1) == count * rounds + count;
    } else if Pop(s, t) {
      NextMessage(start, s);
    }
  }

  lemma {:induction false} RunInv(start: nat, tr: seq<State>, n: nat)
    requires Run(start, tr) && n < |tr|
    ensures Inv(start, tr[n])
  {
    if n == 0 {
      assert Waiting(tr[0]) == {} && Through(tr[0]) == {};
    } else {
      RunInv(start, tr, n - 1);
      assert StepAt(start, tr, n);
      NextKeeps(start, tr[n - 1], tr[n]);
    }
  }

  lemma NextKeeps(start: nat, s: State, t: State)
    requires Inv(start, s) && Next(start, s, t)
    ensures Inv(start, t)
  {
    if Coordinator(s, t) {
      CoordinatorKeeps(start, s, t);
      assert Waiting(t) == Waiting(s) && Through(t) == Through(s);
    } else {
      var j: nat :| StepOf(start, s, t, j);
      if Put(start, s, t, j) {
        PutKeeps(start, s, t, j);
      } else if Await(s, t, j) && s.currentWaits + 1 >= |s.receivers| {
        OpenKeeps(start, s, t, j);
      } else if Await(s, t, j) {
        BlockKeeps(start, s, t, j);
      } else {
        WakeKeeps(start, s, t, j);
      }
    }
  }

  /******* Results *******/

  /** The check on the epoch of a received message never fails: whatever message a task has in its hands, and
      whatever it takes next, is of the epoch that the coordinator is aggregating, however far ahead some of
      the other servers are. */
  lemma EpochChecked(start: nat, tr: seq<State>, n: nat)
    requires Run(start, tr) && n < |tr|
    ensures forall k | 0 <= k < |tr[n].hands| :: tr[n].hands[k] == tr[n].broadcastEpoch
    ensures tr[n].left > 0 && tr[n].popped < |tr[n].buffer| ==> tr[n].buffer[tr[n].popped] == tr[n].broadcastEpoch
  {
    RunInv(start, tr, n);
    if tr[n].left > 0 && tr[n].popped < |tr[n].buffer| { NextMessage(start, tr[n]); }
  }

  /** When the coordinator goes on to the next epoch, it has taken one message of every other server for every
      epoch so far, and none of a later one. */
  lemma AllTaken(start: nat, tr: seq<State>, n: nat, j: nat)
    requires Run(start, tr) && n < |tr| && tr[n].left == 0 && tr[n].hands == [] && j < |tr[n].receivers|
    ensures tr[n].popped == |tr[n].receivers| * (tr[n].broadcastEpoch - start + 1) <= |tr[n].buffer|
    ensures tr[n].receivers[j].taken >= tr[n].broadcastEpoch - start + 1
    ensures forall m | 0 <= m < tr[n].popped :: tr[n].buffer[m] <= tr[n].broadcastEpoch
  {
    RunInv(start, tr, n);
    var s := tr[n];
    var count, rounds := |s.receivers|, s.broadcastEpoch - start + 1;
    OneEach(start, tr, n, j, j);
    RoundsWithin(count, rounds, s.popped, |s.buffer|);
    forall m | 0 <= m < s.popped ensures s.buffer[m] <= s.broadcastEpoch { RoundBefore(count, rounds, m); }
  }

  lemma RoundsWithin(count: nat, rounds: nat, popped: nat, all: nat)
    requires count > 0 && popped == count * rounds <= all
    ensures rounds <= all / count
  {
    if rounds > all / count { Scale(count, all / count, rounds); }
  }

  lemma RoundBefore(count: nat, rounds: nat, m: nat)
    requires count > 0 && m < count * rounds
    ensures m / count < rounds
  {
    if m / count >= rounds { Scale(count, rounds, m / count); }
  }

  /** Each epoch brings one message of every other server: no thread is more than one message ahead of another,
      and a thread has put its message of a round when the round is complete. */
  lemma OneEach(start: nat, tr: seq<State>, n: nat, i: nat, j: nat)
    requires Run(start, tr) && n < |tr| && i < |tr[n].receivers| && j < |tr[n].receivers|
    ensures tr[n].receivers[i].taken <= tr[n].receivers[j].taken + 1
    ensures |tr[n].buffer| / |tr[n].receivers| <= tr[n].receivers[j].taken
  {
    RunInv(start, tr, n);
    var s := tr[n];
    assert ReceiverOk(s.receivers[i], s.generation) && ReceiverOk(s.receivers[j], s.generation);
    if j in Through(s) {
      SubsetSize(Through(s), Indices(|s.receivers|));
      AtMost(|s.receivers|, s.generation, |Through(s)|);
    } else {
      SubsetSize(Through(s) + {j}, Indices(|s.receivers|));
      RoundOf(|s.receivers|, s.generation, |Through(s)|);
    }
  }

  lemma AtMost(count: nat, g: nat, r: nat)
    requires r <= count && count > 0
    ensures (count * g + r) / count <= g + 1
  {
    if r < count {
      RoundOf(count, g, r);
    } else {
      RoundOf(count, g + 1, 0);
      assert count * g + r == count * (g + 1) + 0;
    }
  }
}
