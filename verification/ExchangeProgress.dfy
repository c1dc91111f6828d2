/** An exchange comes to its end: the coordinator gets all messages of an epoch and goes on. */
module ExchangeProgress {
  import opened Collections
  import opened Counting
  import opened Exchange

  /** How far a receiving thread is from its next message. */
  function Distance(pc: Pc): int {
    match pc case Ready => 0 case Released => 1 case Blocked => 2 case AtBarrier => 3
  }

  function Distances(receivers: seq<Receiver>): seq<int> {
    seq(|receivers|, j requires 0 <= j < |receivers| => Distance(receivers[j].pc))
  }

  /** What is left before there is a message to take. */
  function Missing(s: State): int { if s.popped < |s.buffer| then 0 else 1 + Total(Distances(s.receivers)) }

  lemma {:induction false} TotalLess(a: seq<int>, b: seq<int>, k: nat)
    requires k < |a| == |b| && a[k] < b[k] && forall i | 0 <= i < |a| :: a[i] <= b[i]
    ensures Total(a) < Total(b)
    decreases |a|
  {
    var n := |a| - 1;
    if k < n { TotalLess(a[..n], b[..n], k); } else { TotalAtMost(a[..n], b[..n]); }
  }

  lemma {:induction false} TotalAtMost(a: seq<int>, b: seq<int>)
    requires |a| == |b| && forall i | 0 <= i < |a| :: a[i] <= b[i]
    ensures Total(a) <= Total(b)
    decreases |a|
  {
    if a != [] { TotalAtMost(a[..|a| - 1], b[..|a| - 1]); }
  }

  lemma NotNegative(s: State)
    ensures Missing(s) >= 0
  {
    TotalAtLeast(Distances(s.receivers));
  }

  /** A step of one thread towards its next message brings all of them closer. */
  lemma Closer(s: State, t: State, j: nat)
    requires Await(s, t, j) || Wake(s, t, j)
    ensures Total(Distances(t.receivers)) < Total(Distances(s.receivers))
  {
    TotalLess(Distances(t.receivers), Distances(s.receivers), j);
  }

  lemma AllWait(s: State)
    requires forall q | 0 <= q < |s.receivers| :: s.receivers[q].pc == Blocked
    ensures |Waiting(s)| == |s.receivers|
  {
    assert Waiting(s) == Indices(|s.receivers|);
  }

  /** Not all threads wait in the barrier. */
  lemma SomeoneOutside(start: nat, s: State) returns (j: nat)
    requires Inv(start, s)
    ensures j < |s.receivers| && s.receivers[j].pc != Blocked
  {
    if forall q | 0 <= q < |s.receivers| :: s.receivers[q].pc == Blocked {
      AllWait(s);
      assert false;
    }
    j :| j < |s.receivers| && s.receivers[j].pc != Blocked;
  }

  /** While the coordinator lacks a message, a receiving thread can step, and brings it closer. */
  lemma MessageComes(start: nat, s: State) returns (t: State)
    requires Inv(start, s) && s.popped == |s.buffer|
    ensures Next(start, s, t) && Missing(t) < Missing(s)
    ensures t.left == s.left && t.hands == s.hands && t.broadcastEpoch == s.broadcastEpoch
  {
    var j := SomeoneOutside(start, s);
    var x := s.receivers[j];
    NotNegative(s);
    match x.pc
    case Ready =>
      t := s.(receivers := s.receivers[j := Receiver(x.taken + 1, AtBarrier)], buffer := s.buffer + [start + x.taken]);
      assert Put(start, s, t, j) && StepOf(start, s, t, j);
      TotalAtLeast(Distances(s.receivers));
    case AtBarrier =>
      t := if s.currentWaits + 1 >= |s.receivers| then
             s.(receivers := Notified(s.receivers)[j := x.(pc := Ready)], currentWaits := 0,
                generation := s.generation + 1)
           else s.(receivers := s.receivers[j := x.(pc := Blocked)], currentWaits := s.currentWaits + 1);
      assert Await(s, t, j) && StepOf(start, s, t, j);
      Closer(s, t, j);
    case Released =>
      t := s.(receivers := s.receivers[j := x.(pc := Ready)]);
      assert Wake(s, t, j) && StepOf(start, s, t, j);
      Closer(s, t, j);
  }

  lemma Extend(start: nat, tr: seq<State>, s: State)
    requires Run(start, tr) && Next(start, tr[|tr| - 1], s)
    ensures Run(start, tr + [s])
  {
    var more := tr + [s];
    forall n | 0 < n < |more| ensures StepAt(start, more, n) { assert n < |tr| ==> StepAt(start, tr, n); }
  }

  /** The coordinator takes what is there, and signals what it has. */
  lemma CoordinatorMoves(start: nat, s: State) returns (t: State)
    requires s.hands != [] || (s.left > 0 && s.popped < |s.buffer|)
    ensures Next(start, s, t) && t.broadcastEpoch == s.broadcastEpoch
    ensures t.left < s.left || (t.left == s.left && |t.hands| < |s.hands|)
  {
    if s.hands != [] {
      t := s.(hands := s.hands[..0] + s.hands[1..]);
      assert Signal(s, t, 0);
    } else {
      t := s.(popped := s.popped + 1, left := s.left - 1, hands := s.hands + [s.buffer[s.popped]]);
      assert Pop(s, t);
    }
  }

  lemma Onward(start: nat, tr: seq<State>) returns (t: State)
    requires Run(start, tr) && (tr[|tr| - 1].left > 0 || tr[|tr| - 1].hands != [])
    ensures Run(start, tr + [t]) && t.broadcastEpoch == tr[|tr| - 1].broadcastEpoch
    ensures var s := tr[|tr| - 1];
            || t.left < s.left || (t.left == s.left && |t.hands| < |s.hands|)
            || (t.left == s.left && t.hands == s.hands && Missing(t) < Missing(s))
  {
    var s := tr[|tr| - 1];
    RunInv(start, tr, |tr| - 1);
    if s.hands != [] || s.popped < |s.buffer| { t := CoordinatorMoves(start, s); } else { t := MessageComes(start, s); }
    Extend(start, tr, t);
  }

  /** Every run can be continued until the coordinator has all messages of the epoch it is aggregating. */
  lemma {:induction false} CanCollect(start: nat, tr: seq<State>) returns (whole: seq<State>)
    requires Run(start, tr)
    ensures Run(start, whole) && tr <= whole
    ensures var s, t := tr[|tr| - 1], whole[|whole| - 1];
            t.left == 0 && t.hands == [] && t.broadcastEpoch == s.broadcastEpoch
    decreases tr[|tr| - 1].left, |tr[|tr| - 1].hands|, Missing(tr[|tr| - 1])
  {
    var s := tr[|tr| - 1];
    if s.left == 0 && s.hands == [] {
      whole := tr;
    } else {
      var t := Onward(start, tr);
      NotNegative(s);
      NotNegative(t);
      whole := CanCollect(start, tr + [t]);
    }
  }

  /** Every run can be continued into the exchange of the next epoch. */
  lemma CanGoOn(start: nat, tr: seq<State>) returns (whole: seq<State>)
    requires Run(start, tr)
    ensures Run(start, whole) && tr <= whole
    ensures whole[|whole| - 1].broadcastEpoch == tr[|tr| - 1].broadcastEpoch + 1
  {
    var all := CanCollect(start, tr);
    var s := all[|all| - 1];
    var t := s.(broadcastEpoch := s.broadcastEpoch + 1, left := |s.receivers|);
    assert Aggregate(s, t) && Coordinator(s, t);
    Extend(start, all, t);
    whole := all + [t];
  }
}
