/** An epoch can always be brought to its end: no interleaving of the workers leads into a dead end. */
module ScheduleProgress {
  import opened Aria
  import opened Counting
  import opened EpochSchedule

  /******* Steps left *******/

  function ReadCost<V>(list: seq<Txn<V>>, n: nat): nat
    decreases |list| - n
  {
    if n >= |list| then 1 else 2 * OpCount(list[n]) + 1 + ReadCost(list, n + 1)
  }

  function CommitCost<V>(list: seq<Txn<V>>, n: nat): nat
    decreases |list| - n
  {
    if n >= |list| then 1 else |list[n].out.writeSet| + 2 + CommitCost(list, n + 1)
  }

  /** The steps that a worker has left, if none of its swaps fails. */
  function Left<V>(w: Worker<V>): nat {
    match w.pc
    case Reserving(n, j, cas) =>
      var last := 1 + CommitCost(w.list, 0);
      if n >= |w.list| then 1 + last
      else if j >= OpCount(w.list[n]) then 1 + ReadCost(w.list, n + 1) + last
      else 2 * (OpCount(w.list[n]) - j) + (if cas.Load? then 0 else -1) + 1 + ReadCost(w.list, n + 1) + last
    case ReadDone => 1 + CommitCost(w.list, 0)
    case Deciding(n) => CommitCost(w.list, n)
    case Writing(n, j) =>
      if n >= |w.list| then 0
      else if j >= |w.list[n].out.writeSet| then 1 + CommitCost(w.list, n + 1)
      else |w.list[n].out.writeSet| - j + 1 + CommitCost(w.list, n + 1)
    case CommitDone => 0
  }

  /** The worker has loaded a register that has changed since, and will have to load it again. */
  function Stale<V>(regs: Regs, w: Worker<V>): nat {
    if w.pc.Reserving? && w.pc.n < |w.list| && w.pc.j < OpCount(w.list[w.pc.n]) && w.pc.cas.Loaded?
       && Value(regs, Op(w.list[w.pc.n], w.pc.j)) != w.pc.cas.seen
    then 1 else 0
  }

  function Lefts<V>(workers: seq<Worker<V>>): seq<int> {
    seq(|workers|, i requires 0 <= i < |workers| => Left(workers[i]))
  }

  function Stales<V>(regs: Regs, workers: seq<Worker<V>>): seq<int> {
    seq(|workers|, i requires 0 <= i < |workers| => Stale(regs, workers[i]))
  }

  function AllLeft<V>(st: State<V>): int { Total(Lefts(st.workers)) }

  function AllStale<V>(st: State<V>): int { Total(Stales(st.regs, st.workers)) }

  lemma LeftMoves<V>(st: State<V>, i: nat, pc: Pc)
    requires i < |st.workers|
    ensures var w := st.workers[i];
            Total(Lefts(st.workers[i := Worker(w.list, pc)])) == AllLeft(st) - Left(w) + Left(Worker(w.list, pc))
  {
    var w := Worker(st.workers[i].list, pc);
    TotalUpdate(Lefts(st.workers), i, Left(w));
    assert Lefts(st.workers[i := w]) == Lefts(st.workers)[i := Left(w)];
  }

  lemma StaleMoves<V>(st: State<V>, i: nat, pc: Pc)
    requires i < |st.workers|
    ensures var w := st.workers[i];
            Total(Stales(st.regs, st.workers[i := Worker(w.list, pc)])) ==
            AllStale(st) - Stale(st.regs, w) + Stale(st.regs, Worker(w.list, pc))
  {
    var w := Worker(st.workers[i].list, pc);
    TotalUpdate(Stales(st.regs, st.workers), i, Stale(st.regs, w));
    assert Stales(st.regs, st.workers[i := w]) == Stales(st.regs, st.workers)[i := Stale(st.regs, w)];
  }

  /******* Someone has a step that leaves less to do *******/

  ghost predicate Inside<V>(st: State<V>) {
    forall i | 0 <= i < |st.workers| && st.workers[i].pc.Writing? :: st.workers[i].pc.n < |st.workers[i].list|
  }

  lemma StepInside<V>(st: State<V>, st': State<V>, i: nat)
    requires Inside(st) && StepBy(st, st', i)
    ensures Inside(st')
  {
    StepFrame(st, st', i);
  }

  function Go<V>(st: State<V>, i: nat, pc: Pc): State<V>
    requires i < |st.workers|
  {
    st.(workers := st.workers[i := Worker(st.workers[i].list, pc)])
  }

  ghost predicate Less<V>(st': State<V>, st: State<V>) {
    AllLeft(st') < AllLeft(st) || (AllLeft(st') == AllLeft(st) && AllStale(st') < AllStale(st))
  }

  ghost predicate AtRegister<V>(st: State<V>, i: nat) {
    && i < |st.workers| && st.workers[i].pc.Reserving?
    && var w := st.workers[i]; w.pc.n < |w.list| && w.pc.j < OpCount(w.list[w.pc.n])
  }

  /** Loading a register, for the first time or because it has changed. */
  lemma LoadOnward<V>(st: State<V>, i: nat) returns (st': State<V>)
    requires AtRegister(st, i)
    requires var w := st.workers[i];
             w.pc.cas.Load?
             || (Stale(st.regs, w) == 1 && !(w.pc.cas.seen <= w.list[w.pc.n].tid && w.pc.cas.seen != 0))
    ensures StepBy(st, st', i) && Less(st', st)
  {
    var Worker(list, Reserving(n, j, cas)) := st.workers[i];
    var pc := Reserving(n, j, Loaded(Value(st.regs, Op(list[n], j))));
    st' := Go(st, i, pc);
    LeftMoves(st, i, pc);
    StaleMoves(st, i, pc);
  }

  /** Leaving a register to a smaller id, or swapping the own id in. */
  lemma SwapOnward<V>(st: State<V>, i: nat) returns (st': State<V>)
    requires AtRegister(st, i) && st.workers[i].pc.cas.Loaded?
    requires var w := st.workers[i];
             Stale(st.regs, w) == 0 || (w.pc.cas.seen <= w.list[w.pc.n].tid && w.pc.cas.seen != 0)
    ensures StepBy(st, st', i) && Less(st', st)
  {
    var Worker(list, Reserving(n, j, Loaded(seen))) := st.workers[i];
    var pc, tid := Reserving(n, j + 1, Load), list[n].tid;
    st' := Go(st, i, pc).(regs := if seen <= tid && seen != 0 then st.regs else Swap(st.regs, Op(list[n], j), tid));
    LeftMoves(st, i, pc);
  }

  lemma CasOnward<V>(st: State<V>, i: nat) returns (st': State<V>)
    requires AtRegister(st, i)
    ensures StepBy(st, st', i) && Less(st', st)
  {
    var w := st.workers[i];
    if w.pc.cas.Load? || (Stale(st.regs, w) == 1 && !(w.pc.cas.seen <= w.list[w.pc.n].tid && w.pc.cas.seen != 0)) {
      st' := LoadOnward(st, i);
    } else {
      st' := SwapOnward(st, i);
    }
  }

  lemma ReserveOnward<V>(st: State<V>, i: nat) returns (st': State<V>)
    requires i < |st.workers| && st.workers[i].pc.Reserving?
    ensures StepBy(st, st', i) && Less(st', st)
  {
    var Worker(list, Reserving(n, j, cas)) := st.workers[i];
    if n < |list| && j < OpCount(list[n]) {
      st' := CasOnward(st, i);
    } else {
      var pc := if n < |list| then Reserving(n + 1, 0, Load) else ReadDone;
      st' := Go(st, i, pc);
      LeftMoves(st, i, pc);
    }
  }

  lemma DecideOnward<V>(st: State<V>, i: nat) returns (st': State<V>)
    requires i < |st.workers| && st.workers[i].pc.Deciding?
    ensures StepBy(st, st', i) && Less(st', st)
  {
    var Worker(list, Deciding(n)) := st.workers[i];
    var pc, results := CommitDone, st.results;
    if n < |list| {
      if Passes(st.regs, list[n]) {
        pc := Writing(n, 0);
      } else {
        pc, results := Deciding(n + 1), st.results[list[n].tid := false];
      }
    }
    st' := Go(st, i, pc).(results := results);
    LeftMoves(st, i, pc);
  }

  lemma WriteOnward<V>(st: State<V>, i: nat) returns (st': State<V>)
    requires i < |st.workers| && st.workers[i].pc.Writing? && st.workers[i].pc.n < |st.workers[i].list|
    ensures StepBy(st, st', i) && Less(st', st)
  {
    var Worker(list, Writing(n, j)) := st.workers[i];
    if j < |list[n].out.writeSet| {
      st' := Go(st, i, Writing(n, j + 1)).(db := ApplyOne(st.db, list[n].out.writeSet[j]));
      LeftMoves(st, i, Writing(n, j + 1));
    } else {
      st' := Go(st, i, Deciding(n + 1)).(results := st.results[list[n].tid := true]);
      LeftMoves(st, i, Deciding(n + 1));
    }
  }

  lemma StartOnward<V>(st: State<V>, i: nat) returns (st': State<V>)
    requires i < |st.workers| && st.workers[i].pc.ReadDone? && (forall w | w in st.workers :: !w.pc.Reserving?)
    ensures StepBy(st, st', i) && Less(st', st)
  {
    st' := Go(st, i, Deciding(0));
    LeftMoves(st, i, Deciding(0));
  }

  /** As long as the epoch is not finished, some worker has a step after which less is left. */
  lemma Onward<V>(st: State<V>) returns (i: nat, st': State<V>)
    requires Inside(st) && !Finished(st)
    ensures StepBy(st, st', i) && Less(st', st)
  {
    if k: nat :| k < |st.workers| && st.workers[k].pc.Reserving? {
      i := k;
      st' := ReserveOnward(st, i);
    } else {
      i :| i < |st.workers| && st.workers[i].pc != CommitDone;
      match st.workers[i].pc
      case ReadDone => st' := StartOnward(st, i);
      case Deciding(_) => st' := DecideOnward(st, i);
      case Writing(_, _) => st' := WriteOnward(st, i);
    }
  }

  /******* Every run can be finished *******/

  lemma {:induction false} RunInside<V>(s: Db<V>, split: seq<seq<Txn<V>>>, tr: seq<State<V>>, n: nat)
    requires Run(s, split, tr) && n < |tr|
    ensures Inside(tr[n])
  {
    if n > 0 {
      RunInside(s, split, tr, n - 1);
      assert StepAt(tr, n);
      var i: nat :| StepBy(tr[n - 1], tr[n], i);
      StepInside(tr[n - 1], tr[n], i);
    }
  }

  lemma Extend<V>(s: Db<V>, split: seq<seq<Txn<V>>>, tr: seq<State<V>>, st: State<V>)
    requires Run(s, split, tr) && Step(tr[|tr| - 1], st)
    ensures Run(s, split, tr + [st])
  {
    var more := tr + [st];
    forall n | 0 < n < |more| ensures StepAt(more, n) { assert n < |tr| ==> StepAt(tr, n); }
  }

  lemma NotNegative<V>(st: State<V>)
    ensures AllLeft(st) >= 0 && AllStale(st) >= 0
  {
    TotalAtLeast(Lefts(st.workers));
    TotalAtLeast(Stales(st.regs, st.workers));
  }

  /** Every run of every schedule can be continued to one that finishes the epoch. */
  lemma {:induction false} CanFinish<V>(s: Db<V>, split: seq<seq<Txn<V>>>, tr: seq<State<V>>)
    returns (whole: seq<State<V>>)
    requires Run(s, split, tr)
    ensures Run(s, split, whole) && tr <= whole && Finished(whole[|whole| - 1])
    decreases AllLeft(tr[|tr| - 1]), AllStale(tr[|tr| - 1])
  {
    var st := tr[|tr| - 1];
    if Finished(st) {
      whole := tr;
    } else {
      RunInside(s, split, tr, |tr| - 1);
      var i, st' := Onward(st);
      Extend(s, split, tr, st');
      NotNegative(st);
      NotNegative(st');
      whole := CanFinish(s, split, tr + [st']);
    }
  }
}
