/** The update buffer from epoch to epoch: read phases come to an end, and each replaces what the buffer held. */
module BufferEpochs {
  import opened Collections
  import opened Counting
  import opened UpdateBuffer
  import CommitReads

  /******* Read phases end *******/

  /** The steps that a thread has left in its call, with `n` shards. */
  function Rank(pc: Pc, n: nat): int {
    match pc
    case Idle => n + 10
    case Check => n + 9
    case CheckAgain => n + 8
    case AwaitLock => n + 7
    case Locked => n + 6
    case Clearing(c) => n + 5 - if c <= n then c else n
    case LowerFlag => 4
    case Unlock => 3
    case Slot => 2
    case Assign => 1
  }

  function Ranks<W>(threads: seq<Thread<W>>, n: nat): seq<int> {
    seq(|threads|, i requires 0 <= i < |threads| => Rank(threads[i].pc, n))
  }

  function Calls<W>(threads: seq<Thread<W>>): seq<int> {
    seq(|threads|, i requires 0 <= i < |threads| => |threads[i].todo|)
  }

  function RankLeft<W>(s: State<W>): int { Total(Ranks(s.threads, |s.shards|)) }

  function CallsLeft<W>(s: State<W>): int { Total(Calls(s.threads)) }

  lemma NotNegative<W>(s: State<W>)
    ensures RankLeft(s) >= 0 && CallsLeft(s) >= 0
  {
    TotalAtLeast(Ranks(s.threads, |s.shards|));
    TotalAtLeast(Calls(s.threads));
  }

  ghost predicate Less<W>(t: State<W>, s: State<W>) {
    CallsLeft(t) < CallsLeft(s) || (CallsLeft(t) == CallsLeft(s) && RankLeft(t) < RankLeft(s))
  }

  lemma ThreadMoves<W>(threads: seq<Thread<W>>, i: nat, x: Thread<W>, n: nat)
    requires i < |threads|
    ensures Total(Calls(threads[i := x])) == Total(Calls(threads)) - |threads[i].todo| + |x.todo|
    ensures Total(Ranks(threads[i := x], n)) == Total(Ranks(threads, n)) - Rank(threads[i].pc, n) + Rank(x.pc, n)
  {
    TotalUpdate(Calls(threads), i, |x.todo|);
    TotalUpdate(Ranks(threads, n), i, Rank(x.pc, n));
    assert Calls(threads[i := x]) == Calls(threads)[i := |x.todo|];
    assert Ranks(threads[i := x], n) == Ranks(threads, n)[i := Rank(x.pc, n)];
  }

  lemma StepFrame<W>(h: Hash, s: State<W>, i: nat)
    requires CanStep(h, s, i)
    ensures var t := Step(h, s, i);
            && |t.threads| == |s.threads| && t.threads == s.threads[i := t.threads[i]] && |t.shards| == |s.shards|
            && t.history == s.history && t.phase == s.phase
  {
  }

  lemma OwnLess<W>(h: Hash, s: State<W>, i: nat)
    requires CanStep(h, s, i)
    ensures var t, n := Step(h, s, i), |s.shards|;
            i < |t.threads| && var x, y := s.threads[i], t.threads[i];
                               |y.todo| < |x.todo| || (|y.todo| == |x.todo| && Rank(y.pc, n) < Rank(x.pc, n))
  {
  }

  /** Every step of a read phase leaves less to do. */
  lemma StepLess<W>(h: Hash, s: State<W>, i: nat)
    requires CanStep(h, s, i)
    ensures Less(Step(h, s, i), s)
  {
    var t := Step(h, s, i);
    StepFrame(h, s, i);
    OwnLess(h, s, i);
    ThreadMoves(s.threads, i, t.threads[i], |s.shards|);
  }

  /** As long as there are calls to make, some thread can step. */
  lemma SomeoneSteps<W>(h: Hash, s: State<W>) returns (i: nat)
    requires Inv(h, s) && s.phase == Reading && !Through(s)
    ensures CanStep(h, s, i)
  {
    if s.owner.Some? {
      i := s.owner.value;
      assert ThreadOk(s.commitPhase, s.owner, i, s.threads[i]);
    } else {
      i :| i < |s.threads| && s.threads[i].todo != [];
    }
  }

  lemma Extend<W(!new)>(h: Hash, tr: seq<State<W>>, s: State<W>)
    requires Run(h, tr) && Next(h, tr[|tr| - 1], s)
    ensures Run(h, tr + [s])
  {
    var more := tr + [s];
    forall n | 0 < n < |more| ensures StepAt(h, more, n) { assert n < |tr| ==> StepAt(h, tr, n); }
  }

  lemma RunSteps<W(!new)>(h: Hash, tr: seq<State<W>>) returns (i: nat)
    requires Run(h, tr) && tr[|tr| - 1].phase == Reading && !Through(tr[|tr| - 1])
    ensures CanStep(h, tr[|tr| - 1], i)
  {
    RunInv(h, tr, |tr| - 1);
    i := SomeoneSteps(h, tr[|tr| - 1]);
  }

  lemma Onward<W(!new)>(h: Hash, tr: seq<State<W>>) returns (t: State<W>)
    requires Run(h, tr) && tr[|tr| - 1].phase == Reading && !Through(tr[|tr| - 1])
    ensures Run(h, tr + [t]) && Less(t, tr[|tr| - 1])
    ensures t.phase == Reading && t.history == tr[|tr| - 1].history
  {
    var i := RunSteps(h, tr);
    t := Step(h, tr[|tr| - 1], i);
    StepFrame(h, tr[|tr| - 1], i);
    StepLess(h, tr[|tr| - 1], i);
    Extend(h, tr, t);
  }

  /** Every read phase can be brought to its end, by finitely many steps. */
  lemma {:induction false} CanCommit<W(!new)>(h: Hash, tr: seq<State<W>>) returns (whole: seq<State<W>>)
    requires Run(h, tr)
    ensures Run(h, whole) && tr <= whole
    ensures var s, t := tr[|tr| - 1], whole[|whole| - 1]; t.phase == Committing && t.history == s.history
    decreases CallsLeft(tr[|tr| - 1]), RankLeft(tr[|tr| - 1])
  {
    var s := tr[|tr| - 1];
    if s.phase == Committing {
      whole := tr;
    } else if Through(s) {
      Extend(h, tr, s.(phase := Committing));
      whole := tr + [s.(phase := Committing)];
    } else {
      var t := Onward(h, tr);
      NotNegative(s);
      NotNegative(t);
      whole := CanCommit(h, tr + [t]);
    }
  }

  /** After a commit phase the next epoch can begin, with any calls to make. */
  lemma CanBegin<W(!new)>(h: Hash, tr: seq<State<W>>, threads: seq<Thread<W>>, jobs: map<nat, W>)
    requires Run(h, tr) && tr[|tr| - 1].phase == Committing
    requires var s := tr[|tr| - 1];
             Begins(s.(phase := Reading, threads := threads, done := map[], history := s.history + [jobs]))
    ensures var s := tr[|tr| - 1];
            Run(h, tr + [s.(phase := Reading, threads := threads, done := map[], history := s.history + [jobs])])
  {
    var s := tr[|tr| - 1];
    var t := s.(phase := Reading, threads := threads, done := map[], history := s.history + [jobs]);
    assert NextEpoch(s, t);
    Extend(h, tr, t);
  }

  /******* The buffer holds one epoch *******/

  /** A thread is between the two halves of storing `tid`. */
  ghost predicate Halfway<W>(threads: seq<Thread<W>>, tid: nat) {
    exists i: nat :: HalfwayAt(threads, tid, i)
  }

  ghost predicate HalfwayAt<W>(threads: seq<Thread<W>>, tid: nat, i: nat) {
    i < |threads| && threads[i].pc == Assign && threads[i].todo != [] && threads[i].todo[0].tid == tid
  }

  /** Everything in the shards has been stored in this epoch. */
  ghost predicate OnlyNew<W>(shards: seq<map<nat, Option<W>>>, done: map<nat, W>, threads: seq<Thread<W>>) {
    forall k, tid | 0 <= k < |shards| && tid in shards[k] :: tid in done || Halfway(threads, tid)
  }

  /** What a thread that clears the shards has cleared. */
  ghost predicate Cleared<W>(shards: seq<map<nat, Option<W>>>, pc: Pc) {
    && (pc.Clearing? ==> forall k | 0 <= k < |shards| && k < pc.shard :: shards[k] == map[])
    && (pc.LowerFlag? ==> forall k | 0 <= k < |shards| :: shards[k] == map[])
  }

  /** A read phase that began with the flag up: nothing is stored before everything is cleared. */
  ghost predicate Clean<W>(s: State<W>) {
    if s.phase == Reading && s.commitPhase then forall i | 0 <= i < |s.threads| :: Cleared(s.shards, s.threads[i].pc)
    else OnlyNew(s.shards, s.done, s.threads)
  }

  lemma StoreNew<W>(h: Hash, s: State<W>, i: nat)
    requires Inv(h, s) && CanStep(h, s, i) && Storing(s.threads[i].pc) && OnlyNew(s.shards, s.done, s.threads)
    ensures var t := Step(h, s, i); OnlyNew(t.shards, t.done, t.threads)
  {
    var t, x := Step(h, s, i), s.threads[i];
    var job := x.todo[0];
    forall k, tid | 0 <= k < |t.shards| && tid in t.shards[k] ensures tid in t.done || Halfway(t.threads, tid) {
      if tid == job.tid {
        assert x.pc == Slot ==> HalfwayAt(t.threads, tid, i);
      } else {
        assert tid in s.shards[k];
        if tid !in s.done {
          var j: nat :| HalfwayAt(s.threads, tid, j);
          assert j != i && HalfwayAt(t.threads, tid, j);
        }
      }
    }
  }

  lemma MoveSame<W>(h: Hash, s: State<W>, i: nat)
    requires CanStep(h, s, i) && ThreadOk(s.commitPhase, s.owner, i, s.threads[i])
    requires !Storing(s.threads[i].pc) && !s.commitPhase
    ensures var t := Step(h, s, i); t.shards == s.shards && t.done == s.done && !t.commitPhase
  {
  }

  lemma MoveNew<W>(h: Hash, s: State<W>, i: nat)
    requires CanStep(h, s, i) && ThreadOk(s.commitPhase, s.owner, i, s.threads[i])
    requires !Storing(s.threads[i].pc) && !s.commitPhase && OnlyNew(s.shards, s.done, s.threads)
    ensures var t := Step(h, s, i); OnlyNew(t.shards, t.done, t.threads) && !t.commitPhase
  {
    var t := Step(h, s, i);
    MoveSame(h, s, i);
    StepFrame(h, s, i);
    forall k, tid | 0 <= k < |t.shards| && tid in t.shards[k] ensures tid in t.done || Halfway(t.threads, tid) {
      if tid !in s.done {
        var j: nat :| HalfwayAt(s.threads, tid, j);
        assert j != i && HalfwayAt(t.threads, tid, j);
      }
    }
  }

  lemma ClearsOn<W>(h: Hash, s: State<W>, i: nat)
    requires Threads(s) && CanStep(h, s, i) && s.commitPhase && Clean(s)
    ensures Clean(Step(h, s, i))
  {
    var t := Step(h, s, i);
    StepFrame(h, s, i);
    assert ThreadOk(s.commitPhase, s.owner, i, s.threads[i]) && Cleared(s.shards, s.threads[i].pc);
    if s.threads[i].pc.LowerFlag? {
      assert forall k | 0 <= k < |t.shards| :: t.shards[k] == map[];
    } else {
      forall j | 0 <= j < |t.threads| ensures Cleared(t.shards, t.threads[j].pc) {
        assert Cleared(s.shards, s.threads[j].pc);
      }
    }
  }

  lemma StepClean<W>(h: Hash, s: State<W>, i: nat)
    requires Inv(h, s) && CanStep(h, s, i) && Clean(s)
    ensures Clean(Step(h, s, i))
  {
    assert ThreadOk(s.commitPhase, s.owner, i, s.threads[i]);
    if s.commitPhase {
      ClearsOn(h, s, i);
    } else if Storing(s.threads[i].pc) {
      StoreNew(h, s, i);
    } else {
      MoveNew(h, s, i);
    }
  }

  /** An epoch with transactions has lowered the flag by the end of its read phase. */
  lemma FlagIsDown<W>(h: Hash, s: State<W>, tid: nat)
    requires Inv(h, s) && s.phase == Reading && Through(s) && tid in Jobs(s)
    ensures !s.commitPhase
  {
    ThroughMeans(h, s, tid);
  }

  lemma CommitsClean<W>(h: Hash, s: State<W>, t: State<W>, tid: nat)
    requires Inv(h, s) && Clean(s) && Commit(h, s, t, tid)
    ensures Clean(t) && t.history == s.history
  {
    CommitKeeps(h, s, t, tid);
  }

  lemma FlagClean<W>(h: Hash, s: State<W>, t: State<W>, tid: nat)
    requires Inv(h, s) && Clean(s) && (StartCommit(s, t) || Raise(s, t)) && tid in Jobs(s)
    ensures Clean(t) && t.history == s.history
  {
    if StartCommit(s, t) { FlagIsDown(h, s, tid); }
  }

  lemma NextClean<W(!new)>(h: Hash, s: State<W>, t: State<W>, tid: nat)
    requires Inv(h, s) && Clean(s) && Next(h, s, t) && |t.history| == |s.history| && tid in Jobs(s)
    ensures Clean(t) && t.history == s.history
  {
    if StartCommit(s, t) || Raise(s, t) {
      FlagClean(h, s, t, tid);
    } else if tid': nat :| Commit(h, s, t, tid') {
      CommitsClean(h, s, t, tid');
    } else {
      var i: nat :| CanStep(h, s, i) && t == Step(h, s, i);
      StepClean(h, s, i);
      StepFrame(h, s, i);
    }
  }

  /** From the beginning of an epoch that finds the flag up to its end. */
  lemma {:induction false} EpochClean<W(!new)>(h: Hash, tr: seq<State<W>>, m: nat, n: nat, tid: nat)
    requires Run(h, tr) && m <= n < |tr| && Begins(tr[m]) && tr[m].commitPhase && |tr[n].history| == |tr[m].history|
    requires tid in Jobs(tr[m])
    ensures Clean(tr[n]) && tr[n].history == tr[m].history
    decreases n
  {
    if m < n {
      HistoryGrows(h, tr, m, n - 1);
      CommitReads.StepStays(h, tr, n, tid);
      EpochClean(h, tr, m, n - 1, tid);
      RunClean(h, tr, n, tid);
    }
  }

  lemma RunClean<W(!new)>(h: Hash, tr: seq<State<W>>, n: nat, tid: nat)
    requires Run(h, tr) && 0 < n < |tr| && Clean(tr[n - 1]) && |tr[n].history| == |tr[n - 1].history|
    requires tr[n - 1].history != [] && tid in Jobs(tr[n - 1])
    ensures Clean(tr[n]) && tr[n].history == tr[n - 1].history
  {
    RunInv(h, tr, n - 1);
    assert StepAt(h, tr, n);
    NextClean(h, tr[n - 1], tr[n], tid);
  }

  lemma {:induction false} HistoryGrows<W(!new)>(h: Hash, tr: seq<State<W>>, m: nat, n: nat)
    requires Run(h, tr) && m <= n < |tr|
    ensures |tr[m].history| <= |tr[n].history|
    decreases n
  {
    if m < n {
      HistoryGrows(h, tr, m, n - 1);
      CommitReads.StepStays(h, tr, n, 0);
    }
  }

  /** A raised flag stays up until the next epoch begins. */
  lemma {:induction false} FlagStays<W(!new)>(h: Hash, tr: seq<State<W>>, r: nat, m: nat)
    requires Run(h, tr) && r < m < |tr| && Raise(tr[r], tr[r + 1]) && |tr[m].history| <= |tr[r].history| + 1
    ensures |tr[m].history| == |tr[r].history| ==> tr[m].phase == Committing && tr[m].commitPhase
    ensures |tr[m].history| == |tr[r].history| + 1 && |tr[m - 1].history| == |tr[r].history| ==>
              Begins(tr[m]) && tr[m].commitPhase
    decreases m
  {
    if r + 1 < m {
      HistoryGrows(h, tr, r, m - 1);
      CommitReads.StepStays(h, tr, m, 0);
      FlagStays(h, tr, r, m - 1);
      assert StepAt(h, tr, m);
    }
  }

  /** Over whole runs: when a commit phase has raised the flag, then at the end of the read phase after it, and
      until the next epoch, the buffer holds the ids of the transactions of that epoch and no others. */
  lemma EpochReplaces<W(!new)>(h: Hash, tr: seq<State<W>>, r: nat, m: nat, n: nat, first: nat, tid: nat, k: nat)
    requires Run(h, tr) && r < m <= n < |tr| && Raise(tr[r], tr[r + 1])
    requires |tr[r].history| == |tr[m - 1].history| && |tr[m].history| == |tr[n].history| == |tr[r].history| + 1
    requires tr[n].phase == Committing && tr[n].history != [] && first in Jobs(tr[n])
    requires k < |tr[n].shards| && tid in tr[n].shards[k]
    ensures tid in Jobs(tr[n]) && Present(h, tr[n].shards, tid, Jobs(tr[n])[tid])
  {
    FlagStays(h, tr, r, m);
    RunInv(h, tr, n);
    SameJobsLater(h, tr, m, n);
    EpochClean(h, tr, m, n, first);
    NothingHalfway(tr[n], tid, k);
    ThroughMeans(h, tr[n], tid);
  }

  lemma NothingHalfway<W>(s: State<W>, tid: nat, k: nat)
    requires Through(s) && OnlyNew(s.shards, s.done, s.threads) && k < |s.shards| && tid in s.shards[k]
    ensures tid in s.done
  {
  }

  lemma {:induction false} SameJobsLater<W(!new)>(h: Hash, tr: seq<State<W>>, m: nat, n: nat)
    requires Run(h, tr) && m <= n < |tr| && |tr[n].history| == |tr[m].history|
    ensures tr[n].history == tr[m].history
    decreases n
  {
    if m < n {
      HistoryGrows(h, tr, m, n - 1);
      CommitReads.StepStays(h, tr, n, 0);
      SameJobsLater(h, tr, m, n - 1);
      assert StepAt(h, tr, n);
      SameLength(h, tr[n - 1], tr[n]);
    }
  }

  lemma SameLength<W(!new)>(h: Hash, s: State<W>, t: State<W>)
    requires Next(h, s, t) && |t.history| == |s.history|
    ensures t.history == s.history
  {
    if i: nat :| CanStep(h, s, i) && t == Step(h, s, i) { StepFrame(h, s, i); }
  }
}
