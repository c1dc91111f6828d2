/** Buffering write sets in the read phase of every epoch, from many threads at once, into a map made
    of locked shards, and reading them back in the commit phase. The entries of the previous epoch are
    dropped lazily, by the first thread of a read phase that finds the commit flag up.

    Read and commit phases alternate; that they do not overlap is phase separation. */
module UpdateBuffer {
  import opened Collections

  datatype Job<W> = Job(tid: nat, writeSet: W)

  /** Where a thread is in one call: outside, before the two checks of the flag without the lock, before
      the lock, inside it, clearing a shard, lowering the flag, leaving, and before the two halves of
      the store into the map. */
  datatype Pc =
    Idle | Check | CheckAgain | AwaitLock | Locked | Clearing(shard: nat) | LowerFlag | Unlock | Slot | Assign

  datatype Thread<W> = Thread(todo: seq<Job<W>>, pc: Pc)

  datatype Phase = Reading | Committing

  /** What a commit found under the id of its transaction. */
  datatype Found<W> = Found(epoch: nat, tid: nat, value: Option<W>)

  /** A slot is there without a value between the two halves of a store. `done` are the finished calls
      of the epoch, `history` the calls of every epoch so far, the current one last, and `found` what
      commits have found. */
  datatype State<W> = State(
    shards: seq<map<nat, Option<W>>>, commitPhase: bool, owner: Option<nat>, threads: seq<Thread<W>>,
    phase: Phase, done: map<nat, W>, history: seq<map<nat, W>>, found: seq<Found<W>>)

  type Hash = nat -> nat

  ghost predicate Hashes(h: Hash, n: nat) { forall tid: nat :: h(tid) < n }

  /** The calls of the current epoch. */
  function Jobs<W>(s: State<W>): map<nat, W>
    requires s.history != []
  {
    s.history[|s.history| - 1]
  }

  /******* Steps of one thread in a read phase *******/

  function Put<W>(shards: seq<map<nat, Option<W>>>, k: nat, tid: nat, v: Option<W>): seq<map<nat, Option<W>>>
    requires k < |shards|
  {
    var shard: map<nat, Option<W>> := shards[k][tid := v];
    shards[k := shard]
  }

  /** What is stored under an id; a missing entry is made without a value. */
  function SlotOf<W>(shards: seq<map<nat, Option<W>>>, k: nat, tid: nat): Option<W>
    requires k < |shards|
  {
    if tid in shards[k] then shards[k][tid] else None
  }

  /** A step that changes only the thread. */
  function Goto<W>(s: State<W>, i: nat, pc: Pc): State<W>
    requires i < |s.threads|
  {
    s.(threads := s.threads[i := s.threads[i].(pc := pc)])
  }

  ghost predicate CanStep<W>(h: Hash, s: State<W>, i: nat) {
    && s.phase == Reading && i < |s.threads|
    && var x := s.threads[i];
       && x.todo != [] && h(x.todo[0].tid) < |s.shards|
       && (x.pc == AwaitLock ==> s.owner == None)
  }

  ghost function Step<W>(h: Hash, s: State<W>, i: nat): State<W>
    requires CanStep(h, s, i)
  {
    var x := s.threads[i];
    var job := x.todo[0];
    var k := h(job.tid);
    match x.pc
    case Idle => Goto(s, i, Check)
    case Check => Goto(s, i, if s.commitPhase then CheckAgain else Slot)
    case CheckAgain => Goto(s, i, if s.commitPhase then AwaitLock else Slot)
    case AwaitLock => Goto(s, i, Locked).(owner := Some(i))
    case Locked => Goto(s, i, if s.commitPhase then Clearing(0) else Unlock)
    case Clearing(c) =>
      if c < |s.shards| then Goto(s, i, Clearing(c + 1)).(shards := s.shards[c := map[]]) else Goto(s, i, LowerFlag)
    case LowerFlag => Goto(s, i, Unlock).(commitPhase := false)
    case Unlock => Goto(s, i, Slot).(owner := None)
    case Slot => Goto(s, i, Assign).(shards := Put(s.shards, k, job.tid, SlotOf(s.shards, k, job.tid)))
    case Assign =>
      s.(threads := s.threads[i := Thread(x.todo[1..], Idle)],
         shards := Put(s.shards, k, job.tid, Some(job.writeSet)), done := s.done[job.tid := job.writeSet])
  }

  /******* Steps of the epoch *******/

  ghost predicate Through<W>(s: State<W>) {
    forall i | 0 <= i < |s.threads| :: s.threads[i].todo == []
  }

  ghost predicate StartCommit<W>(s: State<W>, t: State<W>) {
    s.phase == Reading && Through(s) && t == s.(phase := Committing)
  }

  /** A commit, or an abort for any reason but a write-write conflict, raises the flag. */
  ghost predicate Raise<W>(s: State<W>, t: State<W>) {
    s.phase == Committing && t == s.(commitPhase := true)
  }

  /** A commit of a transaction of the epoch reads its slot. */
  ghost predicate Commit<W>(h: Hash, s: State<W>, t: State<W>, tid: nat) {
    && s.phase == Committing && s.history != [] && tid in Jobs(s) && h(tid) < |s.shards|
    && var v := SlotOf(s.shards, h(tid), tid);
       t == s.(shards := Put(s.shards, h(tid), tid, v), found := s.found + [Found(|s.history| - 1, tid, v)])
  }

  /** The next epoch: the threads get new calls to make, possibly for ids that were there before. */
  ghost predicate NextEpoch<W>(s: State<W>, t: State<W>) {
    && s.phase == Committing && Begins(t)
    && t == s.(phase := Reading, threads := t.threads, done := map[], history := t.history)
    && |t.history| == |s.history| + 1 && t.history[..|s.history|] == s.history
  }

  /** The calls to make are those of the epoch, each once. */
  ghost predicate Begins<W>(s: State<W>) {
    && s.phase == Reading && s.done == map[] && s.history != []
    && (forall i | 0 <= i < |s.threads| :: s.threads[i].pc == Idle)
    && DistinctJobs(s) && JobsOk(s)
  }

  ghost predicate Next<W(!new)>(h: Hash, s: State<W>, t: State<W>) {
    || (exists i: nat :: CanStep(h, s, i) && t == Step(h, s, i))
    || StartCommit(s, t) || Raise(s, t) || (exists tid: nat :: Commit(h, s, t, tid)) || NextEpoch(s, t)
  }

  /** Any contents of the buffer and either position of the flag. */
  ghost predicate Init<W>(s: State<W>) {
    s.owner == None && s.found == [] && |s.history| == 1 && Begins(s)
  }

  ghost predicate Run<W(!new)>(h: Hash, tr: seq<State<W>>) {
    tr != [] && Init(tr[0]) && Hashes(h, |tr[0].shards|) && forall n | 0 < n < |tr| :: StepAt(h, tr, n)
  }

  /** Moment `n` of a run comes from the one before by a step. */
  ghost predicate StepAt<W(!new)>(h: Hash, tr: seq<State<W>>, n: nat)
    requires 0 < n < |tr|
  {
    Next(h, tr[n - 1], tr[n])
  }

  /******* The invariant *******/

  /** Every transaction is buffered by one call. */
  ghost predicate DistinctJobs<W>(s: State<W>) {
    && (forall i, k, j, l | 0 <= i < |s.threads| && 0 <= j < |s.threads| && 0 <= k < |s.threads[i].todo|
       && 0 <= l < |s.threads[j].todo| ::
          s.threads[i].todo[k].tid == s.threads[j].todo[l].tid ==> i == j && k == l)
    && (forall i, k | 0 <= i < |s.threads| && 0 <= k < |s.threads[i].todo| :: s.threads[i].todo[k].tid !in s.done)
  }

  /** A call that is still to be made. */
  ghost predicate ToDo<W>(threads: seq<Thread<W>>, tid: nat) {
    exists i: nat, k: nat :: i < |threads| && k < |threads[i].todo| && threads[i].todo[k].tid == tid
  }

  /** Every call that is made or to be made is one of the epoch, with its write set, and there are no others. */
  ghost predicate JobsOk<W>(s: State<W>)
    requires s.history != []
  {
    && (forall i: nat, k: nat | i < |s.threads| && k < |s.threads[i].todo| :: Belongs(s.threads[i].todo[k], Jobs(s)))
    && (forall tid | tid in s.done :: tid in Jobs(s) && s.done[tid] == Jobs(s)[tid])
    && (forall tid | tid in Jobs(s) :: tid in s.done || ToDo(s.threads, tid))
  }

  predicate Belongs<W(==)>(job: Job<W>, jobs: map<nat, W>) {
    job.tid in jobs && jobs[job.tid] == job.writeSet
  }

  predicate Holds(pc: Pc) { pc.Locked? || pc.Clearing? || pc.LowerFlag? || pc.Unlock? }

  predicate Storing(pc: Pc) { pc.Slot? || pc.Assign? }

  ghost predicate ThreadOk<W>(commitPhase: bool, owner: Option<nat>, i: nat, x: Thread<W>) {
    && (Holds(x.pc) <==> owner == Some(i))
    && (x.pc.Clearing? || x.pc.LowerFlag? ==> commitPhase)
    && (commitPhase ==> !Storing(x.pc) && !x.pc.Unlock?)
    && (x.todo == [] ==> x.pc == Idle)
  }

  ghost predicate Present<W>(h: Hash, shards: seq<map<nat, Option<W>>>, tid: nat, w: W) {
    h(tid) < |shards| && tid in shards[h(tid)] && shards[h(tid)][tid] == Some(w)
  }

  ghost predicate Threads<W>(s: State<W>) {
    && (s.owner.Some? ==> s.owner.value < |s.threads|)
    && forall i | 0 <= i < |s.threads| :: ThreadOk(s.commitPhase, s.owner, i, s.threads[i])
  }

  ghost predicate Buffer<W>(h: Hash, s: State<W>) {
    forall tid | tid in s.done :: Present(h, s.shards, tid, s.done[tid])
  }

  /** Every commit has found the write set of its transaction in its own epoch. */
  ghost predicate FoundOk<W>(history: seq<map<nat, W>>, found: seq<Found<W>>) {
    forall k | 0 <= k < |found| :: FoundAt(history, found[k])
  }

  ghost predicate FoundAt<W>(history: seq<map<nat, W>>, f: Found<W>) {
    f.epoch < |history| && f.tid in history[f.epoch] && f.value == Some(history[f.epoch][f.tid])
  }

  ghost predicate Inv<W>(h: Hash, s: State<W>) {
    && Hashes(h, |s.shards|) && DistinctJobs(s) && Threads(s) && Buffer(h, s)
    && s.history != [] && JobsOk(s) && FoundOk(s.history, s.found)
    && (if s.phase == Reading then s.commitPhase ==> s.done == map[] else Through(s))
  }

  /******* Steps keep it *******/

  /** One call less to make and one more done. */
  lemma StoreJobs<W>(s: State<W>, t: State<W>, i: nat)
    requires s.history != [] && JobsOk(s) && i < |s.threads| && s.threads[i].todo != [] && t.history == s.history
    requires t.threads == s.threads[i := Thread(s.threads[i].todo[1..], Idle)]
    requires var job := s.threads[i].todo[0]; t.done == s.done[job.tid := job.writeSet]
    ensures JobsOk(t)
  {
    var job, todo := s.threads[i].todo[0], s.threads[i].todo;
    assert Belongs(job, Jobs(s));
    forall j: nat, k: nat | j < |t.threads| && k < |t.threads[j].todo| ensures Belongs(t.threads[j].todo[k], Jobs(t)) {
      assert Belongs(s.threads[j].todo[if j == i then k + 1 else k], Jobs(s));
    }
    forall tid | tid in Jobs(t) && tid !in t.done ensures ToDo(t.threads, tid) {
      assert ToDo(s.threads, tid);
      var j: nat, k: nat :| j < |s.threads| && k < |s.threads[j].todo| && s.threads[j].todo[k].tid == tid;
      assert t.threads[j].todo[if j == i then k - 1 else k].tid == tid;
    }
  }

  lemma StoreThreads<W>(h: Hash, s: State<W>, i: nat)
    requires Threads(s) && CanStep(h, s, i) && Storing(s.threads[i].pc)
    ensures Threads(Step(h, s, i)) && !s.commitPhase
  {
    assert ThreadOk(s.commitPhase, s.owner, i, s.threads[i]);
  }

  lemma StoreBuffer<W>(h: Hash, s: State<W>, i: nat)
    requires Buffer(h, s) && DistinctJobs(s) && Hashes(h, |s.shards|) && CanStep(h, s, i) && Storing(s.threads[i].pc)
    ensures Buffer(h, Step(h, s, i)) && DistinctJobs(Step(h, s, i))
  {
    var t, job := Step(h, s, i), s.threads[i].todo[0];
    assert job.tid !in s.done;
    forall tid | tid in t.done ensures Present(h, t.shards, tid, t.done[tid]) {
      assert tid in s.done ==> Present(h, s.shards, tid, s.done[tid]);
    }
  }

  lemma StoreKeeps<W>(h: Hash, s: State<W>, i: nat)
    requires Inv(h, s) && CanStep(h, s, i) && Storing(s.threads[i].pc)
    ensures Inv(h, Step(h, s, i))
  {
    StoreThreads(h, s, i);
    StoreBuffer(h, s, i);
    if s.threads[i].pc == Assign { StoreJobs(s, Step(h, s, i), i); } else { SameJobs(s, Step(h, s, i)); }
  }

  /** Steps that do not finish a call keep the jobs apart. */
  lemma SameJobs<W>(s: State<W>, t: State<W>)
    requires DistinctJobs(s) && |t.threads| == |s.threads| && t.done == s.done && s.history != []
             && t.history == s.history && JobsOk(s)
    requires forall i | 0 <= i < |s.threads| :: t.threads[i].todo == s.threads[i].todo
    ensures DistinctJobs(t) && JobsOk(t)
  {
    forall tid | tid in Jobs(t) && tid !in t.done ensures ToDo(t.threads, tid) {
      var i: nat, k: nat :| i < |s.threads| && k < |s.threads[i].todo| && s.threads[i].todo[k].tid == tid;
      assert t.threads[i].todo[k].tid == tid;
    }
  }

  lemma MoveThreads<W>(h: Hash, s: State<W>, i: nat)
    requires Threads(s) && CanStep(h, s, i) && !Storing(s.threads[i].pc)
    ensures Threads(Step(h, s, i))
  {
    assert ThreadOk(s.commitPhase, s.owner, i, s.threads[i]);
  }

  /** The buffer is cleared only while nothing of the epoch is in it. */
  lemma MoveBuffer<W>(h: Hash, s: State<W>, i: nat)
    requires Buffer(h, s) && Threads(s) && (s.commitPhase ==> s.done == map[]) && CanStep(h, s, i)
             && !Storing(s.threads[i].pc)
    ensures var t := Step(h, s, i);
            && Buffer(h, t) && (t.commitPhase ==> t.done == map[]) && |t.shards| == |s.shards|
               && |t.threads| == |s.threads|
            && t.done == s.done && t.history == s.history && t.found == s.found && t.phase == s.phase
            && forall j | 0 <= j < |s.threads| :: t.threads[j].todo == s.threads[j].todo
  {
    assert ThreadOk(s.commitPhase, s.owner, i, s.threads[i]);
    var t := Step(h, s, i);
    forall tid | tid in t.done ensures Present(h, t.shards, tid, t.done[tid]) {
      assert Present(h, s.shards, tid, s.done[tid]);
    }
  }

  lemma MoveKeeps<W>(h: Hash, s: State<W>, i: nat)
    requires Inv(h, s) && CanStep(h, s, i) && !Storing(s.threads[i].pc)
    ensures Inv(h, Step(h, s, i))
  {
    MoveThreads(h, s, i);
    MoveBuffer(h, s, i);
    SameJobs(s, Step(h, s, i));
  }

  /** When a read phase has ended, the buffer holds what every call of the epoch has stored. */
  lemma ThroughMeans<W>(h: Hash, s: State<W>, tid: nat)
    requires Inv(h, s) && Through(s) && tid in Jobs(s)
    ensures tid in s.done && s.done[tid] == Jobs(s)[tid] && Present(h, s.shards, tid, Jobs(s)[tid])
  {
    assert tid in s.done || ToDo(s.threads, tid);
  }

  lemma CommitKeeps<W>(h: Hash, s: State<W>, t: State<W>, tid: nat)
    requires Inv(h, s) && Commit(h, s, t, tid)
    ensures Inv(h, t) && t.shards == s.shards
  {
    ThroughMeans(h, s, tid);
    assert s.shards[h(tid)][tid := Some(Jobs(s)[tid])] == s.shards[h(tid)];
    assert t.shards == s.shards;
    assert FoundAt(t.history, t.found[|s.found|]);
    SameJobs(s, t);
  }

  lemma NextEpochKeeps<W>(h: Hash, s: State<W>, t: State<W>)
    requires Inv(h, s) && NextEpoch(s, t)
    ensures Inv(h, t)
  {
    forall k | 0 <= k < |t.found| ensures FoundAt(t.history, t.found[k]) {
      assert FoundAt(s.history, s.found[k]);
      assert t.history[s.found[k].epoch] == t.history[..|s.history|][s.found[k].epoch];
    }
    NoOwner(s);
  }

  lemma NoOwner<W>(s: State<W>)
    requires Threads(s) && Through(s)
    ensures s.owner == None
  {
    forall i | 0 <= i < |s.threads| ensures s.owner != Some(i) {
      assert ThreadOk(s.commitPhase, s.owner, i, s.threads[i]);
    }
  }

  lemma NextKeeps<W(!new)>(h: Hash, s: State<W>, t: State<W>)
    requires Inv(h, s) && Next(h, s, t)
    ensures Inv(h, t)
  {
    if i: nat :| CanStep(h, s, i) && t == Step(h, s, i) {
      if Storing(s.threads[i].pc) { StoreKeeps(h, s, i); } else { MoveKeeps(h, s, i); }
    } else if tid: nat :| Commit(h, s, t, tid) {
      CommitKeeps(h, s, t, tid);
    } else if NextEpoch(s, t) {
      NextEpochKeeps(h, s, t);
    } else {
      FlagKeeps(h, s, t);
    }
  }

  lemma FlagKeeps<W>(h: Hash, s: State<W>, t: State<W>)
    requires Inv(h, s) && (StartCommit(s, t) || Raise(s, t))
    ensures Inv(h, t)
  {
    SameJobs(s, t);
    forall i | 0 <= i < |t.threads| ensures ThreadOk(t.commitPhase, t.owner, i, t.threads[i]) {
      assert ThreadOk(s.commitPhase, s.owner, i, s.threads[i]);
    }
  }

  lemma {:induction false} RunInv<W(!new)>(h: Hash, tr: seq<State<W>>, n: nat)
    requires Run(h, tr) && n < |tr|
    ensures Inv(h, tr[n])
  {
    if n > 0 {
      RunInv(h, tr, n - 1);
      assert StepAt(h, tr, n);
      NextKeeps(h, tr[n - 1], tr[n]);
    }
  }
}
