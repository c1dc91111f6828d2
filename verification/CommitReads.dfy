/** What commits find in the update buffer, over whole runs. */
module CommitReads {
  import opened UpdateBuffer

  /** Nothing buffered in an epoch is erased in it: from the end of its call until the next epoch begins,
      a write set stays in the buffer. */
  lemma NeverErased<W(!new)>(h: Hash, tr: seq<State<W>>, m: nat, n: nat, tid: nat)
    requires Run(h, tr) && m <= n < |tr| && tid in tr[m].done && |tr[n].history| == |tr[m].history|
    ensures tid in tr[n].done && tr[n].done[tid] == tr[m].done[tid] && Present(h, tr[n].shards, tid, tr[m].done[tid])
  {
    DoneKept(h, tr, m, n, tid);
    RunInv(h, tr, n);
  }

  lemma {:induction false} DoneKept<W(!new)>(h: Hash, tr: seq<State<W>>, m: nat, n: nat, tid: nat)
    requires Run(h, tr) && m <= n < |tr| && tid in tr[m].done
    ensures |tr[m].history| <= |tr[n].history|
    ensures |tr[n].history| == |tr[m].history| ==> tid in tr[n].done && tr[n].done[tid] == tr[m].done[tid]
  {
    if m < n {
      DoneKept(h, tr, m, n - 1, tid);
      StepStays(h, tr, n, tid);
    }
  }

  lemma StepStays<W(!new)>(h: Hash, tr: seq<State<W>>, n: nat, tid: nat)
    requires Run(h, tr) && 0 < n < |tr|
    ensures var s, t := tr[n - 1], tr[n];
            && |s.history| <= |t.history|
            && (|t.history| == |s.history| && tid in s.done ==> tid in t.done && t.done[tid] == s.done[tid])
  {
    var s, t := tr[n - 1], tr[n];
    assert StepAt(h, tr, n);
    DistinctAt(h, tr, n - 1);
    DoneStays(h, s, t, tid);
  }

  lemma DistinctAt<W(!new)>(h: Hash, tr: seq<State<W>>, n: nat)
    requires Run(h, tr) && n < |tr|
    ensures NotDone(tr[n].threads, tr[n].done)
  {
    RunInv(h, tr, n);
  }

  /** The call a thread makes next has not been made. */
  ghost predicate NotDone<W>(threads: seq<Thread<W>>, done: map<nat, W>) {
    forall i | 0 <= i < |threads| && threads[i].todo != [] :: threads[i].todo[0].tid !in done
  }

  lemma StepDone<W>(h: Hash, s: State<W>, i: nat)
    requires CanStep(h, s, i)
    ensures var job := s.threads[i].todo[0]; Step(h, s, i).done in {s.done, s.done[job.tid := job.writeSet]}
  {
  }

  lemma DoneStays<W(!new)>(h: Hash, s: State<W>, t: State<W>, tid: nat)
    requires NotDone(s.threads, s.done) && Next(h, s, t)
    ensures |s.history| <= |t.history|
    ensures |t.history| == |s.history| && tid in s.done ==> tid in t.done && t.done[tid] == s.done[tid]
  {
    if i: nat :| CanStep(h, s, i) && t == Step(h, s, i) {
      StepDone(h, s, i);
      assert s.threads[i].todo[0].tid !in s.done;
    }
  }

  /** Every call of the epoch has been made with its write set or is still to be made. */
  lemma CallsKept<W(!new)>(h: Hash, tr: seq<State<W>>, n: nat, tid: nat)
    requires Run(h, tr) && n < |tr| && tr[n].history != [] && tid in Jobs(tr[n])
    ensures if tid in tr[n].done then tr[n].done[tid] == Jobs(tr[n])[tid] else ToDo(tr[n].threads, tid)
  {
    RunInv(h, tr, n);
  }

  /** Throughout a commit phase the buffer holds the write set of every transaction of the epoch. */
  lemma AllBuffered<W(!new)>(h: Hash, tr: seq<State<W>>, n: nat, tid: nat)
    requires Run(h, tr) && n < |tr| && tr[n].phase == Committing && tr[n].history != [] && tid in Jobs(tr[n])
    ensures Present(h, tr[n].shards, tid, Jobs(tr[n])[tid])
  {
    RunInv(h, tr, n);
    ThroughMeans(h, tr[n], tid);
  }

  /** Over whole runs of any number of epochs: what a commit finds in the buffer is the write set that was
      buffered for its transaction in the same epoch, also if the id was there in earlier epochs. */
  lemma CommitsFindTheirOwn<W(!new)>(h: Hash, tr: seq<State<W>>, n: nat, k: nat)
    requires Run(h, tr) && n < |tr| && k < |tr[n].found|
    ensures FoundAt(tr[n].history, tr[n].found[k])
  {
    RunInv(h, tr, n);
  }
}
