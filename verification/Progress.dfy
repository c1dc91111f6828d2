/** Progress of a cluster: servers that wait for each other's messages never block for good. */
module Progress {
  import opened Aria
  import opened Cluster
  import opened EpochChain
  import D = Deployment
  import P = Phases

  /** The server waits for messages of others, or is about to send its own. */
  ghost predicate AtExchange(agg: bool, st: P.State) {
    agg && st.pc == P.Sync(P.ReadPhase, |st.workers|)
  }

  ghost predicate CanStep<V(!new)>(su: Setup<V>, c: Servers<V>) {
    exists c': Servers<V> :: Step(su, c, c')
  }

  lemma MakeMove<V(!new)>(su: Setup<V>, c: Servers<V>, i: nat, v': Server<V>)
    requires i < |c| && (Move(su, c, i, v') || Send(su.agg, c[i], v'))
    ensures CanStep(su, c)
  {
    var c' := c[i := v'];
    assert StepBy(su, c, c', i);
    assert Step(su, c, c');
  }

  /** A step of the threads other than the exchange has its effect on the data. */
  lemma MoveFrom<V(!new)>(su: Setup<V>, c: Servers<V>, i: nat, st': P.State)
    requires i < |c| && P.Step(su.agg, c[i].st, st') && Deploys(su.work, su.agg, |c|, i, st')
             && !AtExchange(su.agg, c[i].st)
    ensures CanStep(su, c)
  {
    var st, d := c[i].st, c[i].data;
    var d' := if st'.epoch != st.epoch then FreshData(d.db)
              else if |st'.log| > |st.log| then Play(su.prog, d, st'.log[|st.log|].phase, st'.log[|st.log|].tx)
              else d;
    MakeMove(su, c, i, Server(st', d', c[i].sent));
  }

  /** A coordinator that assigns can deploy what is missing or go on. */
  lemma AssignMoves<V(!new)>(su: Setup<V>, c: Servers<V>, i: nat)
    requires Named(su.work) && Inv(su, c) && i < |c| && c[i].st.pc == P.Assign
    ensures CanStep(su, c)
  {
    var st := c[i].st;
    assert ServerOk(su, |c|, i, c[i]);
    if D.Work(st.deployed, st.epoch) == su.work(st.epoch) {
      var st' := st.(pc := P.Broadcast(P.ReadPhase, 0));
      assert P.AssignStep(su.agg, st, st');
      MoveFrom(su, c, i, st');
    } else {
      var x := Missing(su, |c|, i, st);
      var load := P.Workload(st.epoch, [x], su.agg && !Executes(su.agg, |c|, i, x));
      var st' := st.(workers := st.workers + [P.Worker(P.READY, P.START, P.Starting, load)],
                     deployed := st.deployed + P.EventsOf(su.agg, load), pc := P.AwaitAssigned(|st.workers|));
      assert P.StartNew(su.agg, st, st', load);
      assert P.AssignStep(su.agg, st, st');
      forall ev | ev in st'.deployed ensures DeploysEvent(su.work, su.agg, |c|, i, ev) {
        if ev !in st.deployed {
          assert ev in P.EventsOf(su.agg, load);
          assert ev == P.Event(st.epoch, P.WorkPhase(su.agg, load), x) || ev == P.Event(st.epoch, P.CommitPhase, x);
        }
      }
      MoveFrom(su, c, i, st');
    }
  }

  lemma Missing<V(!new)>(su: Setup<V>, count: nat, i: nat, st: P.State) returns (x: nat)
    requires count > 0 && Deploys(su.work, su.agg, count, i, st) && D.Work(st.deployed, st.epoch) != su.work(st.epoch)
    ensures x in su.work(st.epoch) && x !in D.Work(st.deployed, st.epoch)
  {
    forall y | y in D.Work(st.deployed, st.epoch) ensures y in su.work(st.epoch) {
      D.InWork(st.deployed, st.epoch, y);
      assert forall ev | ev in st.deployed :: DeploysEvent(su.work, su.agg, count, i, ev);
    }
    x :| x in su.work(st.epoch) && x !in D.Work(st.deployed, st.epoch);
  }

  /** A server that is not at the exchange can move. */
  lemma ServerMoves<V(!new)>(su: Setup<V>, c: Servers<V>, i: nat)
    requires Named(su.work) && Inv(su, c) && i < |c| && c[i].st.pc != P.Stopped && !AtExchange(su.agg, c[i].st)
    ensures CanStep(su, c)
  {
    if c[i].st.pc == P.Assign {
      AssignMoves(su, c, i);
    } else {
      var st := c[i].st;
      assert ServerOk(su, |c|, i, c[i]);
      var st' := P.CanMove(su.agg, st);
      StillDeploys(su, |c|, i, st, st');
      MoveFrom(su, c, i, st');
    }
  }

  lemma StillDeploys<V(!new)>(su: Setup<V>, count: nat, i: nat, st: P.State, st': P.State)
    requires count > 0 && ThreadsOk(su, count, i, st) && P.Step(su.agg, st, st') && st.pc != P.Assign
    requires st'.deployed == st.deployed + if st.pc.ReplaceWorkload? then P.EventsOf(su.agg, st.pc.load) else []
    ensures Deploys(su.work, su.agg, count, i, st')
  {
    PhaseMoves(su.agg, st, st');
    Positions(su.agg, st, st');
    assert !st.pc.ReplaceWorkload? ==> st'.deployed == st.deployed;
    forall ev | ev in st'.deployed ensures DeploysEvent(su.work, su.agg, count, i, ev) {
      assert ev in st.deployed || (st.pc.ReplaceWorkload? && ev in P.EventsOf(su.agg, st.pc.load));
    }
  }

  /** A coordinator starts to assign, and stops, only in between. */
  lemma Positions(agg: bool, st: P.State, st': P.State)
    requires P.Step(agg, st, st') && st.pc != P.Assign && P.CoordOk(agg, st)
    ensures st'.pc.ReplaceWorkload? ==> st'.pc == st.pc
    ensures Assigning(st.pc) ==> Assigning(st'.pc)
    ensures Assigning(st'.pc) ==> Assigning(st.pc) || st'.epoch != st.epoch
  {
    if !P.AssignStep(agg, st, st') && !P.PhaseStep(agg, st, st') {
      var i: nat :| P.WorkerStep(agg, st, st', i);
      P.WorkerFrame(agg, st, st', i);
    }
  }

  /** The messages of all servers fit together. */
  lemma CanReceive<V(!new)>(su: Setup<V>, c: Servers<V>, e: nat, outs: map<nat, Outcome<V>>)
    returns (outs': map<nat, Outcome<V>>)
    requires Named(su.work) && Inv(su, c) && c != [] && su.agg && OutsOk(su.prog, At(su, e), outs)
    requires forall j | 0 <= j < |c| :: e in c[j].sent
    ensures Receive(c, e, outs, outs')
  {
    outs' := map x | x in su.work(e) + outs.Keys :: su.prog(x)(At(su, e));
    forall j | 0 <= j < |c| ensures e in c[j].sent && c[j].sent[e].Keys <= outs'.Keys {
      assert ServerOk(su, |c|, j, c[j]);
      assert MessageOk(su, |c|, j, e, c[j].sent[e]);
    }
    forall x | x in outs' ensures (x in outs && outs'[x] == outs[x]) || Told(c, e, x, outs'[x]) {
      if x !in outs { Owner(su, c, e, x); }
    }
  }

  /** When all messages are there, a server can take them over and go on. */
  lemma ExchangeMoves<V(!new)>(su: Setup<V>, c: Servers<V>, i: nat)
    requires Named(su.work) && Inv(su, c) && i < |c| && AtExchange(su.agg, c[i].st)
    requires forall j | 0 <= j < |c| :: c[i].st.epoch in c[j].sent
    ensures CanStep(su, c)
  {
    var st, d := c[i].st, c[i].data;
    assert OutsOk(su.prog, At(su, st.epoch), d.outs) && Deploys(su.work, su.agg, |c|, i, st) by {
      assert ServerOk(su, |c|, i, c[i]);
    }
    var outs' := CanReceive(su, c, st.epoch, d.outs);
    var st' := st.(pc := P.Broadcast(P.AggregatePhase, 0));
    assert P.PhaseStep(su.agg, st, st');
    MakeMove(su, c, i, Server(st', d.(outs := outs'), c[i].sent));
  }

  /** Whoever executes a transaction has told its outcome. */
  lemma Owner<V(!new)>(su: Setup<V>, c: Servers<V>, e: nat, x: nat)
    requires Named(su.work) && Inv(su, c) && c != [] && su.agg && x in su.work(e)
             && forall j | 0 <= j < |c| :: e in c[j].sent
    ensures Told(c, e, x, su.prog(x)(At(su, e)))
  {
    var r: nat := x % |c|;
    assert ServerOk(su, |c|, r, c[r]);
    assert MessageOk(su, |c|, r, e, c[r].sent[e]);
    assert x in c[r].sent[e];
  }

  lemma SendMoves<V(!new)>(su: Setup<V>, c: Servers<V>, i: nat)
    requires i < |c| && AtExchange(su.agg, c[i].st) && c[i].st.epoch !in c[i].sent
    ensures CanStep(su, c)
  {
    MakeMove(su, c, i, c[i].(sent := c[i].sent[c[i].st.epoch := c[i].data.outs]));
  }

  lemma {:induction false} Slowest<V>(c: Servers<V>) returns (i: nat)
    requires c != []
    ensures i < |c| && forall j | 0 <= j < |c| :: c[i].st.epoch <= c[j].st.epoch
    decreases |c|
  {
    i := |c| - 1;
    if |c| > 1 {
      var k := Slowest(c[..|c| - 1]);
      assert forall j | 0 <= j < |c| - 1 :: c[..|c| - 1][j] == c[j];
      if c[k].st.epoch <= c[i].st.epoch { i := k; }
    }
  }

  /** No deadlock in the cluster: as long as no server has been told to stop, some server can take a step.
      In particular servers never wait for each other's messages in a circle. */
  lemma ClusterProgress<V(!new)>(su: Setup<V>, tr: seq<Servers<V>>, n: nat)
    requires Run(su, tr) && n < |tr| && tr[n] != [] && forall i | 0 <= i < |tr[n]| :: !P.Exiting(tr[n][i].st.pc)
    ensures CanStep(su, tr[n])
  {
    var c := tr[n];
    RunInv(su, tr, n);
    var i := Slowest(c);
    var e := c[i].st.epoch;
    if !AtExchange(su.agg, c[i].st) {
      ServerMoves(su, c, i);
    } else if forall j | 0 <= j < |c| :: e in c[j].sent {
      ExchangeMoves(su, c, i);
    } else {
      var j :| 0 <= j < |c| && e !in c[j].sent;
      assert ServerOk(su, |c|, i, c[i]) && ServerOk(su, |c|, j, c[j]);
      assert c[j].st.epoch == e;
      if AtExchange(su.agg, c[j].st) { SendMoves(su, c, j); } else { ServerMoves(su, c, j); }
    }
  }
}
