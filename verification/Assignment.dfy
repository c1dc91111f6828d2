/** What a coordinator deploys: the workloads it makes of an epoch, in the plain and in the sharing form,
    are what a server of the cluster has to deploy. */
module Assignment {
  import opened Collections
  import opened Segmentation
  import C = Cluster
  import D = Deployment
  import P = Phases
  import W = SharedWorkloads
  import Ranks
  import EpochChain

  function Names(s: seq<Txn>): (r: seq<nat>)
    ensures |r| == |s|
  {
    seq(|s|, k requires 0 <= k < |s| => s[k].id)
  }

  ghost predicate Occurs(s: seq<Txn>, x: nat) {
    exists k: nat :: k < |s| && s[k].id == x
  }

  /** The events of the workloads made of some pieces of epoch `e`. */
  ghost function Events(agg: bool, e: nat, pieces: seq<seq<Txn>>, aggregation: bool): seq<P.Event> {
    if pieces == [] then []
    else
      var n := |pieces| - 1;
      Events(agg, e, pieces[..n], aggregation) + P.EventsOf(agg, P.Workload(e, Names(pieces[n]), aggregation))
  }

  lemma OccursConcat(s: seq<Txn>, t: seq<Txn>, x: nat)
    ensures Occurs(s + t, x) <==> Occurs(s, x) || Occurs(t, x)
  {
    if k: nat :| k < |s| && s[k].id == x { assert (s + t)[k].id == x; }
    if k: nat :| k < |t| && t[k].id == x { assert (s + t)[|s| + k].id == x; }
    if k: nat :| k < |s + t| && (s + t)[k].id == x { assert if k < |s| then s[k].id == x else t[k - |s|].id == x; }
  }

  lemma InLoad(agg: bool, e: nat, piece: seq<Txn>, aggregation: bool, ev: P.Event)
    ensures var load := P.Workload(e, Names(piece), aggregation);
            ev in P.EventsOf(agg, load) <==>
              ev.epoch == e && (ev.phase == P.WorkPhase(agg, load) || ev.phase == P.CommitPhase) && Occurs(piece, ev.tx)
  {
    var load := P.Workload(e, Names(piece), aggregation);
    var evs, n := P.EventsOf(agg, load), |piece|;
    if k :| 0 <= k < |evs| && evs[k] == ev { assert piece[if k < n then k else k - n].id == ev.tx; }
    if k: nat :| k < n && piece[k].id == ev.tx {
      assert evs[k] == P.Event(e, P.WorkPhase(agg, load), ev.tx) && evs[n + k] == P.Event(e, P.CommitPhase, ev.tx);
    }
  }

  lemma {:induction false} InEvents(agg: bool, e: nat, pieces: seq<seq<Txn>>, aggregation: bool, ev: P.Event)
    ensures ev in Events(agg, e, pieces, aggregation) <==>
              && ev.epoch == e && Occurs(Concat(pieces), ev.tx)
              && (ev.phase == P.WorkPhase(agg, P.Workload(e, [], aggregation)) || ev.phase == P.CommitPhase)
    decreases |pieces|
  {
    if pieces != [] {
      var n := |pieces| - 1;
      InEvents(agg, e, pieces[..n], aggregation, ev);
      InLoad(agg, e, pieces[n], aggregation, ev);
      OccursConcat(Concat(pieces[..n]), pieces[n], ev.tx);
    }
  }

  lemma {:induction false} InShare(s: seq<Txn>, count: nat, i: nat, local: bool, x: nat)
    requires count > 0
    ensures Occurs(W.Share(s, count, i, local), x) <==> Occurs(s, x) && Ranks.IsLocal(x, count, i) == local
    decreases |s|
  {
    if s != [] {
      var front, last := s[..|s| - 1], [s[|s| - 1]];
      assert s == front + last;
      InShare(front, count, i, local, x);
      OccursConcat(front, last, x);
      var mine := if Ranks.IsLocal(last[0].id, count, i) == local then last else [];
      OccursConcat(W.Share(front, count, i, local), mine, x);
      assert Occurs(last, x) <==> last[0].id == x by { if last[0].id == x { assert last[0].id == x; } }
    }
  }

  /** The schedule gives epoch `e` the transactions of segment `s`. */
  ghost predicate Schedules(work: EpochChain.Schedule, e: nat, s: seq<Txn>) {
    forall x :: x in work(e) <==> Occurs(s, x)
  }

  /** The workloads of a server that shares its epochs: those to execute and those to reserve. */
  lemma SharedDeploys(work: EpochChain.Schedule, count: nat, i: nat, e: nat, s: seq<Txn>, max: nat,
                      executed: seq<seq<Txn>>, reserved: seq<seq<Txn>>)
    requires count > 0 && Schedules(work, e, s)
    requires Cuts(executed, W.Share(s, count, i, true), max) && Cuts(reserved, W.Share(s, count, i, false), max)
    ensures var evs := Events(true, e, executed, false) + Events(true, e, reserved, true);
            (forall ev | ev in evs :: C.DeploysEvent(work, true, count, i, ev)) && D.Work(evs, e) == work(e)
  {
    var evs := Events(true, e, executed, false) + Events(true, e, reserved, true);
    forall ev | ev in evs ensures C.DeploysEvent(work, true, count, i, ev) {
      InEvents(true, e, executed, false, ev);
      InEvents(true, e, reserved, true, ev);
      InShare(s, count, i, true, ev.tx);
      InShare(s, count, i, false, ev.tx);
    }
    forall x ensures x in D.Work(evs, e) <==> x in work(e) {
      D.InWork(evs, e, x);
      InEvents(true, e, executed, false, P.Event(e, P.ReadPhase, x));
      InEvents(true, e, executed, false, P.Event(e, P.AggregatePhase, x));
      InEvents(true, e, reserved, true, P.Event(e, P.ReadPhase, x));
      InEvents(true, e, reserved, true, P.Event(e, P.AggregatePhase, x));
      InShare(s, count, i, true, x);
      InShare(s, count, i, false, x);
    }
  }

  /** The workloads of a server that executes everything. */
  lemma PlainDeploys(work: EpochChain.Schedule, count: nat, i: nat, e: nat, s: seq<Txn>, max: nat,
                     pieces: seq<seq<Txn>>)
    requires count > 0 && Schedules(work, e, s) && Cuts(pieces, s, max)
    ensures var evs := Events(false, e, pieces, false);
            (forall ev | ev in evs :: C.DeploysEvent(work, false, count, i, ev)) && D.Work(evs, e) == work(e)
  {
    var evs := Events(false, e, pieces, false);
    forall ev | ev in evs ensures C.DeploysEvent(work, false, count, i, ev) { InEvents(false, e, pieces, false, ev); }
    forall x ensures x in D.Work(evs, e) <==> x in work(e) {
      D.InWork(evs, e, x);
      InEvents(false, e, pieces, false, P.Event(e, P.ReadPhase, x));
      InEvents(false, e, pieces, false, P.Event(e, P.AggregatePhase, x));
    }
  }
}
