/** Workloads of a server that shares its epochs with a cluster: its own transactions become
    workloads to execute, the others wait in a queue of their own and become workloads to reserve. */
module SharedWorkloads {
  import opened Collections
  import opened Segmentation
  import Ranks

  /** The transactions on a rank, or off it, in order. */
  function Share(s: seq<Txn>, count: nat, id: nat, local: bool): seq<Txn>
    requires count > 0
  {
    Filter(s, (tx: Txn) => Ranks.IsLocal(tx.id, count, id) == local)
  }

  lemma ShareAppend(s: seq<Txn>, tx: Txn, count: nat, id: nat, local: bool)
    requires count > 0
    ensures Share(s + [tx], count, id, local)
         == Share(s, count, id, local) + if Ranks.IsLocal(tx.id, count, id) == local then [tx] else []
  {
    FilterAppend(s, tx, (tx: Txn) => Ranks.IsLocal(tx.id, count, id) == local);
  }

  lemma ShareConcat(s: seq<Txn>, t: seq<Txn>, count: nat, id: nat, local: bool)
    requires count > 0
    ensures Share(s + t, count, id, local) == Share(s, count, id, local) + Share(t, count, id, local)
  {
    FilterConcat(s, t, (tx: Txn) => Ranks.IsLocal(tx.id, count, id) == local);
  }

  lemma Shift(taken: seq<Txn>, tx: Txn, rest: seq<Txn>)
    requires rest != [] && tx == rest[0]
    ensures taken + rest == (taken + [tx]) + rest[1..]
  {
  }

  datatype SharedWork = Execute(list: seq<Txn>) | Reserve(list: seq<Txn>) | NoMore | Stays

  class Coordinator {
    const count: nat
    const id: nat
    const q: QueueWrapper
    var waiting: seq<Txn>

    constructor (stream: seq<Txn>, count: nat, id: nat)
      requires count > 0
      ensures Valid() && waiting == [] && q.Contents() == stream && this.count == count && this.id == id && fresh(q)
    {
      this.count, this.id, waiting := count, id, [];
      q := new QueueWrapper(stream);
    }

    predicate Valid() { count > 0 }

    /** The next workload of transactions that other servers execute. */
    method CreateAggregationWorkload(maxTx: nat) returns (w: SharedWork)
      requires maxTx > 0
      modifies this
      ensures w.NoMore? ==> old(waiting) == waiting == []
      ensures w.NoMore? || w.Reserve?
      ensures w.Reserve? ==> 0 < |w.list| <= maxTx && old(waiting) == w.list + waiting
    {
      var list: seq<Txn> := [];
      for i := 0 to maxTx
        invariant |list| <= i && old(waiting) == list + waiting
        invariant i > 0 ==> list != [] || waiting == []
      {
        if waiting == [] { break; }
        list := list + [waiting[0]];
        waiting := waiting[1..];
      }
      if list == [] { return NoMore; }
      w := Reserve(list);
    }

    /** Put a transaction where it belongs. */
    method File(tx: Txn, list: seq<Txn>, ghost taken: seq<Txn>, ghost before: seq<Txn>) returns (r: seq<Txn>)
      requires Valid() && list == Share(taken, count, id, true) && waiting == before + Share(taken, count, id, false)
      modifies `waiting
      ensures r == Share(taken + [tx], count, id, true) && waiting == before + Share(taken + [tx], count, id, false)
      ensures |r| <= |list| + 1
    {
      ShareAppend(taken, tx, count, id, true);
      ShareAppend(taken, tx, count, id, false);
      r := list;
      if Ranks.IsLocal(tx.id, count, id) { r := r + [tx]; } else { waiting := waiting + [tx]; }
    }

    /** Take transactions of the epoch until there is a full workload of own ones or the epoch is over. */
    method Gather(currentEpoch: nat, minTx: nat, maxTx: nat) returns (stuck: bool, list: seq<Txn>,
                  ghost taken: seq<Txn>)
      requires Valid() && maxTx > 0 && q.Contents() != [] && q.Contents()[0].epoch <= currentEpoch
      modifies this, q
      ensures forall i | 0 <= i < |taken| :: taken[i].epoch <= currentEpoch
      ensures old(q.Contents()) == taken + q.Contents() && taken != [] && (stuck <==> q.Contents() == [])
      ensures list == Share(taken, count, id, true) && |list| <= maxTx
      ensures waiting == old(waiting) + Share(taken, count, id, false)
      ensures !stuck && |list| < maxTx ==> q.Contents()[0].epoch > currentEpoch
    {
      ghost var all, before := q.Contents(), waiting;
      var f := q.Front();
      var tx := f.value;
      list, taken := [], [];
      var more := true;
      while more
        invariant all == taken + q.Contents() && q.Contents() != [] && tx == q.Contents()[0] && q.held == Some(tx)
        invariant list == Share(taken, count, id, true) && waiting == before + Share(taken, count, id, false)
        invariant |list| <= maxTx && forall i | 0 <= i < |taken| :: taken[i].epoch <= currentEpoch
        invariant more <==> |list| < maxTx && tx.epoch <= currentEpoch
        invariant taken == [] ==> more
        decreases |q.Contents()|
      {
        list := File(tx, list, taken, before);
        ghost var rest := q.Contents();
        var f', empty := q.PopAndLook();
        Shift(taken, tx, rest);
        taken := taken + [tx];
        if f'.None? { return true, list, taken; }
        tx := f'.value;
        more := (|list| <= minTx || !empty) && tx.epoch <= currentEpoch && |list| < maxTx;
      }
      stuck := false;
    }

    /** The next workload of the current epoch: own transactions first. */
    method CreateWorkload(currentEpoch: nat, minTx: nat, maxTx: nat) returns (w: SharedWork, ghost taken: seq<Txn>)
      requires Valid() && maxTx > 0
      modifies this, q
      ensures !w.Stays? ==> old(q.Contents()) == taken + q.Contents() && q.Contents() != []
      ensures !w.Stays? ==> forall i | 0 <= i < |taken| :: taken[i].epoch <= currentEpoch
      ensures w.Stays? ==> forall i | 0 <= i < |old(q.Contents())| :: old(q.Contents())[i].epoch <= currentEpoch
      ensures w.Execute? ==> w.list == Share(taken, count, id, true) && 0 < |w.list| <= maxTx
      ensures w.Execute? ==> waiting == old(waiting) + Share(taken, count, id, false)
      ensures w.Reserve? ==> Share(taken, count, id, true) == [] && 0 < |w.list| <= maxTx
      ensures w.Reserve? ==> old(waiting) + Share(taken, count, id, false) == w.list + waiting
      ensures w.NoMore? ==> taken == [] && old(waiting) == waiting == []
      ensures w.Reserve? || w.NoMore? ==> q.Contents()[0].epoch > currentEpoch
    {
      var f := q.Front();
      taken := [];
      if f.None? { return Stays, []; }
      if f.value.epoch > currentEpoch {
        w := CreateAggregationWorkload(maxTx);
        return;
      }
      var stuck, list;
      stuck, list, taken := Gather(currentEpoch, minTx, maxTx);
      if stuck { return Stays, taken; }
      if list == [] {
        w := CreateAggregationWorkload(maxTx);
      } else {
        w := Execute(list);
      }
    }
  }

  lemma SegmentIs(all: seq<Txn>, seen: seq<Txn>, rest: seq<Txn>, e: nat)
    requires all == seen + rest && rest != [] && rest[0].epoch > e
    requires forall i | 0 <= i < |seen| :: seen[i].epoch <= e
    ensures Segment(all, e) == seen
  {
    var r := Segment(all, e);
    assert all[|seen|] == rest[0];
    assert forall i | 0 <= i < |seen| :: all[i] == seen[i];
    assert r == all[..|r|];
  }

  /** Workload after workload until there is none: the own transactions of the epoch are executed, the
      others are reserved, each once and in order. */
  method AssignShared(c: Coordinator, currentEpoch: nat, minTx: nat, maxTx: nat)
    returns (done: bool, executed: seq<seq<Txn>>, reserved: seq<seq<Txn>>)
    requires c.Valid() && maxTx > 0 && c.waiting == []
    modifies c, c.q
    ensures done ==>
              var s := Segment(old(c.q.Contents()), currentEpoch);
              && Cuts(executed, Share(s, c.count, c.id, true), maxTx)
              && Cuts(reserved, Share(s, c.count, c.id, false), maxTx)
              && old(c.q.Contents()) == s + c.q.Contents() && c.waiting == []
    ensures !done ==> forall i | 0 <= i < |old(c.q.Contents())| :: old(c.q.Contents())[i].epoch <= currentEpoch
  {
    ghost var all := c.q.Contents();
    ghost var seen, freed: seq<Txn> := [], [];
    executed, reserved := [], [];
    while true
      invariant all == seen + c.q.Contents() && forall i | 0 <= i < |seen| :: seen[i].epoch <= currentEpoch
      invariant Cuts(executed, Share(seen, c.count, c.id, true), maxTx)
      invariant Cuts(reserved, freed, maxTx) && freed + c.waiting == Share(seen, c.count, c.id, false)
      decreases |c.q.Contents()|, |c.waiting|
    {
      ghost var taken: seq<Txn>;
      ghost var w0 := c.waiting;
      var w;
      w, taken := c.CreateWorkload(currentEpoch, minTx, maxTx);
      if w.Stays? { return false, executed, reserved; }
      if w.NoMore? {
        SegmentIs(all, seen, c.q.Contents(), currentEpoch);
        return true, executed, reserved;
      }
      ShareConcat(seen, taken, c.count, c.id, true);
      ShareConcat(seen, taken, c.count, c.id, false);
      Assoc(freed, w0, Share(taken, c.count, c.id, false));
      if w.Execute? {
        CutsAppend(executed, Share(seen, c.count, c.id, true), maxTx, w.list);
        executed := executed + [w.list];
      } else {
        CutsAppend(reserved, freed, maxTx, w.list);
        Assoc(freed, w.list, c.waiting);
        reserved, freed := reserved + [w.list], freed + w.list;
      }
      Assoc(seen, taken, c.q.Contents());
      seen := seen + taken;
    }
  }
}
