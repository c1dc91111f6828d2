/** Cutting the stream of transactions into epochs: batches for the transaction manager, and
    workloads for the workers. A stream is given with everything that will still arrive; a call that
    would wait for more than that is an outcome of its own. */
module Segmentation {
  import opened Collections

  datatype Txn = Txn(id: nat, epoch: nat)

  /******* Streams *******/

  /** Epochs never go back, and start at `e` or later. */
  predicate Rising(e: nat, s: seq<Txn>)
    decreases s
  {
    s == [] || (e <= s[0].epoch && Rising(s[0].epoch, s[1..]))
  }

  lemma {:induction false} RisingPairs(e: nat, s: seq<Txn>)
    requires Rising(e, s)
    ensures forall i | 0 <= i < |s| :: e <= s[i].epoch
    ensures forall i, j | 0 <= i < j < |s| :: s[i].epoch <= s[j].epoch
    decreases s
  {
    if s != [] { RisingPairs(s[0].epoch, s[1..]); }
  }

  /** A queue that is ordered by epochs rises. */
  lemma {:induction false} OrderedRises(e: nat, s: seq<Txn>)
    requires forall i | 0 <= i < |s| :: e <= s[i].epoch
    requires forall i, j | 0 <= i < j < |s| :: s[i].epoch <= s[j].epoch
    ensures Rising(e, s)
    decreases s
  {
    if s != [] { OrderedRises(s[0].epoch, s[1..]); }
  }

  /** All of one epoch. */
  predicate OfEpoch(s: seq<Txn>, e: nat) {
    s == [] || (s[|s| - 1].epoch == e && OfEpoch(s[..|s| - 1], e))
  }

  lemma {:induction false} OfEpochAll(s: seq<Txn>, e: nat)
    ensures OfEpoch(s, e) <==> forall i | 0 <= i < |s| :: s[i].epoch == e
  {
    if s != [] { OfEpochAll(s[..|s| - 1], e); }
  }

  lemma OfEpochConcat(s: seq<Txn>, t: seq<Txn>, e: nat)
    requires OfEpoch(s, e) && OfEpoch(t, e)
    ensures OfEpoch(s + t, e)
  {
    OfEpochAll(s, e);
    OfEpochAll(t, e);
    OfEpochAll(s + t, e);
  }

  lemma OfEpochAppend(s: seq<Txn>, tx: Txn, e: nat)
    requires OfEpoch(s, e) && tx.epoch == e
    ensures OfEpoch(s + [tx], e)
  {
    assert (s + [tx])[..|s|] == s;
  }

  /** The transactions before the first one of an epoch later than `e`. */
  function Segment(s: seq<Txn>, e: nat): (r: seq<Txn>)
    ensures r <= s && forall i | 0 <= i < |r| :: r[i].epoch <= e
    ensures |r| < |s| ==> s[|r|].epoch > e
  {
    if s == [] || s[0].epoch > e then [] else [s[0]] + Segment(s[1..], e)
  }

  /** In a rising stream the segment of the first epoch is all of that epoch. */
  lemma SegmentIsEpoch(s: seq<Txn>, e: nat)
    requires Rising(e, s)
    ensures forall i | 0 <= i < |s| :: s[i].epoch == e <==> i < |Segment(s, e)|
  {
    RisingPairs(e, s);
    var r := Segment(s, e);
    forall i | 0 <= i < |s| ensures s[i].epoch == e <==> i < |r| {
      assert i < |r| ==> r[i] == s[i];
      assert i >= |r| ==> s[|r|].epoch <= s[i].epoch;
    }
  }

  /** Taking a piece off the segment leaves the rest of the segment. */
  lemma {:induction false} SegmentDrop(s: seq<Txn>, e: nat, k: nat)
    requires k <= |Segment(s, e)|
    ensures Segment(s[k..], e) == Segment(s, e)[k..]
    decreases k
  {
    if k == 0 {
      assert s[0..] == s;
    } else {
      SegmentDrop(s[1..], e, k - 1);
      assert s[1..][k - 1..] == s[k..];
    }
  }

  /** Nonempty pieces of at most `max` transactions that make up `s`. */
  ghost predicate Cuts(pieces: seq<seq<Txn>>, s: seq<Txn>, max: nat) {
    Concat(pieces) == s && forall i | 0 <= i < |pieces| :: 0 < |pieces[i]| <= max
  }

  lemma CutsAppend(pieces: seq<seq<Txn>>, s: seq<Txn>, max: nat, piece: seq<Txn>)
    requires Cuts(pieces, s, max) && 0 < |piece| <= max
    ensures Cuts(pieces + [piece], s + piece, max)
  {
    assert (pieces + [piece])[..|pieces|] == pieces;
  }

  /******* Batches *******/

  datatype Transfer = Moved | Waits | CheckFailed

  datatype Batch = Txns(list: seq<Txn>) | Null | Blocked | Failed

  /** The queue of one replica: `incoming` is what the broadcast queue will still deliver. */
  class CommController {
    var incoming: seq<Txn>
    var processed: seq<Txn>
    var currentEpoch: nat

    constructor (stream: seq<Txn>)
      ensures incoming == stream && processed == [] && currentEpoch == 0
    {
      incoming, processed, currentEpoch := stream, [], 0;
    }

    /** Everything not handed out yet, and the epoch that the next check compares with. */
    ghost function Stream(): seq<Txn>
      reads this
    {
      processed + incoming
    }

    ghost predicate Good()
      reads this
    {
      Rising(currentEpoch, incoming)
    }

    /** Take one transaction from the broadcast queue; its epoch must not be an old one. */
    method TakeOne() returns (ok: bool)
      requires incoming != []
      modifies this
      ensures ok <==> old(incoming[0].epoch) >= old(currentEpoch)
      ensures ok ==> Stream() == old(Stream()) && incoming == old(incoming)[1..]
      ensures ok ==> processed == old(processed) + [old(incoming[0])]
      ensures currentEpoch == if ok then old(incoming[0].epoch) else old(currentEpoch)
    {
      var tx := incoming[0];
      incoming := incoming[1..];
      if tx.epoch > currentEpoch { currentEpoch := tx.epoch; }
      if tx.epoch != currentEpoch { return false; }
      processed := processed + [tx];
      ok := true;
    }

    /** Fill the processed queue with at least one transaction, and with all that is there. */
    method TransferTransaction() returns (r: Transfer)
      modifies this
      ensures r == Waits <==> old(processed) == [] && old(incoming) == []
      ensures r == Waits ==> Stream() == old(Stream()) && Good() == old(Good())
      ensures old(Good()) ==> r != CheckFailed && Good()
      ensures r == Moved ==> Stream() == old(Stream()) && processed != [] && old(processed) <= processed
    {
      if processed == [] {
        if incoming == [] { return Waits; }
        var ok := TakeOne();
        if !ok { return CheckFailed; }
      }
      var available :| 0 <= available <= |incoming|;
      while available > 0
        invariant 0 <= available <= |incoming| && processed != []
        invariant Stream() == old(Stream()) && old(processed) <= processed
        invariant old(Good()) ==> Good()
      {
        var ok := TakeOne();
        if !ok { return CheckFailed; }
        available := available - 1;
      }
      r := Moved;
    }

    /** A batch of the epoch from the front of the stream; none when the epoch is over. */
    method GetTransaction(epoch: nat, maxSize: nat, minSize: nat) returns (b: Batch)
      modifies this
      ensures b.Blocked? ==> OfEpoch(old(Stream()), epoch)
      ensures old(Good()) ==> !b.Failed?
      ensures old(Good()) && (b.Txns? || b.Null?) ==> Good()
      ensures b.Null? ==> Stream() == old(Stream()) && Stream() != [] && Stream()[0].epoch != epoch
      ensures b.Txns? ==>
                && old(Stream()) == b.list + Stream() && |b.list| <= maxSize
                && (maxSize > 0 ==> b.list != [])
                && OfEpoch(b.list, epoch)
                && (|b.list| < maxSize && |b.list| <= minSize ==> Stream() != [] && Stream()[0].epoch != epoch)
    {
      if processed == [] {
        var t := TransferTransaction();
        if t == Waits { return Blocked; }
        if t == CheckFailed { return Failed; }
      }
      if processed[0].epoch != epoch { return Null; }
      b := FillBatch(epoch, maxSize, minSize);
    }

    /** Move the first processed transaction into the batch. */
    method TakeFront(epoch: nat, list: seq<Txn>, ghost all: seq<Txn>) returns (r: seq<Txn>)
      requires processed != [] && processed[0].epoch == epoch && all == list + Stream() && OfEpoch(list, epoch)
      modifies `processed
      ensures all == r + Stream() && OfEpoch(r, epoch) && |r| == |list| + 1 && Good() == old(Good())
    {
      OfEpochAppend(list, processed[0], epoch);
      r := list + [processed[0]];
      processed := processed[1..];
    }

    /** The loop of GetTransaction, with a transaction of the epoch in front. */
    method FillBatch(epoch: nat, maxSize: nat, minSize: nat) returns (b: Batch)
      requires processed != [] && processed[0].epoch == epoch
      modifies this
      ensures !b.Null? && (b.Blocked? ==> OfEpoch(old(Stream()), epoch))
      ensures old(Good()) ==> !b.Failed? && (b.Txns? ==> Good())
      ensures b.Txns? ==>
                && old(Stream()) == b.list + Stream() && |b.list| <= maxSize
                && (maxSize > 0 ==> b.list != [])
                && OfEpoch(b.list, epoch)
                && (|b.list| < maxSize && |b.list| <= minSize ==> Stream() != [] && Stream()[0].epoch != epoch)
    {
      ghost var all := Stream();
      var list: seq<Txn> := [];
      while |list| < maxSize
        invariant processed != [] && (list == [] ==> processed[0].epoch == epoch)
        invariant all == list + Stream() && |list| <= maxSize
        invariant OfEpoch(list, epoch)
        invariant old(Good()) ==> Good()
        decreases maxSize - |list|
      {
        if processed[0].epoch != epoch { break; }
        list := TakeFront(epoch, list, all);
        if processed == [] {
          if |list| > minSize { break; }
          var t := TransferTransaction();
          if t == Waits { return Blocked; }
          if t == CheckFailed { return Failed; }
        }
      }
      b := Txns(list);
    }
  }

  datatype Epoch = Complete(pieces: seq<seq<Txn>>) | Unfinished

  /** Batch after batch until there is none: exactly the transactions of the epoch, in order. */
  method CollectEpoch(c: CommController, epoch: nat, maxSize: nat, minSize: nat) returns (r: Epoch)
    requires c.Good() && Rising(epoch, c.Stream()) && maxSize > 0
    modifies c
    ensures r.Unfinished? ==> Segment(old(c.Stream()), epoch) == old(c.Stream())
    ensures r.Complete? ==>
              && Cuts(r.pieces, Segment(old(c.Stream()), epoch), maxSize)
              && c.Good() && c.Stream() == old(c.Stream())[|Segment(old(c.Stream()), epoch)|..] && c.Stream() != []
  {
    ghost var all := c.Stream();
    ghost var taken: seq<Txn> := [];
    var pieces: seq<seq<Txn>> := [];
    while true
      invariant all == taken + c.Stream() && c.Good() && Cuts(pieces, taken, maxSize)
      invariant OfEpoch(taken, epoch)
      decreases |c.Stream()|
    {
      ghost var rest := c.Stream();
      var b := c.GetTransaction(epoch, maxSize, minSize);
      if b.Blocked? {
        OfEpochConcat(taken, rest, epoch);
        AllOne(all, epoch);
        return Unfinished;
      }
      if b.Null? {
        Boundary(all, taken, rest, epoch);
        return Complete(pieces);
      }
      CutsAppend(pieces, taken, maxSize, b.list);
      OfEpochConcat(taken, b.list, epoch);
      Assoc(taken, b.list, c.Stream());
      pieces, taken := pieces + [b.list], taken + b.list;
    }
  }

  lemma Assoc(a: seq<Txn>, b: seq<Txn>, c: seq<Txn>)
    ensures (a + b) + c == a + (b + c)
  {
  }

  lemma AllOne(all: seq<Txn>, e: nat)
    requires OfEpoch(all, e)
    ensures Segment(all, e) == all
  {
    OfEpochAll(all, e);
  }

  /** The segment ends where the first transaction of another epoch comes. */
  lemma Boundary(all: seq<Txn>, taken: seq<Txn>, rest: seq<Txn>, e: nat)
    requires Rising(e, all) && all == taken + rest && OfEpoch(taken, e) && rest != [] && rest[0].epoch != e
    ensures Segment(all, e) == taken && all[|taken|..] == rest
  {
    OfEpochAll(taken, e);
    SegmentIsEpoch(all, e);
    var r, n := Segment(all, e), |taken|;
    assert all[n] == rest[0];
    assert n > 0 ==> all[n - 1] == taken[n - 1];
    assert |r| == n;
    assert r == all[..n];
  }

  /******* Workloads *******/

  /** A queue with a look at its first element; `queue` is everything that will still arrive. */
  class QueueWrapper {
    var held: Option<Txn>
    var queue: seq<Txn>

    constructor (stream: seq<Txn>)
      ensures Contents() == stream
    {
      held, queue := None, stream;
    }

    ghost function Contents(): seq<Txn>
      reads this
    {
      if held.Some? then [held.value] + queue else queue
    }

    /** The first element, which stays where it is. Nothing stands for waiting without end. */
    method Front() returns (r: Option<Txn>)
      modifies this
      ensures Contents() == old(Contents())
      ensures r == if Contents() == [] then None else Some(Contents()[0])
      ensures r.Some? ==> held == r
    {
      if held == None && queue != [] { held, queue := Some(queue[0]), queue[1..]; }
      r := held;
    }

    method Pop() returns (r: Option<Txn>)
      modifies this
      ensures r == if old(Contents()) == [] then None else Some(old(Contents())[0])
      ensures Contents() == if old(Contents()) == [] then [] else old(Contents())[1..]
    {
      if held.Some? {
        r, held := held, None;
      } else if queue != [] {
        r, queue := Some(queue[0]), queue[1..];
      } else {
        r := None;
      }
    }

    /** May only see a transaction that has arrived by now. */
    method Empty() returns (r: bool)
      modifies this
      ensures Contents() == old(Contents())
      ensures !r ==> Contents() != [] && held.Some?
      ensures old(held).Some? ==> !r && held == old(held)
    {
      if held.Some? { return false; }
      var arrived: bool :| true;
      if arrived && queue != [] {
        held, queue := Some(queue[0]), queue[1..];
        return false;
      }
      r := true;
    }

    /** Drop the first transaction and look at the next, which is there now. */
    method PopAndLook() returns (f: Option<Txn>, empty: bool)
      requires Contents() != []
      modifies this
      ensures Contents() == old(Contents())[1..]
      ensures f == if Contents() == [] then None else Some(Contents()[0])
      ensures f.Some? ==> !empty && held == f
    {
      var popped := Pop();
      f := Front();
      empty := true;
      if f.Some? { empty := Empty(); }
    }
  }

  datatype Work = Workload(list: seq<Txn>) | NoWork | Stuck

  /** The next workload of the current epoch: the most that fits. The minimum size never matters,
      because the queue was just looked at and is not empty. */
  method CreateWorkload(q: QueueWrapper, currentEpoch: nat, minTx: nat, maxTx: nat) returns (w: Work)
    requires maxTx > 0
    modifies q
    ensures w.NoWork? ==> q.Contents() == old(q.Contents()) != [] && q.Contents()[0].epoch > currentEpoch
    ensures w.Workload? ==>
              var s := Segment(old(q.Contents()), currentEpoch);
              var k := if |s| <= maxTx then |s| else maxTx;
              && k > 0 && w.list == s[..k] && q.Contents() == old(q.Contents())[k..] && q.Contents() != []
    ensures w.Stuck? <==> var all := old(q.Contents()); |all| <= maxTx && Segment(all, currentEpoch) == all
  {
    ghost var all := q.Contents();
    ghost var s := Segment(all, currentEpoch);
    var f := q.Front();
    if f.None? { return Stuck; }
    var tx := f.value;
    if tx.epoch > currentEpoch { return NoWork; }
    var list: seq<Txn> := [];
    var more := true;
    while more
      invariant |list| <= |s| && |list| <= maxTx && list == s[..|list|]
      invariant q.Contents() == all[|list|..] != [] && tx == all[|list|] && q.held == Some(tx)
      invariant more <==> |list| < maxTx && tx.epoch <= currentEpoch
      decreases |all| - |list|
    {
      SegmentAt(all, currentEpoch, |list|);
      list := list + [tx];
      var empty;
      f, empty := q.PopAndLook();
      if f.None? { return Stuck; }
      tx := f.value;
      more := (|list| <= minTx || !empty) && tx.epoch <= currentEpoch && |list| < maxTx;
    }
    w := Workload(list);
  }

  lemma SegmentAt(all: seq<Txn>, e: nat, k: nat)
    requires k <= |Segment(all, e)| && k < |all| && all[k].epoch <= e
    ensures k < |Segment(all, e)| && Segment(all, e)[k] == all[k]
  {
  }

  lemma MovePiece(taken: seq<Txn>, rest: seq<Txn>, contents: seq<Txn>, k: nat)
    requires k <= |rest| && rest <= contents
    ensures (taken + rest[..k]) + rest[k..] == taken + rest
    ensures (taken + rest[..k]) + contents[k..] == taken + contents
  {
    assert rest[..k] == contents[..k];
    assert rest == rest[..k] + rest[k..];
    assert contents == contents[..k] + contents[k..];
  }

  /** Workload after workload until there is none: exactly the transactions of the epoch, in order. */
  method AssignWorkloads(q: QueueWrapper, currentEpoch: nat, minTx: nat, maxTx: nat) returns (r: Epoch)
    requires maxTx > 0
    modifies q
    ensures r.Unfinished? ==> Segment(old(q.Contents()), currentEpoch) == old(q.Contents())
    ensures r.Complete? ==>
              && Cuts(r.pieces, Segment(old(q.Contents()), currentEpoch), maxTx)
              && q.Contents() == old(q.Contents())[|Segment(old(q.Contents()), currentEpoch)|..] && q.Contents() != []
  {
    ghost var all := q.Contents();
    ghost var s := Segment(all, currentEpoch);
    ghost var taken, rest: seq<Txn> := [], s;
    var pieces: seq<seq<Txn>> := [];
    while true
      invariant taken + rest == s && rest == Segment(q.Contents(), currentEpoch) && all == taken + q.Contents()
      invariant Cuts(pieces, taken, maxTx)
      decreases |q.Contents()|
    {
      ghost var contents := q.Contents();
      var w := CreateWorkload(q, currentEpoch, minTx, maxTx);
      if w.Stuck? { return Unfinished; }
      if w.NoWork? {
        assert rest == [] && taken == s;
        return Complete(pieces);
      }
      MovePiece(taken, rest, contents, |w.list|);
      SegmentDrop(contents, currentEpoch, |w.list|);
      CutsAppend(pieces, taken, maxTx, w.list);
      pieces, taken, rest := pieces + [w.list], taken + w.list, rest[|w.list|..];
    }
  }
}
