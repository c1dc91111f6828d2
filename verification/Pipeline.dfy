/** From the client proxies to the epochs of a server: the queue that the proxies fill is what the
    transaction manager cuts into epochs. */
module Pipeline {
  import opened Collections
  import opened Segmentation
  import B = EpochBuffer

  /** The queue as the stream of the transaction manager. */
  function AsStream(q: seq<B.Txn>): seq<Txn> {
    seq(|q|, i requires 0 <= i < |q| => Txn(q[i].id, q[i].epoch))
  }

  /** In every run of the proxies the queue rises from the first epoch on. */
  lemma QueueRises(start: nat, tr: seq<B.State>, n: nat)
    requires B.Run(start, tr) && n < |tr|
    ensures Rising(start, AsStream(tr[n].queue)) && Rising(0, AsStream(tr[n].queue))
  {
    B.QueueOrdered(start, tr, n);
    B.QueueFrom(start, tr, n);
    OrderedRises(start, AsStream(tr[n].queue));
    OrderedRises(0, AsStream(tr[n].queue));
  }

  /** One epoch from the front of a rising stream. */
  method ServeOne(c: CommController, e: nat, maxSize: nat, minSize: nat) returns (r: Epoch, ghost part: seq<Txn>)
    requires c.Good() && Rising(e, c.Stream()) && maxSize > 0
    modifies c
    ensures forall i | 0 <= i < |part| :: part[i].epoch == e
    ensures r.Unfinished? ==> part == old(c.Stream())
    ensures r.Complete? ==>
              && Cuts(r.pieces, part, maxSize) && old(c.Stream()) == part + c.Stream()
              && c.Good() && Rising(e + 1, c.Stream())
  {
    ghost var all := c.Stream();
    part := Segment(all, e);
    SegmentIsEpoch(all, e);
    RestRises(all, e);
    r := CollectEpoch(c, e, maxSize, minSize);
  }

  /** Every part is of the epoch of its place. */
  ghost predicate PartsOk(start: nat, epochs: seq<seq<seq<Txn>>>, parts: seq<seq<Txn>>, maxSize: nat) {
    && |epochs| == |parts|
    && forall k | 0 <= k < |parts| :: PartOk(start + k, epochs[k], parts[k], maxSize)
  }

  ghost predicate PartOk(e: nat, pieces: seq<seq<Txn>>, part: seq<Txn>, maxSize: nat) {
    Cuts(pieces, part, maxSize) && forall i | 0 <= i < |part| :: part[i].epoch == e
  }

  lemma OneMore(start: nat, epochs: seq<seq<seq<Txn>>>, parts: seq<seq<Txn>>, maxSize: nat,
                pieces: seq<seq<Txn>>, part: seq<Txn>, rest: seq<Txn>)
    requires PartsOk(start, epochs, parts, maxSize) && PartOk(start + |parts|, pieces, part, maxSize)
    ensures PartsOk(start, epochs + [pieces], parts + [part], maxSize)
    ensures Concat(parts + [part]) + rest == Concat(parts) + (part + rest)
  {
    ConcatAppend(parts, part);
    Assoc(Concat(parts), part, rest);
  }

  /** Hand out up to `count` epochs of a rising stream. */
  method ServeStream(start: nat, stream: seq<Txn>, count: nat, maxSize: nat, minSize: nat)
    returns (epochs: seq<seq<seq<Txn>>>, ghost parts: seq<seq<Txn>>, ghost rest: seq<Txn>)
    requires Rising(start, stream) && Rising(0, stream) && maxSize > 0
    ensures |epochs| <= count && PartsOk(start, epochs, parts, maxSize) && Concat(parts) + rest == stream
    ensures Rising(start + |parts|, rest)
    ensures |epochs| < count ==> forall i | 0 <= i < |rest| :: rest[i].epoch == start + |parts|
  {
    var c := new CommController(stream);
    assert c.Stream() == stream;
    epochs, parts := [], [];
    while |epochs| < count
      invariant |epochs| <= count && PartsOk(start, epochs, parts, maxSize)
      invariant c.Good() && Rising(start + |parts|, c.Stream()) && Concat(parts) + c.Stream() == stream
      decreases count - |epochs|
    {
      rest := c.Stream();
      var r;
      ghost var part;
      r, part := ServeOne(c, start + |epochs|, maxSize, minSize);
      if r.Unfinished? { return; }
      OneMore(start, epochs, parts, maxSize, r.pieces, part, c.Stream());
      epochs, parts := epochs + [r.pieces], parts + [part];
    }
    rest := c.Stream();
  }

  /** Hand out up to `count` epochs of the queue of any run of the proxies. No check on the way fails, and
      each epoch is exactly the transactions of its number, in the order of the queue, in batches. */
  method Serve(start: nat, ghost tr: seq<B.State>, ghost n: nat, queue: seq<B.Txn>,
               count: nat, maxSize: nat, minSize: nat)
    returns (epochs: seq<seq<seq<Txn>>>, ghost parts: seq<seq<Txn>>, ghost rest: seq<Txn>)
    requires B.Run(start, tr) && n < |tr| && queue == tr[n].queue && maxSize > 0
    ensures |epochs| <= count && PartsOk(start, epochs, parts, maxSize) && Concat(parts) + rest == AsStream(queue)
    ensures forall i | 0 <= i < |rest| :: rest[i].epoch >= start + |parts|
    ensures |epochs| < count ==> forall i | 0 <= i < |rest| :: rest[i].epoch == start + |parts|
  {
    QueueRises(start, tr, n);
    epochs, parts, rest := ServeStream(start, AsStream(queue), count, maxSize, minSize);
    RisingPairs(start + |parts|, rest);
  }

  /** What follows an epoch in a rising stream is later. */
  lemma RestRises(all: seq<Txn>, e: nat)
    requires Rising(e, all)
    ensures Rising(e + 1, all[|Segment(all, e)|..]) && all == Segment(all, e) + all[|Segment(all, e)|..]
  {
    SegmentIsEpoch(all, e);
    RisingPairs(e, all);
    OrderedRises(e + 1, all[|Segment(all, e)|..]);
  }
}
