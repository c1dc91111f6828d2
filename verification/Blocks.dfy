/** Blocks of replicas: what the verdicts of an epoch put into a block, and that all servers make the same
    block with the same root. */
module Blocks {
  import opened Aria
  import opened Collections
  import opened EpochChain
  import B = BlockOrder
  import C = Cluster
  import R = Replicas
  import D = Deployment
  import S = ShaTree
  import T = MerkleTree
  import X = AriaExecutor
  import Y = Retry

  /** The bytes of a transaction in a block: a function of its id, its epoch, what its execution left and
      its verdict. */
  type Encode<!V> = (nat, nat, Outcome<V>, X.Result) -> seq<bv8>

  function ResultCode(r: X.Result): nat {
    match r case Commit => 0 case Pending => 1 case Abort => 2 case AbortNoRetry => 3
  }

  /** Whether a transaction goes into the block: if aborted ones are tried again, only the others. */
  predicate Enters(reusing: bool, r: X.Result) { !reusing || r != X.Abort }

  /** What is handed to the block generator after an epoch. */
  ghost function Handed<V>(encode: Encode<V>, reusing: bool, e: nat, d: Data<V>): set<B.Tx> {
    set x | x in d.verdicts && x in d.outs && Enters(reusing, d.verdicts[x]) ::
      B.Tx(x, ResultCode(d.verdicts[x]), encode(x, e, d.outs[x], d.verdicts[x]))
  }

  lemma HandedIds<V>(encode: Encode<V>, reusing: bool, e: nat, d: Data<V>)
    ensures B.DistinctIds(Handed(encode, reusing, e, d))
  {
  }

  /** What is handed over is what filing the transactions of the epoch puts into the block. */
  lemma HandedIsFiled<V>(encode: Encode<V>, reusing: bool, e: nat, d: Data<V>, list: seq<X.Transaction<V>>, i: nat)
    requires X.DistinctIds(list) && i < |list| && list[i].tid in d.verdicts && list[i].tid in d.outs
    requires d.verdicts[list[i].tid] == list[i].result
    ensures (exists tx :: tx in Handed(encode, reusing, e, d) && tx.tid == list[i].tid) <==>
            list[i] in Y.Sorted(list, Y.Marks(list, reusing), false)
  {
    Y.BlockExactly(list, reusing, i);
    var x := list[i].tid;
    if Enters(reusing, d.verdicts[x]) {
      var tx := B.Tx(x, ResultCode(d.verdicts[x]), encode(x, e, d.outs[x], d.verdicts[x]));
      assert tx in Handed(encode, reusing, e, d);
    }
  }

  /** The codes of the verdicts are different. */
  lemma CodesDiffer(r: X.Result, s: X.Result)
    requires ResultCode(r) == ResultCode(s)
    ensures r == s
  {
  }

  /** A server that has finished an epoch knows the outcome of every transaction of it. */
  lemma OutcomesAre<V(!new)>(su: C.Setup<V>, tr: seq<C.Servers<V>>, n: nat, i: nat, x: nat)
    requires C.Run(su, tr) && n < |tr| && i < |tr[n]| && D.Over(tr[n][i].st)
    requires x in su.work(tr[n][i].st.epoch)
    ensures var v := tr[n][i]; x in v.data.outs && v.data.outs[x] == su.prog(x)(C.At(su, v.st.epoch))
  {
    C.RunInv(su, tr, n);
    assert C.ServerOk(su, |tr[n]|, i, tr[n][i]);
  }

  /** Servers that have finished the same epoch hand over the same. */
  lemma SameHanded<V(!new)>(encode: Encode<V>, reusing: bool,
                            su: C.Setup<V>, tr: seq<C.Servers<V>>, n: nat, i: nat,
                            su': C.Setup<V>, tr': seq<C.Servers<V>>, m: nat, j: nat)
    requires C.Run(su, tr) && n < |tr| && i < |tr[n]| && D.Over(tr[n][i].st)
    requires C.Run(su', tr') && m < |tr'| && j < |tr'[m]| && D.Over(tr'[m][j].st)
    requires R.SameWork(su, su') && tr[n][i].st.epoch == tr'[m][j].st.epoch
    ensures Handed(encode, reusing, tr[n][i].st.epoch, tr[n][i].data)
            == Handed(encode, reusing, tr'[m][j].st.epoch, tr'[m][j].data)
  {
    var e, d, d' := tr[n][i].st.epoch, tr[n][i].data, tr'[m][j].data;
    R.DatabasesFollow(su, tr, n, i);
    R.ServersAgree(su, tr, n, i, su', tr', m, j);
    forall x | x in d.verdicts ensures x in d.outs && x in d'.outs && d.outs[x] == d'.outs[x] {
      OutcomesAre(su, tr, n, i, x);
      OutcomesAre(su', tr', m, j, x);
    }
  }

  function DataOf(block: seq<B.Tx>): (r: seq<seq<bv8>>)
    ensures |r| == |block|
  {
    seq(|block|, k requires 0 <= k < |block| => block[k].data)
  }

  /** The block that a generator makes of what it was handed: its body, and the root over it. */
  method MakeBlock(gen: B.BlockGenerator) returns (block: seq<B.Tx>, e: T.Status, root: seq<bv8>)
    requires B.DistinctIds(gen.pending) && |gen.pending| < T.MAX_ELEMS
    modifies gen
    ensures gen.pending == {} && Elements(block) == old(gen.pending) && B.Descending(block)
    ensures block == [] ==> e == T.NullRead
    ensures block != [] ==> e == T.Success && root == S.RootSpec(DataOf(block))
  {
    block := gen.TakeBlock();
    B.BlockSize(block);
    e, root := S.BlockRoot(DataOf(block));
  }

  /** Two servers that have finished the same epoch, of any clusters and at any moments, make the same block
      with the same root. */
  method SameBlock<V(!new)>(ghost encode: Encode<V>, ghost reusing: bool,
                            ghost su: C.Setup<V>, ghost tr: seq<C.Servers<V>>, ghost n: nat, ghost i: nat,
                            ghost su': C.Setup<V>, ghost tr': seq<C.Servers<V>>, ghost m: nat, ghost j: nat,
                            gen: B.BlockGenerator, gen': B.BlockGenerator)
    returns (block: seq<B.Tx>, root: seq<bv8>, block': seq<B.Tx>, root': seq<bv8>)
    requires C.Run(su, tr) && n < |tr| && i < |tr[n]| && D.Over(tr[n][i].st)
    requires C.Run(su', tr') && m < |tr'| && j < |tr'[m]| && D.Over(tr'[m][j].st)
    requires R.SameWork(su, su') && tr[n][i].st.epoch == tr'[m][j].st.epoch
    requires gen != gen' && 0 < |gen.pending| < T.MAX_ELEMS
    requires gen.pending == Handed(encode, reusing, tr[n][i].st.epoch, tr[n][i].data)
    requires gen'.pending == Handed(encode, reusing, tr'[m][j].st.epoch, tr'[m][j].data)
    modifies gen, gen'
    ensures block == block' != [] && root == root' == S.RootSpec(DataOf(block))
  {
    SameHanded(encode, reusing, su, tr, n, i, su', tr', m, j);
    HandedIds(encode, reusing, tr[n][i].st.epoch, tr[n][i].data);
    var e, e';
    block, e, root := MakeBlock(gen);
    block', e', root' := MakeBlock(gen');
    B.OneBlock(block, block');
  }
}
