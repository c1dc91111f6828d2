/** The two grains of an epoch: executing or deciding a transaction as one step, and workers interleaved at
    every register swap and every write-back. Both end alike, so what holds of servers at the coarse grain
    holds at the fine one. */
module Grain {
  import opened Aria
  import opened Collections
  import opened EpochChain
  import opened Reservation
  import C = Cluster
  import D = Deployment
  import E = EpochSchedule
  import R = Replicas
  import X = AriaExecutor

  /******* The coarse grain *******/

  /** Executing and reserving transactions one after another. */
  ghost function ReadAll<V>(prog: Program<V>, d: Data<V>, list: seq<nat>): Data<V> {
    if list == [] then d else PlayRead(prog, ReadAll(prog, d, list[..|list| - 1]), list[|list| - 1])
  }

  /** Deciding transactions and writing them back one after another. */
  ghost function CommitAll<V>(prog: Program<V>, d: Data<V>, list: seq<nat>): Data<V> {
    if list == [] then d else PlayCommit(prog, CommitAll(prog, d, list[..|list| - 1]), list[|list| - 1])
  }

  lemma {:induction false} ReadAllOk<V(!new)>(prog: Program<V>, xs: set<nat>, s: Db<V>, list: seq<nat>)
    requires 0 !in xs && Elements(list) <= xs
    ensures DataOk(prog, xs, s, Elements(list), {}, ReadAll(prog, FreshData(s), list))
  {
    if list == [] {
      FreshOk(prog, xs, s);
      assert Elements(list) == {};
    } else {
      var n := |list| - 1;
      assert Elements(list) == Elements(list[..n]) + {list[n]};
      ReadAllOk(prog, xs, s, list[..n]);
      ReadOk(prog, xs, s, Elements(list[..n]), ReadAll(prog, FreshData(s), list[..n]), list[n]);
    }
  }

  lemma {:induction false} CommitAllOk<V(!new)>(prog: Program<V>, xs: set<nat>, s: Db<V>, d: Data<V>, list: seq<nat>)
    requires 0 !in xs && Elements(list) <= xs && DataOk(prog, xs, s, xs, {}, d)
    ensures DataOk(prog, xs, s, xs, Elements(list), CommitAll(prog, d, list))
  {
    if list == [] {
      assert Elements(list) == {};
    } else {
      var n := |list| - 1;
      assert Elements(list) == Elements(list[..n]) + {list[n]};
      CommitAllOk(prog, xs, s, d, list[..n]);
      CommitOk(prog, xs, s, Elements(list[..n]), CommitAll(prog, d, list[..n]), list[n]);
    }
  }

  /******* The fine grain *******/

  lemma SameRegisters<V(!new)>(r: Registers, w: Registers, r': Registers, w': Registers, b: set<Txn<V>>, k: Key)
    requires Reserved(r, w, b) && Reserved(r', w', b)
    ensures Register(r, k) == Register(r', k) && Register(w, k) == Register(w', k)
  {
    assert IsLeast(Register(r, k), Readers(b, k)) && IsLeast(Register(r', k), Readers(b, k));
    assert IsLeast(Register(w, k), Writers(b, k)) && IsLeast(Register(w', k), Writers(b, k));
  }

  /** When the workers have reserved everything, in whatever interleaving, the registers are those that the
      transactions leave when they are executed one after another, in whatever order. */
  lemma ReadGrain<V(!new)>(prog: Program<V>, xs: set<nat>, s: Db<V>, split: seq<seq<Txn<V>>>, tr: seq<E.State<V>>,
                           n: nat, list: seq<nat>, k: Key)
    requires 0 !in xs && E.Splits(split, ExecAll(prog, xs, s)) && E.Run(s, split, tr) && n < |tr|
    requires Elements(list) == xs && forall w | w in tr[n].workers :: !w.pc.Reserving?
    ensures var d := ReadAll(prog, FreshData(s), list);
            && Register(tr[n].regs.readTable, k) == Register(d.readTable, k)
            && Register(tr[n].regs.writeTable, k) == Register(d.writeTable, k)
  {
    var b, d := ExecAll(prog, xs, s), ReadAll(prog, FreshData(s), list);
    ExecIds(prog, xs, s);
    E.RunInv(s, split, b, tr, n);
    E.RegsAtEnd(split, b, tr[n]);
    ReadAllOk(prog, xs, s, list);
    SameRegisters(tr[n].regs.readTable, tr[n].regs.writeTable, d.readTable, d.writeTable, b, k);
  }

  /** The verdict that goes with what a fine run says of a transaction. */
  function ResultOf(committed: bool, ok: bool): X.Result {
    if !ok then X.AbortNoRetry else if committed then X.Commit else X.Abort
  }

  lemma FineResults<V(!new)>(prog: Program<V>, xs: set<nat>, s: Db<V>, results: map<nat, bool>)
    requires var b := ExecAll(prog, xs, s);
             && (forall t | t in b :: t.tid in results && results[t.tid] == Committed(b, t))
             && forall x | x in results :: exists t :: t in b && t.tid == x
    ensures results.Keys == xs
    ensures forall x | x in xs :: VerdictOf(prog, xs, s, x) == ResultOf(results[x], prog(x)(s).ok)
  {
    forall x | x in xs ensures x in results && VerdictOf(prog, xs, s, x) == ResultOf(results[x], prog(x)(s).ok) {
      assert Exec(prog, x, s) in ExecAll(prog, xs, s);
    }
  }

  /** A finished run of the workers has the effect of executing all transactions one after another and then
      deciding all one after another, in any orders. */
  lemma SameGrain<V(!new)>(prog: Program<V>, xs: set<nat>, s: Db<V>, split: seq<seq<Txn<V>>>, tr: seq<E.State<V>>,
                           n: nat, first: seq<nat>, second: seq<nat>)
    requires 0 !in xs && E.Splits(split, ExecAll(prog, xs, s)) && E.Run(s, split, tr) && n < |tr| && E.Finished(tr[n])
    requires Elements(first) == Elements(second) == xs
    ensures var d := CommitAll(prog, ReadAll(prog, FreshData(s), first), second);
            && d.db == tr[n].db && d.verdicts.Keys == tr[n].results.Keys == xs
            && forall x | x in xs :: d.verdicts[x] == ResultOf(tr[n].results[x], prog(x)(s).ok)
  {
    ReadAllOk(prog, xs, s, first);
    CommitAllOk(prog, xs, s, ReadAll(prog, FreshData(s), first), second);
    FinishOk(prog, xs, s, CommitAll(prog, ReadAll(prog, FreshData(s), first), second));
    FineEpochEnds(prog, xs, s, split, tr, n);
  }

  lemma FineEpochEnds<V(!new)>(prog: Program<V>, xs: set<nat>, s: Db<V>, split: seq<seq<Txn<V>>>,
                               tr: seq<E.State<V>>, n: nat)
    requires 0 !in xs && E.Splits(split, ExecAll(prog, xs, s)) && E.Run(s, split, tr) && n < |tr| && E.Finished(tr[n])
    ensures tr[n].db == Next(prog, xs, s) && tr[n].results.Keys == xs
    ensures forall x | x in xs :: VerdictOf(prog, xs, s, x) == ResultOf(tr[n].results[x], prog(x)(s).ok)
  {
    ExecIds(prog, xs, s);
    E.FinishedResults(s, split, ExecAll(prog, xs, s), tr, n);
    NextUnique(prog, xs, s, tr[n].db);
    FineResults(prog, xs, s, tr[n].results);
  }

  /******* Servers at the fine grain *******/

  /** One epoch of a server: how its transactions are split among its workers, and what these do. */
  datatype FineEpoch<!V> = FineEpoch(split: seq<seq<Txn<V>>>, tr: seq<E.State<V>>)

  /** The database before epoch `n` of a server. */
  ghost function Before<V>(db: Db<V>, es: seq<FineEpoch<V>>, n: nat): Db<V>
    requires n <= |es| && forall i | 0 <= i < |es| :: es[i].tr != []
  {
    if n == 0 then db else es[n - 1].tr[|es[n - 1].tr| - 1].db
  }

  ghost predicate FineAt<V(!new)>(su: C.Setup<V>, es: seq<FineEpoch<V>>, n: nat)
    requires n < |es| && forall i | 0 <= i < |es| :: es[i].tr != []
  {
    var s := Before(su.db, es, n);
    && E.Splits(es[n].split, ExecAll(su.prog, su.work(su.start + n), s))
    && E.Run(s, es[n].split, es[n].tr) && E.Finished(es[n].tr[|es[n].tr| - 1])
  }

  /** A server that runs epoch after epoch, each with any number of workers, split and interleaving. */
  ghost predicate FineServer<V(!new)>(su: C.Setup<V>, es: seq<FineEpoch<V>>) {
    && Named(su.work) && (forall i | 0 <= i < |es| :: es[i].tr != [])
    && forall n | 0 <= n < |es| :: FineAt(su, es, n)
  }

  lemma {:induction false} FineFollows<V(!new)>(su: C.Setup<V>, es: seq<FineEpoch<V>>, n: nat)
    requires FineServer(su, es) && n <= |es|
    ensures Before(su.db, es, n) == C.At(su, su.start + n)
  {
    if n > 0 {
      FineFollows(su, es, n - 1);
      assert FineAt(su, es, n - 1);
      var e := es[n - 1];
      C.AtNext(su, su.start + n - 1);
      FineEpochEnds(su.prog, su.work(su.start + n - 1), Before(su.db, es, n - 1), e.split, e.tr, |e.tr| - 1);
    }
  }

  /** Servers agree across the grains: after an epoch, a server whose workers interleave at every register swap
      and every write-back has the database and the verdicts of every server of every cluster that has finished
      the epoch. */
  lemma GrainsAgree<V(!new)>(su: C.Setup<V>, tr: seq<C.Servers<V>>, n: nat, i: nat, es: seq<FineEpoch<V>>, m: nat)
    requires C.Run(su, tr) && n < |tr| && i < |tr[n]| && D.Over(tr[n][i].st)
    requires FineServer(su, es) && m < |es| && tr[n][i].st.epoch == su.start + m
    ensures var v, st := tr[n][i].data, es[m].tr[|es[m].tr| - 1];
            && v.db == st.db && v.verdicts.Keys == st.results.Keys
            && forall x | x in v.verdicts ::
                 v.verdicts[x] == ResultOf(st.results[x], su.prog(x)(C.At(su, su.start + m)).ok)
  {
    R.DatabasesFollow(su, tr, n, i);
    FineFollows(su, es, m);
    FineFollows(su, es, m + 1);
    assert FineAt(su, es, m);
    FineEpochEnds(su.prog, su.work(su.start + m), Before(su.db, es, m), es[m].split, es[m].tr, |es[m].tr| - 1);
  }
}
