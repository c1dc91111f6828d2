/** Epochs shared by a cluster of servers: each server executes the transactions on its rank, the
    servers exchange read and write sets, and every server then reserves and commits the whole
    epoch. The result is proved to be that of executing everything locally. */
module Aggregation {
  import opened Aria
  import opened Collections
  import opened Reservation
  import opened AriaExecutor
  import Ranks

  /** What a server sends of one transaction it executed. */
  datatype Node<V> = Node(tid: nat, ok: bool, readSet: seq<Key>, writeSet: seq<Write<V>>)

  function NodeOf<V>(tid: nat, out: Outcome<V>): Node<V> { Node(tid, out.ok, out.readSet, out.writeSet) }

  /******* Sharing out *******/

  /** The transactions on a rank, or off it, in order. */
  function Share<V>(list: seq<Transaction<V>>, count: nat, id: nat, local: bool): seq<Transaction<V>>
    requires count > 0
  {
    Filter(list, (t: Transaction<V>) => Ranks.IsLocal(t.tid, count, id) == local)
  }

  lemma ShareMember<V>(list: seq<Transaction<V>>, count: nat, id: nat, local: bool, t: Transaction<V>)
    requires count > 0
    ensures t in Share(list, count, id, local) <==> t in list && Ranks.IsLocal(t.tid, count, id) == local
  {
    FilterMember(list, (t: Transaction<V>) => Ranks.IsLocal(t.tid, count, id) == local, t);
  }

  lemma {:induction false} ShareDistinct<V>(list: seq<Transaction<V>>, count: nat, id: nat, local: bool)
    requires count > 0 && DistinctIds(list)
    ensures DistinctIds(Share(list, count, id, local))
  {
    if list != [] {
      var n := |list| - 1;
      ShareDistinct(list[..n], count, id, local);
      var s := Share(list[..n], count, id, local);
      forall i | 0 <= i < |s| ensures s[i].tid != list[n].tid {
        ShareMember(list[..n], count, id, local, s[i]);
        assert s[i] in list[..n];
      }
    }
  }

  /** Split an epoch into the transactions to execute and those to wait for. */
  method ShareOut<V>(list: seq<Transaction<V>>, count: nat, id: nat)
    returns (mine: seq<Transaction<V>>, theirs: seq<Transaction<V>>)
    requires count > 0
    ensures mine == Share(list, count, id, true) && theirs == Share(list, count, id, false)
  {
    mine, theirs := [], [];
    for i := 0 to |list|
      invariant mine == Share(list[..i], count, id, true) && theirs == Share(list[..i], count, id, false)
    {
      assert list[..i + 1][..i] == list[..i];
      if Ranks.IsLocal(list[i].tid, count, id) { mine := mine + [list[i]]; } else { theirs := theirs + [list[i]]; }
    }
    assert list[..|list|] == list;
  }

  /******* The exchange *******/

  /** The message of a server about the transactions it executed. */
  method MakeExchange<V>(list: seq<Transaction<V>>) returns (nodes: seq<Node<V>>)
    ensures |nodes| == |list| && forall i | 0 <= i < |list| :: nodes[i] == NodeOf(list[i].tid, list[i].View().out)
  {
    nodes := [];
    for i := 0 to |list|
      invariant |nodes| == i && forall j | 0 <= j < i :: nodes[j] == NodeOf(list[j].tid, list[j].View().out)
    {
      nodes := nodes + [Node(list[i].tid, list[i].result != AbortNoRetry, list[i].readSet, list[i].writeSet)];
    }
  }

  /** Take over one received transaction and buffer its updates. */
  method TakeNode<V>(node: Node<V>, t: Transaction<V>, db: Database<V>)
    requires t.tid == node.tid
    modifies t, db
    ensures t.View() == Txn(t.tid, t.code, Outcome(node.ok, node.readSet, node.writeSet))
    ensures t.result in {Pending, AbortNoRetry}
    ensures db.storage == old(db.storage) && !db.commitPhase
    ensures db.rwSetBuffer == (if old(db.commitPhase) then map[] else old(db.rwSetBuffer))[t.tid := t]
  {
    t.result := if node.ok then Pending else AbortNoRetry;
    t.readSet, t.writeSet := node.readSet, node.writeSet;
    db.BufferUpdates(t);
  }

  /** The transactions waited for, by id. */
  ghost predicate Listens<V>(listen: map<nat, Transaction<V>>) {
    forall tid | tid in listen :: listen[tid].tid == tid
  }

  /** `t` is known with the outcome of node `n`. */
  ghost predicate Known<V>(t: Transaction<V>, n: Node<V>, db: Database<V>)
    reads t, db
  {
    Stands(t, Txn(t.tid, t.code, Outcome(n.ok, n.readSet, n.writeSet)), db)
  }

  /** Take over everything in the messages of the other servers. A transaction that nobody waits for
      stops the server. `kept` stand in the buffer already. */
  method ReceiveExchange<V>(nodes: seq<Node<V>>, listen: map<nat, Transaction<V>>, db: Database<V>,
                            ghost kept: seq<Transaction<V>>, ghost vs: seq<Txn<V>>) returns (ok: bool)
    requires Listens(listen) && (forall i, j | 0 <= i < j < |nodes| :: nodes[i].tid != nodes[j].tid)
    requires |vs| == |kept| && forall i | 0 <= i < |kept| :: Stands(kept[i], vs[i], db)
    requires forall i | 0 <= i < |kept| :: kept[i].tid !in listen
    requires kept != [] ==> !db.commitPhase
    modifies db, listen.Values
    ensures db.storage == old(db.storage)
    ensures ok <==> forall i | 0 <= i < |nodes| :: nodes[i].tid in listen
    ensures ok ==> forall i | 0 <= i < |nodes| :: Known(listen[nodes[i].tid], nodes[i], db)
    ensures ok ==> forall i | 0 <= i < |kept| :: Stands(kept[i], vs[i], db)
  {
    for n := 0 to |nodes|
      invariant db.storage == old(db.storage)
      invariant n > 0 || kept != [] ==> !db.commitPhase
      invariant forall i | 0 <= i < n :: nodes[i].tid in listen && Known(listen[nodes[i].tid], nodes[i], db)
      invariant forall i | 0 <= i < |kept| :: Stands(kept[i], vs[i], db)
    {
      if nodes[n].tid !in listen { return false; }
      var t := listen[nodes[n].tid];
      assert t in listen.Values;
      assert forall i | 0 <= i < n :: listen[nodes[i].tid] != t;
      TakeNode(nodes[n], t, db);
    }
    ok := true;
  }

  method ListenFor<V>(list: seq<Transaction<V>>) returns (listen: map<nat, Transaction<V>>)
    requires DistinctIds(list)
    ensures Listens(listen) && forall i | 0 <= i < |list| :: list[i].tid in listen && listen[list[i].tid] == list[i]
    ensures forall tid | tid in listen :: listen[tid] in list
  {
    listen := map[];
    for n := 0 to |list|
      invariant Listens(listen) && forall i | 0 <= i < n :: list[i].tid in listen && listen[list[i].tid] == list[i]
      invariant forall tid | tid in listen :: listen[tid] in list
    {
      listen := listen[list[n].tid := list[n]];
    }
  }

  ghost predicate Expected<V>(n: Node<V>, theirs: seq<Transaction<V>>, s: Db<V>) {
    exists t :: t in theirs && n == NodeOf(t.tid, t.code(s))
  }

  /** The nodes received from the other servers: one for each transaction waited for, with the outcome
      of its chaincode on snapshot `s`. */
  ghost predicate Exchanged<V>(nodes: seq<Node<V>>, theirs: seq<Transaction<V>>, s: Db<V>) {
    && (forall i, j | 0 <= i < j < |nodes| :: nodes[i].tid != nodes[j].tid)
    && (forall i | 0 <= i < |nodes| :: Expected(nodes[i], theirs, s))
    && (forall t | t in theirs :: NodeOf(t.tid, t.code(s)) in nodes)
  }

  /******* Reserving for others *******/

  /** Reserve the keys of transactions that other servers executed. `b` reserved before. */
  method ReserveOnly<V(!new)>(list: seq<Transaction<V>>, table: ReserveTable, ghost b: set<Txn<V>>,
                              ghost vs: seq<Txn<V>>)
    requires Reserved(table.readTable, table.writeTable, b)
    requires |vs| == |list| && forall i | 0 <= i < |list| :: list[i].View() == vs[i] && list[i].tid != 0
    modifies table
    ensures Reserved(table.readTable, table.writeTable, b + Elements(vs))
  {
    assert b + Elements(vs[..0]) == b;
    for n := 0 to |list|
      invariant Reserved(table.readTable, table.writeTable, b + Elements(vs[..n]))
    {
      ghost var r0, w0, done := table.readTable, table.writeTable, b + Elements(vs[..n]);
      if list[n].result == AbortNoRetry {
        FailedReservesNothing(r0, w0, done, vs[n]);
      } else {
        table.ReserveRWSet(list[n]);
        ReserveExtends(r0, w0, table.readTable, table.writeTable, done, vs[n]);
      }
      ElementsNext(b, vs, n);
    }
    assert vs[..|list|] == vs;
  }

  /******* The epoch of one server *******/

  lemma ShareBatch<V(!new)>(list: seq<Transaction<V>>, count: nat, id: nat, s: Db<V>)
    requires count > 0
    ensures Elements(Batch(list, s))
            == Elements(Batch(Share(list, count, id, true), s)) + Elements(Batch(Share(list, count, id, false), s))
  {
    var mine, theirs := Share(list, count, id, true), Share(list, count, id, false);
    forall v | v in Batch(list, s) ensures v in Batch(mine, s) || v in Batch(theirs, s) {
      BatchMember(list, s, v);
      var t :| t in list && v == Txn(t.tid, t.code, t.code(s));
      ShareMember(list, count, id, true, t);
      ShareMember(list, count, id, false, t);
      BatchMember(mine, s, v);
      BatchMember(theirs, s, v);
    }
    forall v, local | v in Batch(Share(list, count, id, local), s) ensures v in Batch(list, s) {
      BatchMember(Share(list, count, id, local), s, v);
      var t :| t in Share(list, count, id, local) && v == Txn(t.tid, t.code, t.code(s));
      ShareMember(list, count, id, local, t);
      BatchMember(list, s, v);
    }
  }

  lemma BatchMember<V(!new)>(list: seq<Transaction<V>>, s: Db<V>, v: Txn<V>)
    ensures v in Batch(list, s) <==> exists t :: t in list && v == Txn(t.tid, t.code, t.code(s))
  {
    if v in Batch(list, s) {
      var i :| 0 <= i < |list| && v == Batch(list, s)[i];
      assert list[i] in list;
    }
    if t :| t in list && v == Txn(t.tid, t.code, t.code(s)) {
      var i :| 0 <= i < |list| && list[i] == t;
      assert Batch(list, s)[i] == v;
    }
  }

  /** After the exchange every transaction waited for stands with the outcome of its chaincode. */
  lemma ExchangeComplete<V>(nodes: seq<Node<V>>, listen: map<nat, Transaction<V>>, theirs: seq<Transaction<V>>,
                            s: Db<V>, db: Database<V>)
    requires Exchanged(nodes, theirs, s)
    requires forall i | 0 <= i < |theirs| :: theirs[i].tid in listen && listen[theirs[i].tid] == theirs[i]
    requires forall i | 0 <= i < |nodes| :: nodes[i].tid in listen && Known(listen[nodes[i].tid], nodes[i], db)
    ensures forall i | 0 <= i < |theirs| :: Stands(theirs[i], Batch(theirs, s)[i], db)
  {
    forall i | 0 <= i < |theirs| ensures Stands(theirs[i], Batch(theirs, s)[i], db) {
      var t := theirs[i];
      assert t in theirs && NodeOf(t.tid, t.code(s)) in nodes;
      var j :| 0 <= j < |nodes| && nodes[j] == NodeOf(t.tid, t.code(s));
      assert Known(listen[nodes[j].tid], nodes[j], db);
    }
  }

  /** The read phase of one server: execute its share, take over the rest, reserve for everything. */
  method ReadAll<V(!new)>(mine: seq<Transaction<V>>, theirs: seq<Transaction<V>>, nodes: seq<Node<V>>, db: Database<V>)
    returns (table: ReserveTable)
    requires DistinctIds(mine) && DistinctIds(theirs)
    requires forall t, u | t in mine && u in theirs :: t.tid != u.tid
    requires forall i | 0 <= i < |mine| :: mine[i].tid != 0 && mine[i].result == Pending
    requires forall i | 0 <= i < |theirs| :: theirs[i].tid != 0
    requires Exchanged(nodes, theirs, db.storage)
    modifies db, mine, theirs
    ensures fresh(table) && db.storage == old(db.storage)
    ensures Reserved(table.readTable, table.writeTable,
            Elements(Batch(mine, db.storage)) + Elements(Batch(theirs, db.storage)))
    ensures forall i | 0 <= i < |mine| :: Stands(mine[i], Batch(mine, db.storage)[i], db)
    ensures forall i | 0 <= i < |theirs| :: Stands(theirs[i], Batch(theirs, db.storage)[i], db)
  {
    ghost var s, vs, ws := db.storage, Batch(mine, db.storage), Batch(theirs, db.storage);
    table := new ReserveTable();
    assert Reserved<V>(table.readTable, table.writeTable, {}) by {
      forall k ensures Readers<V>({}, k) == {} && Writers<V>({}, k) == {} { }
    }
    ExecuteList(mine, table, db, {});
    assert {} + Elements(vs) == Elements(vs);
    var listen := ListenFor(theirs);
    forall i | 0 <= i < |mine| ensures mine[i].tid !in listen {
      assert mine[i] in mine;
    }
    var ok := ReceiveExchange(nodes, listen, db, mine, vs);
    assert ok;
    ExchangeComplete(nodes, listen, theirs, s, db);
    ReserveOnly(theirs, table, Elements(vs), ws);
  }

  /** One epoch of one server of the cluster. It ends as if the server had executed every transaction. */
  method AggregateEpoch<V(!new)>(list: seq<Transaction<V>>, count: nat, id: nat, nodes: seq<Node<V>>, db: Database<V>)
    requires count > 0 && DistinctIds(list)
    requires forall i | 0 <= i < |list| :: list[i].tid != 0 && list[i].result == Pending && ReadDriven(list[i].code)
    requires Exchanged(nodes, Share(list, count, id, false), db.storage)
    modifies db, list
    ensures var b := Elements(Batch(list, old(db.storage)));
            && Ids(b) && Executed(old(db.storage), b)
            && EpochResult(old(db.storage), b, db.storage)
            && forall i | 0 <= i < |list| ::
                 list[i].result == Verdict(Committed(b, list[i].View()), list[i].View())
  {
    ghost var s := db.storage;
    var mine, theirs := ShareOut(list, count, id);
    ShareFacts(list, count, id);
    assert forall i | 0 <= i < |mine| :: mine[i] in mine && mine[i] in list;
    assert forall i | 0 <= i < |theirs| :: theirs[i] in theirs && theirs[i] in list;
    var table := ReadAll(mine, theirs, nodes, db);
    ShareBatch(list, count, id, s);
    BatchFacts(list, s);
    CommitAll(mine, theirs, table, db, s);
    forall i | 0 <= i < |list|
      ensures list[i].result == Verdict(Committed(Elements(Batch(list, s)), list[i].View()), list[i].View())
    {
      assert list[i] in list;
    }
  }

  lemma BatchFacts<V(!new)>(list: seq<Transaction<V>>, s: Db<V>)
    requires DistinctIds(list) && forall i | 0 <= i < |list| :: list[i].tid != 0 && ReadDriven(list[i].code)
    ensures Ids(Elements(Batch(list, s))) && Executed(s, Elements(Batch(list, s)))
  {
  }

  /** The commit phase of one server over both shares. */
  method CommitAll<V(!new)>(mine: seq<Transaction<V>>, theirs: seq<Transaction<V>>, table: ReserveTable,
                            db: Database<V>, ghost s: Db<V>)
    requires DistinctIds(mine) && DistinctIds(theirs) && forall t, u | t in mine && u in theirs :: t.tid != u.tid
    requires var b := Elements(Batch(mine, s)) + Elements(Batch(theirs, s));
             Ids(b) && Reserved(table.readTable, table.writeTable, b) && s == db.storage
    requires forall i | 0 <= i < |mine| :: Stands(mine[i], Batch(mine, s)[i], db)
    requires forall i | 0 <= i < |theirs| :: Stands(theirs[i], Batch(theirs, s)[i], db)
    modifies db, mine, theirs
    ensures var b := Elements(Batch(mine, s)) + Elements(Batch(theirs, s));
            && EpochResult(s, b, db.storage)
            && (forall t | t in mine || t in theirs :: t.result == Verdict(Committed(b, t.View()), t.View()))
  {
    ghost var vs, ws := Batch(mine, s), Batch(theirs, s);
    ghost var b := Elements(vs) + Elements(ws);
    assert forall i | 0 <= i < |mine| :: mine[i] in mine;
    assert forall i | 0 <= i < |theirs| :: theirs[i] in theirs;
    assert Overlay(s, {}, s);
    CommitList(mine, table, db, s, b, vs, {});
    ghost var c := CommittedAmong(b, vs, |vs|);
    assert {} + c == c;
    forall i | 0 <= i < |theirs| ensures Stands(theirs[i], ws[i], db) && ws[i] in b && ws[i] !in c {
      assert ws[i].tid == theirs[i].tid;
    }
    CommitList(theirs, table, db, s, b, ws, c);
    assert c + CommittedAmong(b, ws, |ws|) == CommittedSet(b);
  }

  lemma ShareFacts<V>(list: seq<Transaction<V>>, count: nat, id: nat)
    requires count > 0 && DistinctIds(list)
    ensures var mine, theirs := Share(list, count, id, true), Share(list, count, id, false);
            && DistinctIds(mine) && DistinctIds(theirs)
            && (forall t, u | t in mine && u in theirs :: t.tid != u.tid && t != u)
            && (forall t | t in mine || t in theirs :: t in list)
            && (forall t | t in list :: t in mine || t in theirs)
  {
    ShareDistinct(list, count, id, true);
    ShareDistinct(list, count, id, false);
    forall t, local | t in Share(list, count, id, local) ensures t in list {
      ShareMember(list, count, id, local, t);
    }
    forall t | t in list ensures t in Share(list, count, id, true) || t in Share(list, count, id, false) {
      ShareMember(list, count, id, true, t);
      ShareMember(list, count, id, false, t);
    }
    forall t, u | t in Share(list, count, id, true) && u in Share(list, count, id, false) ensures t.tid != u.tid {
      ShareMember(list, count, id, true, t);
      ShareMember(list, count, id, false, u);
    }
  }

  /******* The cluster *******/

  /** What the server of rank `r` sends after executing its share on snapshot `s`. */
  function Sent<V>(list: seq<Transaction<V>>, s: Db<V>, count: nat, r: nat): (nodes: seq<Node<V>>)
    requires count > 0
    ensures |nodes| == |Share(list, count, r, true)|
    ensures forall i | 0 <= i < |nodes| ::
              nodes[i] == NodeOf(Share(list, count, r, true)[i].tid, Share(list, count, r, true)[i].code(s))
  {
    var mine := Share(list, count, r, true);
    seq(|mine|, i requires 0 <= i < |mine| => NodeOf(mine[i].tid, mine[i].code(s)))
  }

  /** What the servers of rank below `k`, without `id`, send. */
  function Incoming<V>(list: seq<Transaction<V>>, s: Db<V>, count: nat, id: nat, k: nat): seq<Node<V>>
    requires count > 0
  {
    if k == 0 then [] else Incoming(list, s, count, id, k - 1) + if k - 1 == id then [] else Sent(list, s, count, k - 1)
  }

  lemma SentNode<V>(list: seq<Transaction<V>>, s: Db<V>, count: nat, r: nat, n: Node<V>) returns (t: Transaction<V>)
    requires count > 0 && n in Sent(list, s, count, r)
    ensures t in list && n == NodeOf(t.tid, t.code(s)) && Ranks.IsLocal(t.tid, count, r)
  {
    var i :| 0 <= i < |Sent(list, s, count, r)| && Sent(list, s, count, r)[i] == n;
    t := Share(list, count, r, true)[i];
    ShareMember(list, count, r, true, t);
  }

  lemma {:induction false} IncomingNode<V>(list: seq<Transaction<V>>, s: Db<V>, count: nat, id: nat, k: nat, n: Node<V>)
    returns (t: Transaction<V>, r: nat)
    requires count > 0 && n in Incoming(list, s, count, id, k)
    ensures t in list && n == NodeOf(t.tid, t.code(s)) && Ranks.IsLocal(t.tid, count, r) && r != id && r < k
  {
    if n in Incoming(list, s, count, id, k - 1) {
      t, r := IncomingNode(list, s, count, id, k - 1, n);
    } else {
      r := k - 1;
      t := SentNode(list, s, count, r, n);
    }
  }

  lemma SentHas<V>(list: seq<Transaction<V>>, s: Db<V>, count: nat, r: nat, t: Transaction<V>)
    requires count > 0 && t in list && Ranks.IsLocal(t.tid, count, r)
    ensures NodeOf(t.tid, t.code(s)) in Sent(list, s, count, r)
  {
    ShareMember(list, count, r, true, t);
    var i :| 0 <= i < |Share(list, count, r, true)| && Share(list, count, r, true)[i] == t;
    assert Sent(list, s, count, r)[i] == NodeOf(t.tid, t.code(s));
  }

  lemma {:induction false} IncomingHas<V>(list: seq<Transaction<V>>, s: Db<V>, count: nat, id: nat, k: nat,
                                          t: Transaction<V>, r: nat)
    requires count > 0 && t in list && Ranks.IsLocal(t.tid, count, r) && r != id && r < k
    ensures NodeOf(t.tid, t.code(s)) in Incoming(list, s, count, id, k)
    decreases k
  {
    if r < k - 1 { IncomingHas(list, s, count, id, k - 1, t, r); } else { SentHas(list, s, count, r, t); }
  }

  ghost predicate Apart<V>(a: seq<Node<V>>, b: seq<Node<V>>) {
    forall i, j | 0 <= i < |a| && 0 <= j < |b| :: a[i].tid != b[j].tid
  }

  /** What the servers before rank `k` send and what server `k` sends are different transactions. */
  lemma RanksApart<V>(list: seq<Transaction<V>>, s: Db<V>, count: nat, id: nat, k: nat)
    requires count > 0
    ensures Apart(Incoming(list, s, count, id, k), Sent(list, s, count, k))
  {
    var a, b := Incoming(list, s, count, id, k), Sent(list, s, count, k);
    forall i, j | 0 <= i < |a| && 0 <= j < |b| ensures a[i].tid != b[j].tid {
      var t, r := IncomingNode(list, s, count, id, k, a[i]);
      var u := SentNode(list, s, count, k, b[j]);
    }
  }

  ghost predicate DistinctNodes<V>(nodes: seq<Node<V>>) {
    forall i, j | 0 <= i < j < |nodes| :: nodes[i].tid != nodes[j].tid
  }

  lemma {:induction false} IncomingDistinct<V>(list: seq<Transaction<V>>, s: Db<V>, count: nat, id: nat, k: nat)
    requires count > 0 && DistinctIds(list)
    ensures DistinctNodes(Incoming(list, s, count, id, k))
  {
    if k > 0 {
      var a, b := Incoming(list, s, count, id, k - 1), Sent(list, s, count, k - 1);
      IncomingDistinct(list, s, count, id, k - 1);
      if k - 1 == id {
        assert Incoming(list, s, count, id, k) == a;
      } else {
        SentDistinct(list, s, count, k - 1);
        RanksApart(list, s, count, id, k - 1);
        AllApart(a, b);
      }
    }
  }

  lemma SentDistinct<V>(list: seq<Transaction<V>>, s: Db<V>, count: nat, r: nat)
    requires count > 0 && DistinctIds(list)
    ensures DistinctNodes(Sent(list, s, count, r))
  {
    ShareDistinct(list, count, r, true);
  }

  lemma AllApart<V>(a: seq<Node<V>>, b: seq<Node<V>>)
    requires DistinctNodes(a) && DistinctNodes(b)
    requires Apart(a, b)
    ensures DistinctNodes(a + b)
  {
  }

  /** With one server on every rank, what a server receives is exactly what it waits for. */
  lemma ClusterExchange<V>(list: seq<Transaction<V>>, s: Db<V>, count: nat, id: nat)
    requires count > 0 && DistinctIds(list)
    ensures Exchanged(Incoming(list, s, count, id, count), Share(list, count, id, false), s)
  {
    var nodes, theirs := Incoming(list, s, count, id, count), Share(list, count, id, false);
    IncomingDistinct(list, s, count, id, count);
    forall i | 0 <= i < |nodes| ensures Expected(nodes[i], theirs, s) {
      var t, r := IncomingNode(list, s, count, id, count, nodes[i]);
      ShareMember(list, count, id, false, t);
      assert t in theirs && nodes[i] == NodeOf(t.tid, t.code(s));
    }
    forall t | t in theirs ensures NodeOf(t.tid, t.code(s)) in nodes {
      ShareMember(list, count, id, false, t);
      IncomingHas(list, s, count, id, count, t, t.tid % count);
    }
  }
}
