/** How the servers of an aggregation cluster share out the transactions: each server takes its
    rank among the cluster's addresses, and executes the transaction ids that fall on its rank. */
module Ranks {
  import opened Collections

  /** The order of strcmp on strings without zero characters. */
  predicate Less(a: string, b: string) {
    b != [] && (a == [] || a[0] < b[0] || (a[0] == b[0] && Less(a[1..], b[1..])))
  }

  lemma {:induction false} LessIrreflexive(a: string)
    ensures !Less(a, a)
  {
    if a != [] { LessIrreflexive(a[1..]); }
  }

  lemma {:induction false} LessTransitive(a: string, b: string, c: string)
    requires Less(a, b) && Less(b, c)
    ensures Less(a, c)
  {
    if a != [] && a[0] == b[0] == c[0] { LessTransitive(a[1..], b[1..], c[1..]); }
  }

  lemma {:induction false} LessTotal(a: string, b: string)
    requires a != b
    ensures Less(a, b) || Less(b, a)
  {
    if a != [] && b != [] && a[0] == b[0] {
      assert a == [a[0]] + a[1..] && b == [b[0]] + b[1..];
      LessTotal(a[1..], b[1..]);
    }
  }

  /******* Ranks *******/

  function Below(ips: set<string>, ip: string): set<string> { set x | x in ips && Less(x, ip) }

  function Rank(ips: set<string>, ip: string): nat { |Below(ips, ip)| }

  lemma RankNext(ips: seq<string>, i: nat, local: string)
    requires Distinct(ips) && i < |ips|
    ensures Rank(Elements(ips[..i + 1]), local)
            == Rank(Elements(ips[..i]), local) + if Less(ips[i], local) then 1 else 0
  {
    var e := Elements(ips[..i]);
    assert ips[i] !in e;
    assert Elements(ips[..i + 1]) == e + {ips[i]};
    assert Below(e + {ips[i]}, local) == Below(e, local) + if Less(ips[i], local) then {ips[i]} else {};
  }

  /** The local id is the number of addresses before the local one. */
  method LocalId(ips: seq<string>, local: string) returns (id: nat)
    requires Distinct(ips)
    ensures id == Rank(Elements(ips), local)
  {
    id := 0;
    for i := 0 to |ips|
      invariant id == Rank(Elements(ips[..i]), local)
    {
      RankNext(ips, i, local);
      if Less(ips[i], local) { id := id + 1; }
    }
    assert ips[..|ips|] == ips;
  }

  lemma RankBound(ips: set<string>, ip: string)
    requires ip in ips
    ensures Rank(ips, ip) < |ips|
  {
    LessIrreflexive(ip);
    SubsetSize(Below(ips, ip), ips - {ip});
  }

  lemma RankOrder(ips: set<string>, a: string, b: string)
    requires a in ips && b in ips && Less(a, b)
    ensures Rank(ips, a) < Rank(ips, b)
  {
    LessIrreflexive(a);
    forall x | x in Below(ips, a) ensures x in Below(ips, b) - {a} { LessTransitive(x, a, b); }
    SubsetSize(Below(ips, a), Below(ips, b) - {a});
  }

  lemma RankInjective(ips: set<string>, a: string, b: string)
    requires a in ips && b in ips && Rank(ips, a) == Rank(ips, b)
    ensures a == b
  {
    if a != b {
      LessTotal(a, b);
      if Less(a, b) { RankOrder(ips, a, b); } else { RankOrder(ips, b, a); }
    }
  }

  lemma {:induction false} Greatest(ips: set<string>) returns (m: string)
    requires ips != {}
    ensures m in ips && forall x | x in ips && x != m :: Less(x, m)
    decreases |ips|
  {
    m :| m in ips;
    if ips != {m} {
      var o := Greatest(ips - {m});
      LessTotal(o, m);
      if Less(m, o) {
        m := o;
      } else {
        forall x | x in ips && x != m ensures Less(x, m) {
          if x != o { LessTransitive(x, o, m); }
        }
      }
    }
  }

  lemma LessAsymmetric(a: string, b: string)
    requires Less(a, b)
    ensures !Less(b, a)
  {
    if Less(b, a) {
      LessTransitive(a, b, a);
      LessIrreflexive(a);
    }
  }

  /** Every number below the size of the cluster is a rank. */
  lemma {:induction false} RankOnto(ips: set<string>, r: nat) returns (ip: string)
    requires r < |ips|
    ensures ip in ips && Rank(ips, ip) == r
    decreases |ips|
  {
    var m := Greatest(ips);
    LessIrreflexive(m);
    if r == |ips| - 1 {
      assert Below(ips, m) == ips - {m};
      ip := m;
    } else {
      ip := RankOnto(ips - {m}, r);
      LessAsymmetric(ip, m);
      assert Below(ips, ip) == Below(ips - {m}, ip);
    }
  }

  /** A server executes the ids that fall on its rank. */
  predicate IsLocal(tid: nat, count: nat, localId: nat)
    requires count > 0
  {
    tid % count == localId
  }

  /** Every transaction is executed by exactly one server of the cluster. */
  lemma OneExecutor(ips: set<string>, tid: nat)
    requires ips != {}
    ensures exists ip :: ip in ips && IsLocal(tid, |ips|, Rank(ips, ip))
    ensures forall a, b | a in ips && b in ips ::
              IsLocal(tid, |ips|, Rank(ips, a)) && IsLocal(tid, |ips|, Rank(ips, b)) ==> a == b
  {
    var ip := RankOnto(ips, tid % |ips|);
    forall a, b | a in ips && b in ips && IsLocal(tid, |ips|, Rank(ips, a))
      && IsLocal(tid, |ips|, Rank(ips, b)) ensures a == b {
      RankInjective(ips, a, b);
    }
  }
}
