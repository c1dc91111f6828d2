/** Optional values, sequences, and finite sets. */
module Collections {
  datatype Option<+T> = None | Some(value: T)

  function Concat<T>(pieces: seq<seq<T>>): seq<T> {
    if pieces == [] then [] else Concat(pieces[..|pieces| - 1]) + pieces[|pieces| - 1]
  }

  lemma ConcatAppend<T>(pieces: seq<seq<T>>, piece: seq<T>)
    ensures Concat(pieces + [piece]) == Concat(pieces) + piece
  {
    assert (pieces + [piece])[..|pieces|] == pieces;
  }

  predicate Distinct<T(==)>(s: seq<T>) {
    forall i, j | 0 <= i < j < |s| :: s[i] != s[j]
  }

  function Elements<T>(s: seq<T>): set<T> { set t | t in s }

  /** The elements to be kept, in order. */
  function Filter<T>(s: seq<T>, keep: T -> bool): seq<T> {
    if s == [] then []
    else Filter(s[..|s| - 1], keep) + if keep(s[|s| - 1]) then [s[|s| - 1]] else []
  }

  lemma {:induction false} FilterMember<T>(s: seq<T>, keep: T -> bool, t: T)
    ensures t in Filter(s, keep) <==> t in s && keep(t)
  {
    if s != [] {
      FilterMember(s[..|s| - 1], keep, t);
      assert s == s[..|s| - 1] + [s[|s| - 1]];
    }
  }

  lemma FilterAppend<T>(s: seq<T>, t: T, keep: T -> bool)
    ensures Filter(s + [t], keep) == Filter(s, keep) + if keep(t) then [t] else []
  {
    assert (s + [t])[..|s|] == s;
  }

  lemma {:induction false} FilterConcat<T>(s: seq<T>, t: seq<T>, keep: T -> bool)
    ensures Filter(s + t, keep) == Filter(s, keep) + Filter(t, keep)
    decreases |t|
  {
    if t == [] {
      assert s + t == s;
    } else {
      var front, last := t[..|t| - 1], t[|t| - 1];
      FilterConcat(s, front, keep);
      assert s + t == (s + front) + [last];
      FilterAppend(s + front, last, keep);
    }
  }

  /** The numbers below `n`. */
  function Indices(n: nat): (r: set<nat>)
    ensures |r| == n && forall i: nat :: i in r <==> i < n
  {
    if n == 0 then {} else Indices(n - 1) + {n - 1}
  }

  lemma {:induction false} SubsetSize<T>(a: set<T>, b: set<T>)
    requires a <= b
    ensures |a| <= |b|
    ensures |a| == |b| ==> a == b
  {
    if a != {} {
      var x :| x in a;
      SubsetSize(a - {x}, b - {x});
    }
  }

  /** If all but one of `n` wait, and `i` does not, then all others do. */
  lemma AllButOne(waiting: set<nat>, n: nat, i: nat)
    requires i < n && i !in waiting && |waiting| + 1 >= n && forall q | q in waiting :: q < n
    ensures forall q: nat | q < n && q != i :: q in waiting
  {
    SubsetSize(waiting + {i}, Indices(n));
    forall q: nat | q < n && q != i ensures q in waiting { assert q in Indices(n); }
  }
}
