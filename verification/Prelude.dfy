/** Stock helpers shared by the other modules. */
module Prelude {

  datatype Option<+T> = None | Some(value: T)

  function Max(a: int, b: int): int {
    if a < b then b else a
  }

  function Min(a: int, b: int): int {
    if a < b then a else b
  }

  /** `s.slice(-n)`: the last n elements, or all of them. */
  function LastN<T>(s: seq<T>, n: nat): seq<T> {
    if |s| <= n then s else s[|s| - n..]
  }

  /** Truncating before appending loses nothing that truncating afterwards keeps. */
  lemma LastNAppend<T>(s: seq<T>, x: T, n: nat)
    ensures LastN(LastN(s, n) + [x], n) == LastN(s + [x], n)
  {
  }

  /** The elements satisfying `keep`, in order. */
  function Filter<T>(keep: T -> bool, s: seq<T>): seq<T> {
    if s == [] then []
    else (if keep(s[0]) then [s[0]] else []) + Filter(keep, s[1..])
  }

  lemma {:induction false} FilterAppend<T>(keep: T -> bool, s: seq<T>, t: seq<T>)
    ensures Filter(keep, s + t) == Filter(keep, s) + Filter(keep, t)
  {
    if s == [] {
      assert s + t == t;
    } else {
      FilterAppend(keep, s[1..], t);
      assert (s + t)[1..] == s[1..] + t && (s + t)[0] == s[0];
      var head := if keep(s[0]) then [s[0]] else [];
      assert head + (Filter(keep, s[1..]) + Filter(keep, t)) == (head + Filter(keep, s[1..])) + Filter(keep, t);
    }
  }

  lemma {:induction false} FilterMembers<T>(keep: T -> bool, s: seq<T>)
    ensures forall x :: x in Filter(keep, s) <==> x in s && keep(x)
    ensures |Filter(keep, s)| <= |s|
  {
    if s != [] {
      FilterMembers(keep, s[1..]);
      assert forall x :: x in s <==> x == s[0] || x in s[1..];
    }
  }

  lemma {:induction false} FilterElements<T>(keep: T -> bool, s: seq<T>)
    ensures forall i :: 0 <= i < |Filter(keep, s)| ==> Filter(keep, s)[i] in s && keep(Filter(keep, s)[i])
  {
    if s != [] {
      FilterElements(keep, s[1..]);
    }
  }

  /** Where a surviving element comes from. */
  lemma {:induction false} FilterOrigin<T>(keep: T -> bool, s: seq<T>, j: nat) returns (k: nat)
    requires j < |Filter(keep, s)|
    ensures k < |s| && s[k] == Filter(keep, s)[j] && keep(s[k])
  {
    if keep(s[0]) && j == 0 {
      k := 0;
    } else {
      var m := FilterOrigin(keep, s[1..], if keep(s[0]) then j - 1 else j);
      k := m + 1;
    }
  }

  /** Where the surviving elements come from, in order. */
  lemma {:induction false} FilterOrigins<T>(keep: T -> bool, s: seq<T>) returns (places: seq<nat>)
    ensures |places| == |Filter(keep, s)|
    ensures forall i :: 0 <= i < |places| ==> places[i] < |s| && s[places[i]] == Filter(keep, s)[i]
    ensures forall i, j :: 0 <= i < j < |places| ==> places[i] < places[j]
  {
    places := [];
    if s != [] {
      var n := |s| - 1;
      places := FilterOrigins(keep, s[..n]);
      assert s == s[..n] + [s[n]];
      FilterAppend(keep, s[..n], [s[n]]);
      if keep(s[n]) {
        places := places + [n];
      }
    }
  }

  /** Filtering first by `p` changes nothing when every element that `p` drops fails `q` too. */
  lemma {:induction false} FilterAbsorb<T>(p: T -> bool, q: T -> bool, s: seq<T>)
    requires forall x :: x in s && q(x) ==> p(x)
    ensures Filter(q, Filter(p, s)) == Filter(q, s)
  {
    if s != [] {
      FilterAbsorb(p, q, s[1..]);
      FilterAppend(q, if p(s[0]) then [s[0]] else [], Filter(p, s[1..]));
      assert q(s[0]) ==> p(s[0]);
    }
  }

  /** A filter that rejects or accepts everything. */
  lemma FilterNone<T>(keep: T -> bool, s: seq<T>)
    requires forall i :: 0 <= i < |s| ==> !keep(s[i])
    ensures Filter(keep, s) == []
  {
  }

  lemma {:induction false} FilterAll<T>(keep: T -> bool, s: seq<T>)
    requires forall i :: 0 <= i < |s| ==> keep(s[i])
    ensures Filter(keep, s) == s
  {
    if s != [] {
      FilterAll(keep, s[1..]);
    }
  }

  /** Two predicates that agree on the elements filter alike. */
  lemma {:induction false} FilterCongruence<T>(p: T -> bool, q: T -> bool, s: seq<T>)
    requires forall x :: x in s ==> p(x) == q(x)
    ensures Filter(p, s) == Filter(q, s)
  {
    if s != [] {
      assert s[0] in s;
      FilterCongruence(p, q, s[1..]);
    }
  }

  function Sum(s: seq<nat>): nat {
    if s == [] then 0 else s[0] + Sum(s[1..])
  }

  lemma {:induction false} SumUpdate(s: seq<nat>, i: nat, v: nat)
    requires i < |s|
    ensures Sum(s[i := v]) == Sum(s) - s[i] + v
  {
    if i == 0 {
      assert s[i := v][1..] == s[1..];
    } else {
      assert s[i := v][1..] == s[1..][i - 1 := v];
      SumUpdate(s[1..], i - 1, v);
    }
  }

  lemma {:induction false} SumBound(s: seq<nat>, bound: nat)
    requires forall i :: 0 <= i < |s| ==> s[i] <= bound
    ensures Sum(s) <= |s| * bound
  {
    if s != [] {
      SumBound(s[1..], bound);
      assert |s| * bound == bound + (|s| - 1) * bound;
    }
  }

  /** Pointwise order lifts to sums; a strict drop anywhere makes the sum drop. */
  lemma {:induction false} SumMonotone(s: seq<nat>, t: seq<nat>)
    requires |s| == |t|
    requires forall i :: 0 <= i < |s| ==> s[i] <= t[i]
    ensures Sum(s) <= Sum(t)
    ensures (exists i :: 0 <= i < |s| && s[i] < t[i]) ==> Sum(s) < Sum(t)
  {
    if s != [] {
      SumMonotone(s[1..], t[1..]);
      if i :| 0 <= i < |s| && s[i] < t[i] {
        if i > 0 {
          assert s[1..][i - 1] < t[1..][i - 1];
        }
      }
    }
  }
}
