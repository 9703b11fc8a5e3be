/** Sums of integer sequences, used by every accounting argument of the project. */
module Sums {

  function Sum(s: seq<int>): int {
    if s == [] then 0 else Sum(s[..|s| - 1]) + s[|s| - 1]
  }

  lemma SumEmpty(s: seq<int>)
    requires |s| == 0
    ensures Sum(s) == 0
  {
  }

  lemma {:induction false} SumAppend(s: seq<int>, x: int)
    ensures Sum(s + [x]) == Sum(s) + x
  {
    assert (s + [x])[..|s|] == s;
  }

  lemma {:induction false} SumUpdate(s: seq<int>, i: nat, x: int)
    requires i < |s|
    ensures Sum(s[i := x]) == Sum(s) - s[i] + x
  {
    var n := |s| - 1;
    if i == n {
      assert s[i := x][..n] == s[..n];
    } else {
      assert s[i := x][..n] == s[..n][i := x];
      SumUpdate(s[..n], i, x);
    }
  }

  lemma {:induction false} SumRemove(s: seq<int>, i: nat)
    requires i < |s|
    ensures Sum(s[..i] + s[i + 1..]) == Sum(s) - s[i]
  {
    var n := |s| - 1;
    if i == n {
      assert s[..i] + s[i + 1..] == s[..n];
    } else {
      assert (s[..i] + s[i + 1..])[..n - 1] == s[..n][..i] + s[..n][i + 1..];
      SumRemove(s[..n], i);
    }
  }

  lemma {:induction false} SumMonotone(s: seq<int>, t: seq<int>)
    requires |s| == |t|
    requires forall i :: 0 <= i < |s| ==> s[i] <= t[i]
    ensures Sum(s) <= Sum(t)
  {
    if s == [] {
    } else {
      SumMonotone(s[..|s| - 1], t[..|t| - 1]);
    }
  }

  /** A sum of non-negative terms is zero exactly when every term is. */
  lemma {:induction false} SumZero(s: seq<int>)
    requires forall i :: 0 <= i < |s| ==> 0 <= s[i]
    ensures 0 <= Sum(s)
    ensures Sum(s) == 0 <==> forall i :: 0 <= i < |s| ==> s[i] == 0
  {
    if s == [] {
    } else {
      var r := s[..|s| - 1];
      SumZero(r);
      assert forall i :: 0 <= i < |r| ==> r[i] == s[i];
      assert Sum(s) == Sum(r) + s[|s| - 1];
      if Sum(s) == 0 {
        forall i | 0 <= i < |s| ensures s[i] == 0 {
          assert i < |r| ==> s[i] == r[i];
        }
      }
    }
  }

  /** Termwise below, except at one place, and by one at another. */
  lemma SumBelow(d: seq<int>, e: seq<int>, x: nat, v: int, y: nat)
    requires |e| == |d| && x < |d| && y < |d| && x != y
    requires e[x] <= v && e[y] <= d[y] - 1
    requires forall k :: 0 <= k < |d| && k != x ==> e[k] <= d[k]
    ensures Sum(e) <= Sum(d) - d[x] + v - 1
  {
    SumUpdate(d, x, v);
    SumUpdate(d[x := v], y, d[y] - 1);
    SumMonotone(e, d[x := v][y := d[y] - 1]);
  }
}
