/** Making the drained frames unique: sort, drop adjacent duplicates, shuffle. */
module FrameDedup {
  import SampleBuffer

  type Frame = SampleBuffer.Frame

  predicate Less(l: Frame, r: Frame) {
    if l.methodId == r.methodId then l.bci < r.bci else l.methodId < r.methodId
  }

  predicate Same(l: Frame, r: Frame) {
    l.methodId == r.methodId && l.bci == r.bci
  }

  /** The order is a strict total order whose equivalence is exactly the equality operator,
      which is what sorting and adjacent comparison rely on. */
  lemma StrictTotalOrder(a: Frame, b: Frame, c: Frame)
    ensures !Less(a, a)
    ensures Less(a, b) && Less(b, c) ==> Less(a, c)
    ensures !Less(a, b) && !Less(b, a) <==> Same(a, b)
    ensures Same(a, b) <==> a == b
  {
  }

  predicate Sorted(fs: seq<Frame>) {
    forall i, j :: 0 <= i < j < |fs| ==> !Less(fs[j], fs[i])
  }

  predicate NoDuplicates(fs: seq<Frame>) {
    forall i, j :: 0 <= i < j < |fs| ==> fs[i] != fs[j]
  }

  function Elements(fs: seq<Frame>): set<Frame> {
    set f | f in fs
  }

  /** What is left of the first frames once adjacent duplicates are dropped. */
  function AdjacentUnique(fs: seq<Frame>): seq<Frame> {
    if |fs| <= 1 then fs
    else
      var n := |fs| - 1;
      if Same(fs[n - 1], fs[n]) then AdjacentUnique(fs[..n]) else AdjacentUnique(fs[..n]) + [fs[n]]
  }

  /** The library algorithm, in place: it moves the kept frames to the front and returns
      where they end. */
  method Unique(a: array<Frame>) returns (last: nat)
    modifies a
    ensures last <= a.Length
    ensures a[..last] == AdjacentUnique(old(a[..]))
  {
    ghost var fs := a[..];
    if a.Length <= 1 {
      assert a[..a.Length] == fs;
      return a.Length;
    }
    last := 1;
    assert fs[..1] == [fs[0]];
    for i := 1 to a.Length
      invariant 1 <= last <= i
      invariant forall k :: i <= k < a.Length ==> a[k] == fs[k]
      invariant a[..last] == AdjacentUnique(fs[..i])
      invariant Same(a[last - 1], fs[i - 1])
    {
      assert fs[..i + 1][..i] == fs[..i];
      if !Same(a[last - 1], a[i]) {
        a[last] := a[i];
        last := last + 1;
        assert a[..last] == a[..last - 1] + [fs[i]];
      }
    }
    assert fs[..a.Length] == fs;
  }

  lemma LastIsNew(fs: seq<Frame>, n: nat)
    requires Sorted(fs) && 0 < n == |fs| - 1 && !Same(fs[n - 1], fs[n])
    ensures fs[n] !in fs[..n]
  {
    forall k | 0 <= k < n ensures fs[k] != fs[n] {
      assert !Less(fs[n], fs[n - 1]);
      assert k < n - 1 ==> !Less(fs[n - 1], fs[k]);
    }
  }

  lemma {:induction false} SameFrames(fs: seq<Frame>, f: Frame)
    ensures f in AdjacentUnique(fs) <==> f in fs
  {
    if |fs| <= 1 {
    } else {
      var n := |fs| - 1;
      SameFrames(fs[..n], f);
      assert fs == fs[..n] + [fs[n]];
      assert fs[n - 1] in fs[..n];
    }
  }

  lemma {:induction false} UniqueOfSorted(fs: seq<Frame>)
    requires Sorted(fs)
    ensures NoDuplicates(AdjacentUnique(fs))
  {
    if |fs| <= 1 {
    } else {
      var n := |fs| - 1;
      UniqueOfSorted(fs[..n]);
      if !Same(fs[n - 1], fs[n]) {
        LastIsNew(fs, n);
        SameFrames(fs[..n], fs[n]);
      }
    }
  }

  lemma {:induction false} PermutationKeeps(s: seq<Frame>, t: seq<Frame>)
    requires multiset(s) == multiset(t)
    ensures Elements(s) == Elements(t)
    ensures NoDuplicates(s) ==> NoDuplicates(t)
  {
    forall f ensures f in s <==> f in t {
      assert f in multiset(s) <==> f in multiset(t);
    }
    if NoDuplicates(s) && !NoDuplicates(t) {
      var i, j :| 0 <= i < j < |t| && t[i] == t[j];
      Twice(t, i, j);
      Once(s, t[i]);
    }
  }

  lemma Twice(t: seq<Frame>, i: nat, j: nat)
    requires i < j < |t| && t[i] == t[j]
    ensures multiset(t)[t[i]] >= 2
  {
    assert t == t[..i + 1] + t[i + 1..];
    assert t[i] in t[..i + 1] && t[j] == t[i + 1..][j - i - 1];
    assert multiset(t) == multiset(t[..i + 1]) + multiset(t[i + 1..]);
    assert multiset(t[..i + 1])[t[i]] >= 1 && multiset(t[i + 1..])[t[i]] >= 1;
  }

  lemma {:induction false} Once(s: seq<Frame>, f: Frame)
    requires NoDuplicates(s)
    ensures multiset(s)[f] <= 1
  {
    if s == [] {
    } else {
      var r := s[1..];
      Once(r, f);
      assert s == [s[0]] + r;
      assert multiset(s) == multiset{s[0]} + multiset(r);
      if f == s[0] {
        assert f !in r;
        assert f !in multiset(r);
      }
    }
  }

  /** Whatever sorted permutation the sort produces and whatever permutation the shuffle
      produces, the frames tried are exactly those drained, each once. */
  lemma DedupKeepsTheSet(drained: seq<Frame>, sorted: seq<Frame>, tried: seq<Frame>)
    requires multiset(sorted) == multiset(drained) && Sorted(sorted)
    requires multiset(tried) == multiset(AdjacentUnique(sorted))
    ensures Elements(tried) == Elements(drained) && NoDuplicates(tried)
  {
    UniqueOfSorted(sorted);
    forall f ensures f in AdjacentUnique(sorted) <==> f in sorted { SameFrames(sorted, f); }
    PermutationKeeps(drained, sorted);
    PermutationKeeps(AdjacentUnique(sorted), tried);
  }
}
