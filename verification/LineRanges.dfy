/** The compiled range index of an experiment.  The line of the sampled frame is looked up
    once in the line number table; handlers then test half-open bytecode ranges instead. */
module LineRanges {

  const MAX_BCI := 65535

  datatype Entry = Entry(start: int, line: int)

  datatype Range = Range(first: int, second: int)

  predicate Sorted(es: seq<Entry>) {
    forall i, j :: 0 <= i <= j < |es| ==> es[i].start <= es[j].start
  }

  /** The entry in force at `bci`: the last one that starts no later, or the first entry. */
  function Index(es: seq<Entry>, bci: int): (k: nat)
    requires es != []
    ensures k < |es|
    ensures k > 0 ==> es[k].start <= bci
    ensures forall j :: k < j < |es| ==> bci < es[j].start
  {
    var n := |es| - 1;
    if n == 0 || es[n].start <= bci then n else Index(es[..n], bci)
  }

  /** The plain line lookup. */
  function Lookup(es: seq<Entry>, bci: int): int
    requires es != []
  {
    es[Index(es, bci)].line
  }

  /** The line of the frame chosen for an experiment. */
  method SelectLine(es: seq<Entry>, bci: int) returns (line: int)
    requires es != [] && Sorted(es)
    ensures line == Lookup(es, bci)
  {
    var i := 1;
    while !(i == |es| || es[i].start > bci)
      invariant 1 <= i <= |es|
      invariant forall j :: 1 <= j < i ==> es[j].start <= bci
    {
      i := i + 1;
    }
    IndexIsUnique(es, bci, i - 1);
    line := es[i - 1].line;
  }

  lemma IndexIsUnique(es: seq<Entry>, bci: int, k: nat)
    requires es != [] && Sorted(es) && k < |es|
    requires k > 0 ==> es[k].start <= bci
    requires k + 1 < |es| ==> bci < es[k + 1].start
    ensures Index(es, bci) == k
  {
  }

  function RangeOf(es: seq<Entry>, i: nat): Range
    requires i < |es|
  {
    Range(es[i].start, if i < |es| - 1 then es[i + 1].start else MAX_BCI + 1)
  }

  /** The ranges of the first `n` entries that carry `line`. */
  function Ranges(es: seq<Entry>, line: int, n: nat): seq<Range>
    requires n <= |es|
  {
    if n == 0 then []
    else Ranges(es, line, n - 1) + if es[n - 1].line == line then [RangeOf(es, n - 1)] else []
  }

  method CompileRanges(es: seq<Entry>, line: int) returns (ranges: seq<Range>)
    ensures ranges == Ranges(es, line, |es|)
  {
    ranges := [];
    for i := 0 to |es|
      invariant ranges == Ranges(es, line, i)
    {
      if es[i].line == line {
        if i < |es| - 1 {
          ranges := ranges + [Range(es[i].start, es[i + 1].start)];
        } else {
          ranges := ranges + [Range(es[i].start, MAX_BCI + 1)];
        }
      }
    }
  }

  predicate Within(r: Range, bci: int) {
    r.first <= bci < r.second
  }

  predicate InRanges(ranges: seq<Range>, bci: int) {
    exists i :: 0 <= i < |ranges| && Within(ranges[i], bci)
  }

  /** The handler's test. */
  method InExperiment(frameMethod: int, bci: int, experimentMethod: int, ranges: seq<Range>) returns (r: bool)
    ensures r <==> frameMethod == experimentMethod && InRanges(ranges, bci)
  {
    if frameMethod != experimentMethod {
      return false;
    }
    for i := 0 to |ranges|
      invariant forall k :: 0 <= k < i ==> !Within(ranges[k], bci)
    {
      if bci >= ranges[i].first && bci < ranges[i].second {
        assert Within(ranges[i], bci);
        return true;
      }
    }
    r := false;
  }

  lemma {:induction false} RangesCollect(es: seq<Entry>, line: int, n: nat, bci: int)
    requires n <= |es|
    ensures InRanges(Ranges(es, line, n), bci)
       <==> exists i :: 0 <= i < n && es[i].line == line && Within(RangeOf(es, i), bci)
  {
    if n == 0 {
    } else {
      RangesCollect(es, line, n - 1, bci);
      var before := Ranges(es, line, n - 1);
      var all := Ranges(es, line, n);
      if InRanges(before, bci) {
        var i :| 0 <= i < |before| && Within(before[i], bci);
        assert all[i] == before[i];
      }
      if es[n - 1].line == line {
        assert all[|before|] == RangeOf(es, n - 1);
      }
    }
  }

  /** The ranges partition the bytecode indices from the first start on: each index lies in
      the range of the entry in force and in no other. */
  lemma RangeOfIndex(es: seq<Entry>, bci: int, i: nat)
    requires es != [] && Sorted(es) && i < |es| && bci <= MAX_BCI
    ensures Within(RangeOf(es, i), bci) <==> es[0].start <= bci && Index(es, bci) == i
  {
    if Within(RangeOf(es, i), bci) {
      assert es[0].start <= es[i].start;
      IndexIsUnique(es, bci, i);
    }
  }

  /** The last range goes on to the largest index there can be, and no further. */
  lemma LastRange(es: seq<Entry>, bci: int)
    requires es != []
    ensures Within(RangeOf(es, |es| - 1), bci) <==> es[|es| - 1].start <= bci <= 65535
  {
  }

  /** For every non-empty sorted table, line and bytecode index: the compiled ranges contain the
      index exactly when the table covers it and looking it up gives the line. */
  lemma RangesRefineLookup(es: seq<Entry>, line: int, bci: int)
    requires es != [] && Sorted(es) && bci <= MAX_BCI
    ensures InRanges(Ranges(es, line, |es|), bci) <==> es[0].start <= bci && Lookup(es, bci) == line
  {
    RangesCollect(es, line, |es|, bci);
    if InRanges(Ranges(es, line, |es|), bci) {
      var i :| 0 <= i < |es| && es[i].line == line && Within(RangeOf(es, i), bci);
      RangeOfIndex(es, bci, i);
    } else {
      RangeOfIndex(es, bci, Index(es, bci));
    }
  }

  /** The sampled frame is inside the experiment compiled from it exactly when its own
      table covers its bytecode index. */
  lemma OwnExperiment(es: seq<Entry>, bci: int)
    requires es != [] && Sorted(es) && forall i :: 0 <= i < |es| ==> es[i].start <= MAX_BCI
    ensures InRanges(Ranges(es, Lookup(es, bci), |es|), bci) <==> es[0].start <= bci <= 65535
  {
    if bci <= MAX_BCI {
      RangesRefineLookup(es, Lookup(es, bci), bci);
    } else {
      RangesCollect(es, Lookup(es, bci), |es|, bci);
    }
  }
}
