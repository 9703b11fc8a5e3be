/** Frequencies of the bytecode indices experimented on: nested maps, updated in place with
    every recorded experiment and listed in key order when the profiler stops. */
module BciHits {
  import opened Wrappers

  type Cells = map<int, nat>                 // bytecode index -> count
  type Lines = map<int, Cells>               // line -> ...
  type Freqs = map<int, Lines>               // method -> ...

  /** One recorded experiment, and the data row written for it. */
  datatype Hit = Hit(class_: string, methodId: int, line: int, bci: int)

  function CellsAt(ls: Lines, line: int): Cells {
    if line in ls then ls[line] else map[]
  }

  function LinesAt(fs: Freqs, m: int): Lines {
    if m in fs then fs[m] else map[]
  }

  function CountAt(cs: Cells, bci: int): nat {
    if bci in cs then cs[bci] else 0
  }

  /** The stored count; absent entries count as zero. */
  function Freq(fs: Freqs, m: int, line: int, bci: int): nat {
    CountAt(CellsAt(LinesAt(fs, m), line), bci)
  }

  function Bumped(fs: Freqs, h: Hit): Freqs {
    var ls := LinesAt(fs, h.methodId);
    var cs := CellsAt(ls, h.line);
    fs[h.methodId := ls[h.line := cs[h.bci := CountAt(cs, h.bci) + 1]]]
  }

  function FreqsOf(hits: seq<Hit>): Freqs {
    if hits == [] then map[] else Bumped(FreqsOf(hits[..|hits| - 1]), hits[|hits| - 1])
  }

  function DeclaringOf(hits: seq<Hit>): map<int, string> {
    if hits == [] then map[]
    else DeclaringOf(hits[..|hits| - 1])[hits[|hits| - 1].methodId := hits[|hits| - 1].class_]
  }

  /** How many of the experiments had this key. */
  function Occurrences(hits: seq<Hit>, m: int, line: int, bci: int): nat {
    if hits == [] then 0
    else
      var h := hits[|hits| - 1];
      Occurrences(hits[..|hits| - 1], m, line, bci)
      + if h.methodId == m && h.line == line && h.bci == bci then 1 else 0
  }

  // ---- the dump

  datatype Cell = Cell(bci: int, count: nat)

  datatype LineDump = LineDump(line: int, cells: seq<Cell>)

  datatype MethodDump = MethodDump(methodId: int, class_: string, lines: seq<LineDump>)

  /** `r` lists every entry of the map once, in ascending order of the keys. */
  ghost predicate CellsListed(cs: Cells, r: seq<Cell>) {
    && (forall i, j :: 0 <= i < j < |r| ==> r[i].bci < r[j].bci)
    && (forall i :: 0 <= i < |r| ==> r[i].bci in cs && cs[r[i].bci] == r[i].count)
    && (forall k :: k in cs ==> exists i :: 0 <= i < |r| && r[i].bci == k)
  }

  ghost predicate LinesListed(ls: Lines, r: seq<LineDump>) {
    && (forall i, j :: 0 <= i < j < |r| ==> r[i].line < r[j].line)
    && (forall i :: 0 <= i < |r| ==> r[i].line in ls && CellsListed(ls[r[i].line], r[i].cells))
    && (forall k :: k in ls ==> exists i :: 0 <= i < |r| && r[i].line == k)
  }

  ghost predicate MethodListed(fs: Freqs, classes: map<int, string>, e: MethodDump) {
    && e.methodId in fs && LinesListed(fs[e.methodId], e.lines)
    && e.methodId in classes && classes[e.methodId] == e.class_
  }

  ghost predicate MethodsListed(fs: Freqs, classes: map<int, string>, r: seq<MethodDump>) {
    && (forall i, j :: 0 <= i < j < |r| ==> r[i].methodId < r[j].methodId)
    && (forall i :: 0 <= i < |r| ==> MethodListed(fs, classes, r[i]))
    && (forall k :: k in fs ==> exists i :: 0 <= i < |r| && r[i].methodId == k)
  }

  ghost predicate IsMin(s: set<int>, x: int) {
    x in s && forall y :: y in s ==> x <= y
  }

  lemma Pick<T>(s: set<T>) returns (x: T)
    requires |s| > 0
    ensures x in s
  {
    x :| x in s;
  }

  lemma {:induction false} MinExists(s: set<int>)
    requires |s| > 0
    ensures exists x :: IsMin(s, x)
    decreases |s|
  {
    var x := Pick(s);
    var r := s - {x};
    if |r| == 0 {
      assert s == {x};
      assert IsMin(s, x);
    } else {
      MinExists(r);
      var y :| IsMin(r, y);
      assert s == r + {x};
      assert IsMin(s, if x < y then x else y);
    }
  }

  /** The next key of an ordered iteration. */
  method Smallest(s: set<int>) returns (x: int)
    requires |s| > 0
    ensures IsMin(s, x)
  {
    MinExists(s);
    ghost var m :| IsMin(s, m);
    x :| x in s && forall y :: y in s ==> x <= y;
  }

  method ListCells(cs: Cells) returns (r: seq<Cell>)
    ensures CellsListed(cs, r)
  {
    r := [];
    var rest := cs.Keys;
    while |rest| > 0
      invariant rest <= cs.Keys
      invariant forall i, j :: 0 <= i < j < |r| ==> r[i].bci < r[j].bci
      invariant forall i :: 0 <= i < |r| ==> r[i].bci in cs && cs[r[i].bci] == r[i].count
      invariant forall i, k :: 0 <= i < |r| && k in rest ==> r[i].bci < k
      invariant forall k :: k in cs && k !in rest ==> exists i :: 0 <= i < |r| && r[i].bci == k
      decreases |rest|
    {
      var k := Smallest(rest);
      ghost var before := r;
      r := r + [Cell(k, cs[k])];
      assert r[|before|].bci == k && forall i :: 0 <= i < |before| ==> r[i] == before[i];
      rest := rest - {k};
    }
  }

  method ListLines(ls: Lines) returns (r: seq<LineDump>)
    ensures LinesListed(ls, r)
  {
    r := [];
    var rest := ls.Keys;
    while |rest| > 0
      invariant rest <= ls.Keys
      invariant forall i, j :: 0 <= i < j < |r| ==> r[i].line < r[j].line
      invariant forall i :: 0 <= i < |r| ==> r[i].line in ls && CellsListed(ls[r[i].line], r[i].cells)
      invariant forall i, k :: 0 <= i < |r| && k in rest ==> r[i].line < k
      invariant forall k :: k in ls && k !in rest ==> exists i :: 0 <= i < |r| && r[i].line == k
      decreases |rest|
    {
      var k := Smallest(rest);
      var cells := ListCells(ls[k]);
      ghost var before := r;
      r := r + [LineDump(k, cells)];
      assert r[|before|].line == k && forall i :: 0 <= i < |before| ==> r[i] == before[i];
      rest := rest - {k};
    }
  }

  method ListMethod(fs: Freqs, classes: map<int, string>, k: int) returns (e: MethodDump)
    requires k in fs && k in classes
    ensures e.methodId == k && MethodListed(fs, classes, e)
  {
    var lines := ListLines(fs[k]);
    e := MethodDump(k, classes[k], lines);
  }

  method ListMethods(fs: Freqs, classes: map<int, string>) returns (r: seq<MethodDump>)
    requires fs.Keys == classes.Keys
    ensures MethodsListed(fs, classes, r)
  {
    hide MethodListed;
    r := [];
    var rest := fs.Keys;
    while |rest| > 0
      invariant rest <= fs.Keys
      invariant forall i, j :: 0 <= i < j < |r| ==> r[i].methodId < r[j].methodId
      invariant forall i :: 0 <= i < |r| ==> MethodListed(fs, classes, r[i])
      invariant forall i, k :: 0 <= i < |r| && k in rest ==> r[i].methodId < k
      invariant forall k :: k in fs && k !in rest ==> exists i :: 0 <= i < |r| && r[i].methodId == k
      decreases |rest|
    {
      var k := Smallest(rest);
      assert k in fs.Keys && k in classes.Keys;
      var e := ListMethod(fs, classes, k);
      ghost var before := r;
      r := r + [e];
      assert r[|before|].methodId == k && forall i :: 0 <= i < |before| ==> r[i] == before[i];
      rest := rest - {k};
    }
  }

  class Records {
    var freqs: Freqs
    var declaring: map<int, string>
    var rows: seq<Hit>

    /** The maps hold what the rows say. */
    predicate Agree()
      reads this
    {
      freqs == FreqsOf(rows) && declaring == DeclaringOf(rows)
    }

    constructor ()
      ensures Agree() && rows == []
    {
      freqs, declaring, rows := map[], map[], [];
    }

    method AddHit(class_: string, methodId: int, line: int, bci: int)
      modifies this`freqs, this`declaring
      ensures freqs == Bumped(old(freqs), Hit(class_, methodId, line, bci))
      ensures declaring == old(declaring)[methodId := class_]
    {
      if methodId !in freqs {
        freqs := freqs[methodId := map[]];
      }
      if line !in freqs[methodId] {
        freqs := freqs[methodId := freqs[methodId][line := map[]]];
      }
      var cells := freqs[methodId][line];
      var count := if bci in cells then cells[bci] else 0;
      freqs := freqs[methodId := freqs[methodId][line := cells[bci := count + 1]]];
      declaring := declaring[methodId := class_];
      ghost var ls := LinesAt(old(freqs), methodId);
      assert cells == CellsAt(ls, line);
      assert freqs[methodId] == ls[line := cells[bci := count + 1]];
    }

    /** The end of an experiment: the hit is counted and the row written, or, when the
        class has no signature, neither. */
    method RecordExperiment(signature: Option<string>, methodId: int, line: int, bci: int)
      requires Agree()
      modifies this
      ensures Agree()
      ensures rows == match signature
                      case None => old(rows)
                      case Some(c) => old(rows) + [Hit(c, methodId, line, bci)]
    {
      if signature.Some? {
        AddHit(signature.value, methodId, line, bci);
        rows := rows + [Hit(signature.value, methodId, line, bci)];
        assert rows[..|rows| - 1] == old(rows);
      }
    }

    method CreateDump() returns (dump: seq<MethodDump>)
      requires Agree()
      ensures MethodsListed(freqs, declaring, dump)
    {
      MethodsAreDeclared(rows);
      dump := ListMethods(freqs, declaring);
    }
  }

  lemma {:induction false} MethodsAreDeclared(hits: seq<Hit>)
    ensures FreqsOf(hits).Keys == DeclaringOf(hits).Keys
  {
    if hits == [] {
    } else {
      MethodsAreDeclared(hits[..|hits| - 1]);
    }
  }

  // ---- the counts are the numbers of experiments

  lemma BumpedFreq(fs: Freqs, h: Hit, m: int, line: int, bci: int)
    ensures Freq(Bumped(fs, h), m, line, bci)
         == Freq(fs, m, line, bci) + if h.methodId == m && h.line == line && h.bci == bci then 1 else 0
  {
  }

  /** After any sequence of experiments each count is the number of them with that key. */
  lemma {:induction false} FreqIsOccurrences(hits: seq<Hit>, m: int, line: int, bci: int)
    ensures Freq(FreqsOf(hits), m, line, bci) == Occurrences(hits, m, line, bci)
  {
    if hits == [] {
    } else {
      FreqIsOccurrences(hits[..|hits| - 1], m, line, bci);
      BumpedFreq(FreqsOf(hits[..|hits| - 1]), hits[|hits| - 1], m, line, bci);
    }
  }

  /** Only keys that occurred are stored. */
  predicate Positive(fs: Freqs) {
    forall m, l, b :: m in fs && l in fs[m] && b in fs[m][l] ==> fs[m][l][b] > 0
  }

  lemma {:induction false} StoredAreOccurring(hits: seq<Hit>)
    ensures Positive(FreqsOf(hits))
  {
    if hits == [] {
    } else {
      StoredAreOccurring(hits[..|hits| - 1]);
    }
  }

  // ---- the sum of all counts

  ghost function MapSum(f: map<int, int>): int
    decreases |f.Keys|
  {
    if |f.Keys| == 0 then 0
    else
      MinExists(f.Keys);
      var x :| IsMin(f.Keys, x);
      f[x] + MapSum(f - {x})
  }

  lemma MapSumStep(f: map<int, int>, x: int)
    requires IsMin(f.Keys, x)
    ensures MapSum(f) == f[x] + MapSum(f - {x})
  {
  }

  lemma {:induction false} MapSumUpdate(f: map<int, int>, k: int, v: int)
    ensures MapSum(f[k := v]) == MapSum(f) + v - (if k in f then f[k] else 0)
    decreases |f.Keys|
  {
    var f' := f[k := v];
    assert f'.Keys == f.Keys + {k} && k in f'.Keys;
    MinExists(f'.Keys);
    var x :| IsMin(f'.Keys, x);
    MapSumStep(f', x);
    if x == k {
      if k in f {
        assert IsMin(f.Keys, k);
        MapSumStep(f, k);
        assert f' - {k} == f - {k};
      } else {
        assert f' - {k} == f;
      }
    } else {
      assert IsMin(f.Keys, x);
      MapSumStep(f, x);
      assert f' - {x} == (f - {x})[k := v];
      MapSumUpdate(f - {x}, k, v);
    }
  }

  function Ints(cs: Cells): (f: map<int, int>) {
    map b | b in cs :: cs[b]
  }

  ghost function LineTotals(ls: Lines): map<int, int> {
    map l | l in ls :: MapSum(Ints(ls[l]))
  }

  ghost function MethodTotals(fs: Freqs): map<int, int> {
    map m | m in fs :: MapSum(LineTotals(fs[m]))
  }

  ghost function Total(fs: Freqs): int {
    MapSum(MethodTotals(fs))
  }

  lemma EmptyTotals()
    ensures MapSum(Ints(map[])) == 0 && MapSum(LineTotals(map[])) == 0 && Total(map[]) == 0
  {
    assert Ints(map[]) == map[];
    assert LineTotals(map[]) == map[];
    assert MethodTotals(map[]) == map[];
  }

  lemma BumpedCells(cs: Cells, bci: int)
    ensures MapSum(Ints(cs[bci := CountAt(cs, bci) + 1])) == MapSum(Ints(cs)) + 1
  {
    var n := CountAt(cs, bci) + 1;
    assert Ints(cs[bci := n]) == Ints(cs)[bci := n];
    MapSumUpdate(Ints(cs), bci, n);
  }

  lemma BumpedLines(ls: Lines, line: int, cs': Cells)
    requires MapSum(Ints(cs')) == MapSum(Ints(CellsAt(ls, line))) + 1
    ensures MapSum(LineTotals(ls[line := cs'])) == MapSum(LineTotals(ls)) + 1
  {
    hide MapSum;
    var n := MapSum(Ints(cs'));
    assert MapSum(Ints(CellsAt(ls, line))) == if line in LineTotals(ls) then LineTotals(ls)[line] else 0 by {
      if line !in ls { EmptyTotals(); }
    }
    assert LineTotals(ls[line := cs']) == LineTotals(ls)[line := n];
    MapSumUpdate(LineTotals(ls), line, n);
  }

  lemma BumpedMethods(fs: Freqs, m: int, ls': Lines)
    requires MapSum(LineTotals(ls')) == MapSum(LineTotals(LinesAt(fs, m))) + 1
    ensures Total(fs[m := ls']) == Total(fs) + 1
  {
    hide MapSum;
    var n := MapSum(LineTotals(ls'));
    assert MapSum(LineTotals(LinesAt(fs, m))) == if m in MethodTotals(fs) then MethodTotals(fs)[m] else 0 by {
      if m !in fs { EmptyTotals(); }
    }
    assert MethodTotals(fs[m := ls']) == MethodTotals(fs)[m := n];
    MapSumUpdate(MethodTotals(fs), m, n);
  }

  lemma BumpedTotal(fs: Freqs, h: Hit)
    ensures Total(Bumped(fs, h)) == Total(fs) + 1
  {
    hide MapSum, LineTotals, MethodTotals, Ints;
    var ls := LinesAt(fs, h.methodId);
    var cs := CellsAt(ls, h.line);
    var cs' := cs[h.bci := CountAt(cs, h.bci) + 1];
    BumpedCells(cs, h.bci);
    BumpedLines(ls, h.line, cs');
    BumpedMethods(fs, h.methodId, ls[h.line := cs']);
  }

  /** The counts sum to the number of data rows. */
  lemma {:induction false} TotalIsRows(hits: seq<Hit>)
    ensures Total(FreqsOf(hits)) == |hits|
  {
    if hits == [] {
      EmptyTotals();
    } else {
      TotalIsRows(hits[..|hits| - 1]);
      BumpedTotal(FreqsOf(hits[..|hits| - 1]), hits[|hits| - 1]);
    }
  }

  // ---- the dump is the frequency table

  /** The key stands at these positions of the dump, with this count. */
  predicate ListedAt(dump: seq<MethodDump>, i: nat, j: nat, k: nat, m: int, line: int, bci: int, count: nat) {
    && i < |dump| && dump[i].methodId == m
    && j < |dump[i].lines| && dump[i].lines[j].line == line
    && k < |dump[i].lines[j].cells| && dump[i].lines[j].cells[k] == Cell(bci, count)
  }

  /** The dump of the recorded experiments lists a key, at exactly one place and with its number of
      experiments, if and only if some experiment had that key. */
  lemma DumpIsExact(hits: seq<Hit>, dump: seq<MethodDump>, m: int, line: int, bci: int, count: nat)
    requires MethodsListed(FreqsOf(hits), DeclaringOf(hits), dump)
    ensures (exists i, j, k :: ListedAt(dump, i, j, k, m, line, bci, count))
       <==> count > 0 && Occurrences(hits, m, line, bci) == count
  {
    FreqIsOccurrences(hits, m, line, bci);
    StoredAreOccurring(hits);
    if count > 0 && Freq(FreqsOf(hits), m, line, bci) == count {
      StoredIsListed(FreqsOf(hits), DeclaringOf(hits), dump, m, line, bci);
    }
    forall i, j, k | ListedAt(dump, i, j, k, m, line, bci, count)
      ensures count > 0 && Freq(FreqsOf(hits), m, line, bci) == count
    {
      ListedIsStored(FreqsOf(hits), DeclaringOf(hits), dump, i, j, k, m, line, bci, count);
    }
  }

  lemma StoredIsListed(fs: Freqs, classes: map<int, string>, dump: seq<MethodDump>, m: int, line: int, bci: int)
    requires MethodsListed(fs, classes, dump) && Freq(fs, m, line, bci) > 0
    ensures exists i, j, k :: ListedAt(dump, i, j, k, m, line, bci, Freq(fs, m, line, bci))
  {
    var i :| 0 <= i < |dump| && dump[i].methodId == m;
    assert MethodListed(fs, classes, dump[i]);
    assert LinesListed(fs[m], dump[i].lines);
    var j :| 0 <= j < |dump[i].lines| && dump[i].lines[j].line == line;
    assert CellsListed(fs[m][line], dump[i].lines[j].cells);
    var k :| 0 <= k < |dump[i].lines[j].cells| && dump[i].lines[j].cells[k].bci == bci;
    assert ListedAt(dump, i, j, k, m, line, bci, Freq(fs, m, line, bci));
  }

  lemma ListedIsStored(fs: Freqs, classes: map<int, string>, dump: seq<MethodDump>,
                       i: nat, j: nat, k: nat, m: int, line: int, bci: int, count: nat)
    requires MethodsListed(fs, classes, dump) && Positive(fs) && ListedAt(dump, i, j, k, m, line, bci, count)
    ensures count > 0 && Freq(fs, m, line, bci) == count
  {
    assert MethodListed(fs, classes, dump[i]);
    assert LinesListed(fs[m], dump[i].lines);
    assert CellsListed(fs[m][line], dump[i].lines[j].cells);
  }

  lemma ListedOnce(fs: Freqs, classes: map<int, string>, dump: seq<MethodDump>, m: int, line: int, bci: int,
                   i: nat, j: nat, k: nat, c: nat, i': nat, j': nat, k': nat, c': nat)
    requires MethodsListed(fs, classes, dump)
    requires ListedAt(dump, i, j, k, m, line, bci, c) && ListedAt(dump, i', j', k', m, line, bci, c')
    ensures (i, j, k, c) == (i', j', k', c')
  {
    assert i == i' && MethodListed(fs, classes, dump[i]);
    assert LinesListed(fs[m], dump[i].lines);
    assert j == j';
    assert CellsListed(fs[m][line], dump[i].lines[j].cells);
  }
}
