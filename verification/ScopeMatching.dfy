/** Deciding by first occurrence whether a class is in scope. */
module ScopeMatching {

  predicate OccursAt(hay: string, needle: string, i: nat) {
    i + |needle| <= |hay| && hay[i..i + |needle|] == needle
  }

  /** Position of the first occurrence, or -1. */
  function First(hay: string, needle: string, from: nat): (i: int)
    requires from <= |hay|
    ensures -1 <= i <= |hay| && (i >= 0 ==> from <= i && OccursAt(hay, needle, i))
    ensures forall k :: from <= k <= |hay| && (i < 0 || k < i) ==> !OccursAt(hay, needle, k)
    decreases |hay| - from
  {
    if OccursAt(hay, needle, from) then from
    else if from == |hay| then -1
    else First(hay, needle, from + 1)
  }

  /** The library search, one character at a time. */
  method Strstr(hay: string, needle: string) returns (pos: int)
    ensures pos == First(hay, needle, 0)
  {
    pos := 0;
    while pos + |needle| <= |hay|
      invariant 0 <= pos <= |hay| + 1
      invariant forall k :: 0 <= k < pos ==> !OccursAt(hay, needle, k)
    {
      var i := 0;
      while i < |needle| && hay[pos + i] == needle[i]
        invariant 0 <= i <= |needle|
        invariant forall k :: 0 <= k < i ==> hay[pos + k] == needle[k]
      {
        i := i + 1;
      }
      if i == |needle| {
        assert hay[pos..pos + |needle|] == needle;
        assert OccursAt(hay, needle, pos);
        return;
      }
      assert hay[pos..pos + |needle|][i] != needle[i];
      pos := pos + 1;
    }
    pos := -1;
  }

  method IsClassFqnPrefix(prefix: string, classSig: string) returns (b: bool)
    ensures b == FqnPrefix(prefix, classSig)
  {
    var pos := Strstr(classSig, prefix);
    b := pos == 1;
  }

  predicate FqnPrefix(prefix: string, classSig: string) {
    First(classSig, prefix, 0) == 1
  }

  method ContainsClassFqnPrefix(elements: seq<string>, classSig: string) returns (b: bool)
    ensures b <==> SomePrefix(elements, classSig)
  {
    for i := 0 to |elements|
      invariant forall k :: 0 <= k < i ==> !FqnPrefix(elements[k], classSig)
    {
      var found := IsClassFqnPrefix(elements[i], classSig);
      if found {
        return true;
      }
    }
    b := false;
  }

  predicate SomePrefix(elements: seq<string>, classSig: string) {
    exists k :: 0 <= k < |elements| && FqnPrefix(elements[k], classSig)
  }

  method IsInAllowedScope(search: seq<string>, ignored: seq<string>, classSig: string) returns (b: bool)
    ensures b <==> Allowed(search, ignored, classSig)
  {
    var excluded := ContainsClassFqnPrefix(ignored, classSig);
    if excluded {
      return false;
    }
    b := ContainsClassFqnPrefix(search, classSig);
  }

  predicate Allowed(search: seq<string>, ignored: seq<string>, classSig: string) {
    !SomePrefix(ignored, classSig) && SomePrefix(search, classSig)
  }

  predicate OnlyLs(s: string) {
    forall i :: 0 <= i < |s| ==> s[i] == 'L'
  }

  /** A prefix that occurs at 0 and at 1 repeats the first character of the signature. */
  lemma {:induction false} OccursTwice(p: string, sig: string, i: nat)
    requires OccursAt(sig, p, 0) && OccursAt(sig, p, 1) && i < |p|
    ensures p[i] == sig[0]
  {
    assert sig[0..|p|][i] == sig[1..1 + |p|][i];
    if i > 0 {
      OccursTwice(p, sig, i - 1);
      assert sig[0..|p|][i] == sig[i] == sig[1..1 + |p|][i - 1];
    }
  }

  /** The test by first occurrence decides "is a prefix of the class name" for every scope but
      two kinds: the empty one, and one made of nothing but `L`s, which already occurs at the
      start of the signature.  Those never match. */
  lemma FirstOccurrenceIsPrefix(p: string, sig: string)
    requires sig != "" && sig[0] == 'L'
    ensures FqnPrefix(p, sig) <==> p != "" && p <= sig[1..] && !OnlyLs(p)
  {
    assert OccursAt(sig, p, 1) <==> p <= sig[1..] by {
      if |p| <= |sig| - 1 { assert sig[1..][..|p|] == sig[1..1 + |p|]; }
    }
    if OccursAt(sig, p, 0) && OccursAt(sig, p, 1) {
      forall i | 0 <= i < |p| ensures p[i] == 'L' { OccursTwice(p, sig, i); }
    }
    if OccursAt(sig, p, 1) && OnlyLs(p) {
      forall i | 0 <= i < |p| ensures sig[0..|p|][i] == p[i] {
        if i > 0 { assert sig[1..1 + |p|][i - 1] == p[i - 1]; }
      }
      assert OccursAt(sig, p, 0);
    }
    assert p == "" ==> OccursAt(sig, p, 0);
  }

  // ---- scopes and class names as the user writes them

  /** The binary form of a dotted name: slashes exactly where it has dots. */
  predicate IsBinary(binary: string, name: string) {
    && |binary| == |name|
    && forall i :: 0 <= i < |name| ==> if name[i] == '.' then binary[i] == '/' else binary[i] == name[i]
  }

  /** Preparing a scope: dots become slashes. */
  function Slashed(s: string): (t: string)
    ensures IsBinary(t, s)
  {
    seq(|s|, i requires 0 <= i < |s| => if s[i] == '.' then '/' else s[i])
  }

  /** The same in place. */
  method PrepareScope(scope: array<char>)
    modifies scope
    ensures IsBinary(scope[..], old(scope[..]))
    ensures scope[..] == Slashed(old(scope[..]))
  {
    for i := 0 to scope.Length
      invariant forall k :: 0 <= k < scope.Length ==>
        scope[k] == if k < i && old(scope[k]) == '.' then '/' else old(scope[k])
    {
      if scope[i] == '.' {
        scope[i] := '/';
      }
    }
  }

  function AllSlashed(ss: seq<string>): (ts: seq<string>)
    ensures |ts| == |ss| && forall i :: 0 <= i < |ss| ==> IsBinary(ts[i], ss[i])
    ensures forall i :: 0 <= i < |ss| ==> ts[i] == Slashed(ss[i])
  {
    seq(|ss|, i requires 0 <= i < |ss| => Slashed(ss[i]))
  }

  /** A name written with dots only. */
  predicate Dotted(s: string) {
    '/' !in s && ';' !in s
  }

  /** What a scope is documented to mean, with the exception of FirstOccurrenceIsPrefix. */
  predicate ScopeMatches(scope: string, name: string) {
    scope != "" && scope <= name && !OnlyLs(scope)
  }

  predicate SomeMatches(scopes: seq<string>, name: string) {
    exists i :: 0 <= i < |scopes| && ScopeMatches(scopes[i], name)
  }

  lemma PreparedScopeMatches(scope: string, p: string, name: string, binary: string)
    requires Dotted(scope) && IsBinary(p, scope)
    requires Dotted(name) && IsBinary(binary, name)
    ensures FqnPrefix(p, "L" + binary + ";") <==> ScopeMatches(scope, name)
  {
    var sig := "L" + binary + ";";
    var body := binary + ";";
    assert sig[1..] == body;
    FirstOccurrenceIsPrefix(p, sig);
    if p <= body {
      assert |p| <= |name| by {
        forall i | 0 <= i < |p| ensures body[i] == p[i] != ';' { assert scope[i] in scope; }
        assert body[|name|] == ';';
      }
      forall i | 0 <= i < |scope| ensures scope[i] == name[i] {
        assert p[i] == body[i] == binary[i];
        assert scope[i] in scope && name[i] in name;
      }
    }
    if scope <= name {
      forall i | 0 <= i < |p| ensures p[i] == body[i] { assert scope[i] == name[i]; }
    }
    assert OnlyLs(p) <==> OnlyLs(scope) by {
      assert forall i :: 0 <= i < |p| ==> (p[i] == 'L' <==> scope[i] == 'L');
    }
  }

  /** For dotted scopes and class names, and whatever lists of them: a class is in scope, by its
      signature, exactly when some search scope matches its name and no ignored scope does. */
  lemma AllowedDecidesByName(search: seq<string>, ignored: seq<string>, name: string, binary: string)
    requires Dotted(name) && IsBinary(binary, name)
    requires forall i :: 0 <= i < |search| ==> Dotted(search[i])
    requires forall i :: 0 <= i < |ignored| ==> Dotted(ignored[i])
    ensures Allowed(AllSlashed(search), AllSlashed(ignored), "L" + binary + ";")
       <==> SomeMatches(search, name) && !SomeMatches(ignored, name)
  {
    SomePreparedScope(search, name, binary);
    SomePreparedScope(ignored, name, binary);
  }

  lemma SomePreparedScope(scopes: seq<string>, name: string, binary: string)
    requires Dotted(name) && IsBinary(binary, name) && forall i :: 0 <= i < |scopes| ==> Dotted(scopes[i])
    ensures SomePrefix(AllSlashed(scopes), "L" + binary + ";")
       <==> SomeMatches(scopes, name)
  {
    forall i | 0 <= i < |scopes|
      ensures FqnPrefix(AllSlashed(scopes)[i], "L" + binary + ";") <==> ScopeMatches(scopes[i], name)
    {
      PreparedScopeMatches(scopes[i], AllSlashed(scopes)[i], name, binary);
    }
  }

  // ---- the progress class

  /** First the prefix test, then the comparison without the last character. */
  method IsProgressClass(classSig: string, progressClass: string) returns (b: bool)
    requires classSig != ""
    ensures b <==> classSig[..|classSig| - 1] == progressClass
  {
    var pos := Strstr(classSig, progressClass);
    assert classSig[..|classSig| - 1] == progressClass ==> OccursAt(classSig, progressClass, 0);
    b := false;
    if pos == 0 {
      var stripped := classSig[..|classSig| - 1];
      b := stripped == progressClass;
    }
  }
}
