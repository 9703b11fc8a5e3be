/** Cleaning a class signature in place, for the output. */
module Signatures {
  import opened ScopeMatching

  const NUL := '\0'

  /** The string a terminated buffer holds. */
  function CString(buffer: seq<char>): (s: string)
    ensures |s| <= |buffer| && s == buffer[..|s|] && NUL !in s
    ensures |s| < |buffer| ==> buffer[|s|] == NUL
  {
    if buffer == [] || buffer[0] == NUL then "" else [buffer[0]] + CString(buffer[1..])
  }

  /** A buffer is the string up to its first terminator, whatever follows. */
  lemma CStringIs(buffer: seq<char>, s: string)
    requires NUL !in s && |s| < |buffer| && buffer[..|s|] == s && buffer[|s|] == NUL
    ensures CString(buffer) == s
  {
    var t := CString(buffer);
    forall k | 0 <= k < |s| ensures buffer[k] != NUL { assert s[k] in s; }
    forall k | 0 <= k < |t| ensures buffer[k] != NUL { assert t[k] in t; }
  }

  /** Slashes become dots, and everything from the first dollar sign on is dropped. */
  function Displayed(s: string): (t: string)
    ensures |t| <= |s|
    ensures forall i :: 0 <= i < |t| ==> s[i] != '$' && t[i] == if s[i] == '/' then '.' else s[i]
    ensures |t| < |s| ==> s[|t|] == '$'
  {
    if s == "" || s[0] == '$' then ""
    else [if s[0] == '/' then '.' else s[0]] + Displayed(s[1..])
  }

  /** What cleaning is for: the class name inside the signature. */
  function Clean(sig: string): string {
    if |sig| < 3 then sig else Displayed(sig[1..|sig| - 1])
  }

  method Strlen(sig: array<char>) returns (n: nat)
    requires NUL in sig[..]
    ensures n < sig.Length && sig[n] == NUL && sig[..n] == CString(sig[..])
  {
    n := 0;
    while sig[n] != NUL
      invariant n < sig.Length && NUL !in sig[..n]
      decreases sig.Length - n
    {
      n := n + 1;
    }
    CStringIs(sig[..], sig[..n]);
  }

  lemma Finished(buffer: seq<char>, shown: string, inner: string)
    requires shown == Displayed(inner) && NUL !in inner
    requires |shown| < |buffer| && buffer[..|shown|] == shown && buffer[|shown|] == NUL
    ensures CString(buffer) == shown && NUL in buffer
  {
    assert NUL !in shown by {
      forall i | 0 <= i < |shown| ensures shown[i] != NUL { assert inner[i] in inner; }
    }
    CStringIs(buffer, shown);
  }

  /** Moves everything one place to the left, over itself. */
  method ShiftLeft(sig: array<char>, n: nat)
    requires 0 < n <= sig.Length
    modifies sig
    ensures sig[..n - 1] == old(sig[1..n])
    ensures sig[n - 1..] == old(sig[n - 1..])
  {
    for i := 0 to n - 1
      invariant forall k :: 0 <= k < i ==> sig[k] == old(sig[k + 1])
      invariant forall k :: i <= k < sig.Length ==> sig[k] == old(sig[k])
    {
      sig[i] := sig[i + 1];
    }
  }

  /** Rewrites the slashes of the first `n` characters, up to the first dollar sign. */
  method RewriteSlashes(sig: array<char>, n: nat, ghost inner: string)
    requires n < sig.Length && sig[..n] == inner && sig[n] == NUL && NUL !in inner
    modifies sig
    ensures CString(sig[..]) == Displayed(inner) && NUL in sig[..]
  {
    ghost var shown := Displayed(inner);
    for i := 0 to n
      invariant i <= |shown| && sig[n] == NUL
      invariant forall k :: 0 <= k < i ==> sig[k] == shown[k]
      invariant forall k :: i <= k < n ==> sig[k] == inner[k]
    {
      if sig[i] == '/' {
        sig[i] := '.';
      } else if sig[i] == '$' {
        sig[i] := NUL;
        assert sig[..][..|shown|] == shown;
        Finished(sig[..], shown, inner);
        return;
      }
    }
    assert sig[..][..|shown|] == shown;
    Finished(sig[..], shown, inner);
  }

  /** The overlapping shift, the new terminator, and the rewrite that stops early. */
  method CleanSignature(sig: array<char>)
    requires NUL in sig[..]
    modifies sig
    ensures NUL in sig[..]
    ensures CString(sig[..]) == Clean(old(CString(sig[..])))
    ensures |old(CString(sig[..]))| < 3 ==> sig[..] == old(sig[..])
  {
    ghost var s := CString(sig[..]);
    var sigLen := Strlen(sig);
    if sigLen < 3 {
      return;
    }
    ShiftLeft(sig, sigLen);
    ghost var inner := s[1..sigLen - 1];
    assert sig[..sigLen - 2] == inner by {
      assert sig[..sigLen - 1] == s[1..sigLen];
    }
    sig[sigLen - 2] := NUL;
    assert NUL !in inner by {
      forall k | 0 <= k < |inner| ensures inner[k] != NUL { assert s[k + 1] in s; }
    }
    RewriteSlashes(sig, sigLen - 2, inner);
  }

  /** Cleaning the signature of a class gives its dotted name up to the first dollar sign. */
  lemma CleanIsOuterName(name: string, binary: string, outer: string)
    requires name != "" && '/' !in name && IsBinary(binary, name)
    requires '$' !in outer && outer <= name && (|outer| < |name| ==> name[|outer|] == '$')
    ensures Clean("L" + binary + ";") == outer
  {
    var sig := "L" + binary + ";";
    assert sig[1..|sig| - 1] == binary;
    var shown := Displayed(binary);
    assert forall i :: 0 <= i < |outer| ==> outer[i] == name[i] && outer[i] in outer;
    assert |shown| == |outer|;
    forall i | 0 <= i < |shown| ensures shown[i] == outer[i] {
      assert name[i] in name;
    }
  }

  /** So it gives back the name itself exactly when that is not empty and has neither a slash nor
      a dollar sign. */
  lemma CleanInvertsSignature(name: string, binary: string)
    requires IsBinary(binary, name)
    ensures Clean("L" + binary + ";") == name <==> name != "" && '/' !in name && '$' !in name
  {
    var sig := "L" + binary + ";";
    assert sig[1..|sig| - 1] == binary;
    var shown := Displayed(binary);
    if name != "" {
      if shown == name {
        forall i | 0 <= i < |name| ensures name[i] != '/' && name[i] != '$' {
          assert shown[i] != '/';
        }
      }
      if '/' !in name && '$' !in name {
        CleanIsOuterName(name, binary, name);
      }
    }
  }
}
