/** Case-insensitive matching keys (src/normalize.rs), over ASCII. */
module Normalize {
  import opened Ast

  const SHADOW_PREFIX := "_lg_norm_"

  function ShadowName(prop: string): string {
    SHADOW_PREFIX + prop
  }

  predicate IsSpace(c: char)
    ensures IsSpace(c) <==> c as int in {9, 10, 11, 12, 13, 32}
  {
    c == ' ' || '\t' <= c <= '\r'
  }

  function TrimStart(s: string): string {
    if s != "" && IsSpace(s[0]) then TrimStart(s[1..]) else s
  }

  function TrimEnd(s: string): string {
    if s != "" && IsSpace(s[|s| - 1]) then TrimEnd(s[..|s| - 1]) else s
  }

  function Lower(c: char): char {
    if 'A' <= c <= 'Z' then c - 'A' + 'a' else c
  }

  function NormalizeForMatch(s: string): string {
    var t := TrimEnd(TrimStart(s));
    seq(|t|, i requires 0 <= i < |t| => Lower(t[i]))
  }

  function NormalizeLiteral(v: Literal): Literal {
    match v
    case Str(s) => Str(NormalizeForMatch(s))
    case ListOf(items) => ListOf(seq(|items|, i requires 0 <= i < |items| => NormalizeLiteral(items[i])))
    case _ => v
  }

  lemma {:induction false} TrimmedEnds(s: string)
    ensures TrimStart(s) != "" ==> !IsSpace(TrimStart(s)[0])
    ensures TrimEnd(s) != "" ==> !IsSpace(TrimEnd(s)[|TrimEnd(s)| - 1])
    ensures TrimEnd(s) <= s
  {
    if s != "" && IsSpace(s[0]) {
      TrimmedEnds(s[1..]);
    }
    if s != "" && IsSpace(s[|s| - 1]) {
      TrimmedEnds(s[..|s| - 1]);
    }
  }

  /** Normalising a key twice is normalising it once, so stored keys and query keys meet. */
  lemma NormalizeIdempotent(s: string)
    ensures NormalizeForMatch(NormalizeForMatch(s)) == NormalizeForMatch(s)
  {
    var t := NormalizeForMatch(s);
    TrimmedEnds(s);
    TrimmedEnds(TrimStart(s));
    assert TrimStart(t) == t;
    assert TrimEnd(t) == t;
  }

  lemma {:induction false} TrimmedStart(s: string) returns (i: nat)
    ensures i <= |s| && TrimStart(s) == s[i..] && forall k :: 0 <= k < i ==> IsSpace(s[k])
  {
    i := 0;
    if s != "" && IsSpace(s[0]) {
      var rest := TrimmedStart(s[1..]);
      i := rest + 1;
      assert forall k :: 0 < k < i ==> s[k] == s[1..][k - 1];
    }
  }

  lemma {:induction false} TrimmedEnd(s: string) returns (j: nat)
    ensures j <= |s| && TrimEnd(s) == s[..j] && forall k :: j <= k < |s| ==> IsSpace(s[k])
  {
    j := |s|;
    if s != "" && IsSpace(s[|s| - 1]) {
      j := TrimmedEnd(s[..|s| - 1]);
      assert forall k :: 0 <= k < |s| - 1 ==> s[k] == s[..|s| - 1][k];
    }
  }

  /** A key is what stands between the outer blanks of a text, in lower case. */
  lemma NormalForm(s: string) returns (i: nat, j: nat)
    ensures i <= j <= |s| && (forall k :: 0 <= k < i || j <= k < |s| ==> IsSpace(s[k]))
    ensures i < j ==> !IsSpace(s[i]) && !IsSpace(s[j - 1])
    ensures |NormalizeForMatch(s)| == j - i
    ensures forall k :: 0 <= k < j - i ==>
              NormalizeForMatch(s)[k] as int == s[i + k] as int + if 'A' <= s[i + k] <= 'Z' then 32 else 0
  {
    i := TrimmedStart(s);
    var t := TrimmedEnd(s[i..]);
    j := i + t;
    TrimmedEnds(s);
    TrimmedEnds(TrimStart(s));
    assert TrimEnd(TrimStart(s)) == s[i..j];
    assert forall k :: i <= k < |s| ==> s[k] == s[i..][k - i];
  }
}
