/**
  The JavaScript string operations the serialisers and validators rely on:
  `Array.prototype.join`, `String.prototype.split` with a non-empty string
  separator, `String.prototype.replace` with a string pattern (first
  occurrence only) and `String.prototype.split('_')[0]`.
 */
module Strings {

  /** `parts.join(sep)` */
  function Join(parts: seq<string>, sep: string): string
  {
    if |parts| == 0 then ""
    else if |parts| == 1 then parts[0]
    else parts[0] + sep + Join(parts[1..], sep)
  }

  /** A join of at least one part ends with the last part. */
  lemma {:induction false} JoinEndsWithLast(parts: seq<string>, sep: string)
    requires |parts| > 0
    ensures var j := Join(parts, sep); var last := parts[|parts| - 1];
      |last| <= |j| && j[|j| - |last|..] == last
  {
    if |parts| > 1 {
      JoinEndsWithLast(parts[1..], sep);
      var rest := Join(parts[1..], sep);
      var j := parts[0] + sep + rest;
      assert j[|j| - |rest|..] == rest;
    }
  }

  /** `s.split(sep)` for a non-empty separator, scanning left to right and
      collecting the current piece in `cur`. */
  function SplitFrom(s: string, sep: string, cur: string): seq<string>
    requires |sep| > 0
    decreases |s|
  {
    if |s| == 0 then [cur]
    else if sep <= s then [cur] + SplitFrom(s[|sep|..], sep, "")
    else SplitFrom(s[1..], sep, cur + [s[0]])
  }

  function Split(s: string, sep: string): seq<string>
    requires |sep| > 0
  {
    SplitFrom(s, sep, "")
  }

  /** `sep[k]` occurs in `sep` at position `k` only: a marker character. */
  predicate MarkerAt(sep: string, k: nat)
  {
    k < |sep| && forall j :: 0 <= j < |sep| && sep[j] == sep[k] ==> j == k
  }

  /** No occurrence of `sep` starts inside `p` when `p` lacks the marker. */
  lemma NoSeparatorInside(p: string, sep: string, rest: string, k: nat, j: nat)
    requires MarkerAt(sep, k) && sep[k] !in p
    requires j < |p|
    ensures !(sep <= (p + sep + rest)[j..])
  {
    var s := p + sep + rest;
    if j + k < |p| {
      assert s[j + k] == p[j + k];
    } else {
      assert s[j + k] == sep[j + k - |p|];
    }
    assert s[j..][k] != sep[k];
  }

  /** The same, for the last piece (nothing follows it). */
  lemma NoSeparatorInLast(p: string, sep: string, k: nat, j: nat)
    requires MarkerAt(sep, k) && sep[k] !in p
    requires j < |p|
    ensures !(sep <= p[j..])
  {
    if j + k < |p| {
      assert p[j..][k] == p[j + k];
    }
  }

  lemma {:induction false} SplitFromPiece(p: string, sep: string, rest: string, cur: string, k: nat)
    requires MarkerAt(sep, k) && sep[k] !in p
    ensures SplitFrom(p + sep + rest, sep, cur) == [cur + p] + SplitFrom(rest, sep, "")
    decreases |p|
  {
    var s := p + sep + rest;
    if |p| == 0 {
      assert s == sep + rest;
      assert s[|sep|..] == rest;
      assert cur + p == cur;
    } else {
      NoSeparatorInside(p, sep, rest, k, 0);
      assert s[1..] == p[1..] + sep + rest;
      SplitFromPiece(p[1..], sep, rest, cur + [p[0]], k);
      assert cur + [p[0]] + p[1..] == cur + p;
    }
  }

  lemma {:induction false} SplitFromLast(p: string, sep: string, cur: string, k: nat)
    requires MarkerAt(sep, k) && sep[k] !in p
    ensures SplitFrom(p, sep, cur) == [cur + p]
    decreases |p|
  {
    if |p| == 0 {
      assert cur + p == cur;
    } else {
      NoSeparatorInLast(p, sep, k, 0);
      assert p[0..] == p;
      SplitFromLast(p[1..], sep, cur + [p[0]], k);
      assert cur + [p[0]] + p[1..] == cur + p;
    }
  }

  /** Splitting a joined list on its separator gives the list back, provided
      the separator holds a marker character that none of the parts holds. */
  lemma {:induction false} SplitJoin(parts: seq<string>, sep: string, k: nat)
    requires |parts| > 0
    requires MarkerAt(sep, k)
    requires forall i :: 0 <= i < |parts| ==> sep[k] !in parts[i]
    ensures Split(Join(parts, sep), sep) == parts
    decreases |parts|
  {
    if |parts| == 1 {
      SplitFromLast(parts[0], sep, "", k);
      assert "" + parts[0] == parts[0];
    } else {
      SplitFromPiece(parts[0], sep, Join(parts[1..], sep), "", k);
      assert "" + parts[0] == parts[0];
      SplitJoin(parts[1..], sep, k);
    }
  }

  /** `pat` occurs in `s` starting at `j`. */
  predicate OccursAt(s: string, pat: string, j: nat)
  {
    j + |pat| <= |s| && s[j..j + |pat|] == pat
  }

  /** Index of the first occurrence of `pat` in `s` at or after `from`, or -1. */
  function IndexOfFrom(s: string, pat: string, from: nat): (i: int)
    ensures i == -1 || (from <= i && OccursAt(s, pat, i))
    ensures i != -1 ==> forall j :: from <= j < i ==> !OccursAt(s, pat, j)
    ensures i == -1 ==> forall j :: from <= j ==> !OccursAt(s, pat, j)
    decreases |s| - from
  {
    if from + |pat| > |s| then -1
    else if s[from..from + |pat|] == pat then from
    else IndexOfFrom(s, pat, from + 1)
  }

  /** `s.replace(pat, rep)` with a string pattern: only the first occurrence. */
  function ReplaceFirst(s: string, pat: string, rep: string): (r: string)
    ensures IndexOfFrom(s, pat, 0) == -1 ==> r == s
    ensures IndexOfFrom(s, pat, 0) != -1 ==>
      var i := IndexOfFrom(s, pat, 0);
      r == s[..i] + rep + s[i + |pat|..]
  {
    var i := IndexOfFrom(s, pat, 0);
    if i == -1 then s else s[..i] + rep + s[i + |pat|..]
  }

  /** A string that starts with the pattern has it replaced in front. */
  lemma ReplaceFirstAtStart(pat: string, tail: string, rep: string)
    ensures ReplaceFirst(pat + tail, pat, rep) == rep + tail
  {
    var s := pat + tail;
    assert s[0..0 + |pat|] == pat;
    assert IndexOfFrom(s, pat, 0) == 0;
    assert s[0 + |pat|..] == tail;
    assert ReplaceFirst(s, pat, rep) == s[..0] + rep + s[0 + |pat|..];
  }

  /** `s.split(c)[0]`: the text before the first `c`, or all of `s`. */
  function BeforeFirst(s: string, c: char): (r: string)
    ensures r <= s && c !in r
    ensures c in s ==> |r| < |s| && s[|r|] == c
    ensures c !in s ==> r == s
  {
    if |s| == 0 then ""
    else if s[0] == c then ""
    else [s[0]] + BeforeFirst(s[1..], c)
  }

  /** The decimal digit for `d`. */
  function DigitChar(d: nat): char
    requires d < 10
  {
    "0123456789"[d]
  }

  /** `n.toString()` for a non-negative integer. */
  function NatToString(n: nat): (r: string)
    ensures |r| > 0
    ensures forall i :: 0 <= i < |r| ==> '0' <= r[i] <= '9'
  {
    if n < 10 then [DigitChar(n)] else NatToString(n / 10) + [DigitChar(n % 10)]
  }
}
