/** The handful of Rust `str` operations the modelled code relies on, over
    `seq<char>`: searching for a pattern, `split`, `join`, `trim`,
    `starts_with`/`ends_with` and `replace`. */
module Strings {
  import opened Wrappers

  /** `pat` occurs in `s` starting at index `i`. */
  predicate MatchAt(s: string, pat: string, i: nat) {
    i + |pat| <= |s| && s[i..i + |pat|] == pat
  }

  /** Index of the first occurrence of `pat` in `s` (Rust `str::find`). */
  function IndexOf(s: string, pat: string): (r: Option<nat>)
    ensures r.Some? ==> MatchAt(s, pat, r.value)
    ensures r.Some? ==> forall j :: 0 <= j < r.value ==> !MatchAt(s, pat, j)
    ensures r.None? ==> forall j :: 0 <= j ==> !MatchAt(s, pat, j)
  {
    if |s| < |pat| then None
    else if s[..|pat|] == pat then Some(0)
    else
      var rest := IndexOf(s[1..], pat);
      assert forall j :: 0 <= j ==> (MatchAt(s[1..], pat, j) <==> MatchAt(s, pat, j + 1)) by {
        forall j | 0 <= j
          ensures MatchAt(s[1..], pat, j) <==> MatchAt(s, pat, j + 1)
        {
          if j + 1 + |pat| <= |s| {
            assert s[1..][j..j + |pat|] == s[j + 1..j + 1 + |pat|];
          }
        }
      }
      assert !MatchAt(s, pat, 0);
      assert forall j :: 1 <= j ==> (MatchAt(s, pat, j) <==> MatchAt(s[1..], pat, j - 1));
      match rest
      case None => None
      case Some(j) => Some(j + 1)
  }

  predicate Contains(s: string, pat: string) {
    IndexOf(s, pat).Some?
  }

  predicate StartsWith(s: string, prefix: string) {
    |prefix| <= |s| && s[..|prefix|] == prefix
  }

  predicate EndsWith(s: string, suffix: string) {
    |suffix| <= |s| && s[|s| - |suffix|..] == suffix
  }

  /** Rust `str::split` with a non-empty pattern: the pieces between
      successive non-overlapping occurrences, searched from the left. */
  function Split(s: string, pat: string): (parts: seq<string>)
    requires |pat| > 0
    ensures |parts| >= 1
    decreases |s|
  {
    match IndexOf(s, pat)
    case None => [s]
    case Some(i) => [s[..i]] + Split(s[i + |pat|..], pat)
  }

  /** Rust `[String]::join`. */
  function Join(parts: seq<string>, sep: string): string
    decreases |parts|
  {
    if |parts| == 0 then ""
    else if |parts| == 1 then parts[0]
    else parts[0] + sep + Join(parts[1..], sep)
  }

  /** Joining the pieces of a split with the same pattern gives the input back. */
  lemma {:induction false} JoinSplit(s: string, pat: string)
    requires |pat| > 0
    ensures Join(Split(s, pat), pat) == s
    decreases |s|
  {
    match IndexOf(s, pat)
    case None =>
    case Some(i) =>
      var rest := s[i + |pat|..];
      var parts := [s[..i]] + Split(rest, pat);
      assert Split(s, pat) == parts;
      assert parts[0] == s[..i] && parts[1..] == Split(rest, pat);
      JoinSplit(rest, pat);
      assert Join(parts, pat) == s[..i] + pat + rest;
      assert s == s[..i] + pat + rest by {
        assert s[i..i + |pat|] == pat;
      }
  }

  /** `pat` does not occur in `s`, so splitting leaves `s` whole. */
  lemma SplitWithout(s: string, pat: string)
    requires |pat| > 0
    requires !Contains(s, pat)
    ensures Split(s, pat) == [s]
  {
  }

  /** When nothing in `head` (nor a straddling overlap with the separator)
      matches, the first occurrence in `head + pat + tail` is the separator. */
  lemma IndexOfAfterHead(head: string, pat: string, tail: string)
    requires |pat| > 0
    requires !Contains(head + pat[..|pat| - 1], pat)
    ensures IndexOf(head + pat + tail, pat) == Some(|head|)
  {
    var s := head + pat + tail;
    var h := head + pat[..|pat| - 1];
    assert MatchAt(s, pat, |head|) by {
      assert s[|head|..|head| + |pat|] == pat;
    }
    forall j | 0 <= j < |head|
      ensures !MatchAt(s, pat, j)
    {
      assert j + |pat| <= |h|;
      assert s[j..j + |pat|] == h[j..j + |pat|];
      assert !MatchAt(h, pat, j);
    }
  }

  /** Splitting `head + pat + tail` peels off `head` as the first piece. */
  lemma SplitAfterHead(head: string, pat: string, tail: string)
    requires |pat| > 0
    requires !Contains(head + pat[..|pat| - 1], pat)
    ensures Split(head + pat + tail, pat) == [head] + Split(tail, pat)
  {
    var s := head + pat + tail;
    IndexOfAfterHead(head, pat, tail);
    assert s[..|head|] == head;
    assert s[|head| + |pat|..] == tail;
  }

  /** A match inside a prefix is a match in the whole string. */
  lemma MatchInPrefix(s: string, n: nat, pat: string, j: nat)
    requires n <= |s| && MatchAt(s[..n], pat, j)
    ensures MatchAt(s, pat, j)
  {
    assert s[..n][j..j + |pat|] == s[j..j + |pat|];
  }

  /** A character that does not occur is not found. */
  lemma CharAbsent(s: string, c: char)
    requires c !in s
    ensures !Contains(s, [c])
  {
    forall j | 0 <= j
      ensures !MatchAt(s, [c], j)
    {
      if j + 1 <= |s| {
        assert s[j..j + 1] == [s[j]];
      }
    }
  }

  /** A text without ':' holds no "::", even with one ':' appended. */
  lemma NoColonPair(s: string)
    requires ':' !in s
    ensures !Contains(s + ":", "::")
    ensures !Contains(s, "::")
  {
    forall j | 0 <= j
      ensures !MatchAt(s + ":", "::", j)
    {
      if j + 2 <= |s| + 1 {
        assert (s + ":")[j] == s[j];
      }
    }
    if Contains(s, "::") {
      ContainsExtend(s, ":", "::");
    }
  }

  /** An occurrence in a prefix is an occurrence in the whole text. */
  lemma ContainsExtend(s: string, more: string, pat: string)
    requires Contains(s, pat)
    ensures Contains(s + more, pat)
  {
    var i := IndexOf(s, pat).value;
    assert (s + more)[i..i + |pat|] == s[i..i + |pat|];
    assert MatchAt(s + more, pat, i);
  }

  /** Splitting a join gives the pieces back when no piece (nor its overlap
      with the separator) contains the separator. */
  lemma {:induction false} SplitJoin(parts: seq<string>, sep: string)
    requires |sep| > 0 && |parts| >= 1
    requires forall i :: 0 <= i < |parts| ==> !Contains(parts[i] + sep[..|sep| - 1], sep)
    ensures Split(Join(parts, sep), sep) == parts
    decreases |parts|
  {
    if |parts| == 1 {
      if Contains(parts[0], sep) {
        ContainsExtend(parts[0], sep[..|sep| - 1], sep);
      }
      SplitWithout(parts[0], sep);
    } else {
      var rest := parts[1..];
      assert forall i :: 0 <= i < |rest| ==> rest[i] == parts[i + 1];
      SplitJoin(rest, sep);
      assert !Contains(parts[0] + sep[..|sep| - 1], sep);
      SplitAfterHead(parts[0], sep, Join(rest, sep));
    }
  }

  /** Rust `char::is_whitespace`: the Unicode White_Space property. */
  predicate IsWhitespace(c: char) {
    var n := c as int;
    (0x09 <= n <= 0x0D) || n == 0x20 || n == 0x85 || n == 0xA0 || n == 0x1680
    || (0x2000 <= n <= 0x200A) || n == 0x2028 || n == 0x2029 || n == 0x202F
    || n == 0x205F || n == 0x3000
  }

  function TrimStart(s: string): (r: string)
    ensures |r| == 0 || !IsWhitespace(r[0])
    ensures exists k :: 0 <= k <= |s| && r == s[k..]
    decreases |s|
  {
    if |s| > 0 && IsWhitespace(s[0]) then
      var r := TrimStart(s[1..]);
      var k :| 0 <= k <= |s[1..]| && r == s[1..][k..];
      assert r == s[k + 1..];
      r
    else
      assert s == s[0..];
      s
  }

  function TrimEnd(s: string): (r: string)
    ensures |r| == 0 || !IsWhitespace(r[|r| - 1])
    ensures StartsWith(s, r)
    decreases |s|
  {
    if |s| > 0 && IsWhitespace(s[|s| - 1]) then TrimEnd(s[..|s| - 1]) else s
  }

  /** Rust `str::trim`: no whitespace is left at either end, and the
      result is a contiguous piece of the input. */
  function Trim(s: string): (r: string)
    ensures |r| == 0 || (!IsWhitespace(r[0]) && !IsWhitespace(r[|r| - 1]))
    ensures forall c :: c in r ==> c in s
  {
    var t := TrimStart(s);
    var r := TrimEnd(t);
    assert forall c :: c in r ==> c in t by {
      assert r == t[..|r|];
    }
    assert forall c :: c in t ==> c in s by {
      var k :| 0 <= k <= |s| && t == s[k..];
    }
    r
  }

  /** A string with no whitespace at either end is its own trim. */
  lemma TrimTrimmed(s: string)
    requires |s| == 0 || (!IsWhitespace(s[0]) && !IsWhitespace(s[|s| - 1]))
    ensures Trim(s) == s
  {
  }

  /** Rust `str::replace` with a non-empty pattern: every non-overlapping
      occurrence of `from`, searched from the left, becomes `to`. */
  function ReplaceAll(s: string, from: string, to: string): (r: string)
    requires |from| > 0
    decreases |s|
  {
    match IndexOf(s, from)
    case None => s
    case Some(i) => s[..i] + to + ReplaceAll(s[i + |from|..], from, to)
  }

  /** Replacement is the join of the split pieces with the new text. */
  lemma {:induction false} ReplaceAllIsJoinSplit(s: string, from: string, to: string)
    requires |from| > 0
    ensures ReplaceAll(s, from, to) == Join(Split(s, from), to)
    decreases |s|
  {
    match IndexOf(s, from)
    case None =>
    case Some(i) =>
      ReplaceAllIsJoinSplit(s[i + |from|..], from, to);
  }

  /** A pattern holding a character the text lacks does not occur in it. */
  lemma MissingChar(s: string, pat: string, c: char)
    requires c in pat && c !in s
    ensures !Contains(s, pat)
  {
    var k :| 0 <= k < |pat| && pat[k] == c;
    forall j | 0 <= j && j + |pat| <= |s|
      ensures !MatchAt(s, pat, j)
    {
      assert s[j..j + |pat|][k] == s[j + k];
    }
  }

  /** Replacing in `head + from + tail` rewrites the separator after
      `head` and carries on in `tail`. */
  lemma ReplaceAfterHead(head: string, from: string, to: string, tail: string)
    requires |from| > 0
    requires !Contains(head + from[..|from| - 1], from)
    ensures ReplaceAll(head + from + tail, from, to) == head + to + ReplaceAll(tail, from, to)
  {
    var s := head + from + tail;
    IndexOfAfterHead(head, from, tail);
    assert s[..|head|] == head;
    assert s[|head| + |from|..] == tail;
  }

  /** A text without the pattern is left unchanged by a replacement. */
  lemma ReplaceAllWithout(s: string, from: string, to: string)
    requires |from| > 0
    requires !Contains(s, from)
    ensures ReplaceAll(s, from, to) == s
  {
  }

  /** ASCII lower-casing of one character. */
  function LowerChar(c: char): (r: char)
    ensures 'A' <= c <= 'Z' ==> 'a' <= r <= 'z'
    ensures !('A' <= c <= 'Z') ==> r == c
  {
    if 'A' <= c <= 'Z' then (c as int + 32) as char else c
  }

  function ToLower(s: string): (r: string)
    ensures |r| == |s|
    ensures forall i :: 0 <= i < |s| ==> r[i] == LowerChar(s[i])
  {
    seq(|s|, i requires 0 <= i < |s| => LowerChar(s[i]))
  }

  /** Rust `str::replace` with a one-character pattern and replacement. */
  function ReplaceChar(s: string, from: char, to: char): (r: string)
    ensures |r| == |s|
    ensures forall i :: 0 <= i < |s| ==> r[i] == (if s[i] == from then to else s[i])
  {
    seq(|s|, i requires 0 <= i < |s| => if s[i] == from then to else s[i])
  }

  /** Decimal rendering of an integer, as Rust's `to_string` / `{}` prints it. */
  function IntToString(n: int): string
  {
    if n < 0 then "-" + NatToString(-n) else NatToString(n)
  }

  function NatToString(n: nat): (r: string)
    ensures |r| > 0
    decreases n
  {
    if n < 10 then [DigitChar(n)] else NatToString(n / 10) + [DigitChar(n % 10)]
  }

  function DigitChar(d: nat): char
    requires d < 10
  {
    ('0' as int + d) as char
  }

  /** Rust's `Ord` on `String`: byte-wise lexicographic order of the UTF-8
      encodings, which is the code-point-wise lexicographic order. */
  predicate LexLess(a: string, b: string)
    decreases |a|
  {
    if |a| == 0 then |b| > 0
    else if |b| == 0 then false
    else if a[0] == b[0] then LexLess(a[1..], b[1..])
    else a[0] < b[0]
  }

  lemma {:induction false} LexLessIrreflexive(a: string)
    ensures !LexLess(a, a)
    decreases |a|
  {
    if |a| > 0 {
      LexLessIrreflexive(a[1..]);
    }
  }

  lemma {:induction false} LexLessTotal(a: string, b: string)
    requires a != b
    ensures LexLess(a, b) || LexLess(b, a)
    decreases |a|
  {
    if |a| > 0 && |b| > 0 && a[0] == b[0] {
      assert a == [a[0]] + a[1..] && b == [b[0]] + b[1..];
      LexLessTotal(a[1..], b[1..]);
    }
  }

  lemma {:induction false} LexLessTransitive(a: string, b: string, c: string)
    requires LexLess(a, b) && LexLess(b, c)
    ensures LexLess(a, c)
    decreases |a|
  {
    if |a| > 0 && a[0] == b[0] && b[0] == c[0] {
      LexLessTransitive(a[1..], b[1..], c[1..]);
    }
  }

  lemma LexLessAsymmetric(a: string, b: string)
    requires LexLess(a, b)
    ensures !LexLess(b, a)
  {
    if LexLess(b, a) {
      LexLessTransitive(a, b, a);
      LexLessIrreflexive(a);
    }
  }

  /** Strictly increasing in the order above, hence free of duplicates. */
  predicate StrictlySorted(s: seq<string>) {
    forall i, j :: 0 <= i < j < |s| ==> LexLess(s[i], s[j])
  }

  /** Rust `str::trim_end_matches` with a non-empty pattern: strips the
      pattern from the end as many times as it occurs there. */
  function TrimEndMatches(s: string, pat: string): (r: string)
    requires |pat| > 0
    ensures !EndsWith(r, pat)
    ensures StartsWith(s, r)
    decreases |s|
  {
    if EndsWith(s, pat) then TrimEndMatches(s[..|s| - |pat|], pat) else s
  }
}
