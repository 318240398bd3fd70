/** The handful of Python `str` operations the generator relies on, on `seq<char>`. */
module PyStr {
  import opened Results

  /** `s.startswith(p)` */
  predicate StartsWith(s: string, p: string) {
    |p| <= |s| && s[..|p|] == p
  }

  /** `s.endswith(p)` */
  predicate EndsWith(s: string, p: string) {
    |p| <= |s| && s[|s| - |p|..] == p
  }

  /** Number of occurrences of `c` in `s` (`s.count(c)`). */
  function Count(s: string, c: char): nat {
    if |s| == 0 then 0 else (if s[0] == c then 1 else 0) + Count(s[1..], c)
  }

  /** The text after the prefix `p`, if `s` starts with it. */
  function DropPrefix(s: string, p: string): (r: Option<string>)
    ensures r.Some? ==> |r.value| <= |s|
  {
    if StartsWith(s, p) then Some(s[|p|..]) else None
  }

  /** The text before the suffix `p`, if `s` ends with it. */
  function DropSuffix(s: string, p: string): (r: Option<string>)
    ensures r.Some? ==> |r.value| <= |s|
  {
    if EndsWith(s, p) then Some(s[..|s| - |p|]) else None
  }

  lemma DropPrefixOf(p: string, t: string)
    ensures DropPrefix(p + t, p) == Some(t)
  {
    assert (p + t)[..|p|] == p;
    assert (p + t)[|p|..] == t;
  }

  lemma DropSuffixOf(t: string, p: string)
    ensures DropSuffix(t + p, p) == Some(t)
  {
    assert (t + p)[|t + p| - |p|..] == p;
    assert (t + p)[..|t|] == t;
  }

  /** Regroups a concatenation known to equal `s` so that a tail can be appended to its last part. */
  lemma AppendAssoc(s: string, a: string, b: string, tail: string)
    requires s == a + b
    ensures s + tail == a + (b + tail)
  {
  }

  /** A character absent from each piece is absent from their concatenation. */
  lemma AbsentFromConcat(c: char, a: string, b: string, d: string)
    requires c !in a && c !in b && c !in d
    ensures c !in a + b + d
  {
  }

  /** Index of the first `c` in `s`, or `|s|` when there is none (`s.find(c)` with -1 read as `|s|`). */
  function IndexOf(s: string, c: char): (k: nat)
    ensures k <= |s|
    ensures forall j :: 0 <= j < k ==> s[j] != c
    ensures k < |s| ==> s[k] == c
  {
    if |s| == 0 then 0 else if s[0] == c then 0 else 1 + IndexOf(s[1..], c)
  }

  lemma IndexOfConcat(a: string, c: char, b: string)
    requires c !in a
    ensures IndexOf(a + [c] + b, c) == |a|
  {
    var s := a + [c] + b;
    assert forall j :: 0 <= j < |a| ==> s[j] == a[j] && a[j] != c;
    assert s[|a|] == c;
  }

  /** `s.partition(c)` when `c` occurs: the text before the first `c` and the text after it. */
  function CutAt(s: string, c: char): (r: Option<(string, string)>)
    ensures r.Some? ==> |r.value.1| < |s|
  {
    var k := IndexOf(s, c);
    if k == |s| then None else Some((s[..k], s[k + 1..]))
  }

  lemma CutAtOf(a: string, c: char, b: string)
    requires c !in a
    ensures CutAt(a + [c] + b, c) == Some((a, b))
  {
    IndexOfConcat(a, c, b);
    var s := a + [c] + b;
    assert s[..|a|] == a;
    assert s[|a| + 1..] == b;
  }

  /** The first line of `s` (without its `'\n'`) and the text after it; None when no `'\n'` ends it. */
  function TakeLine(s: string): (r: Option<(string, string)>)
    ensures r.Some? ==> |r.value.1| < |s|
  {
    CutAt(s, '\n')
  }

  lemma TakeLineOf(line: string, rest: string)
    requires '\n' !in line
    ensures TakeLine(line + "\n" + rest) == Some((line, rest))
  {
    CutAtOf(line, '\n', rest);
  }

  /** Python's `str.isspace` for one character. */
  predicate IsSpace(c: char) {
    || '\t' <= c <= '\r'
    || '\U{1C}' <= c <= ' '
    || c == '\U{85}' || c == '\U{A0}' || c == '\U{1680}'
    || '\U{2000}' <= c <= '\U{200A}'
    || c == '\U{2028}' || c == '\U{2029}' || c == '\U{202F}' || c == '\U{205F}' || c == '\U{3000}'
  }

  /** The first index at or after `i` that holds no whitespace, or `|s|`. */
  function SkipSpaces(s: string, i: nat): (n: nat)
    requires i <= |s|
    ensures i <= n <= |s|
    ensures forall k :: i <= k < n ==> IsSpace(s[k])
    ensures n < |s| ==> !IsSpace(s[n])
    decreases |s| - i
  {
    if i == |s| || !IsSpace(s[i]) then i else SkipSpaces(s, i + 1)
  }

  /** The end of `s[lo..j]` once trailing whitespace is dropped from it. */
  function SkipSpacesBack(s: string, lo: nat, j: nat): (n: nat)
    requires lo <= j <= |s|
    ensures lo <= n <= j
    ensures forall k :: n <= k < j ==> IsSpace(s[k])
    ensures lo < n ==> !IsSpace(s[n - 1])
  {
    if j == lo || !IsSpace(s[j - 1]) then j else SkipSpacesBack(s, lo, j - 1)
  }

  /** `s.lstrip()` */
  function LStrip(s: string): (r: string)
    ensures |r| <= |s| && r == s[|s| - |r|..]
    ensures forall k :: 0 <= k < |s| - |r| ==> IsSpace(s[k])
    ensures r == "" || !IsSpace(r[0])
  {
    s[SkipSpaces(s, 0)..]
  }

  /** `s.rstrip()` */
  function RStripSpace(s: string): (r: string)
    ensures |r| <= |s| && r == s[..|r|]
    ensures forall k :: |r| <= k < |s| ==> IsSpace(s[k])
    ensures r == "" || !IsSpace(r[|r| - 1])
  {
    s[..SkipSpacesBack(s, 0, |s|)]
  }

  /**
   * `s.strip()`: the part of `s` left after dropping whitespace at both ends. It starts where
   * `s.lstrip()` starts, and everything before and after it is whitespace.
   */
  function Strip(s: string): (r: string)
    ensures var i := |s| - |LStrip(s)|;
      && i + |r| <= |s| && r == s[i..i + |r|]
      && (forall k :: 0 <= k < i ==> IsSpace(s[k]))
      && (forall k :: i + |r| <= k < |s| ==> IsSpace(s[k]))
    ensures r == "" || (!IsSpace(r[0]) && !IsSpace(r[|r| - 1]))
  {
    var i := SkipSpaces(s, 0);
    s[i..SkipSpacesBack(s, i, |s|)]
  }

  /** `s.rstrip(chars)`: removes the longest suffix made only of characters in `chars`. */
  function RStrip(s: string, chars: set<char>): (r: string)
    ensures |r| <= |s| && r == s[..|r|]
    ensures forall k :: |r| <= k < |s| ==> s[k] in chars
    ensures r == "" || r[|r| - 1] !in chars
  {
    if |s| > 0 && s[|s| - 1] in chars then RStrip(s[..|s| - 1], chars) else s
  }

  /** Stripping ignores a tail made only of stripped characters. */
  lemma {:induction false} RStripAppend(s: string, t: string, chars: set<char>)
    requires forall k :: 0 <= k < |t| ==> t[k] in chars
    ensures RStrip(s + t, chars) == RStrip(s, chars)
    decreases |t|
  {
    if |t| > 0 {
      var u := s + t;
      assert u[|u| - 1] == t[|t| - 1];
      assert u[..|u| - 1] == s + t[..|t| - 1];
      RStripAppend(s, t[..|t| - 1], chars);
    } else {
      assert s + t == s;
    }
  }

  /** ASCII `c.upper()` */
  function Upper(c: char): char {
    if 'a' <= c <= 'z' then (c as int - 32) as char else c
  }

  /** ASCII `c.lower()` */
  function Lower(c: char): char {
    if 'A' <= c <= 'Z' then (c as int + 32) as char else c
  }

  /** ASCII `s.lower()` */
  function LowerAll(s: string): (r: string)
    ensures |r| == |s|
    ensures forall i :: 0 <= i < |s| ==> r[i] == Lower(s[i])
  {
    if |s| == 0 then "" else [Lower(s[0])] + LowerAll(s[1..])
  }

  /** ASCII `s.capitalize()`: first character upper-cased, every other one lower-cased. */
  function Capitalize(s: string): (r: string)
    ensures |r| == |s|
    ensures |s| > 0 ==> r[0] == Upper(s[0])
    ensures forall i :: 0 < i < |s| ==> r[i] == Lower(s[i])
  {
    if |s| == 0 then "" else [Upper(s[0])] + LowerAll(s[1..])
  }

  /** `s.replace(from, to)` for single characters. */
  function ReplaceChar(s: string, from: char, to: char): (r: string)
    ensures |r| == |s|
    ensures forall i :: 0 <= i < |s| ==> r[i] == (if s[i] == from then to else s[i])
  {
    if |s| == 0 then "" else [if s[0] == from then to else s[0]] + ReplaceChar(s[1..], from, to)
  }

  /** `sep.join(parts)` for a one-character separator. */
  function Join(parts: seq<string>, sep: char): string
    requires |parts| >= 1
  {
    if |parts| == 1 then parts[0] else parts[0] + [sep] + Join(parts[1..], sep)
  }

  /** `s.split(sep)` for a one-character separator; never empty. */
  function Split(s: string, sep: char): (parts: seq<string>)
    ensures |parts| >= 1
    ensures forall i :: 0 <= i < |parts| ==> sep !in parts[i]
    decreases |s|
  {
    var k := IndexOf(s, sep);
    if k == |s| then [s]
    else
      var rest := Split(s[k + 1..], sep);
      assert forall i :: 0 < i < |rest| + 1 ==> ([s[..k]] + rest)[i] == rest[i - 1];
      [s[..k]] + rest
  }

  /** `s.split(sep)` has one more piece than `s` has separators. */
  lemma {:induction false} SplitCount(s: string, sep: char)
    ensures |Split(s, sep)| == Count(s, sep) + 1
    decreases |s|
  {
    var k := IndexOf(s, sep);
    if k == |s| {
      CountAbsent(s, sep);
    } else {
      SplitCount(s[k + 1..], sep);
      assert s == s[..k] + ([sep] + s[k + 1..]);
      assert ([sep] + s[k + 1..])[1..] == s[k + 1..];
      CountConcat(s[..k], [sep] + s[k + 1..], sep);
      CountAbsent(s[..k], sep);
    }
  }

  lemma {:induction false} CountAbsent(s: string, c: char)
    requires c !in s
    ensures Count(s, c) == 0
  {
    if |s| > 0 {
      assert forall x :: x in s[1..] ==> x in s;
      CountAbsent(s[1..], c);
    }
  }

  lemma {:induction false} CountConcat(a: string, b: string, c: char)
    ensures Count(a + b, c) == Count(a, c) + Count(b, c)
  {
    if |a| == 0 {
      assert a + b == b;
    } else {
      assert (a + b)[0] == a[0];
      assert (a + b)[1..] == a[1..] + b;
      CountConcat(a[1..], b, c);
    }
  }

  /** Joining the pieces back with the separator gives the original text. */
  lemma {:induction false} JoinSplit(s: string, sep: char)
    ensures Join(Split(s, sep), sep) == s
    decreases |s|
  {
    var k := IndexOf(s, sep);
    if k < |s| {
      SplitAt(s, sep);
      JoinSplit(s[k + 1..], sep);
      JoinCons(s[..k], Split(s[k + 1..], sep), sep);
    }
  }

  /** Where the first separator is: the text before it, the separator, the text after it. */
  lemma SplitAt(s: string, sep: char)
    requires IndexOf(s, sep) < |s|
    ensures var k := IndexOf(s, sep);
      && s == s[..k] + [sep] + s[k + 1..]
      && Split(s, sep) == [s[..k]] + Split(s[k + 1..], sep)
  {
    var k := IndexOf(s, sep);
    assert s[k] == sep;
    assert forall i :: 0 <= i < |s| ==> s[i] == (s[..k] + [sep] + s[k + 1..])[i];
  }

  lemma JoinCons(a: string, parts: seq<string>, sep: char)
    requires |parts| >= 1
    ensures Join([a] + parts, sep) == a + [sep] + Join(parts, sep)
  {
    assert ([a] + parts)[1..] == parts;
  }

  lemma SplitCons(a: string, sep: char, b: string)
    requires sep !in a
    ensures Split(a + [sep] + b, sep) == [a] + Split(b, sep)
  {
    var s := a + [sep] + b;
    IndexOfConcat(a, sep, b);
    assert s[..|a|] == a;
    assert s[|a| + 1..] == b;
  }

  /** Splitting undoes joining, when no piece contains the separator. */
  lemma {:induction false} SplitJoin(parts: seq<string>, sep: char)
    requires |parts| >= 1
    requires forall i :: 0 <= i < |parts| ==> sep !in parts[i]
    ensures Split(Join(parts, sep), sep) == parts
  {
    if |parts| > 1 {
      SplitCons(parts[0], sep, Join(parts[1..], sep));
      SplitJoin(parts[1..], sep);
      assert parts == [parts[0]] + parts[1..];
    }
  }

  /** `s.split(c)[-1]`: the text after the last `c`, or all of `s`; `LastSegmentSpec` pins it down. */
  function LastSegment(s: string, c: char): (r: string)
    ensures c !in r
    ensures |r| <= |s|
    decreases |s|
  {
    var k := IndexOf(s, c);
    if k == |s| then s else LastSegment(s[k + 1..], c)
  }

  /**
   * What `s.split(c)[-1]` is: a suffix `r` of `s` free of `c` that is either all of `s`
   * or preceded by a `c`.
   */
  predicate IsLastSegment(s: string, c: char, r: string) {
    && c !in r
    && |r| <= |s| && r == s[|s| - |r|..]
    && (|r| < |s| ==> s[|s| - |r| - 1] == c)
    && (c !in s ==> r == s)
  }

  lemma {:induction false} LastSegmentSpec(s: string, c: char)
    ensures IsLastSegment(s, c, LastSegment(s, c))
    decreases |s|
  {
    var k := IndexOf(s, c);
    if k < |s| {
      var tail := s[k + 1..];
      LastSegmentSpec(tail, c);
      SegmentAfterCut(s, k, c, LastSegment(tail, c));
    } else {
      assert s[|s| - |s|..] == s;
    }
  }

  /** The last segment of what follows the `c` at index `k` is the last segment of `s`. */
  lemma SegmentAfterCut(s: string, k: nat, c: char, r: string)
    requires k < |s| && s[k] == c
    requires IsLastSegment(s[k + 1..], c, r)
    ensures IsLastSegment(s, c, r)
  {
    var tail := s[k + 1..];
    assert tail[|tail| - |r|..] == s[|s| - |r|..];
    if |r| < |tail| {
      assert tail[|tail| - |r| - 1] == s[|s| - |r| - 1];
    }
  }

  /** The last `split` piece is what `LastSegment` computes. */
  lemma {:induction false} LastSegmentIsLastPiece(s: string, c: char)
    ensures LastSegment(s, c) == Split(s, c)[|Split(s, c)| - 1]
    decreases |s|
  {
    var k := IndexOf(s, c);
    if k < |s| {
      var tail := s[k + 1..];
      LastSegmentIsLastPiece(tail, c);
      var rest := Split(tail, c);
      var parts := Split(s, c);
      assert parts == [s[..k]] + rest;
      assert |parts| == |rest| + 1;
      assert parts[|rest|] == rest[|rest| - 1];
    }
  }

  /** A suffix free of `c` that is all of `s` or follows a `c` is exactly `LastSegment(s, c)`. */
  lemma {:induction false} LastSegmentUnique(s: string, c: char, t: string)
    requires c !in t
    requires |t| <= |s| && t == s[|s| - |t|..]
    requires |t| < |s| ==> s[|s| - |t| - 1] == c
    ensures t == LastSegment(s, c)
  {
    LastSegmentSpec(s, c);
    SegmentsAgree(s, c, t, LastSegment(s, c));
  }

  /** Two `c`-free suffixes of `s` that each fill `s` or follow a `c` are the same. */
  lemma SegmentsAgree(s: string, c: char, t: string, r: string)
    requires c !in t && |t| <= |s| && t == s[|s| - |t|..]
    requires |t| < |s| ==> s[|s| - |t| - 1] == c
    requires c !in r && |r| <= |s| && r == s[|s| - |r|..]
    requires |r| < |s| ==> s[|s| - |r| - 1] == c
    ensures t == r
  {
  }

  /** Text put in front of a `c` (or nothing) does not change the last `c`-segment. */
  lemma AppendedLastSegment(p: string, b: string, c: char)
    requires p == "" || p[|p| - 1] == c
    ensures LastSegment(p + b, c) == LastSegment(b, c)
  {
    var t := LastSegment(b, c);
    LastSegmentSpec(b, c);
    SuffixOfAppend(p, b, t);
    PrecededInAppend(p, b, |t|, c);
    LastSegmentUnique(p + b, c, t);
  }

  lemma SuffixOfAppend(p: string, b: string, t: string)
    requires |t| <= |b| && t == b[|b| - |t|..]
    ensures |t| <= |p + b| && t == (p + b)[|p + b| - |t|..]
  {
    assert forall k :: |p + b| - |t| <= k < |p + b| ==> (p + b)[k] == b[k - |p|];
  }

  /** The character before the last `n` of `p + b` is `c`, when it is so in `b` or `b` ends `p + b` after a `c`. */
  lemma PrecededInAppend(p: string, b: string, n: nat, c: char)
    requires n <= |b|
    requires n < |b| ==> b[|b| - n - 1] == c
    requires p == "" || p[|p| - 1] == c
    ensures n < |p + b| ==> (p + b)[|p + b| - n - 1] == c
  {
    if n < |p + b| {
      if n < |b| {
        assert (p + b)[|p + b| - n - 1] == b[|b| - n - 1];
      } else {
        assert (p + b)[|p + b| - n - 1] == p[|p| - 1];
      }
    }
  }
}
