/**
 * The parts of the Kotlin string library the plugin relies on: `contains`
 * (with and without `ignoreCase`), `startsWith`, `indexOf`, `split`, `lines`,
 * `isBlank`, `trim` and `lowercase`. Case folding is ASCII only.
 */
module Text {
  import opened Wrappers

  /** `t` occurs in `s` starting at index `i`. */
  predicate OccursAt(s: string, t: string, i: int) {
    0 <= i && i + |t| <= |s| && s[i..i + |t|] == t
  }

  /** Kotlin's `indexOf(t, from)`: the first occurrence of `t` at or after `from`. */
  function IndexOf(s: string, t: string, from: nat): (r: Option<nat>)
    ensures r.Some? ==> from <= r.value && OccursAt(s, t, r.value)
    ensures r.Some? ==> forall j :: from <= j < r.value ==> !OccursAt(s, t, j)
    ensures r.None? ==> forall j :: from <= j ==> !OccursAt(s, t, j)
    decreases |s| - from
  {
    if from + |t| > |s| then None
    else if s[from..from + |t|] == t then Some(from)
    else IndexOf(s, t, from + 1)
  }

  /** Kotlin's case-sensitive `contains`. */
  predicate Contains(s: string, t: string)
    ensures Contains(s, t) <==> exists i :: OccursAt(s, t, i)
  {
    IndexOf(s, t, 0).Some?
  }

  /** Kotlin's `startsWith`. */
  predicate StartsWith(s: string, p: string) {
    |p| <= |s| && s[..|p|] == p
  }

  function LowerAscii(c: char): char {
    if 'A' <= c <= 'Z' then (c as int + 32) as char else c
  }

  /** Kotlin's `lowercase()`, restricted to ASCII letters. */
  function ToLowerAscii(s: string): (r: string)
    ensures |r| == |s|
    ensures forall i :: 0 <= i < |s| ==> r[i] == LowerAscii(s[i])
  {
    seq(|s|, i requires 0 <= i < |s| => LowerAscii(s[i]))
  }

  predicate OccursAtIgnoreCase(s: string, t: string, i: int) {
    0 <= i && i + |t| <= |s| && forall k :: 0 <= k < |t| ==> LowerAscii(s[i + k]) == LowerAscii(t[k])
  }

  /** Kotlin's `contains(t, ignoreCase = true)`. */
  predicate ContainsIgnoreCase(s: string, t: string) {
    exists i | 0 <= i <= |s| - |t| :: OccursAtIgnoreCase(s, t, i)
  }

  lemma ContainsImpliesContainsIgnoreCase(s: string, t: string)
    requires Contains(s, t)
    ensures ContainsIgnoreCase(s, t)
  {
    var i :| OccursAt(s, t, i);
    forall k | 0 <= k < |t| ensures LowerAscii(s[i + k]) == LowerAscii(t[k]) {
      assert s[i..i + |t|][k] == s[i + k];
    }
    assert OccursAtIgnoreCase(s, t, i);
  }

  /** No character of `s` folds to the first character of `t`, so `t` occurs nowhere, in any case. */
  lemma NoFoldedFirstChar(s: string, t: string)
    requires |t| > 0
    requires forall i :: 0 <= i < |s| ==> LowerAscii(s[i]) != LowerAscii(t[0])
    ensures !ContainsIgnoreCase(s, t)
  {
    forall i | 0 <= i <= |s| - |t| ensures !OccursAtIgnoreCase(s, t, i) {
      assert LowerAscii(s[i + 0]) != LowerAscii(t[0]);
    }
  }

  /** Kotlin's `Char.isWhitespace()` (Java's `isWhitespace` or `isSpaceChar`). */
  predicate IsWhitespace(c: char) {
    c == ' ' || c == '\t' || c == '\n' || c == '\U{0B}' || c == '\U{0C}' || c == '\r'
    || ('\U{1C}' <= c <= '\U{1F}') || c == '\U{A0}' || c == '\U{1680}'
    || ('\U{2000}' <= c <= '\U{200A}') || c == '\U{2028}' || c == '\U{2029}'
    || c == '\U{202F}' || c == '\U{205F}' || c == '\U{3000}'
  }

  /** Kotlin's `isBlank()`: empty or whitespace only. */
  predicate IsBlank(s: string) {
    forall i :: 0 <= i < |s| ==> IsWhitespace(s[i])
  }

  /** Kotlin's `trimStart()`: the suffix left after the leading whitespace. */
  function TrimStart(s: string): (r: string)
    ensures |r| <= |s| && r == s[|s| - |r|..]
    ensures forall i :: 0 <= i < |s| - |r| ==> IsWhitespace(s[i])
    ensures r != [] ==> !IsWhitespace(r[0])
  {
    if |s| > 0 && IsWhitespace(s[0]) then TrimStart(s[1..]) else s
  }

  /** Kotlin's `trimEnd()`: the prefix left before the trailing whitespace. */
  function TrimEnd(s: string): (r: string)
    ensures |r| <= |s| && r == s[..|r|]
    ensures forall i :: |r| <= i < |s| ==> IsWhitespace(s[i])
    ensures r != [] ==> !IsWhitespace(r[|r| - 1])
  {
    if |s| > 0 && IsWhitespace(s[|s| - 1]) then TrimEnd(s[..|s| - 1]) else s
  }

  /** Kotlin's `trim()`. */
  function Trim(s: string): (r: string)
    ensures exists a :: TrimmedAt(s, r, a)
    ensures r != [] ==> !IsWhitespace(r[0]) && !IsWhitespace(r[|r| - 1])
  {
    var t := TrimStart(s);
    var r := TrimEnd(t);
    assert TrimmedAt(s, r, |s| - |t|);
    r
  }

  /** A text that neither starts nor ends with whitespace is its own trim. */
  lemma TrimUnpadded(s: string)
    requires s != [] && !IsWhitespace(s[0]) && !IsWhitespace(s[|s| - 1])
    ensures Trim(s) == s
  {
    assert TrimStart(s) == s;
    assert TrimEnd(s) == s;
  }

  /** `r` is the slice of `s` at `a`, with only whitespace before and after it. */
  predicate TrimmedAt(s: string, r: string, a: int) {
    && 0 <= a && a + |r| <= |s| && r == s[a..a + |r|]
    && (forall i :: 0 <= i < a ==> IsWhitespace(s[i]))
    && (forall i :: a + |r| <= i < |s| ==> IsWhitespace(s[i]))
  }

  /** Kotlin's `split(d)` for a non-empty delimiter: cut at every occurrence, left to right. */
  function Split(s: string, d: string): (parts: seq<string>)
    requires |d| > 0
    ensures |parts| >= 1
    ensures forall k :: 0 <= k < |parts| ==> !Contains(parts[k], d)
    // each cut is at the leftmost occurrence: none starts inside a part and runs into the delimiter after it
    ensures forall k, j :: 0 <= k < |parts| - 1 && 0 <= j < |parts[k]| ==> !OccursAt(parts[k] + d, d, j)
    decreases |s|
  {
    match IndexOf(s, d, 0)
    case None => [s]
    case Some(i) =>
      FirstCut(s, d, i);
      var rest := Split(s[i + |d|..], d);
      var parts := [s[..i]] + rest;
      assert forall k :: 1 <= k < |parts| ==> parts[k] == rest[k - 1];
      parts
  }

  /** Before the first occurrence of `d`, neither the part nor the part followed by `d` holds another. */
  lemma FirstCut(s: string, d: string, i: nat)
    requires |d| > 0 && IndexOf(s, d, 0) == Some(i)
    ensures !Contains(s[..i], d)
    ensures forall j :: 0 <= j < i ==> !OccursAt(s[..i] + d, d, j)
  {
    forall j | OccursAt(s[..i], d, j) ensures false {
      OccursInPrefix(s, i, d, j);
    }
    var t := s[..i] + d;
    assert t == s[..i + |d|];
    forall j | 0 <= j < i ensures !OccursAt(t, d, j) {
      if OccursAt(t, d, j) {
        OccursInPrefix(s, i + |d|, d, j);
      }
    }
  }

  /** An occurrence in a prefix is one in the whole text. */
  lemma OccursInPrefix(s: string, n: nat, d: string, j: int)
    requires n <= |s| && OccursAt(s[..n], d, j)
    ensures OccursAt(s, d, j)
  {
    assert s[..n][j..j + |d|] == s[j..j + |d|];
  }

  /** The inverse of `Split`: the parts glued back with the delimiter between them. */
  function Join(parts: seq<string>, d: string): string
    requires |parts| >= 1
  {
    if |parts| == 1 then parts[0] else parts[0] + d + Join(parts[1..], d)
  }

  /** Splitting and re-joining gives back the original text. */
  lemma {:induction false} JoinSplit(s: string, d: string)
    requires |d| > 0
    ensures Join(Split(s, d), d) == s
    decreases |s|
  {
    match IndexOf(s, d, 0)
    case None =>
    case Some(i) =>
      JoinSplit(s[i + |d|..], d);
      var rest := Split(s[i + |d|..], d);
      assert Split(s, d) == [s[..i]] + rest;
      assert ([s[..i]] + rest)[1..] == rest;
      assert s[i..i + |d|] == d;
      assert s == s[..i] + d + s[i + |d|..];
  }

  /** Joining parts that contain no delimiter character and splitting again gives back the parts. */
  lemma {:induction false} SplitJoin(parts: seq<string>, d: string)
    requires |d| > 0 && |parts| >= 1
    requires forall k :: 0 <= k < |parts| ==> d[0] !in parts[k]
    ensures Split(Join(parts, d), d) == parts
    decreases |parts|
  {
    var s := Join(parts, d);
    if |parts| == 1 {
      NoOccurrenceWithoutFirstChar(parts[0], d);
    } else {
      var a := parts[0];
      var rest := Join(parts[1..], d);
      assert s == a + d + rest;
      assert OccursAt(s, d, |a|) by { assert s[|a|..|a| + |d|] == d; }
      forall j | 0 <= j < |a| ensures !OccursAt(s, d, j) {
        if j + |d| <= |s| {
          assert s[j..j + |d|][0] == s[j] == a[j];
        }
      }
      IndexOfFirst(s, d, |a|);
      assert s[|a| + |d|..] == rest;
      assert s[..|a|] == a;
      SplitJoin(parts[1..], d);
      assert Split(s, d) == [a] + Split(rest, d);
    }
  }

  lemma NoOccurrenceWithoutFirstChar(s: string, d: string)
    requires |d| > 0 && d[0] !in s
    ensures IndexOf(s, d, 0).None?
  {
    forall j | 0 <= j && j + |d| <= |s| ensures !OccursAt(s, d, j) {
      assert s[j..j + |d|][0] == s[j];
    }
  }

  /** A pattern with a character that `s` lacks occurs nowhere in `s`. */
  lemma NoOccurrenceWithoutChar(s: string, t: string, k: nat)
    requires k < |t| && t[k] !in s
    ensures !Contains(s, t)
  {
    forall j | 0 <= j && j + |t| <= |s| ensures !OccursAt(s, t, j) {
      assert s[j..j + |t|][k] == s[j + k];
    }
  }

  /** An occurrence of `u + t` contains one of `t`. */
  lemma ContainsSuffix(s: string, u: string, t: string)
    ensures Contains(s, u + t) ==> Contains(s, t)
  {
    if Contains(s, u + t) {
      var i :| OccursAt(s, u + t, i);
      assert s[i + |u|..i + |u| + |t|] == (u + t)[|u|..];
      assert OccursAt(s, t, i + |u|);
    }
  }

  /**
   * In `pre + mid + post`, a pattern that cannot start inside `pre` and
   * cannot end inside `post` can only occur inside `mid`.
   */
  lemma OccursOnlyInMiddle(pre: string, mid: string, post: string, t: string)
    requires |t| > 0 && t[0] !in pre && t[|t| - 1] !in post
    requires Contains(pre + mid + post, t)
    ensures Contains(mid, t)
  {
    var s := pre + mid + post;
    var i :| OccursAt(s, t, i);
    assert s[i..i + |t|][0] == s[i];
    assert s[i..i + |t|][|t| - 1] == s[i + |t| - 1];
    assert forall j :: 0 <= j < |pre| ==> s[j] == pre[j] != t[0];
    assert |pre| <= i;
    assert forall j :: |pre| + |mid| <= j < |s| ==> s[j] == post[j - |pre| - |mid|] != t[|t| - 1];
    assert i + |t| <= |pre| + |mid|;
    assert mid[i - |pre|..i - |pre| + |t|] == s[i..i + |t|];
    assert OccursAt(mid, t, i - |pre|);
  }

  /** An occurrence at `i` with none before it is what `IndexOf` finds. */
  lemma IndexOfFirst(s: string, t: string, i: nat)
    requires OccursAt(s, t, i)
    requires forall j :: 0 <= j < i ==> !OccursAt(s, t, j)
    ensures IndexOf(s, t, 0) == Some(i)
  {
  }

  predicate IsLineBreak(c: char) {
    c == '\n' || c == '\r'
  }

  function NextBreak(s: string, from: nat): (r: nat)
    requires from <= |s|
    ensures from <= r <= |s|
    ensures r < |s| ==> IsLineBreak(s[r])
    ensures forall k :: from <= k < r ==> !IsLineBreak(s[k])
    decreases |s| - from
  {
    if from == |s| || IsLineBreak(s[from]) then from else NextBreak(s, from + 1)
  }

  /** The next break is the first line-break character. */
  lemma {:induction false} NextBreakAt(s: string, from: nat, i: nat)
    requires from <= i <= |s|
    requires forall k :: from <= k < i ==> !IsLineBreak(s[k])
    requires i < |s| ==> IsLineBreak(s[i])
    ensures NextBreak(s, from) == i
    decreases i - from
  {
    if from < i {
      NextBreakAt(s, from + 1, i);
    }
  }

  /** Kotlin's `lines()`: split at "\r\n", "\n" and "\r" (in that order of preference). */
  function Lines(s: string): (r: seq<string>)
    ensures |r| >= 1
    ensures forall k, j :: 0 <= k < |r| && 0 <= j < |r[k]| ==> !IsLineBreak(r[k][j])
    // without carriage returns, the lines joined by `\n` give the text back
    ensures (forall j :: 0 <= j < |s| ==> s[j] != '\r') ==> Join(r, "\n") == s
    decreases |s|
  {
    var i := NextBreak(s, 0);
    if i == |s| then [s]
    else
      var n := if s[i] == '\r' && i + 1 < |s| && s[i + 1] == '\n' then 2 else 1;
      var rest := Lines(s[i + n..]);
      var r := [s[..i]] + rest;
      assert r[1..] == rest;
      assert n == 1 ==> s == s[..i] + [s[i]] + s[i + 1..];
      r
  }

  /** `filter { it.isNotBlank() }`. */
  function NonBlank(lines: seq<string>): (r: seq<string>)
    ensures |r| <= |lines|
    ensures forall k :: 0 <= k < |r| ==> !IsBlank(r[k]) && r[k] in lines
    ensures forall k :: 0 <= k < |lines| && !IsBlank(lines[k]) ==> lines[k] in r
  {
    if lines == [] then []
    else if IsBlank(lines[0]) then NonBlank(lines[1..])
    else [lines[0]] + NonBlank(lines[1..])
  }

  /** The filter keeps order: it maps concatenation to concatenation. */
  lemma {:induction false} NonBlankAppend(a: seq<string>, b: seq<string>)
    ensures NonBlank(a + b) == NonBlank(a) + NonBlank(b)
    decreases |a|
  {
    if a == [] {
      assert a + b == b;
    } else {
      assert (a + b)[0] == a[0] && (a + b)[1..] == a[1..] + b;
      NonBlankAppend(a[1..], b);
    }
  }

  /** A text without line breaks is one line. */
  lemma LinesOfLine(a: string)
    requires forall j :: 0 <= j < |a| ==> !IsLineBreak(a[j])
    ensures Lines(a) == [a]
  {
    NextBreakAt(a, 0, |a|);
  }

  /**
   * A line ends at the first break: `\n`, `\r\n` (one break), or a `\r` not
   * followed by `\n`; the lines after it are those of the rest.
   */
  lemma LinesAtBreak(a: string, sep: string, b: string)
    requires forall j :: 0 <= j < |a| ==> !IsLineBreak(a[j])
    requires sep == "\n" || sep == "\r\n" || (sep == "\r" && (b == [] || b[0] != '\n'))
    ensures Lines(a + sep + b) == [a] + Lines(b)
  {
    var s := a + sep + b;
    assert forall j :: 0 <= j < |a| ==> s[j] == a[j];
    assert s[|a|] == sep[0];
    assert |sep| == 2 ==> s[|a| + 1] == '\n';
    assert |sep| == 1 && |a| + 1 < |s| ==> s[|a| + 1] == b[0];
    NextBreakAt(s, 0, |a|);
    assert s[..|a|] == a;
    assert s[|a| + |sep|..] == b;
  }

  /** Lines joined with `\n` are read back by `lines()`. */
  lemma {:induction false} LinesOfJoin(parts: seq<string>)
    requires |parts| >= 1
    requires forall k, j :: 0 <= k < |parts| && 0 <= j < |parts[k]| ==> !IsLineBreak(parts[k][j])
    ensures Lines(Join(parts, "\n")) == parts
    decreases |parts|
  {
    if |parts| == 1 {
      LinesOfLine(parts[0]);
    } else {
      LinesOfJoin(parts[1..]);
      LinesAtBreak(parts[0], "\n", Join(parts[1..], "\n"));
    }
  }

  /** Decimal rendering of a non-negative number (Kotlin's string template of a Long). */
  function DecimalString(n: nat): (r: string)
    ensures |r| >= 1
    ensures forall i :: 0 <= i < |r| ==> '0' <= r[i] <= '9'
  {
    if n < 10 then [('0' as int + n) as char]
    else DecimalString(n / 10) + [('0' as int + n % 10) as char]
  }
}
