/**
 * Python `str` operations with CPython's semantics, as the 8-K scraper uses them:
 * `find` (which answers -1 when the text is absent), slicing with negative and
 * out-of-range bounds, `strip()`, `split()`, `' '.join`, `lower()`, `replace`
 * of one character, `zfill` and the `in` test.
 */
module PyStr {

  /** The characters for which CPython's `str.isspace()` holds; `split()` and
      `strip()` without arguments treat exactly these as whitespace. */
  predicate IsSpace(c: char) {
    || ('\t' <= c <= '\r')
    || ('\U{1C}' <= c <= ' ')
    || c == '\U{85}' || c == '\U{A0}' || c == '\U{1680}'
    || ('\U{2000}' <= c <= '\U{200A}')
    || c == '\U{2028}' || c == '\U{2029}' || c == '\U{202F}' || c == '\U{205F}'
    || c == '\U{3000}'
  }

  /** `p` occurs in `s` at position `j`. */
  predicate At(s: string, p: string, j: int) {
    0 <= j && j + |p| <= |s| && s[j..j + |p|] == p
  }

  /** `j` is the first position at which `p` occurs in `s`. */
  predicate FirstAt(s: string, p: string, j: int) {
    At(s, p, j) && forall k :: 0 <= k < j ==> !At(s, p, k)
  }

  /** The least position at or after `j` where `p` occurs, or -1. */
  function FindFrom(s: string, p: string, j: nat): (r: int)
    decreases |s| - j
    ensures r == -1 || (j <= r && At(s, p, r))
    ensures forall k :: j <= k && (r == -1 || k < r) ==> !At(s, p, k)
  {
    if j + |p| > |s| then -1
    else if At(s, p, j) then j
    else FindFrom(s, p, j + 1)
  }

  /** Where `s.find(p, start)` begins its search: a negative start counts
      from the end and is clamped at 0. */
  function FindStart(start: int, n: nat): int {
    if start >= 0 then start else if start + n < 0 then 0 else start + n
  }

  /** `s.find(p, start)`: the first occurrence of `p` at or after the
      adjusted start, or -1; a start beyond the end finds nothing. */
  function Find(s: string, p: string, start: int): (r: int)
    ensures r != -1 ==> FindStart(start, |s|) <= r && At(s, p, r)
    ensures forall k :: FindStart(start, |s|) <= k && (r == -1 || k < r) ==> !At(s, p, k)
  {
    var from := FindStart(start, |s|);
    if from > |s| then -1 else FindFrom(s, p, from)
  }

  /** `p in s`. */
  predicate Contains(s: string, p: string) {
    Find(s, p, 0) != -1
  }

  /** A slice bound as Python resolves it for a step of 1. */
  function SliceIndex(i: int, n: nat): (r: nat)
    ensures r <= n
  {
    if i < 0 then (if i + n < 0 then 0 else i + n)
    else if i > n then n
    else i
  }

  /** `s[a:b]`. */
  function Slice(s: string, a: int, b: int): (r: string)
    ensures |r| <= |s|
  {
    var lo, hi := SliceIndex(a, |s|), SliceIndex(b, |s|);
    if lo < hi then s[lo..hi] else []
  }

  /** `s.lstrip()`. */
  function LStrip(s: string): (r: string)
    ensures |r| <= |s| && r == s[|s| - |r|..]
    ensures r == [] || !IsSpace(r[0])
    ensures forall i :: 0 <= i < |s| - |r| ==> IsSpace(s[i])
  {
    if s != [] && IsSpace(s[0]) then LStrip(s[1..]) else s
  }

  /** `s.rstrip()`. */
  function RStrip(s: string): (r: string)
    ensures |r| <= |s| && r == s[..|r|]
    ensures r == [] || !IsSpace(r[|r| - 1])
    ensures forall i :: |r| <= i < |s| ==> IsSpace(s[i])
  {
    if s != [] && IsSpace(s[|s| - 1]) then RStrip(s[..|s| - 1]) else s
  }

  /** `s.strip()`. */
  function Strip(s: string): string {
    RStrip(LStrip(s))
  }

  /** A word as `split()` produces it: non-empty and free of whitespace. */
  predicate IsWord(w: string) {
    w != [] && forall i :: 0 <= i < |w| ==> !IsSpace(w[i])
  }

  /** The longest prefix of `s` free of whitespace. */
  function Word(s: string): (w: string)
    ensures |w| <= |s| && w == s[..|w|]
    ensures forall i :: 0 <= i < |w| ==> !IsSpace(w[i])
    ensures |w| < |s| ==> IsSpace(s[|w|])
  {
    if s == [] || IsSpace(s[0]) then [] else [s[0]] + Word(s[1..])
  }

  /** `s.split()`: the maximal runs of non-whitespace, in order. */
  function Split(s: string): (ws: seq<string>)
    decreases |s|
    ensures forall k :: 0 <= k < |ws| ==> IsWord(ws[k])
  {
    if s == [] then []
    else if IsSpace(s[0]) then Split(s[1..])
    else
      var w := Word(s);
      assert w[0] == s[0];
      [w] + Split(s[|w|..])
  }

  /** `sep.join(ws)`. */
  function Join(sep: string, ws: seq<string>): string {
    if ws == [] then []
    else if |ws| == 1 then ws[0]
    else ws[0] + sep + Join(sep, ws[1..])
  }

  /** `' '.join(s.split())`, the scraper's whitespace normalisation. */
  function Normalize(s: string): string {
    Join(" ", Split(s))
  }

  /** `s.replace(a, b)` for one-character `a` and `b`. */
  function ReplaceChar(s: string, a: char, b: char): (r: string)
    ensures |r| == |s|
    ensures forall i :: 0 <= i < |s| ==> r[i] == (if s[i] == a then b else s[i])
  {
    seq(|s|, i requires 0 <= i < |s| => if s[i] == a then b else s[i])
  }

  /** `c.lower()` for the ASCII letters. */
  function LowerChar(c: char): char {
    if 'A' <= c <= 'Z' then (c as int + 32) as char else c
  }

  /** `s.lower()` restricted to the ASCII letters. */
  function Lower(s: string): (r: string)
    ensures |r| == |s|
    ensures forall i :: 0 <= i < |s| ==> r[i] == LowerChar(s[i])
  {
    seq(|s|, i requires 0 <= i < |s| => LowerChar(s[i]))
  }

  /** `c * n`. */
  function Repeat(c: char, n: nat): (r: string)
    ensures |r| == n
    ensures forall i :: 0 <= i < n ==> r[i] == c
  {
    seq(n, i => c)
  }

  /** `s.zfill(width)`: left padding with '0' to `width`, placed after a
      leading sign. */
  function ZFill(s: string, width: int): string {
    if |s| >= width then s
    else
      var pad := Repeat('0', width - |s|);
      if s != [] && (s[0] == '+' || s[0] == '-') then [s[0]] + pad + s[1..] else pad + s
  }

  /** `find` answers -1 exactly when `p` occurs nowhere at or after the
      adjusted start, and otherwise the first such occurrence. */
  lemma FindAbsent(s: string, p: string, start: int)
    ensures Find(s, p, start) == -1 <==> forall k :: FindStart(start, |s|) <= k ==> !At(s, p, k)
  {
  }

  /** Slicing within bounds is the subsequence; a negative bound counts from
      the end; an empty range or a start at or past the end gives "". */
  lemma SliceCases(s: string, a: int, b: int)
    ensures 0 <= a <= b <= |s| ==> Slice(s, a, b) == s[a..b]
    ensures 0 <= a && -|s| <= b < 0 && a <= |s| + b ==> Slice(s, a, b) == s[a..|s| + b]
    ensures b > |s| && 0 <= a <= |s| ==> Slice(s, a, b) == s[a..]
    ensures (0 <= b <= a || a >= |s|) ==> Slice(s, a, b) == []
  {
  }
}
