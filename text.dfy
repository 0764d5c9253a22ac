/** Shared value types and the small string operations the services rely on.
    Python's Unicode character classes are narrowed to what the documents hold:
    ASCII digits, Latin letters and the Cyrillic letters U+0400..U+045F. */
module Text {

  datatype Option<T> = None | Some(value: T)

  // ---------------------------------------------------------------- characters

  predicate IsDigit(c: char) { '0' <= c <= '9' }

  predicate IsSpace(c: char) {
    c == ' ' || c == '\t' || c == '\n' || c == '\r' || c == '\U{000B}' || c == '\U{000C}'
  }

  predicate IsUpper(c: char) { ('A' <= c <= 'Z') || ('Ѐ' <= c <= 'Я') }

  predicate IsLower(c: char) { ('a' <= c <= 'z') || ('а' <= c <= 'џ') }

  predicate IsAlpha(c: char) { IsUpper(c) || IsLower(c) }

  predicate IsAlnum(c: char) { IsAlpha(c) || IsDigit(c) }

  /** Python's `s.isdigit()`: non-empty and every character a digit. */
  predicate AllDigits(s: string) {
    |s| > 0 && forall i :: 0 <= i < |s| ==> IsDigit(s[i])
  }

  /** Python's `s.isalnum()`. */
  predicate AllAlnum(s: string) {
    |s| > 0 && forall i :: 0 <= i < |s| ==> IsAlnum(s[i])
  }

  /** True when `s.strip()` is empty. */
  predicate IsBlank(s: string) {
    forall i :: 0 <= i < |s| ==> IsSpace(s[i])
  }

  /** ASCII lower-casing, enough for file extensions. */
  function LowerChar(c: char): (r: char)
    ensures IsUpper(c) && c <= 'Z' ==> IsLower(r)
    ensures !('A' <= c <= 'Z') ==> r == c
  {
    if 'A' <= c <= 'Z' then (c as int + 32) as char else c
  }

  function Lower(s: string): (r: string)
    ensures |r| == |s|
    ensures forall i :: 0 <= i < |s| ==> r[i] == LowerChar(s[i])
  {
    seq(|s|, i requires 0 <= i < |s| => LowerChar(s[i]))
  }

  /** Number of occurrences of `c` in `s` (Python's `s.count(c)` for one character). */
  function CountChar(s: string, c: char): (n: nat)
    ensures n <= |s|
    ensures n > 0 <==> c in s
  {
    if s == [] then 0 else (if s[0] == c then 1 else 0) + CountChar(s[1..], c)
  }

  // ---------------------------------------------------------------- strip and whitespace

  function TrimStart(s: string): (r: string)
    ensures |r| <= |s| && (s != [] && IsSpace(s[0]) ==> |r| < |s|)
    ensures r != [] ==> r[|r| - 1] == s[|s| - 1]
    ensures r == [] || !IsSpace(r[0])
    ensures IsBlank(s[..|s| - |r|])
    ensures r == [] <==> IsBlank(s)
  {
    if s == [] || !IsSpace(s[0]) then s else TrimStart(s[1..])
  }

  function TrimEnd(s: string): (r: string)
    ensures |r| <= |s| && r == s[..|r|]
    ensures r == [] || !IsSpace(r[|r| - 1])
    ensures IsBlank(s[|r|..])
    ensures r == [] <==> IsBlank(s)
  {
    if s == [] || !IsSpace(s[|s| - 1]) then s else TrimEnd(s[..|s| - 1])
  }

  /** Python's `s.strip()`. */
  function Strip(s: string): (r: string)
    ensures |r| <= |s|
    ensures r == [] || (!IsSpace(r[0]) && !IsSpace(r[|r| - 1]))
    ensures r == [] <==> IsBlank(s)
  {
    TrimEnd(TrimStart(s))
  }

  /** Python's `re.sub(r'\s+', ' ', s)`: every run of whitespace becomes one space. */
  function CollapseSpaces(s: string): (r: string)
    ensures |r| <= |s|
    ensures forall i :: 0 <= i < |r| && IsSpace(r[i]) ==> r[i] == ' '
    ensures forall i, j :: 0 <= i < j < |r| && j == i + 1 ==> !(IsSpace(r[i]) && IsSpace(r[j]))
    ensures s != [] && IsSpace(s[0]) ==> r != [] && r[0] == ' '
    ensures s != [] && !IsSpace(s[0]) ==> r != [] && r[0] == s[0]
    ensures (r != [] && IsSpace(r[|r| - 1])) <==> (s != [] && IsSpace(s[|s| - 1]))
    decreases |s|
  {
    if s == [] then []
    else if IsSpace(s[0]) then [' '] + CollapseSpaces(TrimStart(s))
    else [s[0]] + CollapseSpaces(s[1..])
  }

  /** The cleaning applied to every field match: `re.sub(r'\s+', ' ', m.strip())`. */
  function CleanMatch(m: string): (r: string)
    ensures |r| <= |m|
    ensures r == [] <==> IsBlank(m)
    ensures r == [] || (!IsSpace(r[0]) && !IsSpace(r[|r| - 1]))
    ensures forall i :: 0 <= i < |r| && IsSpace(r[i]) ==> r[i] == ' '
    ensures forall i, j :: 0 <= i < j < |r| && j == i + 1 ==> !(IsSpace(r[i]) && IsSpace(r[j]))
  {
    CollapseSpaces(Strip(m))
  }

  // ---------------------------------------------------------------- split and join

  /** Python's `s.split()` with no argument: the maximal runs of non-whitespace. */
  function Words(s: string): (ws: seq<string>)
    ensures forall k :: 0 <= k < |ws| ==> ws[k] != [] && NoSpace(ws[k])
    ensures ws == [] <==> IsBlank(s)
  {
    if s == [] then []
    else if IsSpace(s[0]) then Words(s[1..])
    else
      var w := FirstWord(s);
      [w] + Words(s[|w|..])
  }

  predicate NoSpace(w: string) {
    forall i :: 0 <= i < |w| ==> !IsSpace(w[i])
  }

  /** The leading run of non-whitespace characters. */
  function FirstWord(s: string): (w: string)
    ensures |w| <= |s| && w == s[..|w|]
    ensures forall i :: 0 <= i < |w| ==> !IsSpace(s[i])
    ensures |w| == |s| || IsSpace(s[|w|])
  {
    if s == [] || IsSpace(s[0]) then [] else [s[0]] + FirstWord(s[1..])
  }

  /** Python's `sep.join(parts)`. */
  function Join(sep: string, parts: seq<string>): (r: string)
    ensures parts == [] ==> r == []
    ensures |parts| == 1 ==> r == parts[0]
  {
    if parts == [] then []
    else if |parts| == 1 then parts[0]
    else parts[0] + sep + Join(sep, parts[1..])
  }

  // ---------------------------------------------------------------- substrings

  predicate OccursAt(s: string, sub: string, i: nat) {
    i + |sub| <= |s| && s[i..i + |sub|] == sub
  }

  /** Python's `sub in s`. */
  predicate Contains(s: string, sub: string) {
    exists i: nat | i <= |s| :: OccursAt(s, sub, i)
  }

  /** Python's `s.find(sub)` when the substring is present. */
  function FirstIndex(s: string, sub: string, from: nat := 0): (r: Option<nat>)
    requires from <= |s|
    ensures r.Some? ==> from <= r.value && OccursAt(s, sub, r.value)
    ensures r.Some? ==> forall j :: from <= j < r.value ==> !OccursAt(s, sub, j)
    ensures r.None? ==> forall j :: from <= j ==> !OccursAt(s, sub, j)
    decreases |s| - from
  {
    if OccursAt(s, sub, from) then Some(from)
    else if from + |sub| >= |s| then None
    else FirstIndex(s, sub, from + 1)
  }

  lemma FirstIndexFindsContained(s: string, sub: string)
    ensures FirstIndex(s, sub).Some? <==> Contains(s, sub)
  {
    if Contains(s, sub) {
      var i: nat :| i <= |s| && OccursAt(s, sub, i);
    }
  }

  /** Python's `s.replace(old, new, 1)`. */
  function ReplaceFirst(s: string, pat: string, rep: string): (r: string)
    ensures FirstIndex(s, pat).None? ==> r == s
    ensures FirstIndex(s, pat).Some? ==>
      var i := FirstIndex(s, pat).value;
      r == s[..i] + rep + s[i + |pat|..]
  {
    match FirstIndex(s, pat)
    case None => s
    case Some(i) => s[..i] + rep + s[i + |pat|..]
  }

  /** Python's `s.replace(a, b)` for single characters. */
  function ReplaceChar(s: string, a: char, b: char): (r: string)
    ensures |r| == |s|
    ensures forall i :: 0 <= i < |s| ==> r[i] == (if s[i] == a then b else s[i])
  {
    seq(|s|, i requires 0 <= i < |s| => if s[i] == a then b else s[i])
  }

  /** Python's `s[:n]`. */
  function Prefix<T>(s: seq<T>, n: nat): (r: seq<T>)
    ensures |r| == if |s| <= n then |s| else n
    ensures r == s[..|r|]
  {
    if |s| <= n then s else s[..n]
  }

  // ---------------------------------------------------------------- numbers

  /** Python's `str(n)` for a natural number: its decimal digits, most significant first. */
  function NatToString(n: nat): (r: string)
    ensures AllDigits(r)
    ensures n < 10 ==> |r| == 1
  {
    var d := ['0', '1', '2', '3', '4', '5', '6', '7', '8', '9'];
    if n < 10 then [d[n]] else NatToString(n / 10) + [d[n % 10]]
  }

  /** Python's `int(x)` on a float: truncation toward zero. */
  function Trunc(x: real): (n: int)
    ensures x >= 0.0 ==> n as real <= x < n as real + 1.0
    ensures x < 0.0 ==> n as real - 1.0 < x <= n as real
  {
    if x >= 0.0 then x.Floor else -((-x).Floor)
  }

  /** `max(lo, min(hi, x))`. */
  function Clamp(x: real, lo: real, hi: real): (r: real)
    requires lo <= hi
    ensures lo <= r <= hi
    ensures lo <= x <= hi ==> r == x
  {
    if x < lo then lo else if x > hi then hi else x
  }

  function Abs(x: real): (r: real)
    ensures r >= 0.0 && (r == x || r == -x)
  {
    if x < 0.0 then -x else x
  }
}
