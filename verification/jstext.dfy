/** The JavaScript string primitives the log interpreter relies on: the character
    classes of regular expressions without flags, `indexOf`, `replace` with a string
    pattern, `parseInt(d, 10)` on a digit string, and number-to-string conversion. */
module JsText {
  import opened Wrappers

  /** A JavaScript line terminator: what the regex `.` does not match. */
  predicate IsLineTerminator(c: char) {
    c == '\n' || c == '\r' || c == '\U{2028}' || c == '\U{2029}'
  }

  /** The regex class `\s`: white space and line terminators. */
  predicate IsSpace(c: char) {
    c == '\t' || c == '\U{B}' || c == '\U{C}' || c == ' ' || c == '\U{A0}' || c == '\U{FEFF}'
    || c == '\U{1680}' || ('\U{2000}' <= c <= '\U{200A}') || c == '\U{202F}' || c == '\U{205F}'
    || c == '\U{3000}' || IsLineTerminator(c)
  }

  /** The regex class `\w`, which decides where `\b` holds. */
  predicate IsWordChar(c: char) {
    ('a' <= c <= 'z') || ('A' <= c <= 'Z') || ('0' <= c <= '9') || c == '_'
  }

  /** The regex class `[0-9a-f]`. */
  predicate IsLowerHex(c: char) {
    ('0' <= c <= '9') || ('a' <= c <= 'f')
  }

  /** The regex class `\d`. */
  predicate IsDigit(c: char) {
    '0' <= c <= '9'
  }

  /** The regex class `[a-z.]`. */
  predicate IsCategoryChar(c: char) {
    ('a' <= c <= 'z') || c == '.'
  }

  /** `\b` at position `i`: exactly one of the characters around `i` is a word character. */
  predicate WordBoundary(s: string, i: nat) {
    (0 < i <= |s| && IsWordChar(s[i - 1])) != (i < |s| && IsWordChar(s[i]))
  }

  predicate NoLineTerminator(t: string) {
    forall i :: 0 <= i < |t| ==> !IsLineTerminator(t[i])
  }

  predicate AllDigits(t: string) {
    forall i :: 0 <= i < |t| ==> IsDigit(t[i])
  }

  /** `pat` occurs in `s` starting at index `i`. */
  predicate OccursAt(s: string, pat: string, i: int) {
    0 <= i && i + |pat| <= |s| && s[i..i + |pat|] == pat
  }

  /** `s.indexOf(pat, i)`: the first occurrence at or after `i`, if any. */
  function IndexOfFrom(s: string, pat: string, i: nat): (r: Option<nat>)
    ensures r.Some? ==> i <= r.value && OccursAt(s, pat, r.value)
    ensures r.Some? ==> forall j :: i <= j < r.value ==> !OccursAt(s, pat, j)
    ensures r.None? ==> forall j :: i <= j ==> !OccursAt(s, pat, j)
    decreases |s| - i
  {
    if i + |pat| > |s| then None
    else if s[i..i + |pat|] == pat then Some(i)
    else IndexOfFrom(s, pat, i + 1)
  }

  /** `s.indexOf(pat)`; `s.indexOf(pat) > -1` is `IndexOf(s, pat).Some?`. */
  function IndexOf(s: string, pat: string): (r: Option<nat>)
    ensures r.Some? ==> OccursAt(s, pat, r.value) && forall j :: 0 <= j < r.value ==> !OccursAt(s, pat, j)
    ensures r.None? <==> forall j :: !OccursAt(s, pat, j)
  {
    IndexOfFrom(s, pat, 0)
  }

  /** GetSubstitution for a string pattern (no capture groups): `$$`, `$&`, `` $` `` and `$'`
      are expanded, every other `$` stays literal. */
  function Substitution(repl: string, matched: string, before: string, after: string): string
    decreases |repl|
  {
    if |repl| == 0 then ""
    else if repl[0] == '$' && |repl| >= 2 && repl[1] == '$' then
      "$" + Substitution(repl[2..], matched, before, after)
    else if repl[0] == '$' && |repl| >= 2 && repl[1] == '&' then
      matched + Substitution(repl[2..], matched, before, after)
    else if repl[0] == '$' && |repl| >= 2 && repl[1] == '`' then
      before + Substitution(repl[2..], matched, before, after)
    else if repl[0] == '$' && |repl| >= 2 && repl[1] == '\'' then
      after + Substitution(repl[2..], matched, before, after)
    else
      [repl[0]] + Substitution(repl[1..], matched, before, after)
  }

  /** A replacement without `$` is inserted literally. */
  lemma {:induction false} SubstitutionLiteral(repl: string, matched: string, before: string, after: string)
    requires '$' !in repl
    ensures Substitution(repl, matched, before, after) == repl
    decreases |repl|
  {
    if |repl| > 0 {
      assert repl[0] != '$';
      assert '$' !in repl[1..] by {
        forall k | 0 <= k < |repl| - 1 ensures repl[1..][k] != '$' { assert repl[1..][k] == repl[k + 1]; }
      }
      SubstitutionLiteral(repl[1..], matched, before, after);
      assert repl == [repl[0]] + repl[1..];
    }
  }

  /** `s.replace(pat, repl)` with a string `pat`: only the first occurrence is replaced. */
  function ReplaceFirst(s: string, pat: string, repl: string): (r: string)
    ensures IndexOf(s, pat).None? ==> r == s
    ensures IndexOf(s, pat).Some? ==>
      var i := IndexOf(s, pat).value;
      var rest := s[i + |pat|..];
      |r| >= i + |rest| && r[..i] == s[..i] && r[|r| - |rest|..] == rest
  {
    match IndexOf(s, pat)
    case None => s
    case Some(i) => s[..i] + Substitution(repl, pat, s[..i], s[i + |pat|..]) + s[i + |pat|..]
  }

  /** What `replace` means when `repl` has no `$`: the first occurrence of `pat`, and
      only that one, is swapped for `repl`; without an occurrence `s` is unchanged. */
  lemma ReplaceFirstSpec(s: string, pat: string, repl: string, i: nat)
    requires '$' !in repl
    requires OccursAt(s, pat, i) && forall j :: 0 <= j < i ==> !OccursAt(s, pat, j)
    ensures ReplaceFirst(s, pat, repl) == s[..i] + repl + s[i + |pat|..]
  {
    var r := IndexOf(s, pat);
    assert r.Some? && r.value == i;
    SubstitutionLiteral(repl, pat, s[..i], s[i + |pat|..]);
  }

  lemma ReplaceFirstAbsent(s: string, pat: string, repl: string)
    requires forall j :: !OccursAt(s, pat, j)
    ensures ReplaceFirst(s, pat, repl) == s
  {
  }

  function DigitValue(c: char): (v: nat)
    requires IsDigit(c)
    ensures v < 10
  {
    c as int - '0' as int
  }

  function DigitChar(v: nat): (c: char)
    requires v < 10
    ensures IsDigit(c) && DigitValue(c) == v
  {
    ('0' as int + v) as char
  }

  function Pow10(k: nat): (p: nat)
    ensures p >= 1
  {
    if k == 0 then 1 else 10 * Pow10(k - 1)
  }

  /** `parseInt(d, 10)` on a non-empty string of decimal digits. */
  function ParseDecimal(d: string): (n: nat)
    requires AllDigits(d)
    ensures n < Pow10(|d|)
    ensures |d| > 0 && d[0] != '0' ==> Pow10(|d| - 1) <= n
    decreases |d|
  {
    if |d| == 0 then 0
    else ParseDecimal(d[..|d| - 1]) * 10 + DigitValue(d[|d| - 1])
  }

  /** The decimal text of a natural number, as a template literal renders it. */
  function NatToDecimal(n: nat): (r: string)
    ensures |r| >= 1 && AllDigits(r)
    decreases n
  {
    if n < 10 then [DigitChar(n)] else NatToDecimal(n / 10) + [DigitChar(n % 10)]
  }

  /** The decimal text of an integer, with a leading `-` when negative. */
  function IntToDecimal(n: int): string {
    if n < 0 then "-" + NatToDecimal(-n) else NatToDecimal(n)
  }

  /** Reading back the decimal text of a number gives the number. */
  lemma {:induction false} DecimalRoundTrip(n: nat)
    ensures ParseDecimal(NatToDecimal(n)) == n
    decreases n
  {
    var d := NatToDecimal(n);
    if n >= 10 {
      DecimalRoundTrip(n / 10);
      assert d[..|d| - 1] == NatToDecimal(n / 10);
      assert d[|d| - 1] == DigitChar(n % 10);
    }
  }

  /** The first line terminator at or after `i`, or the end of `s`: where a greedy `(.*)`
      starting at `i` stops. */
  function LineEnd(s: string, i: nat): (r: nat)
    requires i <= |s|
    ensures i <= r <= |s| && NoLineTerminator(s[i..r])
    ensures r < |s| ==> IsLineTerminator(s[r])
    decreases |s| - i
  {
    if i == |s| || IsLineTerminator(s[i]) then i
    else
      var r := LineEnd(s, i + 1);
      assert s[i..r] == [s[i]] + s[i + 1..r];
      r
  }
}
