/** The five regular expressions of the log interpreter, with JavaScript's matching
    semantics (no flags). Four of them are searched through `Match` below; the reload
    pattern, whose only question is whether it matches, is decided by the scan at the
    end of the module.

    A backtracking match of these patterns is fixed by two numbers: where the match
    starts, and where its first greedy part ends. Everything after that part is
    forced: an alternation whose branches start with different letters, a greedy run
    of a class that must be followed by a character outside the class, and a final
    `(.*)` that runs to the next line terminator. `Feasible` says when a pair of
    numbers gives a match; `Match` picks the pair that JavaScript reports: the
    smallest start, and for it the largest end of the first greedy part. */
module Patterns {
  import opened Wrappers
  import opened JsText

  datatype Pattern =
    | LogLine      // /\b[0-9a-f]{16}\s(.*)\s(?:development|production)\s([a-z.]+)\s(.*)/
    | ErrorLine    // /\b[0-9a-f]{16}\s(.*)\s(?:development|production)\s([a-z.]+)\sERROR:(.*)/
    | SourceRef    // /.*((?:device_code|agent_code)):(\d+)/
    | ColonDigits  // /(.*):(\d+)/

  /** Where a match starts, and where its first greedy part ends: group 1 of LogLine and
      ErrorLine, the leading `.*` of SourceRef and ColonDigits. */
  datatype Split = Split(start: nat, end: nat)

  datatype CharClass = CategoryChars | Digits

  predicate InClass(cls: CharClass, c: char) {
    match cls
    case CategoryChars => IsCategoryChar(c)
    case Digits => IsDigit(c)
  }

  /** The end of the longest run of `cls` characters starting at `i`. */
  function RunEnd(s: string, i: nat, cls: CharClass): (r: nat)
    requires i <= |s|
    ensures i <= r <= |s|
    ensures forall k :: i <= k < r ==> InClass(cls, s[k])
    ensures r < |s| ==> !InClass(cls, s[r])
    decreases |s| - i
  {
    if i < |s| && InClass(cls, s[i]) then RunEnd(s, i + 1, cls) else i
  }

  /** Length of `development` or `production` at `i` (the alternation tries
      `development` first); 0 when neither is there. */
  function KeywordLen(s: string, i: nat): nat {
    if OccursAt(s, "development", i) then 11
    else if OccursAt(s, "production", i) then 10
    else 0
  }

  /** Length of `device_code` or `agent_code` at `i`; 0 when neither is there. */
  function KindLen(s: string, i: nat): nat {
    if OccursAt(s, "device_code", i) then 11
    else if OccursAt(s, "agent_code", i) then 10
    else 0
  }

  /** `\b[0-9a-f]{16}\s` at `p`. */
  predicate HeaderAt(s: string, p: nat) {
    p + 17 <= |s| && WordBoundary(s, p)
    && (forall k :: p <= k < p + 16 ==> IsLowerHex(s[k]))
    && IsSpace(s[p + 16])
  }

  /** Where the category token starts when group 1 ends at `e`. */
  function CategoryStart(s: string, e: nat): nat {
    e + 2 + KeywordLen(s, e + 1)
  }

  predicate TailShaped(s: string, e: nat) {
    e < |s| && CategoryStart(s, e) <= |s|
  }

  /** Where the greedy category `[a-z.]+` ends. */
  function CategoryEnd(s: string, e: nat): (c: nat)
    requires TailShaped(s, e)
    ensures CategoryStart(s, e) <= c <= |s|
  {
    RunEnd(s, CategoryStart(s, e), CategoryChars)
  }

  /** `\s(?:development|production)\s([a-z.]+)\s` followed by `marker`, once group 1
      has ended at `e`. The category must be followed by `\s`, which is not in
      `[a-z.]`, so its only possible end is the end of the longest run
      (lemma CategoryEndForced). */
  predicate TailAt(s: string, e: nat, marker: string) {
    TailShaped(s, e) && IsSpace(s[e]) && KeywordLen(s, e + 1) > 0
    && IsSpace(s[CategoryStart(s, e) - 1])
    && CategoryStart(s, e) < CategoryEnd(s, e) < |s|
    && IsSpace(s[CategoryEnd(s, e)])
    && OccursAt(s, marker, CategoryEnd(s, e) + 1)
  }

  /** `(device_code|agent_code):\d` at `a`. */
  predicate RefAt(s: string, a: nat) {
    KindLen(s, a) > 0 && a + KindLen(s, a) + 1 < |s|
    && s[a + KindLen(s, a)] == ':' && IsDigit(s[a + KindLen(s, a) + 1])
  }

  /** `:\d` at `a`. */
  predicate ColonDigitAt(s: string, a: nat) {
    a + 1 < |s| && s[a] == ':' && IsDigit(s[a + 1])
  }

  /** The pattern `g` matches `s` starting at `p`, with its first greedy part ending at `a`. */
  predicate Feasible(g: Pattern, s: string, p: nat, a: nat) {
    p <= a <= |s|
    && match g
       case LogLine =>
         HeaderAt(s, p) && p + 17 <= a && NoLineTerminator(s[p + 17..a]) && TailAt(s, a, "")
       case ErrorLine =>
         HeaderAt(s, p) && p + 17 <= a && NoLineTerminator(s[p + 17..a]) && TailAt(s, a, "ERROR:")
       case SourceRef =>
         NoLineTerminator(s[p..a]) && RefAt(s, a)
       case ColonDigits =>
         NoLineTerminator(s[p..a]) && ColonDigitAt(s, a)
  }

  /** The split JavaScript reports: it is feasible, no earlier start is, and no later
      end of the first greedy part is for this start. */
  ghost predicate IsMatch(g: Pattern, s: string, m: Split) {
    Feasible(g, s, m.start, m.end)
    && (forall q: nat, a: nat :: q < m.start ==> !Feasible(g, s, q, a))
    && (forall a: nat :: m.end < a ==> !Feasible(g, s, m.start, a))
  }

  /** The largest `a` in `[p, hi]` with `Feasible(g, s, p, a)`: greedy backtracking
      tries the longest first part first. */
  function GreedyEnd(g: Pattern, s: string, p: nat, hi: int): (r: Option<nat>)
    ensures r.Some? ==> p <= r.value <= hi && Feasible(g, s, p, r.value)
    ensures r.Some? ==> forall a: nat :: r.value < a <= hi ==> !Feasible(g, s, p, a)
    ensures r.None? ==> forall a: nat :: p <= a <= hi ==> !Feasible(g, s, p, a)
    decreases hi - p
  {
    if hi < p then None
    else if Feasible(g, s, p, hi) then Some(hi)
    else GreedyEnd(g, s, p, hi - 1)
  }

  /** The first start at or after `p` from which the pattern matches. */
  function LeftmostFrom(g: Pattern, s: string, p: nat): (r: Option<Split>)
    ensures r.Some? ==> p <= r.value.start && Feasible(g, s, r.value.start, r.value.end)
    ensures r.Some? ==> forall q: nat, a: nat :: p <= q < r.value.start ==> !Feasible(g, s, q, a)
    ensures r.Some? ==> forall a: nat :: r.value.end < a ==> !Feasible(g, s, r.value.start, a)
    ensures r.None? ==> forall q: nat, a: nat :: p <= q ==> !Feasible(g, s, q, a)
    decreases |s| + 1 - p
  {
    if p > |s| then None
    else match GreedyEnd(g, s, p, |s|)
      case Some(a) => Some(Split(p, a))
      case None => LeftmostFrom(g, s, p + 1)
  }

  /** `s.match(g)`: the reported split, or `null` (None) when no split is feasible. */
  function Match(g: Pattern, s: string): (r: Option<Split>)
    ensures r.Some? ==> IsMatch(g, s, r.value)
    ensures r.None? <==> forall q: nat, a: nat :: !Feasible(g, s, q, a)
  {
    LeftmostFrom(g, s, 0)
  }

  /** Group 2 of LogLine and ErrorLine: the category token. */
  function Category(s: string, e: nat): string
    requires TailShaped(s, e)
  {
    s[CategoryStart(s, e)..CategoryEnd(s, e)]
  }

  /** Group 3 of LogLine: the message body, up to the end of the line. */
  function Body(s: string, e: nat): string
    requires TailAt(s, e, "")
  {
    s[CategoryEnd(s, e) + 1..LineEnd(s, CategoryEnd(s, e) + 1)]
  }

  /** Group 3 of ErrorLine: the text after `ERROR:`, up to the end of the line. */
  function ErrorText(s: string, e: nat): string
    requires TailAt(s, e, "ERROR:")
  {
    s[CategoryEnd(s, e) + 7..LineEnd(s, CategoryEnd(s, e) + 7)]
  }

  /** Group 1 of SourceRef: `agent_code` or `device_code`. */
  function RefKind(s: string, a: nat): string
    requires RefAt(s, a)
  {
    s[a..a + KindLen(s, a)]
  }

  /** Group 2 of SourceRef: the greedy `\d+` after the colon. */
  function RefDigits(s: string, a: nat): (d: string)
    requires RefAt(s, a)
    ensures |d| >= 1 && AllDigits(d)
  {
    var i := a + KindLen(s, a) + 1;
    s[i..RunEnd(s, i, Digits)]
  }

  /** Group 2 of ColonDigits: the greedy `\d+` after the colon. */
  function LineDigits(s: string, a: nat): (d: string)
    requires ColonDigitAt(s, a)
    ensures |d| >= 1 && AllDigits(d)
  {
    s[a + 1..RunEnd(s, a + 1, Digits)]
  }

  /** Why `CategoryEnd` is the right end: any `[a-z.]+` run from `q` that is followed
      by `\s` ends where the longest run ends. */
  lemma CategoryEndForced(s: string, q: nat, c: nat)
    requires q < c < |s| && IsSpace(s[c])
    requires forall k :: q <= k < c ==> IsCategoryChar(s[k])
    ensures c == RunEnd(s, q, CategoryChars)
  {
  }

  /** The category of a matched line is a non-empty run of `[a-z.]`; in particular it is
      never `IDE.log`, whose upper-case letters the class excludes. */
  lemma CategoryIsLowerRun(g: Pattern, s: string, p: nat, e: nat)
    requires g == LogLine || g == ErrorLine
    requires Feasible(g, s, p, e)
    ensures |Category(s, e)| >= 1
    ensures forall k :: 0 <= k < |Category(s, e)| ==> IsCategoryChar(Category(s, e)[k])
    ensures Category(s, e) != "IDE.log"
  {
    var cat := Category(s, e);
    forall k | 0 <= k < |cat| ensures IsCategoryChar(cat[k]) {
      assert cat[k] == s[CategoryStart(s, e) + k];
      assert InClass(CategoryChars, s[CategoryStart(s, e) + k]);
    }
  }

  /** On a single line, SourceRef finds the LAST `kind:digits` reference: its match starts
      at 0 and the first greedy `.*` stops at the last position where a reference begins. */
  lemma SourceRefIsLast(s: string)
    requires NoLineTerminator(s)
    ensures Match(SourceRef, s).None? <==> forall a: nat :: !RefAt(s, a)
    ensures Match(SourceRef, s).Some? ==>
      var m := Match(SourceRef, s).value;
      m.start == 0 && RefAt(s, m.end) && forall a: nat :: m.end < a ==> !RefAt(s, a)
  {
    forall a: nat | RefAt(s, a) ensures Feasible(SourceRef, s, 0, a) {
      assert NoLineTerminator(s[0..a]) by {
        forall k | 0 <= k < a ensures !IsLineTerminator(s[0..a][k]) { assert s[0..a][k] == s[k]; }
      }
    }
  }

  /** The split SourceRef reports on a line whose last reference starts at `a`. */
  lemma SourceRefAt(s: string, a: nat)
    requires NoLineTerminator(s)
    requires RefAt(s, a) && forall b: nat :: a < b ==> !RefAt(s, b)
    ensures Match(SourceRef, s) == Some(Split(0, a))
  {
    SourceRefIsLast(s);
  }

  /** On a single line, ColonDigits stops at the LAST `:` that is followed by a digit. */
  lemma ColonDigitsIsLast(s: string)
    requires NoLineTerminator(s)
    ensures Match(ColonDigits, s).None? <==> forall a: nat :: !ColonDigitAt(s, a)
    ensures Match(ColonDigits, s).Some? ==>
      var m := Match(ColonDigits, s).value;
      m.start == 0 && ColonDigitAt(s, m.end) && forall a: nat :: m.end < a ==> !ColonDigitAt(s, a)
  {
    forall a: nat | ColonDigitAt(s, a) ensures Feasible(ColonDigits, s, 0, a) {
      assert NoLineTerminator(s[0..a]) by {
        forall k | 0 <= k < a ensures !IsLineTerminator(s[0..a][k]) { assert s[0..a][k] == s[k]; }
      }
    }
  }

  /** No reference starts where neither kind keyword can start. */
  lemma NoRefAt(s: string, b: nat)
    requires b + 10 <= |s| ==> s[b] != 'a'
    requires b + 11 <= |s| ==> s[b] != 'd'
    ensures !RefAt(s, b)
  {
    assert !OccursAt(s, "agent_code", b) by {
      if b + 10 <= |s| { assert s[b..b + 10][0] == s[b]; }
    }
    assert !OccursAt(s, "device_code", b) by {
      if b + 11 <= |s| { assert s[b..b + 11][0] == s[b]; }
    }
  }

  /** The texts the line grammars capture never span a line terminator. */
  lemma CapturesAreSingleLine(s: string, e: nat)
    ensures TailAt(s, e, "") ==> NoLineTerminator(Body(s, e))
    ensures TailAt(s, e, "ERROR:") ==> NoLineTerminator(ErrorText(s, e))
  {
  }
  const Downloading := "Downloading new code"
  const StorageUsed := "program storage used"

  /** `/.*(Downloading new code).*(program storage used)/` can match with its first group at
      `a` and its second at `b`: both `.*` parts stay on one line. (Starting the match at
      `a` is always possible, so the start is not a parameter.) */
  ghost predicate ReloadAt(s: string, a: nat, b: nat) {
    OccursAt(s, Downloading, a) && a + |Downloading| <= b && OccursAt(s, StorageUsed, b)
    && NoLineTerminator(s[a..b])
  }

  /** An occurrence of `Downloading new code` ends at or before `i`, on the same line as `i`. */
  ghost predicate ArmedAt(s: string, i: nat) {
    i <= |s| && exists a: nat :: a + |Downloading| <= i && OccursAt(s, Downloading, a) && NoLineTerminator(s[a..i])
  }

  lemma ArmedStep(s: string, i: nat)
    requires i < |s|
    ensures ArmedAt(s, i + 1) <==>
      (ArmedAt(s, i) && !IsLineTerminator(s[i]))
      || (i + 1 >= |Downloading| && OccursAt(s, Downloading, i + 1 - |Downloading|))
  {
    if ArmedAt(s, i) && !IsLineTerminator(s[i]) {
      var a: nat :| a + |Downloading| <= i && OccursAt(s, Downloading, a) && NoLineTerminator(s[a..i]);
      assert s[a..i + 1] == s[a..i] + [s[i]];
    }
    if i + 1 >= |Downloading| && OccursAt(s, Downloading, i + 1 - |Downloading|) {
      var a := i + 1 - |Downloading|;
      assert s[a..i + 1] == Downloading;
      assert NoLineTerminator(Downloading);
    }
    if ArmedAt(s, i + 1) {
      var a: nat :| a + |Downloading| <= i + 1 && OccursAt(s, Downloading, a) && NoLineTerminator(s[a..i + 1]);
      if a + |Downloading| <= i {
        assert s[a..i] == s[a..i + 1][..i - a];
        assert s[i] == s[a..i + 1][i - a];
      }
    }
  }

  lemma ArmedWitnesses(s: string)
    ensures (exists b: nat :: ArmedAt(s, b) && OccursAt(s, StorageUsed, b))
       <==> (exists a: nat, b: nat :: ReloadAt(s, a, b))
  {
    if exists b: nat :: ArmedAt(s, b) && OccursAt(s, StorageUsed, b) {
      var b: nat :| ArmedAt(s, b) && OccursAt(s, StorageUsed, b);
      var a: nat :| a + |Downloading| <= b && OccursAt(s, Downloading, a) && NoLineTerminator(s[a..b]);
      assert ReloadAt(s, a, b);
    }
    if exists a: nat, b: nat :: ReloadAt(s, a, b) {
      var a: nat, b: nat :| ReloadAt(s, a, b);
      assert ArmedAt(s, b);
    }
  }

  /** Scans from `i` for `program storage used` at a position where an earlier
      `Downloading new code` on the same line has ended; `armed` carries that state. */
  function ReloadFrom(s: string, i: nat, armed: bool): (r: bool)
    requires i <= |s|
    requires armed == ArmedAt(s, i)
    ensures r <==> exists b: nat :: i <= b && ArmedAt(s, b) && OccursAt(s, StorageUsed, b)
    decreases |s| - i
  {
    if armed && OccursAt(s, StorageUsed, i) then true
    else if i == |s| then false
    else
      ArmedStep(s, i);
      var r := ReloadFrom(s, i + 1, (armed && !IsLineTerminator(s[i]))
                                    || (i + 1 >= |Downloading| && OccursAt(s, Downloading, i + 1 - |Downloading|)));
      assert r ==> exists b: nat :: i <= b && ArmedAt(s, b) && OccursAt(s, StorageUsed, b);
      r
  }

  /** The reload test of `logMsg`: `Downloading new code` and, later on the same line,
      `program storage used`. */
  function ReloadMatches(s: string): (r: bool)
    ensures r <==> exists a: nat, b: nat :: ReloadAt(s, a, b)
  {
    assert !ArmedAt(s, 0);
    var r := ReloadFrom(s, 0, false);
    ArmedWitnesses(s);
    r
  }
}
