/**
 * The few JavaScript built-ins that the NDA assembler relies on, stated on
 * `string` = `seq<char>`:
 *  - the white-space class `\s` of regular expressions, which is also the set of
 *    characters `String.prototype.trim` removes;
 *  - `String.prototype.trim`;
 *  - the decimal text of a non-negative integer, as produced by a template
 *    literal `${n}`;
 *  - `s.replace(re, replacement)` with `re` the regular expression
 *    `^\s*\d+\.\s*`: the leading-ordinal rewrite.
 */
module JsText {

  datatype Option<T> = None | Some(value: T)

  /** White space and line terminators of ECMAScript: the class `\s`. */
  predicate IsSpace(c: char) {
    || c == '\t' || c == '\n' || c == '\U{000B}' || c == '\U{000C}' || c == '\r'
    || c == ' ' || c == '\U{00A0}' || c == '\U{1680}'
    || ('\U{2000}' <= c <= '\U{200A}')
    || c == '\U{2028}' || c == '\U{2029}' || c == '\U{202F}' || c == '\U{205F}'
    || c == '\U{3000}' || c == '\U{FEFF}'
  }

  /** The class `\d`. */
  predicate IsDigit(c: char) {
    '0' <= c <= '9'
  }

  predicate AllSpace(s: string) {
    forall i :: 0 <= i < |s| ==> IsSpace(s[i])
  }

  predicate AllDigits(s: string) {
    forall i :: 0 <= i < |s| ==> IsDigit(s[i])
  }

  // ---------------------------------------------------------------------------
  // String.prototype.trim
  // ---------------------------------------------------------------------------

  /** `s` without its leading white space. */
  function TrimStart(s: string): (r: string)
    ensures |r| <= |s| && r == s[|s| - |r|..]
    ensures AllSpace(s[..|s| - |r|])
    ensures r == [] || !IsSpace(r[0])
  {
    if s != [] && IsSpace(s[0]) then TrimStart(s[1..]) else s
  }

  /** `s` without its trailing white space. */
  function TrimEnd(s: string): (r: string)
    ensures |r| <= |s| && r == s[..|r|]
    ensures AllSpace(s[|r|..])
    ensures r == [] || !IsSpace(r[|r| - 1])
  {
    if s != [] && IsSpace(s[|s| - 1]) then TrimEnd(s[..|s| - 1]) else s
  }

  /** `s.trim()`: white space removed from both ends, nothing else. The result
      is never longer than `s` and neither starts nor ends with white space;
      `TrimPadded` below states that it is exactly `s` without the white space
      around it. */
  function Trim(s: string): (r: string)
    ensures |r| <= |s|
    ensures r == [] || (!IsSpace(r[0]) && !IsSpace(r[|r| - 1]))
  {
    var t := TrimStart(s);
    var r := TrimEnd(t);
    assert r != [] ==> r[0] == t[0];
    r
  }

  /** Leading white space in front of a text that does not start with white
      space is exactly what `TrimStart` removes. */
  lemma {:induction false} TrimStartPadded(before: string, t: string)
    requires AllSpace(before)
    requires t == [] || !IsSpace(t[0])
    ensures TrimStart(before + t) == t
  {
    if before != [] {
      assert (before + t)[1..] == before[1..] + t;
      TrimStartPadded(before[1..], t);
    }
  }

  /** Trailing white space after a text that does not end with white space is
      exactly what `TrimEnd` removes. */
  lemma {:induction false} TrimEndPadded(t: string, after: string)
    requires AllSpace(after)
    requires t == [] || !IsSpace(t[|t| - 1])
    ensures TrimEnd(t + after) == t
  {
    if after != [] {
      assert (t + after)[..|t + after| - 1] == t + after[..|after| - 1];
      TrimEndPadded(t, after[..|after| - 1]);
    }
  }

  /** The partner of `Trim`: whatever white space surrounds a text that neither
      starts nor ends with white space, `Trim` gives back exactly that text. */
  lemma TrimPadded(before: string, t: string, after: string)
    requires AllSpace(before) && AllSpace(after)
    requires t != [] && !IsSpace(t[0]) && !IsSpace(t[|t| - 1])
    ensures Trim(before + t + after) == t
  {
    assert before + t + after == before + (t + after);
    TrimStartPadded(before, t + after);
    TrimEndPadded(t, after);
  }

  /** Trimming a concatenation at its end only touches the last part, as long
      as that part holds something other than white space. */
  lemma {:induction false} TrimEndAppend(x: string, y: string)
    requires !AllSpace(y)
    ensures TrimEnd(x + y) == x + TrimEnd(y)
  {
    if IsSpace(y[|y| - 1]) {
      assert (x + y)[..|x + y| - 1] == x + y[..|y| - 1];
      assert !AllSpace(y[..|y| - 1]) by {
        var i :| 0 <= i < |y| && !IsSpace(y[i]);
        assert y[..|y| - 1][i] == y[i];
      }
      TrimEndAppend(x, y[..|y| - 1]);
    }
  }

  /** A white-space character at the end makes no difference to `TrimEnd`. */
  lemma TrimEndDropsSpace(s: string, c: char)
    requires IsSpace(c)
    ensures TrimEnd(s + [c]) == TrimEnd(s)
  {
    assert (s + [c])[..|s|] == s;
  }

  /** A text whose first character is not white space keeps its start. */
  lemma TrimStartKeeps(s: string)
    requires s != [] && !IsSpace(s[0])
    ensures TrimStart(s) == s
  {
  }

  // ---------------------------------------------------------------------------
  // Decimal text of a number, as `${n}` prints it
  // ---------------------------------------------------------------------------

  function DigitChar(d: nat): (c: char)
    requires d < 10
    ensures IsDigit(c)
  {
    ('0' as int + d) as char
  }

  function DigitValue(c: char): (d: nat)
    requires IsDigit(c)
    ensures d < 10
  {
    c as int - '0' as int
  }

  /** The shortest decimal text of `n`: no sign, no leading zero. */
  function Decimal(n: nat): (r: string)
    ensures r != [] && AllDigits(r)
    ensures r[0] == '0' ==> n == 0
    ensures n < 10 <==> |r| == 1
  {
    if n < 10 then [DigitChar(n)] else Decimal(n / 10) + [DigitChar(n % 10)]
  }

  /** Reads a text of decimal digits back as a number. */
  function DigitsValue(s: string): nat
    requires AllDigits(s)
  {
    if s == [] then 0 else DigitsValue(s[..|s| - 1]) * 10 + DigitValue(s[|s| - 1])
  }

  /** `Decimal` is inverted by `DigitsValue`, so distinct numbers get distinct texts. */
  lemma {:induction false} DecimalRoundTrip(n: nat)
    ensures DigitsValue(Decimal(n)) == n
  {
    var r := Decimal(n);
    if n >= 10 {
      DecimalRoundTrip(n / 10);
      assert r[..|r| - 1] == Decimal(n / 10);
    }
  }

  lemma DecimalInjective(m: nat, n: nat)
    requires Decimal(m) == Decimal(n)
    ensures m == n
  {
    DecimalRoundTrip(m);
    DecimalRoundTrip(n);
  }

  // ---------------------------------------------------------------------------
  // The leading-ordinal pattern ^\s*\d+\.\s*
  // ---------------------------------------------------------------------------

  /** End of the longest run of white space that starts at `i`. */
  function SpaceRun(s: string, i: nat): (j: nat)
    requires i <= |s|
    ensures i <= j <= |s|
    ensures AllSpace(s[i..j])
    ensures j == |s| || !IsSpace(s[j])
    decreases |s| - i
  {
    if i < |s| && IsSpace(s[i]) then SpaceRun(s, i + 1) else i
  }

  /** End of the longest run of decimal digits that starts at `i`. */
  function DigitRun(s: string, i: nat): (j: nat)
    requires i <= |s|
    ensures i <= j <= |s|
    ensures AllDigits(s[i..j])
    ensures j == |s| || !IsDigit(s[j])
    decreases |s| - i
  {
    if i < |s| && IsDigit(s[i]) then DigitRun(s, i + 1) else i
  }

  /** The length of the match of `^\s*\d+\.\s*` at the start of `s`, or `None`
      when the pattern does not match. Since white space, digits and `.` are
      disjoint classes, the greedy quantifiers never need to backtrack: the
      match takes all leading white space, all digits after it, the dot and all
      white space after that. */
  function LeadingOrdinal(s: string): (m: Option<nat>)
    ensures m.Some? ==> 2 <= m.value <= |s|
  {
    var a := SpaceRun(s, 0);
    var b := DigitRun(s, a);
    if a < b < |s| && s[b] == '.' then Some(SpaceRun(s, b + 1)) else None
  }

  /** The reference definition of the pattern: `t` is white space, one or more
      digits, a dot and white space. */
  ghost predicate IsOrdinalLabel(t: string) {
    exists a, b ::
      && 0 <= a < b < |t|
      && AllSpace(t[..a]) && AllDigits(t[a..b]) && t[b] == '.' && AllSpace(t[b + 1..])
  }

  /** What `LeadingOrdinal` finds is an ordinal label at the start of `s`. */
  lemma LeadingOrdinalSound(s: string)
    requires LeadingOrdinal(s).Some?
    ensures IsOrdinalLabel(s[..LeadingOrdinal(s).value])
  {
    var t := s[..LeadingOrdinal(s).value];
    var a := SpaceRun(s, 0);
    var b := DigitRun(s, a);
    assert t[..a] == s[0..a];
    assert t[a..b] == s[a..b];
    assert t[b + 1..] == s[b + 1..LeadingOrdinal(s).value];
  }

  /** A run of white space from `i` to `j` lies inside the longest one. */
  lemma {:induction false} SpaceRunAtLeast(s: string, i: nat, j: nat)
    requires i <= j <= |s|
    requires forall x :: i <= x < j ==> IsSpace(s[x])
    ensures j <= SpaceRun(s, i)
    decreases j - i
  {
    if i < j {
      SpaceRunAtLeast(s, i + 1, j);
    }
  }

  /** The longest run of white space stops before any other character. */
  lemma {:induction false} SpaceRunAtMost(s: string, i: nat, j: nat)
    requires i <= j < |s| && !IsSpace(s[j])
    ensures SpaceRun(s, i) <= j
    decreases j - i
  {
    if i < j && IsSpace(s[i]) {
      SpaceRunAtMost(s, i + 1, j);
    }
  }

  /** A run of digits from `i` to `j` lies inside the longest one. */
  lemma {:induction false} DigitRunAtLeast(s: string, i: nat, j: nat)
    requires i <= j <= |s|
    requires forall x :: i <= x < j ==> IsDigit(s[x])
    ensures j <= DigitRun(s, i)
    decreases j - i
  {
    if i < j {
      DigitRunAtLeast(s, i + 1, j);
    }
  }

  /** The longest run of digits stops before any other character. */
  lemma {:induction false} DigitRunAtMost(s: string, i: nat, j: nat)
    requires i <= j < |s| && !IsDigit(s[j])
    ensures DigitRun(s, i) <= j
    decreases j - i
  {
    if i < j && IsDigit(s[i]) {
      DigitRunAtMost(s, i + 1, j);
    }
  }

  /** White space up to `a`, digits from `a` to `b`, a dot at `b` and white
      space up to `k` are matched by the pattern, to `k` or further. */
  lemma OrdinalMatchedAt(s: string, a: nat, b: nat, k: nat)
    requires a < b < k <= |s| && s[b] == '.'
    requires forall i :: 0 <= i < a ==> IsSpace(s[i])
    requires forall i :: a <= i < b ==> IsDigit(s[i])
    requires forall i :: b < i < k ==> IsSpace(s[i])
    ensures LeadingOrdinal(s) == Some(SpaceRun(s, b + 1)) && k <= SpaceRun(s, b + 1)
  {
    // the white space before the digits is the leading run of white space
    SpaceRunAtLeast(s, 0, a);
    SpaceRunAtMost(s, 0, a);
    // the digits end at the dot
    DigitRunAtLeast(s, a, b);
    DigitRunAtMost(s, a, b);
    // the trailing white space run reaches at least to k
    SpaceRunAtLeast(s, b + 1, k);
  }

  /** Every ordinal label at the start of `s` is found, and none is longer than
      the match: `LeadingOrdinal` is `None` exactly when no prefix of `s` is an
      ordinal label, and otherwise it is the longest such prefix. */
  lemma LeadingOrdinalLongest(s: string, k: nat)
    requires k <= |s| && IsOrdinalLabel(s[..k])
    ensures LeadingOrdinal(s).Some? && k <= LeadingOrdinal(s).value
  {
    var t := s[..k];
    var a, b :| 0 <= a < b < |t| && AllSpace(t[..a]) && AllDigits(t[a..b]) && t[b] == '.'
                && AllSpace(t[b + 1..]);
    forall i | 0 <= i < a ensures IsSpace(s[i]) { assert t[..a][i] == s[i]; }
    forall i | a <= i < b ensures IsDigit(s[i]) { assert t[a..b][i - a] == s[i]; }
    forall i | b < i < k ensures IsSpace(s[i]) { assert t[b + 1..][i - b - 1] == s[i]; }
    OrdinalMatchedAt(s, a, b, k);
  }

  /** `s.replace(re, replacement)` with `re` the regular expression
      `^\s*\d+\.\s*`: the matched prefix, if any, is
      replaced by `replacement`; otherwise `s` is returned as it is. Either way
      the result is `s` itself, or `replacement` followed by what is left of `s`
      once a prefix of at least two characters (a digit and the dot) is cut. */
  function ReplaceLeadingOrdinal(s: string, replacement: string): (r: string)
    ensures r == s || (replacement <= r && |r| - |replacement| <= |s| - 2
                       && r[|replacement|..] == s[|s| - (|r| - |replacement|)..])
  {
    match LeadingOrdinal(s)
    case Some(m) => replacement + s[m..]
    case None => s
  }

  /** The rewrite removes the label and keeps every later character. For a text
      made of a new line, one digit, a dot, two spaces and a body that does not
      start with white space (the shape the clause library stores), the label
      is exactly those five characters and the body is kept byte for byte. */
  lemma ReplaceStoredPrefix(prefix: string, body: string, replacement: string)
    requires |prefix| == 5 && prefix[0] == '\n' && IsDigit(prefix[1]) && prefix[2] == '.'
    requires prefix[3] == ' ' && prefix[4] == ' '
    requires body != [] && !IsSpace(body[0])
    ensures LeadingOrdinal(prefix + body) == Some(5)
    ensures ReplaceLeadingOrdinal(prefix + body, replacement) == replacement + body
  {
    var s := prefix + body;
    assert s[0] == '\n' && s[1] == prefix[1] && s[2] == '.' && s[3] == ' ' && s[4] == ' ' && s[5] == body[0];
    assert SpaceRun(s, 0) == 1 by {
      assert SpaceRun(s, 1) == 1;
    }
    assert DigitRun(s, 1) == 2 by {
      assert DigitRun(s, 2) == 2;
    }
    assert SpaceRun(s, 3) == 5 by {
      assert SpaceRun(s, 5) == 5;
      assert SpaceRun(s, 4) == 5;
    }
    assert s[5..] == body;
  }
}
