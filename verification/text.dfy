/** The handful of Python string operations the metrics rely on:
    `str.strip()`, `str.replace` of one character, `str.title()` and the decimal
    rendering of a natural number used inside f-strings. */
module Text {

  // ---------------------------------------------------------------------------
  // Whitespace and str.strip()
  // ---------------------------------------------------------------------------

  /** Python's `str.isspace()` for one character: the ASCII controls TAB..CR,
      the four information separators, SPACE, NEL, NBSP and the Unicode space
      separators, line and paragraph separators. */
  predicate IsSpace(c: char) {
    || ('\t' <= c <= '\r')
    || ('\U{1C}' <= c <= '\U{1F}')
    || c == ' '
    || c == '\U{85}'
    || c == '\U{A0}'
    || c == '\U{1680}'
    || ('\U{2000}' <= c <= '\U{200A}')
    || c == '\U{2028}'
    || c == '\U{2029}'
    || c == '\U{202F}'
    || c == '\U{205F}'
    || c == '\U{3000}'
  }

  predicate AllSpace(s: string) {
    forall i :: 0 <= i < |s| ==> IsSpace(s[i])
  }

  /** A string that `strip()` leaves alone: empty, or neither end is whitespace. */
  predicate Trimmed(s: string) {
    s == [] || (!IsSpace(s[0]) && !IsSpace(s[|s| - 1]))
  }

  /** Drops leading whitespace; the result is the suffix that starts at the
      first non-space character. */
  function TrimLeft(s: string): (r: string)
    ensures |r| <= |s| && r == s[|s| - |r|..]
    ensures AllSpace(s[..|s| - |r|])
    ensures r == [] || !IsSpace(r[0])
    decreases |s|
  {
    if s == [] then []
    else if IsSpace(s[0]) then TrimLeft(s[1..])
    else s
  }

  /** Drops trailing whitespace; the result is the prefix that ends at the
      last non-space character. */
  function TrimRight(s: string): (r: string)
    ensures |r| <= |s| && r == s[..|r|]
    ensures AllSpace(s[|r|..])
    ensures r == [] || !IsSpace(r[|r| - 1])
    decreases |s|
  {
    if s == [] then []
    else if IsSpace(s[|s| - 1]) then TrimRight(s[..|s| - 1])
    else s
  }

  /** Python's `str.strip()` with no argument: the result has no whitespace
      at either end. */
  function Strip(s: string): (r: string)
    ensures Trimmed(r) && |r| <= |s|
  {
    var t := TrimLeft(s);
    var r := TrimRight(t);
    assert r != [] ==> r[0] == t[0];
    r
  }

  /** `strip()` removes whitespace only: `s` is its result padded on both
      sides by whitespace. */
  lemma StripRemovesOnlySpace(s: string) returns (a: string, b: string)
    ensures s == a + Strip(s) + b && AllSpace(a) && AllSpace(b)
  {
    var t := TrimLeft(s);
    var r := TrimRight(t);
    a, b := s[..|s| - |t|], t[|r|..];
    SplitAt(s, |s| - |t|);
    SplitAt(t, |r|);
    Regroup(a, r, b);
  }

  lemma SplitAt<T>(s: seq<T>, k: nat)
    requires k <= |s|
    ensures s == s[..k] + s[k..]
  {
  }

  lemma Regroup<T>(x: seq<T>, y: seq<T>, z: seq<T>)
    ensures x + (y + z) == x + y + z
  {
  }

  lemma {:induction false} TrimLeftOfPadded(a: string, u: string)
    requires AllSpace(a)
    requires u == [] || !IsSpace(u[0])
    ensures TrimLeft(a + u) == u
    decreases |a|
  {
    if a == [] {
      assert a + u == u;
    } else {
      assert (a + u)[1..] == a[1..] + u;
      TrimLeftOfPadded(a[1..], u);
    }
  }

  lemma {:induction false} TrimRightOfPadded(u: string, b: string)
    requires AllSpace(b)
    requires u == [] || !IsSpace(u[|u| - 1])
    ensures TrimRight(u + b) == u
    decreases |b|
  {
    if b == [] {
      assert u + b == u;
    } else {
      assert (u + b)[..|u + b| - 1] == u + b[..|b| - 1];
      TrimRightOfPadded(u, b[..|b| - 1]);
    }
  }

  /** Converse of `StripRemovesOnlySpace`: whitespace padding around a trimmed string
      is exactly what `strip()` removes. */
  lemma {:induction false} StripOfPadded(a: string, t: string, b: string)
    requires AllSpace(a) && AllSpace(b) && Trimmed(t)
    ensures Strip(a + t + b) == t
  {
    if t == [] {
      assert a + t + b == a + b;
      assert AllSpace(a + b);
      TrimLeftOfPadded(a + b, []);
      assert a + b + [] == a + b;
    } else {
      assert a + t + b == a + (t + b);
      TrimLeftOfPadded(a, t + b);
      TrimRightOfPadded(t, b);
    }
  }

  // ---------------------------------------------------------------------------
  // str.replace(old, new) with single-character arguments
  // ---------------------------------------------------------------------------

  /** Every occurrence of `from` becomes `to`; all other characters stay. */
  function ReplaceChar(s: string, from: char, to: char): (r: string)
    ensures |r| == |s|
    ensures forall i :: 0 <= i < |s| ==> r[i] == (if s[i] == from then to else s[i])
  {
    if s == [] then [] else [if s[0] == from then to else s[0]] + ReplaceChar(s[1..], from, to)
  }

  // ---------------------------------------------------------------------------
  // str.title() on ASCII letters
  // ---------------------------------------------------------------------------

  predicate IsCased(c: char) {
    ('a' <= c <= 'z') || ('A' <= c <= 'Z')
  }

  function Upper(c: char): (u: char)
    ensures IsCased(u) == IsCased(c)
  {
    if 'a' <= c <= 'z' then (c as int - 32) as char else c
  }

  function Lower(c: char): (l: char)
    ensures IsCased(l) == IsCased(c)
  {
    if 'A' <= c <= 'Z' then (c as int + 32) as char else c
  }

  /** `title()` over the rest of a string, given whether the character just
      before it was a cased letter: a letter that starts a run of letters is
      upper-cased, every later letter of the run lower-cased, anything else kept. */
  function TitleFrom(s: string, afterCased: bool): (r: string)
    ensures |r| == |s|
    ensures forall i :: 0 <= i < |s| ==> IsCased(r[i]) == IsCased(s[i])
  {
    if s == [] then []
    else
      var c := s[0];
      var d := if !IsCased(c) then c else if afterCased then Lower(c) else Upper(c);
      [d] + TitleFrom(s[1..], IsCased(c))
  }

  /** Python's `str.title()`, restricted to ASCII letters as the cased characters. */
  function Title(s: string): (r: string)
    ensures |r| == |s|
  {
    TitleFrom(s, false)
  }

  lemma {:induction false} TitleFromIdempotent(s: string, afterCased: bool)
    ensures TitleFrom(TitleFrom(s, afterCased), afterCased) == TitleFrom(s, afterCased)
    decreases |s|
  {
    if s != [] {
      var r := TitleFrom(s, afterCased);
      assert r[1..] == TitleFrom(s[1..], IsCased(s[0]));
      TitleFromIdempotent(s[1..], IsCased(s[0]));
      assert IsCased(r[0]) == IsCased(s[0]);
    }
  }

  /** Title-casing a title-cased string changes nothing. */
  lemma TitleIdempotent(s: string)
    ensures Title(Title(s)) == Title(s)
  {
    TitleFromIdempotent(s, false);
  }

  // ---------------------------------------------------------------------------
  // Decimal rendering of natural numbers (`f"{n}"`)
  // ---------------------------------------------------------------------------

  predicate IsDigit(c: char) {
    '0' <= c <= '9'
  }

  predicate AllDigits(s: string) {
    forall i :: 0 <= i < |s| ==> IsDigit(s[i])
  }

  function DigitChar(d: nat): (c: char)
    requires d < 10
    ensures IsDigit(c) && c as int - '0' as int == d
  {
    ('0' as int + d) as char
  }

  /** Shortest decimal spelling of `n`: digits only, no leading zero. */
  function NatToString(n: nat): (r: string)
    ensures |r| >= 1 && AllDigits(r)
    ensures r[0] == '0' ==> n == 0
    decreases n
  {
    if n < 10 then [DigitChar(n)] else NatToString(n / 10) + [DigitChar(n % 10)]
  }

  /** The number a string of decimal digits denotes. */
  function DigitsValue(s: string): nat
    requires AllDigits(s)
  {
    if s == [] then 0 else DigitsValue(s[..|s| - 1]) * 10 + (s[|s| - 1] as int - '0' as int)
  }

  lemma {:induction false} NatToStringRoundTrip(n: nat)
    ensures DigitsValue(NatToString(n)) == n
    decreases n
  {
    if n >= 10 {
      var r := NatToString(n);
      assert r[..|r| - 1] == NatToString(n / 10);
      NatToStringRoundTrip(n / 10);
    }
  }

  /** Distinct numbers are spelled differently. */
  lemma NatToStringInjective(m: nat, n: nat)
    requires NatToString(m) == NatToString(n)
    ensures m == n
  {
    NatToStringRoundTrip(m);
    NatToStringRoundTrip(n);
  }

  /** A common prefix does not hide a difference in what follows it. */
  lemma PrefixedInjective(p: string, a: string, b: string)
    requires p + a == p + b
    ensures a == b
  {
    assert a == (p + a)[|p|..];
    assert b == (p + b)[|p|..];
  }
}
