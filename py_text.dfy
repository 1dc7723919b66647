/** Python text semantics the request gate relies on: `str.strip()` with no
    argument, and `str()` of an integer. */
module PyText {

  /** `c.isspace()`: the characters Python's `str.strip()` removes when it is
      called without an argument. */
  predicate IsSpace(c: char) {
    || ('\t' <= c <= '\r')
    || ('\U{1C}' <= c <= '\U{1F}')
    || c == ' '
    || c == '\U{85}'
    || c == '\U{A0}'
    || c == '\U{1680}'
    || ('\U{2000}' <= c <= '\U{200A}')
    || c == '\U{2028}'
    || c == '\U{2029}'
    || c == '\U{202F}'
    || c == '\U{205F}'
    || c == '\U{3000}'
  }

  predicate AllSpace(s: string) {
    forall i :: 0 <= i < |s| ==> IsSpace(s[i])
  }

  /** No whitespace at either end: what `strip()` leaves. */
  predicate Trimmed(s: string) {
    s == [] || (!IsSpace(s[0]) && !IsSpace(s[|s| - 1]))
  }

  /** How many whitespace characters `s` starts with. */
  function Lead(s: string): (n: nat)
    ensures n <= |s|
    ensures forall i :: 0 <= i < n ==> IsSpace(s[i])
    ensures n < |s| ==> !IsSpace(s[n])
    decreases |s|
  {
    if |s| > 0 && IsSpace(s[0]) then 1 + Lead(s[1..]) else 0
  }

  /** How many whitespace characters `s` ends with. */
  function Trail(s: string): (n: nat)
    ensures n <= |s|
    ensures forall i :: |s| - n <= i < |s| ==> IsSpace(s[i])
    ensures n < |s| ==> !IsSpace(s[|s| - 1 - n])
    decreases |s|
  {
    if |s| > 0 && IsSpace(s[|s| - 1]) then 1 + Trail(s[..|s| - 1]) else 0
  }

  /** The leading whitespace run is the one ending at the first
      non-whitespace character. */
  lemma LeadIs(s: string, n: nat)
    requires n <= |s|
    requires forall i :: 0 <= i < n ==> IsSpace(s[i])
    requires n < |s| ==> !IsSpace(s[n])
    ensures Lead(s) == n
  {
  }

  /** The trailing whitespace run is the one starting after the last
      non-whitespace character. */
  lemma TrailIs(s: string, n: nat)
    requires n <= |s|
    requires forall i :: |s| - n <= i < |s| ==> IsSpace(s[i])
    requires n < |s| ==> !IsSpace(s[|s| - 1 - n])
    ensures Trail(s) == n
  {
  }

  /** `s.strip()`: the infix of `s` left after removing whitespace from both
      ends; everything removed is whitespace and nothing kept is at an end. */
  function Strip(s: string): (r: string)
    ensures Trimmed(r)
    ensures Lead(s) + |r| <= |s| && r == s[Lead(s)..Lead(s) + |r|]
    ensures forall i :: 0 <= i < Lead(s) ==> IsSpace(s[i])
    ensures forall i :: Lead(s) + |r| <= i < |s| ==> IsSpace(s[i])
  {
    if Lead(s) == |s| then [] else s[Lead(s)..|s| - Trail(s)]
  }

  /** `strip()` is determined by the split of its argument into whitespace,
      a trimmed middle and whitespace: it returns exactly the middle. */
  lemma StripSplit(a: string, m: string, b: string)
    requires AllSpace(a) && AllSpace(b) && Trimmed(m)
    ensures Strip(a + m + b) == m
  {
    var s := a + m + b;
    if m == [] {
      LeadIs(s, |s|);
    } else {
      assert s[|a|] == m[0];
      LeadIs(s, |a|);
      assert s[|s| - 1 - |b|] == m[|m| - 1];
      TrailIs(s, |b|);
      assert s[|a|..|s| - |b|] == m;
    }
  }

  /** A string with no whitespace at its ends is its own strip. */
  lemma StripTrimmed(s: string)
    requires Trimmed(s)
    ensures Strip(s) == s
  {
    assert [] + s + [] == s;
    StripSplit([], s, []);
  }

  /** Stripping twice is stripping once. */
  lemma StripIdempotent(s: string)
    ensures Strip(Strip(s)) == Strip(s)
  {
    StripTrimmed(Strip(s));
  }

  /** Whitespace added around a string does not change what `strip()`
      returns. */
  lemma StripIgnoresPadding(lead: string, s: string, trail: string)
    requires AllSpace(lead) && AllSpace(trail)
    ensures Strip(lead + s + trail) == Strip(s)
  {
    var r := Strip(s);
    var i := Lead(s);
    var a, b := s[..i], s[i + |r|..];
    assert s == a + r + b;
    AllSpaceAppend(lead, a);
    AllSpaceAppend(b, trail);
    PaddedSplit(lead, a, r, b, trail);
    StripSplit(lead + a, r, b + trail);
  }

  lemma AllSpaceAppend(a: string, b: string)
    requires AllSpace(a) && AllSpace(b)
    ensures AllSpace(a + b)
  {
    forall k | 0 <= k < |a + b| ensures IsSpace((a + b)[k]) {
      if k >= |a| { assert (a + b)[k] == b[k - |a|]; }
    }
  }

  /** Regrouping the five pieces of a padded split; a separate lemma keeps
      this sequence equality out of the larger proof's context. */
  lemma PaddedSplit(lead: string, a: string, r: string, b: string, trail: string)
    ensures lead + (a + r + b) + trail == (lead + a) + r + (b + trail)
  {
  }

  function DigitChar(d: nat): (c: char)
    requires d < 10
    ensures '0' <= c <= '9'
  {
    "0123456789"[d]
  }

  predicate AllDigits(s: string) {
    forall i :: 0 <= i < |s| ==> '0' <= s[i] <= '9'
  }

  /** Decimal digits of `n`, most significant first, without leading zeros. */
  function Digits(n: nat): (s: string)
    ensures s != [] && AllDigits(s)
    ensures |s| > 1 ==> s[0] != '0'
    decreases n
  {
    if n < 10 then [DigitChar(n)] else Digits(n / 10) + [DigitChar(n % 10)]
  }

  /** An integer's text: an optional minus sign, then at least one digit. */
  predicate IsIntText(s: string) {
    if s != [] && s[0] == '-' then s[1..] != [] && AllDigits(s[1..]) else s != [] && AllDigits(s)
  }

  /** The integer an integer's text denotes (Python's `int(s)` on it). */
  function IntValue(s: string): int
    requires IsIntText(s)
  {
    if s[0] == '-' then -(DigitsValue(s[1..]) as int) else DigitsValue(s)
  }

  /** `str(i)` of a Python int: an optional minus sign and its digits with
      no leading zero, so it carries no whitespace that `strip()` would
      remove, and it reads back as `i`. */
  function IntToString(i: int): (s: string)
    ensures s != [] && Trimmed(s)
    ensures s[0] == '-' <==> i < 0
    ensures var d := if i < 0 then s[1..] else s; |d| > 1 ==> d[0] != '0'
    ensures IsIntText(s) && IntValue(s) == i
  {
    if i < 0 then NegatedDigits(-i); "-" + Digits(-i)
    else PlainDigits(i); Digits(i)
  }

  /** The text of a non-negative number: its digits alone. */
  lemma PlainDigits(n: nat)
    ensures Trimmed(Digits(n)) && Digits(n)[0] != '-'
    ensures IsIntText(Digits(n)) && IntValue(Digits(n)) == n
  {
    DigitsRoundTrip(n);
  }

  /** The text of a negative number: a minus sign, then the digits of its
      magnitude. */
  lemma NegatedDigits(n: nat)
    requires n > 0
    ensures Trimmed("-" + Digits(n)) && ("-" + Digits(n))[0] == '-'
    ensures ("-" + Digits(n))[1..] == Digits(n)
    ensures IsIntText("-" + Digits(n)) && IntValue("-" + Digits(n)) == -(n as int)
  {
    var s := "-" + Digits(n);
    assert s[1..] == Digits(n);
    assert s[|s| - 1] == Digits(n)[|Digits(n)| - 1];
    DigitsRoundTrip(n);
  }

  /** The value of a string of decimal digits. */
  function DigitsValue(s: string): nat
    requires AllDigits(s)
  {
    if s == [] then 0 else 10 * DigitsValue(s[..|s| - 1]) + (s[|s| - 1] as int - '0' as int)
  }

  /** `str()` of an int reads back as that int. */
  lemma {:induction false} DigitsRoundTrip(n: nat)
    ensures DigitsValue(Digits(n)) == n
    decreases n
  {
    if n >= 10 {
      var s := Digits(n);
      assert s[..|s| - 1] == Digits(n / 10);
      DigitsRoundTrip(n / 10);
    }
  }
}
