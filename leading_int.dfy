/** The leading-integer parse that `parseInt(text, 10)` performs on a declared
    CSS length such as "120px": skip leading white space, take an optional sign,
    then the longest run of decimal digits; anything after the digits is ignored,
    and text with no digit in that position has no value (JavaScript's `NaN`). */
module LeadingInt {
  import opened Wrappers

  /** The white space and line terminators that parseInt strips before the number
      (ECMAScript's StrWhiteSpaceChar: TAB, LF, VT, FF, CR, the Zs space
      separators, LINE and PARAGRAPH SEPARATOR, and the byte order mark). */
  predicate IsSpace(c: char) {
    c == '\t' || c == '\n' || c == '\U{B}' || c == '\U{C}' || c == '\r' ||
    c == ' ' || c == '\U{A0}' || c == '\U{1680}' || ('\U{2000}' <= c <= '\U{200A}') ||
    c == '\U{2028}' || c == '\U{2029}' || c == '\U{202F}' || c == '\U{205F}' ||
    c == '\U{3000}' || c == '\U{FEFF}'
  }

  predicate IsDigit(c: char) {
    '0' <= c <= '9'
  }

  predicate IsSign(c: char) {
    c == '+' || c == '-'
  }

  predicate AllSpaces(s: string) {
    forall i :: 0 <= i < |s| ==> IsSpace(s[i])
  }

  predicate AllDigits(s: string) {
    forall i :: 0 <= i < |s| ==> IsDigit(s[i])
  }

  /** Length of the longest prefix of `s` made of white space. */
  function SpacePrefixLength(s: string): (n: nat)
    ensures n <= |s| && AllSpaces(s[..n])
    ensures n < |s| ==> !IsSpace(s[n])
  {
    if |s| > 0 && IsSpace(s[0]) then 1 + SpacePrefixLength(s[1..]) else 0
  }

  /** Length of the longest prefix of `s` made of decimal digits. */
  function DigitPrefixLength(s: string): (n: nat)
    ensures n <= |s| && AllDigits(s[..n])
    ensures n < |s| ==> !IsDigit(s[n])
  {
    if |s| > 0 && IsDigit(s[0]) then 1 + DigitPrefixLength(s[1..]) else 0
  }

  function DigitValue(c: char): (d: nat)
    requires IsDigit(c)
    ensures d < 10
  {
    c as int - '0' as int
  }

  /** The number a run of decimal digits denotes, most significant digit first. */
  function DigitsValue(ds: string): nat
    requires AllDigits(ds)
    decreases |ds|
  {
    if ds == [] then 0 else 10 * DigitsValue(ds[..|ds| - 1]) + DigitValue(ds[|ds| - 1])
  }

  /** The text parseInt reads: `s` with its leading white space removed. */
  function Trimmed(s: string): string {
    s[SpacePrefixLength(s)..]
  }

  /** `parseInt(s, 10)`: `Some(n)` for a number, `None` for `NaN`. */
  function ParseLeadingInt(s: string): Option<int> {
    ParseSignedDigits(Trimmed(s))
  }

  /** What parseInt does once the white space is gone: an optional sign, then the
      longest digit run, which must not be empty. */
  function ParseSignedDigits(t: string): Option<int> {
    var negative := |t| > 0 && t[0] == '-';
    var unsigned := if |t| > 0 && IsSign(t[0]) then t[1..] else t;
    var n := DigitPrefixLength(unsigned);
    if n == 0 then None
    else
      var magnitude: int := DigitsValue(unsigned[..n]);
      Some(if negative then -magnitude else magnitude)
  }

  lemma {:induction false} SpacePrefixOfPadded(ws: string, t: string)
    requires AllSpaces(ws)
    requires t == [] || !IsSpace(t[0])
    ensures SpacePrefixLength(ws + t) == |ws|
  {
    if ws != [] {
      assert (ws + t)[1..] == ws[1..] + t;
      SpacePrefixOfPadded(ws[1..], t);
    }
  }

  lemma {:induction false} DigitPrefixOfRun(ds: string, t: string)
    requires AllDigits(ds)
    requires t == [] || !IsDigit(t[0])
    ensures DigitPrefixLength(ds + t) == |ds|
  {
    if ds != [] {
      assert (ds + t)[1..] == ds[1..] + t;
      DigitPrefixOfRun(ds[1..], t);
    }
  }

  /** parseInt skips exactly the leading white space and reads what follows. */
  lemma ParseAfterSpaces(ws: string, t: string)
    requires AllSpaces(ws)
    requires t == [] || !IsSpace(t[0])
    ensures ParseLeadingInt(ws + t) == ParseSignedDigits(t)
  {
    SpacePrefixOfPadded(ws, t);
    assert Trimmed(ws + t) == t;
  }

  /** A non-empty digit run followed by text that does not continue it parses to
      the run's value. */
  lemma ParseUnsignedRun(ds: string, suffix: string)
    requires |ds| > 0 && AllDigits(ds)
    requires suffix == [] || !IsDigit(suffix[0])
    ensures ParseSignedDigits(ds + suffix) == Some(DigitsValue(ds) as int)
  {
    var t := ds + suffix;
    assert t[0] == ds[0];
    DigitPrefixOfRun(ds, suffix);
    assert t[..|ds|] == ds;
  }

  /** A sign in front of a digit run negates ('-') or keeps ('+') its value. */
  lemma ParseSignThenRun(sign: char, u: string, m: int)
    requires IsSign(sign)
    requires ParseSignedDigits(u) == Some(m) && !IsSign(u[0])
    ensures ParseSignedDigits([sign] + u) == Some(if sign == '-' then -m else m)
  {
    assert ([sign] + u)[1..] == u;
  }

  lemma Regroup(a: string, b: string, c: string, d: string)
    ensures a + b + c + d == a + (b + (c + d))
  {
  }

  /** White space, a non-empty digit run and any text that does not continue the
      run parse to the value of the run: the unit suffix of "120px" or the
      fraction of "12.5px" is ignored, and leading zeros ("007") are allowed. */
  lemma ParseDigitRun(ws: string, ds: string, suffix: string)
    requires AllSpaces(ws)
    requires |ds| > 0 && AllDigits(ds)
    requires suffix == [] || !IsDigit(suffix[0])
    ensures ParseLeadingInt(ws + ds + suffix) == Some(DigitsValue(ds) as int)
  {
    var u := ds + suffix;
    assert u[0] == ds[0];
    assert ws + ds + suffix == ws + u;
    ParseAfterSpaces(ws, u);
    ParseUnsignedRun(ds, suffix);
  }

  lemma ParseSignAfterSpaces(ws: string, sign: char, u: string, m: int)
    requires AllSpaces(ws)
    requires IsSign(sign)
    requires ParseSignedDigits(u) == Some(m) && !IsSign(u[0])
    ensures ParseLeadingInt(ws + ([sign] + u)) == Some(if sign == '-' then -m else m)
  {
    ParseSignThenRun(sign, u, m);
    ParseAfterSpaces(ws, [sign] + u);
  }

  /** The same with a sign in front of the digits, whose value is `m`: '-'
      negates it and '+' keeps it ("-4em" gives -4, "+3" gives 3). */
  lemma ParseSignedDigitRun(ws: string, sign: char, ds: string, suffix: string, m: int)
    requires AllSpaces(ws)
    requires IsSign(sign)
    requires |ds| > 0 && AllDigits(ds) && m == DigitsValue(ds)
    requires suffix == [] || !IsDigit(suffix[0])
    ensures ParseLeadingInt(ws + [sign] + ds + suffix) == Some(if sign == '-' then -m else m)
  {
    ParseSignedDigitRunGrouped(ws, sign, ds, suffix, m);
    Regroup(ws, [sign], ds, suffix);
  }

  lemma ParseSignedDigitRunGrouped(ws: string, sign: char, ds: string, suffix: string, m: int)
    requires AllSpaces(ws)
    requires IsSign(sign)
    requires |ds| > 0 && AllDigits(ds) && m == DigitsValue(ds)
    requires suffix == [] || !IsDigit(suffix[0])
    ensures ParseLeadingInt(ws + ([sign] + (ds + suffix))) == Some(if sign == '-' then -m else m)
  {
    var u := ds + suffix;
    assert u[0] == ds[0];
    ParseUnsignedRun(ds, suffix);
    ParseSignAfterSpaces(ws, sign, u, m);
  }

  /** Text whose first non-space character is neither a digit nor a sign has no value ("auto", "" ). */
  lemma ParseRejectsNonNumeric(ws: string, t: string)
    requires AllSpaces(ws)
    requires t == [] || !(IsSpace(t[0]) || IsDigit(t[0]) || IsSign(t[0]))
    ensures ParseLeadingInt(ws + t) == None
  {
    SpacePrefixOfPadded(ws, t);
    assert Trimmed(ws + t) == t;
    assert t != [] ==> DigitPrefixLength(t) == 0;
  }

  /** A sign that is not followed by a digit has no value ("-px", "+"). */
  lemma ParseRejectsBareSign(ws: string, sign: char, t: string)
    requires AllSpaces(ws)
    requires IsSign(sign)
    requires t == [] || !IsDigit(t[0])
    ensures ParseLeadingInt(ws + [sign] + t) == None
  {
    SpacePrefixOfPadded(ws, [sign] + t);
    assert ws + [sign] + t == ws + ([sign] + t);
    assert Trimmed(ws + ([sign] + t)) == [sign] + t;
    assert ([sign] + t)[1..] == t;
    assert t != [] ==> DigitPrefixLength(t) == 0;
  }

  function DigitChar(d: nat): (c: char)
    requires d < 10
    ensures IsDigit(c) && DigitValue(c) == d
  {
    ('0' as int + d) as char
  }

  /** Base-10 rendering of a natural number, without leading zeros. */
  function NatToDigits(n: nat): (ds: string)
    ensures |ds| > 0 && AllDigits(ds)
    decreases n
  {
    if n < 10 then [DigitChar(n)] else NatToDigits(n / 10) + [DigitChar(n % 10)]
  }

  /** Base-10 rendering of an integer, as `String(n)` writes it. */
  function IntToDecimal(n: int): string {
    if n < 0 then "-" + NatToDigits(-n) else NatToDigits(n)
  }

  lemma {:induction false} DigitsValueOfNatToDigits(n: nat)
    ensures DigitsValue(NatToDigits(n)) == n
    decreases n
  {
    if n >= 10 {
      var ds := NatToDigits(n);
      assert ds[..|ds| - 1] == NatToDigits(n / 10);
      DigitsValueOfNatToDigits(n / 10);
    }
  }

  /** Round trip: a rendered integer, after any white space and before any unit
      suffix, parses back to itself ("120px" gives 120, " -4em" gives -4). */
  lemma ParseRendered(ws: string, n: int, suffix: string)
    requires AllSpaces(ws)
    requires suffix == [] || !IsDigit(suffix[0])
    ensures ParseLeadingInt(ws + IntToDecimal(n) + suffix) == Some(n)
  {
    if n < 0 {
      ParseRenderedNegative(ws, n, suffix);
    } else {
      ParseRenderedNonNegative(ws, n, suffix);
    }
  }

  lemma ParseRenderedNonNegative(ws: string, n: nat, suffix: string)
    requires AllSpaces(ws)
    requires suffix == [] || !IsDigit(suffix[0])
    ensures ParseLeadingInt(ws + IntToDecimal(n) + suffix) == Some(n)
  {
    DigitsValueOfNatToDigits(n);
    ParseDigitRun(ws, NatToDigits(n), suffix);
  }

  lemma ParseRenderedNegative(ws: string, n: int, suffix: string)
    requires AllSpaces(ws)
    requires n < 0
    requires suffix == [] || !IsDigit(suffix[0])
    ensures ParseLeadingInt(ws + IntToDecimal(n) + suffix) == Some(n)
  {
    var ds := NatToDigits(-n);
    DigitsValueOfNatToDigits(-n);
    ParseSignedDigitRun(ws, '-', ds, suffix, -n);
    SignedRendering(ws, ds, suffix);
  }

  lemma SignedRendering(ws: string, ds: string, suffix: string)
    ensures ws + ("-" + ds) + suffix == ws + ['-'] + ds + suffix
  {
  }
}
