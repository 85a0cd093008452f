/** The JavaScript string built-ins the application leans on: `trim`,
    `trimEnd`, `parseInt(s, 10)` and decimal formatting of numbers. */
module Strings {
  import opened Maybe

  /** ECMAScript's WhiteSpace and LineTerminator code points: the set that
      `String.prototype.trim`, `trimEnd` and `parseInt` skip. */
  predicate IsSpace(c: char) {
    c == '\t' || c == '\n' || c == '\U{000B}' || c == '\U{000C}' || c == '\r' ||
    c == ' ' || c == '\U{00A0}' || c == '\U{1680}' ||
    ('\U{2000}' <= c <= '\U{200A}') ||
    c == '\U{2028}' || c == '\U{2029}' || c == '\U{202F}' || c == '\U{205F}' ||
    c == '\U{3000}' || c == '\U{FEFF}'
  }

  /** Every character is white space (so `s.trim()` is the empty, falsy string). */
  predicate IsBlank(s: string) {
    forall i :: 0 <= i < |s| ==> IsSpace(s[i])
  }

  /** `s.trimEnd()`: the longest prefix of `s` that does not end in white space. */
  function TrimEnd(s: string): (r: string)
    ensures |r| <= |s| && r == s[..|r|]
    ensures r == [] || !IsSpace(r[|r| - 1])
    ensures forall i :: |r| <= i < |s| ==> IsSpace(s[i])
  {
    if |s| > 0 && IsSpace(s[|s| - 1]) then TrimEnd(s[..|s| - 1]) else s
  }

  /** The part of `s` that `trimStart` would drop. */
  function LeadingSpaces(s: string): (n: nat)
    ensures n <= |s|
    ensures forall i :: 0 <= i < n ==> IsSpace(s[i])
    ensures n == |s| || !IsSpace(s[n])
  {
    if |s| > 0 && IsSpace(s[0]) then 1 + LeadingSpaces(s[1..]) else 0
  }

  /** `s.trimStart()`. */
  function TrimStart(s: string): (r: string)
    ensures r == s[LeadingSpaces(s)..]
  {
    s[LeadingSpaces(s)..]
  }

  /** `s.trim()`: white space removed from both ends. What is left is the slice of
      `s` that starts at its first non-space character and ends at its last one. */
  function Trim(s: string): (r: string)
    ensures LeadingSpaces(s) + |r| <= |s| && r == s[LeadingSpaces(s)..LeadingSpaces(s) + |r|]
    ensures r == [] || (!IsSpace(r[0]) && !IsSpace(r[|r| - 1]))
    ensures forall i :: LeadingSpaces(s) + |r| <= i < |s| ==> IsSpace(s[i])
  {
    var e := TrimEnd(s);
    var k := LeadingSpaces(e);
    if e == [] then []
    else
      LeadingSpacesOfPrefix(s, e);
      e[k..]
  }

  /** Cutting trailing white space off does not move the first non-space character. */
  lemma LeadingSpacesOfPrefix(s: string, e: string)
    requires e == TrimEnd(s) && e != []
    ensures LeadingSpaces(e) == LeadingSpaces(s)
  {
    var k := LeadingSpaces(e);
    assert k < |e| && s[k] == e[k];
  }

  /** A string trims to nothing exactly when it is all white space. */
  lemma TrimEmptyIffBlank(s: string)
    ensures Trim(s) == [] <==> IsBlank(s)
  {
    if Trim(s) == [] {
      var e := TrimEnd(s);
      assert LeadingSpaces(e) == |e|;
      assert e == [];
    }
  }

  // ---- decimal digits ----

  predicate IsDigit(c: char) { '0' <= c <= '9' }

  function DigitValue(c: char): (v: nat)
    requires IsDigit(c)
    ensures v < 10
  {
    (c as int - '0' as int) as nat
  }

  function DigitChar(v: nat): (c: char)
    requires v < 10
    ensures IsDigit(c) && DigitValue(c) == v
  {
    ('0' as int + v) as char
  }

  /** The number a string of decimal digits denotes. */
  function DigitsValue(ds: string): nat
    requires forall i :: 0 <= i < |ds| ==> IsDigit(ds[i])
  {
    if ds == [] then 0 else 10 * DigitsValue(ds[..|ds| - 1]) + DigitValue(ds[|ds| - 1])
  }

  /** `String(n)` for a non-negative integer: its shortest decimal numeral. */
  function NatToString(n: nat): (s: string)
    ensures |s| >= 1 && forall i :: 0 <= i < |s| ==> IsDigit(s[i])
    ensures n > 0 ==> s[0] != '0'
  {
    if n < 10 then [DigitChar(n)] else NatToString(n / 10) + [DigitChar(n % 10)]
  }

  /** The numeral reads back as the number it was written from. */
  lemma {:induction false} NatToStringValue(n: nat)
    ensures DigitsValue(NatToString(n)) == n
  {
    var s := NatToString(n);
    if n >= 10 {
      NatToStringValue(n / 10);
      assert s[..|s| - 1] == NatToString(n / 10);
    }
  }

  function Pow10(w: nat): (p: nat)
    ensures p >= 1
  {
    if w == 0 then 1 else 10 * Pow10(w - 1)
  }

  /** The last `w` decimal digits of `n`, zero-padded on the left: the fixed-width
      fields of an ISO 8601 date (`padStart(w, "0")` for `n < 10^w`). */
  function FixedDigits(n: nat, w: nat): (s: string)
    ensures |s| == w && forall i :: 0 <= i < |s| ==> IsDigit(s[i])
  {
    if w == 0 then [] else FixedDigits(n / 10, w - 1) + [DigitChar(n % 10)]
  }

  /** A fixed-width field wide enough for its number reads back as that number. */
  lemma {:induction false} FixedDigitsValue(n: nat, w: nat)
    requires n < Pow10(w)
    ensures DigitsValue(FixedDigits(n, w)) == n
  {
    if w > 0 {
      var s := FixedDigits(n, w);
      FixedDigitsValue(n / 10, w - 1);
      assert s[..|s| - 1] == FixedDigits(n / 10, w - 1);
    }
  }

  /** Numbers below `10^w` get distinct fixed-width fields. */
  lemma FixedDigitsInjective(a: nat, b: nat, w: nat)
    requires a < Pow10(w) && b < Pow10(w)
    requires FixedDigits(a, w) == FixedDigits(b, w)
    ensures a == b
  {
    FixedDigitsValue(a, w);
    FixedDigitsValue(b, w);
  }

  // ---- parseInt(s, 10) ----

  /** The number of decimal digits at the start of `s`. */
  function LeadingDigits(s: string): (n: nat)
    ensures n <= |s|
    ensures forall i :: 0 <= i < n ==> IsDigit(s[i])
    ensures n == |s| || !IsDigit(s[n])
  {
    if |s| > 0 && IsDigit(s[0]) then 1 + LeadingDigits(s[1..]) else 0
  }

  /** `parseInt(s, 10)`, with `None` for `NaN`: leading white space is skipped, one
      optional `+` or `-` is read, then the longest run of decimal digits; without
      any digit the result is `NaN`. A negative zero is the integer 0 here. */
  function ParseInt(s: string): (r: Option<int>)
    ensures r.None? <==>
      var t := TrimStart(s);
      var u := if t != [] && (t[0] == '+' || t[0] == '-') then t[1..] else t;
      LeadingDigits(u) == 0
  {
    var t := TrimStart(s);
    var negative := t != [] && t[0] == '-';
    var u := if t != [] && (t[0] == '+' || t[0] == '-') then t[1..] else t;
    var n := LeadingDigits(u);
    if n == 0 then None
    else
      var v: int := DigitsValue(u[..n]);
      Some(if negative then -v else v)
  }

  /** `parseInt(String(n), 10) == n`: the goal field shows `String(goal)`, and
      submitting that text unchanged gives the same goal back. */
  lemma ParseIntOfNatToString(n: nat)
    ensures ParseInt(NatToString(n)) == Some(n)
  {
    var s := NatToString(n);
    assert !IsSpace(s[0]);
    assert LeadingSpaces(s) == 0;
    assert TrimStart(s) == s;
    AllDigitsLead(s);
    assert s[..|s|] == s;
    NatToStringValue(n);
  }

  /** `parseInt(s, 10)` on white space, an optional sign, a run of digits and a rest
      that does not start with a digit reads exactly that run, negated after a `-`. */
  lemma ParseIntOfParts(ws: string, sign: string, ds: string, rest: string)
    requires IsBlank(ws)
    requires sign == "" || sign == "+" || sign == "-"
    requires |ds| >= 1 && forall i :: 0 <= i < |ds| ==> IsDigit(ds[i])
    requires rest == [] || !IsDigit(rest[0])
    ensures var v: int := DigitsValue(ds);
      ParseInt(ws + sign + ds + rest) == Some(if sign == "-" then -v else v)
  {
    var t := sign + ds + rest;
    Regroup(ws, sign, ds, rest);
    assert t[0] == (if sign == "" then ds[0] else sign[0]);
    BlankLead(ws, t);
    DropPrefix(ws, t);
    SignedDigits(sign, ds, rest);
    var u := if t[0] == '+' || t[0] == '-' then t[1..] else t;
    ParseIntAfterSpaces(ws + t, t, u, |ds|, ds, sign == "-");
  }

  /** `parseInt` once the white space is skipped and at least one digit follows the
      optional sign. */
  lemma ParseIntAfterSpaces(s: string, t: string, u: string, n: nat, digits: string, negative: bool)
    requires TrimStart(s) == t && t != []
    requires u == (if t[0] == '+' || t[0] == '-' then t[1..] else t)
    requires n == LeadingDigits(u) && n >= 1 && u[..n] == digits
    requires negative == (t[0] == '-')
    ensures var v: int := DigitsValue(digits);
      ParseInt(s) == Some(if negative then -v else v)
  {
  }

  lemma Regroup(a: string, b: string, c: string, d: string)
    ensures a + b + c + d == a + (b + c + d)
  {
  }

  lemma DropPrefix(a: string, b: string)
    ensures (a + b)[|a|..] == b
  {
  }

  /** Past the white space: the sign, then the digit run. */
  lemma SignedDigits(sign: string, ds: string, rest: string)
    requires sign == "" || sign == "+" || sign == "-"
    requires |ds| >= 1 && forall i :: 0 <= i < |ds| ==> IsDigit(ds[i])
    requires rest == [] || !IsDigit(rest[0])
    ensures var t := sign + ds + rest;
      var u := if t != [] && (t[0] == '+' || t[0] == '-') then t[1..] else t;
      (t[0] == '-' <==> sign == "-") && u == ds + rest &&
      LeadingDigits(u) == |ds| && u[..|ds|] == ds
  {
    var t := sign + ds + rest;
    if sign != "" {
      assert t[1..] == ds + rest;
    } else {
      assert t == ds + rest;
    }
    DigitsLead(ds, rest);
    assert (ds + rest)[..|ds|] == ds;
  }

  /** Leading white space ends where the blank prefix does. */
  lemma {:induction false} BlankLead(ws: string, t: string)
    requires IsBlank(ws) && t != [] && !IsSpace(t[0])
    ensures LeadingSpaces(ws + t) == |ws|
  {
    if ws != [] {
      assert (ws + t)[1..] == ws[1..] + t;
      BlankLead(ws[1..], t);
    }
  }

  /** The digit run ends where the digits do. */
  lemma {:induction false} DigitsLead(ds: string, rest: string)
    requires forall i :: 0 <= i < |ds| ==> IsDigit(ds[i])
    requires rest == [] || !IsDigit(rest[0])
    ensures LeadingDigits(ds + rest) == |ds|
  {
    if ds != [] {
      assert (ds + rest)[1..] == ds[1..] + rest;
      DigitsLead(ds[1..], rest);
    }
  }

  lemma {:induction false} AllDigitsLead(s: string)
    requires forall i :: 0 <= i < |s| ==> IsDigit(s[i])
    ensures LeadingDigits(s) == |s|
  {
    if |s| > 0 { AllDigitsLead(s[1..]); }
  }
}
