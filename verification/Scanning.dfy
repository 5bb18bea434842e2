/** The parts of `sscanf` the trace parser uses, and decimal printing. */
module Scanning {
  predicate IsSpace(c: char) {
    c == ' ' || c == '\t' || c == '\n' || c == '\r' || c == 11 as char || c == 12 as char
  }

  predicate IsDigit(c: char) {
    '0' <= c <= '9'
  }

  function SkipSpaces(s: string): (r: string)
    ensures |r| <= |s|
    ensures r == "" || !IsSpace(r[0])
  {
    if s != "" && IsSpace(s[0]) then SkipSpaces(s[1..]) else s
  }

  /** What a conversion stores, and the input left over. */
  datatype Scan<T> = Match(value: T, rest: string) | NoMatch

  /** The longest prefix of at most `width` non-space characters. */
  function WordLength(s: string, width: nat): (n: nat)
    ensures n <= |s| && n <= width
    ensures forall j :: 0 <= j < n ==> !IsSpace(s[j])
    ensures n < |s| && n < width ==> IsSpace(s[n])
  {
    if s == "" || width == 0 || IsSpace(s[0]) then 0 else 1 + WordLength(s[1..], width - 1)
  }

  /** `%31s`: leading spaces, then one to 31 non-space characters. */
  function ScanWord(s: string): Scan<string> {
    var t := SkipSpaces(s);
    var n := WordLength(t, 31);
    if n == 0 then NoMatch else Match(t[..n], t[n..])
  }

  function DigitsLength(s: string): (n: nat)
    ensures n <= |s|
    ensures forall j :: 0 <= j < n ==> IsDigit(s[j])
    ensures n < |s| ==> !IsDigit(s[n])
  {
    if s == "" || !IsDigit(s[0]) then 0 else 1 + DigitsLength(s[1..])
  }

  /** The number a digit string stands for. */
  function Numeral(ds: string): nat
    requires forall j :: 0 <= j < |ds| ==> IsDigit(ds[j])
  {
    if ds == "" then 0
    else
      var last := ds[|ds| - 1];
      assert IsDigit(last);
      10 * Numeral(ds[..|ds| - 1]) + (last as int - '0' as int)
  }

  /** The digits of a number, after its sign. */
  function ScanMagnitude(u: string, negative: bool): Scan<int> {
    var n := DigitsLength(u);
    if n == 0 then NoMatch
    else
      var magnitude: int := Numeral(u[..n]);
      Match(if negative then -magnitude else magnitude, u[n..])
  }

  /** `%d`: leading spaces, an optional sign, then at least one digit. */
  function ScanInt(s: string): Scan<int> {
    var t := SkipSpaces(s);
    if t != "" && (t[0] == '-' || t[0] == '+') then ScanMagnitude(t[1..], t[0] == '-') else ScanMagnitude(t, false)
  }

  function PrintNat(n: nat): (s: string)
    ensures s != "" && forall j :: 0 <= j < |s| ==> IsDigit(s[j])
    ensures Numeral(s) == n
  {
    var last := ['0' + (n % 10) as char];
    if n < 10 then last else PrintNat(n / 10) + last
  }

  /** `%d` as `printf` writes it. */
  function PrintInt(n: int): string {
    if n < 0 then "-" + PrintNat(-n) else PrintNat(n)
  }

  /** Where a printed word or number ends: at the end of the line or at a space. */
  predicate Delimited(rest: string) {
    rest == "" || IsSpace(rest[0])
  }

  lemma {:induction false} DigitsStop(ds: string, rest: string)
    requires forall j :: 0 <= j < |ds| ==> IsDigit(ds[j])
    requires rest == "" || !IsDigit(rest[0])
    ensures DigitsLength(ds + rest) == |ds|
  {
    if ds != "" {
      assert (ds + rest)[1..] == ds[1..] + rest;
      DigitsStop(ds[1..], rest);
    } else {
      assert ds + rest == rest;
    }
  }

  lemma {:induction false} WordStops(w: string, rest: string, width: nat)
    requires forall j :: 0 <= j < |w| ==> !IsSpace(w[j])
    requires |w| <= width && (|w| < width ==> Delimited(rest))
    ensures WordLength(w + rest, width) == |w|
  {
    if w != "" {
      assert (w + rest)[1..] == w[1..] + rest;
      WordStops(w[1..], rest, width - 1);
    } else {
      assert w + rest == rest;
    }
  }

  lemma SpaceSkipped(s: string)
    ensures ScanInt(" " + s) == ScanInt(s)
  {
    assert (" " + s)[1..] == s;
  }

  lemma NoSpaceToSkip(s: string)
    requires s != "" && !IsSpace(s[0])
    ensures SkipSpaces(s) == s
  {
  }

  lemma ScanUnsigned(n: nat, rest: string)
    requires Delimited(rest)
    ensures ScanInt(PrintNat(n) + rest) == Match(n, rest)
  {
    hide PrintNat, DigitsLength, Numeral, SkipSpaces;
    var t := PrintNat(n) + rest;
    assert t[0] == PrintNat(n)[0] && IsDigit(t[0]);
    assert SkipSpaces(t) == t by { NoSpaceToSkip(t); }
    DigitsRead(n, rest);
  }

  lemma ScanNegative(n: int, rest: string)
    requires Delimited(rest) && n < 0
    ensures ScanInt("-" + PrintNat(-n) + rest) == Match(n, rest)
  {
    hide PrintNat, DigitsLength, Numeral, SkipSpaces;
    var t := "-" + PrintNat(-n) + rest;
    assert t[0] == '-' && t[1..] == PrintNat(-n) + rest;
    assert SkipSpaces(t) == t by { NoSpaceToSkip(t); }
    DigitsRead(-n, rest);
  }

  /** Reading back a printed integer, after any one space. */
  lemma ScanPrintedInt(n: int, rest: string)
    requires Delimited(rest)
    ensures ScanInt(PrintInt(n) + rest) == Match(n, rest)
    ensures ScanInt(" " + PrintInt(n) + rest) == Match(n, rest)
  {
    hide PrintNat, ScanInt;
    if n < 0 {
      ScanNegative(n, rest);
    } else {
      ScanUnsigned(n, rest);
    }
    SpaceSkipped(PrintInt(n) + rest);
    assert " " + PrintInt(n) + rest == " " + (PrintInt(n) + rest);
  }

  lemma DigitsRead(n: nat, rest: string)
    requires Delimited(rest)
    ensures var u := PrintNat(n) + rest;
            var k := DigitsLength(u);
            k == |PrintNat(n)| > 0 && u[..k] == PrintNat(n) && u[k..] == rest && Numeral(u[..k]) == n
  {
    hide PrintNat, DigitsLength, Numeral;
    var ds := PrintNat(n);
    DigitsStop(ds, rest);
    assert (ds + rest)[..|ds|] == ds && (ds + rest)[|ds|..] == rest;
  }

  lemma ScanPrintedWord(w: string, rest: string)
    requires w != "" && |w| <= 31 && forall j :: 0 <= j < |w| ==> !IsSpace(w[j])
    requires Delimited(rest)
    ensures ScanWord(w + rest) == Match(w, rest)
    ensures ScanWord(" " + w + rest) == Match(w, rest)
  {
    WordStops(w, rest, 31);
    assert (" " + w + rest)[1..] == w + rest;
    assert (w + rest)[..|w|] == w && (w + rest)[|w|..] == rest;
  }

  /** An `int` prints in at most eleven characters, none of them a space. */
  lemma {:induction false} NatWidth(n: nat, digits: nat, limit: nat)
    requires n < limit && limit == Pow10(digits) && digits > 0
    ensures |PrintNat(n)| <= digits
  {
    if n >= 10 {
      NatWidth(n / 10, digits - 1, Pow10(digits - 1));
    }
  }

  function Pow10(k: nat): nat {
    if k == 0 then 1 else 10 * Pow10(k - 1)
  }

  lemma IntWidth(n: int)
    requires -0x8000_0000 <= n <= 0x7FFF_FFFF
    ensures |PrintInt(n)| <= 11
    ensures forall j :: 0 <= j < |PrintInt(n)| ==> !IsSpace(PrintInt(n)[j])
  {
    assert Pow10(10) == 10_000_000_000 by {
      assert Pow10(5) == 100_000;
      assert Pow10(8) == 100_000_000;
    }
    NatWidth(if n < 0 then -n else n, 10, Pow10(10));
  }
}
