/**
 * formatDuration: a millisecond count rendered as hours, minutes and
 * seconds, each field zero-padded to at least two digits and joined by ':'.
 */
module Duration {

  predicate IsDigit(c: char) { '0' <= c <= '9' }

  predicate AllDigits(s: string) { forall i :: 0 <= i < |s| ==> IsDigit(s[i]) }

  function DigitChar(d: nat): (c: char)
    requires d < 10
    ensures IsDigit(c) && c as int - '0' as int == d
  {
    ('0' as int + d) as char
  }

  /** The number a string of decimal digits denotes (leading zeros allowed). */
  function ValueOf(s: string): nat
    requires AllDigits(s)
  {
    if s == [] then 0 else ValueOf(s[..|s| - 1]) * 10 + (s[|s| - 1] as int - '0' as int)
  }

  /** `String(n)` for a non-negative integer: its decimal digits, no leading zero. */
  function Decimal(n: nat): (s: string)
    ensures 1 <= |s| && AllDigits(s)
    ensures |s| > 1 ==> s[0] != '0'
  {
    if n < 10 then [DigitChar(n)] else Decimal(n / 10) + [DigitChar(n % 10)]
  }

  /** `s.padStart(2, '0')`. */
  function PadStart2(s: string): string
  {
    if |s| >= 2 then s else seq(2 - |s|, _ => '0') + s
  }

  /** The field renderer: decimal digits padded to two places. */
  function Field(n: nat): string
  {
    PadStart2(Decimal(n))
  }

  /** `Math.max(Math.floor(ms / 1000), 0)`; Dafny's `/` by a positive divisor is floor division. */
  function TotalSeconds(ms: int): nat
  {
    if ms / 1000 < 0 then 0 else ms / 1000
  }

  function FormatDuration(ms: int): string
  {
    var t := TotalSeconds(ms);
    Field(t / 3600) + ":" + Field(t % 3600 / 60) + ":" + Field(t % 60)
  }

  lemma {:induction false} DecimalRoundTrip(n: nat)
    ensures ValueOf(Decimal(n)) == n
  {
    if n >= 10 {
      var s := Decimal(n);
      assert s[..|s| - 1] == Decimal(n / 10);
      DecimalRoundTrip(n / 10);
    }
  }

  /** Leading zeros do not change the value a digit string denotes. */
  lemma {:induction false} LeadingZeros(z: nat, s: string)
    requires AllDigits(s)
    ensures AllDigits(seq(z, _ => '0') + s)
    ensures ValueOf(seq(z, _ => '0') + s) == ValueOf(s)
  {
    var zs: string := seq(z, _ => '0');
    if s == [] {
      assert zs + s == zs;
      ZerosValue(z);
    } else {
      var init := s[..|s| - 1];
      assert (zs + s)[..|zs + s| - 1] == zs + init;
      LeadingZeros(z, init);
    }
  }

  lemma {:induction false} ZerosValue(z: nat)
    ensures AllDigits(seq(z, _ => '0'))
    ensures ValueOf(seq(z, _ => '0')) == 0
  {
    if z > 0 {
      var zs: string := seq(z, _ => '0');
      assert zs[..z - 1] == seq(z - 1, _ => '0');
      ZerosValue(z - 1);
    }
  }

  /** A field is at least two digits long, left-padded with '0', and denotes n. */
  lemma FieldDenotes(n: nat)
    ensures |Field(n)| >= 2 && AllDigits(Field(n))
    ensures ValueOf(Field(n)) == n
    ensures n < 100 ==> |Field(n)| == 2
    ensures |Field(n)| > 2 ==> Field(n) == Decimal(n)
    ensures n < 10 ==> Field(n)[0] == '0'
  {
    var d := Decimal(n);
    DecimalRoundTrip(n);
    if |d| < 2 {
      LeadingZeros(2 - |d|, d);
    }
    if n < 100 && n >= 10 {
      assert d == Decimal(n / 10) + [DigitChar(n % 10)];
    }
  }

  /**
   * The rendered string is H ":" MM ":" SS where every field is at least
   * two digits, MM and SS are exactly two with values below 60, and
   * H * 3600 + MM * 60 + SS is the whole number of seconds (never negative);
   * H carries a leading zero only when it is two digits long.
   */
  lemma FormatDurationFields(ms: int)
    ensures var r := FormatDuration(ms); var n := |r|;
      && n >= 8 && r[n - 6] == ':' && r[n - 3] == ':'
      && n - 6 >= 2
      && AllDigits(r[..n - 6]) && AllDigits(r[n - 5..n - 3]) && AllDigits(r[n - 2..])
      && ValueOf(r[n - 5..n - 3]) < 60 && ValueOf(r[n - 2..]) < 60
      && ValueOf(r[..n - 6]) * 3600 + ValueOf(r[n - 5..n - 3]) * 60 + ValueOf(r[n - 2..]) == TotalSeconds(ms)
      && (n - 6 == 2 || r[0] != '0')
  {
    var t := TotalSeconds(ms);
    FieldDenotes(t / 3600);
    FieldDenotes(t % 3600 / 60);
    FieldDenotes(t % 60);
    SplitFields(Field(t / 3600), Field(t % 3600 / 60), Field(t % 60));
    SecondsSplit(t);
  }

  /** Where the two separators sit when the last two fields are two characters long. */
  lemma SplitFields(h: string, m: string, s: string)
    requires |h| >= 2 && |m| == 2 && |s| == 2
    ensures var r := h + ":" + m + ":" + s; var n := |r|;
      && n >= 8 && r[n - 6] == ':' && r[n - 3] == ':'
      && r[..n - 6] == h && r[n - 5..n - 3] == m && r[n - 2..] == s
  {
    var r := h + ":" + m + ":" + s;
    var n := |r|;
    assert r[..n - 6] == h;
    assert r[n - 5..n - 3] == m;
    assert r[n - 2..] == s;
  }

  lemma SecondsSplit(t: nat)
    ensures t / 3600 * 3600 + t % 3600 / 60 * 60 + t % 60 == t
    ensures t % 3600 / 60 < 60
  {
    var q, rest := t / 3600, t % 3600;
    assert t == q * 3600 + rest;
    assert rest == rest / 60 * 60 + rest % 60;
    assert rest % 60 == t % 60 by {
      assert t == (q * 60 + rest / 60) * 60 + rest % 60;
    }
  }

  /** Any negative or sub-second count renders as all zeros. */
  lemma SubSecondIsZero(ms: int)
    requires ms < 1000
    ensures FormatDuration(ms) == "00:00:00"
  {
    assert TotalSeconds(ms) == 0;
    assert Field(0) == "00";
  }

  /** A remainder below one second is dropped, never rounded up. */
  lemma FormatDurationTruncates(seconds: int, extra: int)
    requires 0 <= extra < 1000
    ensures FormatDuration(seconds * 1000 + extra) == FormatDuration(seconds * 1000)
  {
    assert (seconds * 1000 + extra) / 1000 == seconds;
    assert (seconds * 1000) / 1000 == seconds;
  }
}
