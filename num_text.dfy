/** Decimal and hexadecimal text: the renderings the system writes
    ("0x%02X" register keys, "%02d" clock fields, "HH:MM" times) and the
    parsers it applies to descriptor keys and stored times (Python's int(s),
    int(s, 16) and str.split). Only plain digit strings are modelled. */
module NumText {
  import opened Wrappers

  predicate IsDecDigit(c: char) { '0' <= c <= '9' }

  predicate IsHexDigit(c: char) { IsDecDigit(c) || 'a' <= c <= 'f' || 'A' <= c <= 'F' }

  function HexDigitValue(c: char): (d: nat)
    requires IsHexDigit(c)
    ensures d < 16
    ensures d < 10 <==> IsDecDigit(c)
  {
    if IsDecDigit(c) then c as int - '0' as int
    else if 'a' <= c <= 'f' then c as int - 'a' as int + 10
    else c as int - 'A' as int + 10
  }

  predicate IsBase(base: nat) { base == 10 || base == 16 }

  /** Every character is a digit of the given base. */
  predicate AllDigits(s: string, base: nat)
    requires IsBase(base)
  {
    forall i :: 0 <= i < |s| ==> IsHexDigit(s[i]) && HexDigitValue(s[i]) < base
  }

  /** Positional value of a digit string, most significant digit first. */
  function DigitsValue(s: string, base: nat): nat
    requires IsBase(base) && AllDigits(s, base)
  {
    if s == [] then 0 else DigitsValue(s[..|s| - 1], base) * base + HexDigitValue(s[|s| - 1])
  }

  /** Python's int(s) on a decimal string; None where Python raises ValueError. */
  function ParseDecimal(s: string): Option<nat> {
    if s != [] && AllDigits(s, 10) then Some(DigitsValue(s, 10)) else None
  }

  predicate HasHexPrefix(s: string) { |s| >= 2 && s[0] == '0' && (s[1] == 'x' || s[1] == 'X') }

  /** Python's int(s, 16): an optional "0x"/"0X" prefix, then hex digits. */
  function ParseHex(s: string): Option<nat> {
    var body := if HasHexPrefix(s) then s[2..] else s;
    if body != [] && AllDigits(body, 16) then Some(DigitsValue(body, 16)) else None
  }

  /** The enum-key rule `int(k, 16) if k.startswith("0x") else int(k)`. */
  function ParseEnumKey(k: string): Option<nat> {
    if |k| >= 2 && k[..2] == "0x" then ParseHex(k) else ParseDecimal(k)
  }

  /** Upper-case digit character of a value below 16. */
  function DigitChar(d: nat): (c: char)
    requires d < 16
    ensures IsHexDigit(c) && HexDigitValue(c) == d
  {
    if d < 10 then ('0' as int + d) as char else ('A' as int + d - 10) as char
  }

  /** Digits of n in the given base without leading zeros ("0" for zero). */
  function Digits(n: nat, base: nat): string
    requires IsBase(base)
  {
    if n < base then [DigitChar(n)] else Digits(n / base, base) + [DigitChar(n % base)]
  }

  /** str(n) for a non-negative integer. */
  function DecText(n: nat): string { Digits(n, 10) }

  /** The register key format "0x%02X": upper-case hex, at least two digits. */
  function HexKey(n: nat): string {
    "0x" + (if n < 16 then "0" else "") + Digits(n, 16)
  }

  /** "%02d" for a value below 100. */
  function TwoDigits(n: nat): string
    requires n < 100
  {
    [DigitChar(n / 10), DigitChar(n % 10)]
  }

  /** The "HH:MM" text the plugins store for a time of day. */
  function ClockText(hour: nat, minute: nat): string
    requires hour < 100 && minute < 100
  {
    TwoDigits(hour) + ":" + TwoDigits(minute)
  }

  /** Python's s.split(sep) for a one-character separator. */
  function Fields(s: string, sep: char): (r: seq<string>)
    ensures |r| >= 1
  {
    if s == [] then [[]]
    else
      var rest := Fields(s[1..], sep);
      if s[0] == sep then [[]] + rest else [[s[0]] + rest[0]] + rest[1..]
  }

  /** `hour, minute = map(int, s.split(":"))`: None where Python raises. */
  function ParseClock(s: string): Option<(nat, nat)> {
    var parts := Fields(s, ':');
    if |parts| != 2 then None
    else match (ParseDecimal(parts[0]), ParseDecimal(parts[1]))
      case (Some(h), Some(m)) => Some((h, m))
      case _ => None
  }

  // ---------------------------------------------------------------- lemmas

  lemma {:induction false} DigitsRoundTrip(n: nat, base: nat)
    requires IsBase(base)
    ensures var s := Digits(n, base); s != [] && AllDigits(s, base) && DigitsValue(s, base) == n
  {
    var s := Digits(n, base);
    if n >= base {
      DigitsRoundTrip(n / base, base);
      assert s[..|s| - 1] == Digits(n / base, base);
    }
  }

  /** A leading zero does not change the value of a digit string. */
  lemma {:induction false} LeadingZero(s: string, base: nat)
    requires IsBase(base) && AllDigits(s, base)
    ensures AllDigits("0" + s, base) && DigitsValue("0" + s, base) == DigitsValue(s, base)
  {
    var z := "0" + s;
    if s != [] {
      LeadingZero(s[..|s| - 1], base);
      assert z[..|z| - 1] == "0" + s[..|s| - 1];
    }
  }

  lemma DecTextParses(n: nat)
    ensures ParseDecimal(DecText(n)) == Some(n)
  {
    DigitsRoundTrip(n, 10);
  }

  /** Register keys written as "0x%02X" parse back under int(k, 16) and the enum-key rule. */
  lemma HexKeyParses(n: nat)
    ensures ParseHex(HexKey(n)) == Some(n)
    ensures ParseEnumKey(HexKey(n)) == Some(n)
  {
    var d := Digits(n, 16);
    DigitsRoundTrip(n, 16);
    var body := (if n < 16 then "0" else "") + d;
    assert HexKey(n) == "0x" + body;
    assert HexKey(n)[2..] == body;
    if n < 16 {
      LeadingZero(d, 16);
    }
  }

  lemma HexKeyInjective(a: nat, b: nat)
    ensures HexKey(a) == HexKey(b) <==> a == b
  {
    if HexKey(a) == HexKey(b) {
      HexKeyParses(a);
      HexKeyParses(b);
    }
  }

  /** Decimal keys without the "0x" prefix parse as decimal under the enum-key rule. */
  lemma DecTextEnumKey(n: nat)
    ensures ParseEnumKey(DecText(n)) == Some(n)
  {
    DigitsRoundTrip(n, 10);
    var s := DecText(n);
    if |s| >= 2 {
      assert IsDecDigit(s[1]);
      assert s[..2] != "0x" by { assert s[..2][1] == s[1]; }
    }
  }

  lemma TwoDigitsParse(n: nat)
    requires n < 100
    ensures ParseDecimal(TwoDigits(n)) == Some(n)
    ensures forall i :: 0 <= i < |TwoDigits(n)| ==> TwoDigits(n)[i] != ':'
  {
    var s := TwoDigits(n);
    assert s[..1] == [DigitChar(n / 10)];
    assert s[..1][..0] == [];
    assert DigitsValue(s[..1], 10) == n / 10;
    assert DigitsValue(s, 10) == (n / 10) * 10 + n % 10;
  }

  lemma {:induction false} FieldsNoSep(s: string, sep: char)
    requires forall i :: 0 <= i < |s| ==> s[i] != sep
    ensures Fields(s, sep) == [s]
  {
    if s != [] {
      FieldsNoSep(s[1..], sep);
      assert [s[0]] + s[1..] == s;
    }
  }

  lemma {:induction false} FieldsSplit(a: string, sep: char, b: string)
    requires forall i :: 0 <= i < |a| ==> a[i] != sep
    ensures Fields(a + [sep] + b, sep) == [a] + Fields(b, sep)
  {
    if a == [] {
      assert (a + [sep] + b)[1..] == b;
    } else {
      var t := a + [sep] + b;
      FieldsSplit(a[1..], sep, b);
      assert t[1..] == a[1..] + [sep] + b;
      var rest := Fields(t[1..], sep);
      assert rest == [a[1..]] + Fields(b, sep);
      assert [a[0]] + a[1..] == a;
      assert Fields(t, sep) == [[a[0]] + rest[0]] + rest[1..];
    }
  }

  /** Reading back a stored "HH:MM" text gives the same hour and minute. */
  lemma ClockRoundTrip(hour: nat, minute: nat)
    requires hour < 100 && minute < 100
    ensures ParseClock(ClockText(hour, minute)) == Some((hour, minute))
  {
    TwoDigitsParse(hour);
    TwoDigitsParse(minute);
    FieldsNoSep(TwoDigits(minute), ':');
    FieldsSplit(TwoDigits(hour), ':', TwoDigits(minute));
  }
}
