/**
  Input rows as the ingestion step hands them to the pollution-index engine:
  loosely typed cells keyed by column name, together with the JavaScript
  coercions the engine applies to them (truthiness, `||`, `parseFloat(v) || 0`)
  and the decimal rendering used in synthesized sample labels.
 */
module Rows {

  datatype Option<T> = None | Some(value: T)

  /** A cell value: a number, a string, a boolean (CSV parsing with dynamic
      typing produces them) or absent (`undefined` / `null`). Numbers are exact
      reals; NaN and infinities are not modelled. */
  datatype Value = Num(x: real) | Str(s: string) | Bool(b: bool) | Absent

  /** One row: its column names in `Object.keys` order, each with its value. */
  type Row = seq<(string, Value)>

  /** JavaScript truthiness of a cell value: the falsy cells are 0, the
      empty string, `false` and an absent value. */
  predicate Truthy(v: Value)
    ensures Truthy(v) <==> v !in {Num(0.0), Str(""), Bool(false), Absent}
  {
    match v
    case Num(x) => x != 0.0
    case Str(s) => s != ""
    case Bool(b) => b
    case Absent => false
  }

  /** The JavaScript expression `a || b`: the left operand when it is truthy,
      the right one otherwise, so it is truthy exactly when either operand is. */
  function Or(a: Value, b: Value): (r: Value)
    ensures r == a || r == b
    ensures Truthy(a) ==> r == a
    ensures !Truthy(a) ==> r == b
    ensures Truthy(r) <==> Truthy(a) || Truthy(b)
  {
    if Truthy(a) then a else b
  }

  /** `row[key]`: the value stored under `key`, or absent when there is none.
      A JavaScript object has distinct keys; should the sequence repeat one,
      its first entry wins. */
  function Get(row: Row, key: string): (v: Value)
    ensures v != Absent ==> exists i :: 0 <= i < |row| && row[i] == (key, v)
  {
    if row == [] then Absent
    else if row[0].0 == key then row[0].1
    else Get(row[1..], key)
  }

  /** The first entry with the key is the one read. */
  lemma {:induction false} GetFirst(row: Row, key: string, i: nat)
    requires i < |row| && row[i].0 == key
    requires forall j | 0 <= j < i :: row[j].0 != key
    ensures Get(row, key) == row[i].1
  {
    if i > 0 {
      GetFirst(row[1..], key, i - 1);
    }
  }

  /** A key the row does not have reads as absent. */
  lemma {:induction false} GetMissing(row: Row, key: string)
    requires forall j | 0 <= j < |row| :: row[j].0 != key
    ensures Get(row, key) == Absent
  {
    if row != [] {
      GetMissing(row[1..], key);
    }
  }

  predicate IsDigit(c: char) {
    '0' <= c <= '9'
  }

  function DigitValue(c: char): (d: nat)
    requires IsDigit(c)
    ensures d < 10
  {
    c as int - '0' as int
  }

  function DigitChar(d: nat): (c: char)
    requires d < 10
    ensures IsDigit(c) && DigitValue(c) == d
  {
    ('0' as int + d) as char
  }

  /** White space that `parseFloat` skips before the number. */
  predicate IsSpace(c: char) {
    c == ' ' || c == '\t' || c == '\n' || c == '\r' || c == '\U{B}' || c == '\U{C}'
  }

  /** The string with its leading white space removed. */
  function TrimStart(s: string): (t: string)
    ensures |t| <= |s| && t == s[|s| - |t|..]
    ensures forall i | 0 <= i < |s| - |t| :: IsSpace(s[i])
    ensures t == [] || !IsSpace(t[0])
  {
    if s != [] && IsSpace(s[0]) then TrimStart(s[1..]) else s
  }

  /** The length of the longest prefix of `s` made of decimal digits. */
  function LeadingDigits(s: string): (n: nat)
    ensures n <= |s|
    ensures forall i | 0 <= i < n :: IsDigit(s[i])
    ensures n < |s| ==> !IsDigit(s[n])
  {
    if s != [] && IsDigit(s[0]) then 1 + LeadingDigits(s[1..]) else 0
  }

  /** The natural number a string of decimal digits denotes. */
  function DigitsValue(ds: string): nat
    requires forall i | 0 <= i < |ds| :: IsDigit(ds[i])
  {
    if ds == [] then 0 else DigitsValue(ds[..|ds| - 1]) * 10 + DigitValue(ds[|ds| - 1])
  }

  /** The value of the digits after a decimal point: ".d1d2…" is (d1 + ".d2…") / 10. */
  function FractionValue(ds: string): (x: real)
    requires forall i | 0 <= i < |ds| :: IsDigit(ds[i])
    ensures 0.0 <= x < 1.0
  {
    if ds == [] then 0.0 else (DigitValue(ds[0]) as real + FractionValue(ds[1..])) / 10.0
  }

  /** An unsigned decimal literal `digits[.digits]` at the start of `s`
      (at least one digit on either side of the point), or None. */
  function ParseUnsigned(s: string): (r: Option<real>)
    ensures r.Some? ==> r.value >= 0.0
    ensures r.Some? <==> LeadingDigits(s) > 0 || (LeadingDigits(s) < |s| && s[LeadingDigits(s)] == '.' && LeadingDigits(s[LeadingDigits(s) + 1..]) > 0)
  {
    var n := LeadingDigits(s);
    var whole := DigitsValue(s[..n]) as real;
    if n < |s| && s[n] == '.' then
      var f := LeadingDigits(s[n + 1..]);
      if n == 0 && f == 0 then None
      else Some(whole + FractionValue(s[n + 1..][..f]))
    else if n == 0 then None
    else Some(whole)
  }

  /** JavaScript `parseFloat` on a string: skip leading white space, read an
      optional sign and the longest decimal literal, ignore what follows;
      None stands for NaN. */
  function ParseFloat(s: string): (r: Option<real>)
    ensures r.Some? && r.value < 0.0 ==> TrimStart(s) != [] && TrimStart(s)[0] == '-'
  {
    var t := TrimStart(s);
    if t != [] && t[0] == '-' then
      match ParseUnsigned(t[1..])
      case Some(x) => Some(-x)
      case None => None
    else if t != [] && t[0] == '+' then ParseUnsigned(t[1..])
    else ParseUnsigned(t)
  }

  /** `parseFloat(v) || 0`: the number a cell holds, 0 when it holds none. */
  function Coerce(v: Value): (x: real)
    ensures v.Bool? || v.Absent? ==> x == 0.0
    ensures v.Str? && x != 0.0 ==> ParseFloat(v.s) == Some(x)
    ensures v.Num? ==> x == v.x
    ensures v.Str? && ParseFloat(v.s).Some? ==> x == ParseFloat(v.s).value
  {
    match v
    case Num(x) => x
    case Str(s) => (match ParseFloat(s) case Some(x) => x case None => 0.0)
    case Bool(_) => 0.0
    case Absent => 0.0
  }

  /** The empty string has no number to read. */
  lemma ParseFloatBlank()
    ensures ParseFloat("") == None
  {
    assert TrimStart("") == "";
  }

  /** A string starting with a letter has no number to read. */
  lemma ParseFloatText()
    ensures ParseFloat("n/a") == None
  {
    var t := "n/a";
    assert TrimStart(t) == t by { assert !IsSpace(t[0]); }
    assert LeadingDigits(t) == 0 by { assert !IsDigit(t[0]); }
    assert t[0] != '-' && t[0] != '+' && t[0] != '.';
  }

  /** A blank or non-numeric string coerces to 0. */
  lemma CoerceNonNumeric()
    ensures Coerce(Str("")) == 0.0
    ensures Coerce(Str("n/a")) == 0.0
  {
    ParseFloatBlank();
    ParseFloatText();
  }

  /** A literal `digits.digits` is read as the whole part plus the fraction. */
  lemma ParseUnsignedFraction(s: string, n: nat, f: nat)
    requires n < |s| && LeadingDigits(s) == n && s[n] == '.'
    requires LeadingDigits(s[n + 1..]) == f && 0 < f
    ensures ParseUnsigned(s) == Some(DigitsValue(s[..n]) as real + FractionValue(s[n + 1..][..f]))
  {
    var whole := DigitsValue(s[..n]) as real;
    var fraction := FractionValue(s[n + 1..][..f]);
    assert n < |s| && s[n] == '.' && !(n == 0 && f == 0);
    assert ParseUnsigned(s) == Some(whole + fraction);
  }

  lemma LeadingDigitsOfPrefix()
    ensures LeadingDigits("0.02 mg/L") == 1
    ensures LeadingDigits("02 mg/L") == 2
  {
    assert LeadingDigits(" mg/L") == 0;
    assert "2 mg/L"[1..] == " mg/L";
    assert "02 mg/L"[1..] == "2 mg/L";
    assert LeadingDigits(".02 mg/L") == 0;
    assert "0.02 mg/L"[1..] == ".02 mg/L";
  }

  lemma ParseUnsignedPrefix()
    ensures ParseUnsigned("0.02 mg/L") == Some(0.02)
  {
    var t := "0.02 mg/L";
    LeadingDigitsOfPrefix();
    assert t[2..] == "02 mg/L";
    assert "02 mg/L"[..2] == "02";
    assert t[..1] == "0";
    assert FractionValue("02") == 0.02 by {
      assert "02"[1..] == "2" && "2"[1..] == "";
    }
    assert DigitsValue("0") == 0 by { assert "0"[..0] == ""; }
    ParseUnsignedFraction(t, 1, 2);
  }

  lemma TrimStartPrefix()
    ensures TrimStart(" 0.02 mg/L") == "0.02 mg/L"
  {
    var t := "0.02 mg/L";
    assert " 0.02 mg/L"[1..] == t;
    assert !IsSpace(t[0]);
  }

  /** A numeric prefix after white space is read and the rest ignored. */
  lemma CoerceNumericPrefix()
    ensures Coerce(Str(" 0.02 mg/L")) == 0.02
  {
    var t := "0.02 mg/L";
    TrimStartPrefix();
    ParseUnsignedPrefix();
    assert t[0] == '0';
    assert ParseFloat(" 0.02 mg/L") == Some(0.02);
  }

  lemma ParseUnsignedBareFraction()
    ensures ParseUnsigned(".5") == Some(0.5)
  {
    assert LeadingDigits(".5") == 0;
    assert ".5"[1..] == "5";
    assert LeadingDigits("5") == 1 by { assert "5"[1..] == ""; }
    assert ".5"[..0] == "" && "5"[..1] == "5";
    assert FractionValue("5") == 0.5 by { assert "5"[1..] == ""; }
    ParseUnsignedFraction(".5", 0, 1);
  }

  /** A sign and a bare fraction are accepted. */
  lemma CoerceSignedFraction()
    ensures Coerce(Str("-.5")) == -0.5
  {
    assert TrimStart("-.5") == "-.5" by { assert !IsSpace("-.5"[0]); }
    assert "-.5"[1..] == ".5";
    ParseUnsignedBareFraction();
  }

  /** Decimal rendering of a natural number, as a template literal prints it:
      digits only, with no leading zero. */
  function NatToString(n: nat): (s: string)
    ensures s != []
    ensures forall i | 0 <= i < |s| :: IsDigit(s[i])
    ensures |s| == 1 || s[0] != '0'
  {
    if n < 10 then [DigitChar(n)] else NatToString(n / 10) + [DigitChar(n % 10)]
  }

  lemma {:induction false} DigitsValueOfNatToString(n: nat)
    ensures DigitsValue(NatToString(n)) == n
  {
    var s := NatToString(n);
    if n < 10 {
      assert s[..0] == [];
    } else {
      assert s[..|s| - 1] == NatToString(n / 10);
      DigitsValueOfNatToString(n / 10);
    }
  }

  lemma {:induction false} LeadingDigitsAll(s: string)
    requires forall i | 0 <= i < |s| :: IsDigit(s[i])
    ensures LeadingDigits(s) == |s|
  {
    if s != [] {
      LeadingDigitsAll(s[1..]);
    }
  }

  /** `parseFloat` reads back what the decimal rendering prints. */
  lemma ParseFloatNatToString(n: nat)
    ensures ParseFloat(NatToString(n)) == Some(n as real)
  {
    DigitsValueOfNatToString(n);
    ParseFloatDigits(NatToString(n));
  }

  /** A non-empty string of digits parses to the number it denotes. */
  lemma ParseFloatDigits(s: string)
    requires s != [] && forall i | 0 <= i < |s| :: IsDigit(s[i])
    ensures ParseFloat(s) == Some(DigitsValue(s) as real)
  {
    assert !IsSpace(s[0]) && s[0] != '-' && s[0] != '+';
    assert TrimStart(s) == s;
    ParseUnsignedDigits(s);
  }

  lemma ParseUnsignedDigits(s: string)
    requires s != [] && forall i | 0 <= i < |s| :: IsDigit(s[i])
    ensures ParseUnsigned(s) == Some(DigitsValue(s) as real)
  {
    LeadingDigitsAll(s);
    assert s[..|s|] == s;
    assert s[|s|..] == [];
  }
}
