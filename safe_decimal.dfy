/** `safe_decimal` (management/commands/import_projects.py): coerce whatever a
    spreadsheet cell holds into an exact decimal by parsing `str(value)`,
    falling back to 0.00 when the text is not a decimal literal.
    Decimals are exact rationals (`real`). */
module SafeDecimal {
  import opened Digits
  import opened Optional

  /** What a worksheet cell can hold once it is not empty. A float is carried
      by the text `str()` gives for it (its shortest round-tripping repr); a
      date-time cell by the text `str()` gives for the datetime object. */
  datatype CellValue =
    | IntValue(i: int)
    | FloatValue(repr: string)
    | TextValue(s: string)
    | BoolValue(b: bool)
    | DateTimeValue(text: string)

  /** Python's `str(value)` for each kind of cell value. */
  function Str(v: CellValue): (s: string)
    ensures v.IntValue? ==> s == IntToString(v.i)
    ensures v.BoolValue? ==> s == (if v.b then "True" else "False")
  {
    match v
    case IntValue(i) => IntToString(i)
    case FloatValue(repr) => repr
    case TextValue(t) => t
    case BoolValue(b) => if b then "True" else "False"
    case DateTimeValue(text) => text
  }

  predicate IsSign(c: char) { c == '+' || c == '-' }

  /** Index of the first occurrence of c in s. */
  function IndexOf(s: string, c: char): (k: nat)
    requires c in s
    ensures k < |s| && s[k] == c && c !in s[..k]
  {
    if s[0] == c then 0 else 1 + IndexOf(s[1..], c)
  }

  /** n shifted k places right of the decimal point: n / 10^k. */
  function Shifted(n: nat, k: nat): (r: real)
    ensures r >= 0.0
  {
    if k == 0 then n as real else Shifted(n, k - 1) / 10.0
  }

  /** Shifting k places divides by 10^k. */
  lemma {:induction false} ShiftedScales(n: nat, k: nat)
    ensures Shifted(n, k) * Pow10(k) as real == n as real
  {
    if k > 0 {
      ShiftedScales(n, k - 1);
      assert Pow10(k) == 10 * Pow10(k - 1);
    }
  }

  /** The number `whole.frac` spells. */
  function PointValue(whole: string, frac: string): real
    requires AllDigits(whole) && AllDigits(frac)
  {
    DigitsValue(whole) as real + Shifted(DigitsValue(frac), |frac|)
  }

  /** The value of an unsigned decimal literal: digits, or digits with a
      decimal point and at least one digit on either side of it. */
  function ParseUnsigned(b: string): (r: Option<real>)
    ensures r.Some? ==> b != [] && r.value >= 0.0
  {
    if '.' !in b then
      if b != [] && AllDigits(b) then Some(DigitsValue(b) as real) else None
    else
      var k := IndexOf(b, '.');
      var whole, frac := b[..k], b[k + 1..];
      if AllDigits(whole) && AllDigits(frac) && (whole != [] || frac != []) then
        Some(PointValue(whole, frac))
      else None
  }

  /** `Decimal(text)` restricted to an optional sign followed by an unsigned
      literal; None where the constructor raises InvalidOperation. */
  function ParseDecimal(s: string): (r: Option<real>)
    ensures r.Some? ==> s != [] && (r.value < 0.0 ==> s[0] == '-')
    ensures r.Some? && s[0] == '-' ==> r.value <= 0.0
  {
    if s != [] && IsSign(s[0]) then
      match ParseUnsigned(s[1..])
      case Some(v) => Some(if s[0] == '-' then -v else v)
      case None => None
    else ParseUnsigned(s)
  }

  /** `str(value)` for a cell's `.value`, which is None for an empty cell. */
  function PyStr(value: Option<CellValue>): string
  {
    match value
    case None => "None"
    case Some(v) => Str(v)
  }

  /** `safe_decimal(value)`: the decimal `str(value)` spells, else 0.00. */
  function ToDecimal(value: Option<CellValue>): (d: real)
    ensures ParseDecimal(PyStr(value)).Some? ==> d == ParseDecimal(PyStr(value)).value
    ensures d != 0.0 ==> ParseDecimal(PyStr(value)) == Some(d)
    ensures ParseDecimal(PyStr(value)).None? ==> d == 0.0
    ensures d < 0.0 ==> PyStr(value) != [] && PyStr(value)[0] == '-'
  {
    match ParseDecimal(PyStr(value))
    case Some(d) => d
    case None => 0.0
  }

  /** Only digits, a point and one leading sign ever parse. */
  lemma ParsedCharacters(s: string)
    requires ParseDecimal(s).Some?
    ensures forall i :: 0 <= i < |s| ==> IsDigit(s[i]) || s[i] == '.' || (i == 0 && IsSign(s[i]))
  {
    var b := if s != [] && IsSign(s[0]) then s[1..] else s;
    UnsignedCharacters(b);
  }

  lemma UnsignedCharacters(b: string)
    requires ParseUnsigned(b).Some?
    ensures forall i :: 0 <= i < |b| ==> IsDigit(b[i]) || b[i] == '.'
  {
    if '.' in b {
      var k := IndexOf(b, '.');
      forall i | 0 <= i < |b| ensures IsDigit(b[i]) || b[i] == '.' {
        if i < k { assert b[i] == b[..k][i]; }
        else if i > k { assert b[i] == b[k + 1..][i - k - 1]; }
      }
    }
  }

  /** A formula left unevaluated in a cell ("100+1", "=A1*2", "10/4") is never
      read as a number: any operator character after the first position, or
      `*` or `/` anywhere, makes the coerced value 0.00. */
  lemma FormulaTextIsZero(s: string, i: nat)
    requires i < |s|
    requires s[i] == '*' || s[i] == '/' || (i > 0 && IsSign(s[i]))
    ensures ParseDecimal(s) == None
    ensures ToDecimal(Some(TextValue(s))) == 0.0
  {
    if ParseDecimal(s).Some? {
      ParsedCharacters(s);
      assert false;
    }
  }

  /** Coercing a Python int gives exactly that integer. */
  lemma {:induction false} IntCellIsExact(i: int)
    ensures ToDecimal(Some(IntValue(i))) == i as real
  {
    var n: nat := if i < 0 then -i else i;
    var t := NatToString(n);
    NatToStringValue(n);
    DigitsHaveNoPoint(t);
    assert ParseUnsigned(t) == Some(n as real);
    if i < 0 {
      assert Str(IntValue(i)) == "-" + t;
      assert ("-" + t)[1..] == t;
    }
  }

  /** Text made only of digits holds no decimal point. */
  lemma DigitsHaveNoPoint(s: string)
    requires AllDigits(s)
    ensures '.' !in s
  {
    forall i | 0 <= i < |s| ensures s[i] != '.' { assert IsDigit(s[i]); }
  }

  lemma {:induction false} IndexOfFirst(s: string, c: char, k: nat)
    requires k < |s| && s[k] == c && c !in s[..k]
    ensures IndexOf(s, c) == k
  {
    if k > 0 {
      assert s[0] == s[..k][0];
      var rest := s[1..][..k - 1];
      assert c !in rest by {
        forall j | 0 <= j < |rest| ensures rest[j] != c { assert rest[j] == s[..k][j + 1]; }
      }
      IndexOfFirst(s[1..], c, k - 1);
    }
  }

  /** The unsigned literal `whole.frac` has the value it spells. */
  lemma UnsignedFixedPoint(whole: string, frac: string)
    requires AllDigits(whole) && AllDigits(frac) && (whole != [] || frac != [])
    ensures ParseUnsigned(whole + "." + frac) == Some(PointValue(whole, frac))
  {
    var b := whole + "." + frac;
    DigitsHaveNoPoint(whole);
    assert b[..|whole|] == whole;
    assert b[|whole|] == '.';
    IndexOfFirst(b, '.', |whole|);
    assert b[|whole| + 1..] == frac;
    ParseUnsignedSplit(b, |whole|);
  }

  /** ParseUnsigned when the first point is at index k. */
  lemma ParseUnsignedSplit(b: string, k: nat)
    requires k < |b| && '.' in b && IndexOf(b, '.') == k
    requires AllDigits(b[..k]) && AllDigits(b[k + 1..]) && (k > 0 || k + 1 < |b|)
    ensures ParseUnsigned(b) == Some(PointValue(b[..k], b[k + 1..]))
  {
  }

  /** A fixed-point literal `whole.frac` (what `str()` gives for a float such
      as 10.1), optionally signed, coerces to exactly the decimal it spells,
      never to the nearest binary fraction. */
  lemma FixedPointIsExact(sign: string, whole: string, frac: string)
    requires sign == "" || sign == "-" || sign == "+"
    requires AllDigits(whole) && AllDigits(frac) && (whole != [] || frac != [])
    ensures ParseDecimal(sign + whole + "." + frac)
         == Some(if sign == "-" then -PointValue(whole, frac) else PointValue(whole, frac))
  {
    UnsignedFixedPoint(whole, frac);
    if sign == "" {
      UnsignedParse(whole, frac, PointValue(whole, frac));
      assert sign + whole == whole;
    } else {
      SignedParse(sign[0], whole, frac, PointValue(whole, frac));
      assert sign == [sign[0]];
    }
  }

  /** An integer literal without a point, optionally signed (such as "007"
      or "+12", a number stored as text), parses to the value of its digits,
      and a text cell holding it coerces to exactly that value. */
  lemma IntegerLiteralIsExact(sign: string, b: string)
    requires sign == "" || sign == "-" || sign == "+"
    requires AllDigits(b) && b != []
    ensures ParseDecimal(sign + b)
         == Some(if sign == "-" then -(DigitsValue(b) as real) else DigitsValue(b) as real)
    ensures ToDecimal(Some(TextValue(sign + b)))
         == if sign == "-" then -(DigitsValue(b) as real) else DigitsValue(b) as real
  {
    DigitsHaveNoPoint(b);
    assert ParseUnsigned(b) == Some(DigitsValue(b) as real);
    if sign == "" {
      assert sign + b == b;
      assert IsDigit(b[0]);
    } else {
      assert (sign + b)[0] == sign[0] && (sign + b)[1..] == b;
    }
  }

  lemma SignedParse(sign: char, whole: string, frac: string, v: real)
    requires IsSign(sign) && ParseUnsigned(whole + "." + frac) == Some(v)
    ensures ParseDecimal([sign] + whole + "." + frac) == Some(if sign == '-' then -v else v)
  {
    assert ([sign] + whole + "." + frac)[1..] == whole + "." + frac;
  }

  lemma UnsignedParse(whole: string, frac: string, v: real)
    requires AllDigits(whole) && ParseUnsigned(whole + "." + frac) == Some(v)
    ensures ParseDecimal(whole + "." + frac) == Some(v)
  {
    var b := whole + "." + frac;
    if whole != [] { assert b[0] == whole[0] && IsDigit(whole[0]); }
    else { assert b[0] == '.'; }
  }

  /** The float 10.1, whose repr is "10.1", becomes the decimal 10.1 exactly. */
  lemma FloatTenPointOne()
    ensures ToDecimal(Some(FloatValue("10.1"))) == 10.1
  {
    FixedPointIsExact("", "10", "1");
    assert "" + "10" + "." + "1" == "10.1";
    assert ParseDecimal("10.1") == Some(PointValue("10", "1"));
    assert DigitsValue("1") == 1;
    assert DigitsValue("10") == 10 by { assert "10"[..1] == "1"; }
    assert PointValue("10", "1") == 10.1;
    assert PyStr(Some(FloatValue("10.1"))) == "10.1";
  }

  /** Unlike a blanket rejection of text containing `+` or `-`, a single
      leading sign is accepted: the text "-5" coerces to -5. */
  lemma LeadingSignAccepted()
    ensures ToDecimal(Some(TextValue("-5"))) == -5.0
    ensures ToDecimal(Some(TextValue("+5"))) == 5.0
  {
    assert "-5"[1..] == "5";
    assert "+5"[1..] == "5";
    assert '.' !in "5";
  }

  /** Booleans print as "True"/"False" and an empty cell as "None"; none of
      them parses, so each counts as 0.00. */
  lemma NonNumericWordsAreZero(value: Option<CellValue>)
    requires value.None? || value.value.BoolValue?
    ensures ToDecimal(value) == 0.0
  {
    var s := PyStr(value);
    assert !IsDigit(s[0]) && s[0] != '.' && !IsSign(s[0]);
    if ParseDecimal(s).Some? { ParsedCharacters(s); }
  }
}
