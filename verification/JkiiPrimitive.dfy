/** Which primitives have a type: `_jkii_to_jkii_field_type` of ebisu/jkii/src/jkii.c. */
module JkiiPrimitive {
  import opened Text

  datatype FieldType = NullType | BooleanType | IntegerType | LongType | DoubleType | Unknown

  /** The longest texts that are looked at: as long as the text of INT_MAX or LONG_MAX, as limits.h writes
      it, with a terminator and one more (with gcc on a 64-bit machine), and 308 + 3 for DBL_MAX. */
  const INT_BUFFER := 12
  const LONG_BUFFER := 21
  const DOUBLE_BUFFER := 311

  predicate IsDigit(c: char) { '0' <= c <= '9' }

  predicate AllDigits(s: string) { forall i :: 0 <= i < |s| ==> IsDigit(s[i]) }

  predicate IsInteger(s: string, size: nat) {
    |s| <= size && AllDigits(if s != "" && s[0] == '-' then s[1..] else s)
  }

  // ---------------------------------------------------------------------------------------------
  // Numbers

  /** The states of `_jkii_is_double`. */
  datatype Scanner = Sign | IntegerStart | Integer0 | Integer | Fraction | ExpStart | Exp

  function Scan(st: Scanner, c: char): Option<Scanner> {
    match st
    case Sign => if c == '-' then Some(IntegerStart) else ScanFirst(c)
    case IntegerStart => ScanFirst(c)
    case Integer0 => if c == '.' then Some(Fraction) else ScanExp(c)
    case Integer => if IsDigit(c) then Some(Integer) else if c == '.' then Some(Fraction) else ScanExp(c)
    case Fraction => if IsDigit(c) then Some(Fraction) else ScanExp(c)
    case ExpStart => if c == '-' || c == '+' || IsDigit(c) then Some(Exp) else None
    case Exp => if IsDigit(c) then Some(Exp) else None
  }

  function ScanFirst(c: char): Option<Scanner> {
    if c == '0' then Some(Integer0) else if '1' <= c <= '9' then Some(Integer) else None
  }

  function ScanExp(c: char): Option<Scanner> { if c == 'e' || c == 'E' then Some(ExpStart) else None }

  /** Where the scanner ends; it need not be at the end of a number. */
  function ScanAll(st: Scanner, s: string): Option<Scanner>
    decreases |s|
  {
    if s == "" then Some(st)
    else
      match Scan(st, s[0])
      case None => None
      case Some(st1) => ScanAll(st1, s[1..])
  }

  predicate IsDouble(s: string) { |s| <= DOUBLE_BUFFER && ScanAll(Sign, s).Some? }

  // ---------------------------------------------------------------------------------------------
  // The type

  /** `memcmp` with a literal, as many bytes as `s` has. */
  predicate Begins(s: string, literal: string) { s <= literal }

  function TypeOf(s: string): FieldType {
    if Begins(s, "null") then NullType
    else if Begins(s, "true") || Begins(s, "false") then BooleanType
    else if IsInteger(s, INT_BUFFER) then IntegerType
    else if IsInteger(s, LONG_BUFFER) then LongType
    else if IsDouble(s) then DoubleType
    else Unknown
  }

  /** `_jkii_is_all_digit` */
  method ScanDigits(buf: string) returns (r: bool)
    ensures r <==> AllDigits(buf)
  {
    var i := 0;
    while i < |buf|
      invariant 0 <= i <= |buf| && AllDigits(buf[..i])
    {
      if !IsDigit(buf[i]) { return false; }
      i := i + 1;
    }
    assert buf[..i] == buf;
    r := true;
  }

  /** `_jkii_is_int` and `_jkii_is_long` */
  method ScanInteger(buf: string, size: nat) returns (r: bool)
    ensures r <==> IsInteger(buf, size)
  {
    if |buf| > size { return false; }
    r := ScanDigits(if buf != "" && buf[0] == '-' then buf[1..] else buf);
  }

  lemma {:induction false} ScanOne(st: Scanner, s: string, i: nat)
    requires i < |s| && ScanAll(st, s[..i]).Some?
    ensures ScanAll(st, s[..i + 1]) == Scan(ScanAll(st, s[..i]).value, s[i])
    ensures Scan(ScanAll(st, s[..i]).value, s[i]).None? ==> ScanAll(st, s).None?
    decreases i
  {
    if i == 0 {
      assert s[..1][1..] == "" && s[..0] == "";
    } else {
      assert s[..i][1..] == s[1..][..i - 1] && s[..i + 1][1..] == s[1..][..i];
      ScanOne(Scan(st, s[0]).value, s[1..], i - 1);
    }
  }

  /** `_jkii_is_double` */
  method ScanDouble(buf: string) returns (r: bool)
    ensures r <==> IsDouble(buf)
  {
    if |buf| > DOUBLE_BUFFER { return false; }
    var sts, i := Sign, 0;
    while i < |buf|
      invariant 0 <= i <= |buf| && ScanAll(Sign, buf[..i]) == Some(sts)
    {
      ScanOne(Sign, buf, i);
      var next := Scan(sts, buf[i]);
      if next.None? { return false; }
      sts := next.value;
      i := i + 1;
    }
    assert buf[..i] == buf;
    r := true;
  }

  method FindType(buf: string) returns (t: FieldType)
    ensures t == TypeOf(buf)
  {
    if Begins(buf, "null") { return NullType; }
    if Begins(buf, "true") || Begins(buf, "false") { return BooleanType; }
    var found := ScanInteger(buf, INT_BUFFER);
    if found { return IntegerType; }
    found := ScanInteger(buf, LONG_BUFFER);
    if found { return LongType; }
    found := ScanDouble(buf);
    t := if found then DoubleType else Unknown;
  }

  // ---------------------------------------------------------------------------------------------
  // JSON numbers (section 6 of RFC 8259)

  predicate IntegerPart(s: string) { s == "0" || (s != "" && '1' <= s[0] <= '9' && AllDigits(s)) }

  predicate FractionPart(s: string) { s == "" || (|s| > 1 && s[0] == '.' && AllDigits(s[1..])) }

  predicate ExponentPart(s: string) {
    s == "" || (|s| > 1 && (s[0] == 'e' || s[0] == 'E')
                && var t := if s[1] == '-' || s[1] == '+' then s[2..] else s[1..]; t != "" && AllDigits(t))
  }

  lemma {:induction false} ScanOn(st: Scanner, a: string, b: string)
    requires ScanAll(st, a).Some?
    ensures ScanAll(st, a + b) == ScanAll(ScanAll(st, a).value, b)
    decreases |a|
  {
    if a == "" {
      assert a + b == b;
    } else {
      assert (a + b)[1..] == a[1..] + b;
      ScanOn(Scan(st, a[0]).value, a[1..], b);
    }
  }

  lemma {:induction false} DigitsScanned(st: Scanner, s: string)
    requires AllDigits(s) && (st.Integer? || st.Fraction? || st.Exp?)
    ensures ScanAll(st, s) == Some(st)
    decreases |s|
  {
    if s != "" { DigitsScanned(st, s[1..]); }
  }

  /** Every JSON number has the type that it looks like, unless it is longer than any double is printed: one
      without fraction and exponent is an integer, of the narrowest type whose longest text has its length, and
      any other is a double. */
  lemma NumberKnown(sign: string, whole: string, fraction: string, exponent: string)
    requires (sign == "" || sign == "-") && IntegerPart(whole) && FractionPart(fraction) && ExponentPart(exponent)
    requires |sign + (whole + (fraction + exponent))| <= DOUBLE_BUFFER
    ensures TypeOf(sign + (whole + (fraction + exponent))) ==
            if fraction != "" || exponent != "" || |sign + whole| > 21 then DoubleType
            else if |sign + whole| > 12 then LongType else IntegerType
  {
    hide IntegerPart, FractionPart, ExponentPart, ScanAll;
    var s := sign + (whole + (fraction + exponent));
    NumberScanned(sign, whole, fraction, exponent);
    NoLiteral(sign, whole, fraction + exponent);
    if fraction == "" && exponent == "" {
      WholeDigits(sign, whole);
      assert s == sign + whole;
    } else {
      MarkInside(sign, whole, fraction, exponent);
    }
  }

  lemma NumberScanned(sign: string, whole: string, fraction: string, exponent: string)
    requires (sign == "" || sign == "-") && IntegerPart(whole) && FractionPart(fraction) && ExponentPart(exponent)
    ensures ScanAll(Sign, sign + (whole + (fraction + exponent))).Some?
  {
    hide IntegerPart, FractionPart, ExponentPart;
    SignScanned(sign, whole);
    var st := IntegerScanned(whole);
    var st1 := FractionScanned(st, fraction);
    ExponentScanned(st1, exponent);
    ScanOn(st1, "", exponent);
    ScanOn(st, fraction, exponent);
    ScanOn(IntegerStart, whole, fraction + exponent);
    if sign == "-" {
      assert (sign + (whole + (fraction + exponent)))[1..] == whole + (fraction + exponent);
    } else {
      assert sign + (whole + (fraction + exponent)) == whole + (fraction + exponent);
      FirstScanned(whole, fraction + exponent);
    }
  }

  /** A number does not begin with a letter. */
  lemma NoLiteral(sign: string, whole: string, more: string)
    requires (sign == "" || sign == "-") && IntegerPart(whole)
    ensures var s := sign + (whole + more);
            !Begins(s, "null") && !Begins(s, "true") && !Begins(s, "false")
  {
    var s := sign + (whole + more);
    assert s[0] == if sign == "-" then '-' else whole[0];
  }

  lemma WholeDigits(sign: string, whole: string)
    requires (sign == "" || sign == "-") && IntegerPart(whole)
    ensures var s := sign + whole; s != "" && AllDigits(if s[0] == '-' then s[1..] else s)
  {
    assert (sign + whole)[|sign|..] == whole;
  }

  /** What follows the digits is no digit. */
  lemma MarkInside(sign: string, whole: string, fraction: string, exponent: string)
    requires (sign == "" || sign == "-") && IntegerPart(whole)
    requires FractionPart(fraction) && ExponentPart(exponent) && (fraction != "" || exponent != "")
    ensures var s := sign + (whole + (fraction + exponent)); s != "" && !AllDigits(if s[0] == '-' then s[1..] else s)
  {
    var s, n := sign + (whole + (fraction + exponent)), |whole|;
    assert s[|sign|..] == whole + (fraction + exponent);
    assert !IsDigit(s[|sign|..][n]);
    assert s[0] == '-' <==> sign == "-";
  }

  /** The words of JSON have their types. */
  lemma WordsKnown()
    ensures TypeOf("null") == NullType && TypeOf("true") == BooleanType && TypeOf("false") == BooleanType
  {
    assert !Begins("true", "null") && !Begins("false", "null") by { assert "true"[0] == 't' && "false"[0] == 'f'; }
  }

  // ---------------------------------------------------------------------------------------------
  // What else is taken for a number

  /** A fraction without digits is one. */
  predicate LooseFraction(s: string) { s == "" || (s[0] == '.' && AllDigits(s[1..])) }

  /** And so is an exponent. */
  predicate LooseExponent(s: string) {
    s == "" || ((s[0] == 'e' || s[0] == 'E')
                && AllDigits(if |s| > 1 && (s[1] == '-' || s[1] == '+') then s[2..] else s[1..]))
  }

  predicate LooseParts(sign: string, whole: string, fraction: string, exponent: string) {
    && (sign == "" || sign == "-") && LooseFraction(fraction) && LooseExponent(exponent)
    && (IntegerPart(whole) || (whole == "" && fraction == "" && exponent == ""))
  }

  /** A number of which any part may have stopped before its digits. */
  ghost predicate Loose(s: string) {
    exists sign, whole, fraction, exponent ::
      LooseParts(sign, whole, fraction, exponent) && s == sign + (whole + (fraction + exponent))
  }

  lemma {:induction false} ExpDigits(s: string)
    requires ScanAll(Exp, s).Some?
    ensures AllDigits(s)
    decreases |s|
  {
    if s != "" {
      ExpDigits(s[1..]);
      assert forall i :: 1 <= i < |s| ==> s[i] == s[1..][i - 1];
    }
  }

  lemma ExponentRest(s: string)
    requires s != "" && (s[0] == 'e' || s[0] == 'E') && ScanAll(ExpStart, s[1..]).Some?
    ensures LooseExponent(s)
  {
    if |s| > 1 {
      assert s[1..][1..] == s[2..];
      ExpDigits(s[2..]);
      assert forall i :: 1 <= i < |s[1..]| ==> s[1..][i] == s[2..][i - 1];
    }
  }

  /** What is left of a number behind digits of its fraction. */
  lemma {:induction false} FractionRest(s: string) returns (digits: string, exponent: string)
    requires ScanAll(Fraction, s).Some?
    ensures s == digits + exponent && AllDigits(digits) && LooseExponent(exponent)
    decreases |s|
  {
    if s != "" && IsDigit(s[0]) {
      digits, exponent := FractionRest(s[1..]);
      assert s == [s[0]] + (digits + exponent);
      digits := [s[0]] + digits;
    } else {
      digits, exponent := "", s;
      if s != "" { ExponentRest(s); }
    }
  }

  lemma PointRest(s: string) returns (fraction: string, exponent: string)
    requires s != "" && s[0] == '.' && ScanAll(Fraction, s[1..]).Some?
    ensures s == fraction + exponent && LooseFraction(fraction) && LooseExponent(exponent)
  {
    var digits, e := FractionRest(s[1..]);
    fraction, exponent := ['.'] + digits, e;
    assert fraction[1..] == digits;
    assert s == ['.'] + s[1..];
  }

  /** And behind digits of its integer part. */
  lemma {:induction false} IntegerRest(s: string) returns (digits: string, fraction: string, exponent: string)
    requires ScanAll(Integer, s).Some?
    ensures s == digits + (fraction + exponent) && AllDigits(digits) && LooseFraction(fraction) && LooseExponent(exponent)
    decreases |s|
  {
    digits, fraction, exponent := "", "", s;
    if s != "" && IsDigit(s[0]) {
      digits, fraction, exponent := IntegerRest(s[1..]);
      assert s == [s[0]] + (digits + (fraction + exponent));
      digits := [s[0]] + digits;
    } else if s != "" && s[0] == '.' {
      fraction, exponent := PointRest(s);
    } else if s != "" {
      ExponentRest(s);
    }
  }

  lemma WholeRest(s: string) returns (whole: string, fraction: string, exponent: string)
    requires ScanAll(IntegerStart, s).Some?
    ensures LooseParts("", whole, fraction, exponent) && s == whole + (fraction + exponent)
  {
    whole, fraction, exponent := "", "", "";
    if s != "" && s[0] == '0' {
      whole := "0";
      assert s == "0" + s[1..];
      if |s| > 1 && s[1] == '.' {
        assert s[1..][1..] == s[2..];
        fraction, exponent := PointRest(s[1..]);
      } else if |s| > 1 {
        assert s[1..][1..] == s[2..];
        exponent := s[1..];
        ExponentRest(exponent);
      }
    } else if s != "" {
      var digits, f, e := IntegerRest(s[1..]);
      whole, fraction, exponent := [s[0]] + digits, f, e;
      assert s == [s[0]] + (digits + (f + e));
    }
  }

  lemma LooseScanned(whole: string, fraction: string, exponent: string)
    requires LooseParts("", whole, fraction, exponent)
    ensures ScanAll(IntegerStart, whole + (fraction + exponent)).Some?
  {
    if whole == "" {
      assert whole + (fraction + exponent) == "";
    } else {
      var st := IntegerScanned(whole);
      var st1 := st;
      if fraction != "" {
        st1 := Fraction;
        DigitsScanned(Fraction, fraction[1..]);
      }
      LooseExponentScanned(st1, exponent);
      ScanOn(st, fraction, exponent);
      ScanOn(IntegerStart, whole, fraction + exponent);
    }
  }

  lemma LooseExponentScanned(st: Scanner, s: string)
    requires (st.Integer0? || st.Integer? || st.Fraction?) && LooseExponent(s)
    ensures ScanAll(st, s).Some?
  {
    if s != "" {
      assert Scan(st, s[0]) == Some(ExpStart);
      if |s| > 1 {
        assert s[1..][1..] == s[2..];
        assert forall i :: 0 <= i < |s[2..]| ==> s[2..][i] == s[1..][i + 1];
        DigitsScanned(Exp, s[2..]);
      }
    }
  }

  /** Which texts are taken for a double, when they are no literal and no integer: the scanner does not ask where it
      has stopped, so `1.` and `-` and `2e+` are among them. */
  lemma DoubleIff(s: string)
    ensures IsDouble(s) <==> |s| <= DOUBLE_BUFFER && Loose(s)
  {
    hide ScanAll, LooseParts;
    if ScanAll(Sign, s).Some? {
      SignOff(s);
      var sign := if s != "" && s[0] == '-' then "-" else "";
      var whole, fraction, exponent := WholeRest(s[|sign|..]);
      SignOn(sign, whole, fraction, exponent);
      assert s == sign + s[|sign|..];
    }
    if Loose(s) {
      var sign, whole, fraction, exponent :|
        LooseParts(sign, whole, fraction, exponent) && s == sign + (whole + (fraction + exponent));
      SignOn(sign, whole, fraction, exponent);
      LooseScanned(whole, fraction, exponent);
      assert s[|sign|..] == whole + (fraction + exponent);
      SignOff(s);
    }
  }

  lemma SignOff(s: string)
    ensures ScanAll(Sign, s).Some? <==> ScanAll(IntegerStart, if s != "" && s[0] == '-' then s[1..] else s).Some?
  {
  }

  lemma SignOn(sign: string, whole: string, fraction: string, exponent: string)
    ensures LooseParts(sign, whole, fraction, exponent) <==>
              (sign == "" || sign == "-") && LooseParts("", whole, fraction, exponent)
    ensures LooseParts("", whole, fraction, exponent) ==>
              var s := sign + (whole + (fraction + exponent));
              (sign == "-" ==> s != "" && s[0] == '-') && (sign == "" ==> s == "" || s[0] != '-')
  {
  }

  lemma SignScanned(sign: string, whole: string)
    requires IntegerPart(whole)
    ensures whole != "" && ScanFirst(whole[0]).Some?
  {
  }

  lemma FirstScanned(whole: string, more: string)
    requires whole != "" && whole[0] != '-'
    ensures ScanAll(Sign, whole + more) == ScanAll(IntegerStart, whole + more)
  {
  }

  lemma IntegerScanned(s: string) returns (st: Scanner)
    requires IntegerPart(s)
    ensures (st.Integer0? || st.Integer?) && ScanAll(IntegerStart, s) == Some(st) && s[0] != '-'
  {
    if s == "0" {
      st := Integer0;
      assert s[1..] == "";
    } else {
      st := Integer;
      DigitsScanned(Integer, s[1..]);
    }
  }

  lemma FractionScanned(st: Scanner, s: string) returns (st1: Scanner)
    requires (st.Integer0? || st.Integer?) && FractionPart(s)
    ensures (st1.Integer0? || st1.Integer? || st1.Fraction?) && ScanAll(st, s) == Some(st1)
  {
    if s == "" {
      st1 := st;
    } else {
      st1 := Fraction;
      DigitsScanned(Fraction, s[1..]);
    }
  }

  lemma ExponentScanned(st: Scanner, s: string)
    requires (st.Integer0? || st.Integer? || st.Fraction?) && ExponentPart(s)
    ensures ScanAll(st, s).Some?
  {
    if s != "" {
      assert Scan(st, s[0]) == Some(ExpStart);
      assert s[1..][1..] == s[2..];
      DigitsScanned(Exp, s[2..]);
    }
  }
}
