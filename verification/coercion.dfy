/**
 The type coercion of `convertCkType`: given a column type name and an event
 value, the value to bind for that column.

 Integer columns accept a string or a JSON number literal, parsed in base 10
 at the column's width, and a boolean, which becomes 1 or 0. A parse failure
 ends the process (a fatal log call); the model returns `Fatal` for it. Every
 other column type and every other value kind is passed through unchanged.
 */
module Coercion {
  import opened Values
  import opened Decimal

  /** How `convertCkType` treats a column type name. */
  datatype ColumnKind =
    | IntCol(f: IntFamily)       // Int8 … UInt64
    | WideIntCol(signed: bool)   // Int256, UInt256
    | FloatCol(width: nat)       // Float32, Decimal32 (32); Float64, Decimal64 (64)
    | Untyped                    // every other type name

  function Classify(t: string): ColumnKind {
    match t
    case "Int8" => IntCol(IntFamily(true, 8))
    case "UInt8" => IntCol(IntFamily(false, 8))
    case "Int16" => IntCol(IntFamily(true, 16))
    case "UInt16" => IntCol(IntFamily(false, 16))
    case "Int32" => IntCol(IntFamily(true, 32))
    case "UInt32" => IntCol(IntFamily(false, 32))
    case "Int64" => IntCol(IntFamily(true, 64))
    case "UInt64" => IntCol(IntFamily(false, 64))
    case "Int256" => WideIntCol(true)
    case "UInt256" => WideIntCol(false)
    case "Float32" => FloatCol(32)
    case "Decimal32" => FloatCol(32)
    case "Float64" => FloatCol(64)
    case "Decimal64" => FloatCol(64)
    case _ => Untyped
  }

  /** The integer column types, all of which turn a boolean into 1 or 0. */
  predicate IsIntegerType(t: string) {
    Classify(t).IntCol? || Classify(t).WideIntCol?
  }

  /** A value the numeric branches parse: a string or a JSON number literal. */
  predicate IsText(v: Value) {
    v.Str? || v.Num?
  }

  function TextOf(v: Value): string
    requires IsText(v)
  {
    if v.Str? then v.s else v.lit
  }

  /** What `convertCkType` does: it either ends the process (`Fatal`) or returns
      an output together with an error flag. */
  datatype Conversion = Fatal | Returned(out: Arg, err: bool)

  /** Parse branch of an integer column. */
  function ParseInto(s: string, f: IntFamily): Conversion {
    match ParseDecimal(s, f)
    case Some(n) => Returned(IntArg(n), false)
    case None => Conversion.Fatal
  }

  /** The coercion table. A call that returns never reports an error, so the
      caller's fallback to the raw value is dead code. */
  function ConvertCkType(t: string, v: Value): (r: Conversion)
    ensures r.Returned? ==> !r.err
    ensures IsIntegerType(t) && v.Bool? ==> r == Returned(IntArg(BoolInt(v.b)), false)
    ensures Classify(t).IntCol? && IsText(v) ==>
      (r.Fatal? <==> ParseDecimal(TextOf(v), Classify(t).f).None?) &&
      (r.Returned? ==> r.out == IntArg(ParseDecimal(TextOf(v), Classify(t).f).value))
    ensures Classify(t).WideIntCol? && IsText(v) ==> r.Fatal?
    ensures Classify(t).Untyped? || !(IsText(v) || v.Bool?) ==> r == Returned(Passed(v), false)
  {
    match Classify(t)
    case IntCol(f) =>
      (match v
       case Str(s) => ParseInto(s, f)
       case Num(lit) => ParseInto(lit, f)
       case Bool(b) => Returned(IntArg(BoolInt(b)), false)
       case _ => Returned(Passed(v), false))
    case WideIntCol(_) =>
      // Go's strconv rejects every bit size above 64, so both parses fail
      (match v
       case Str(_) => Conversion.Fatal
       case Num(_) => Conversion.Fatal
       case Bool(b) => Returned(IntArg(BoolInt(b)), false)
       case _ => Returned(Passed(v), false))
    case FloatCol(w) =>
      (match v
       case Str(s) => Returned(FloatText(w, s), false)
       case Num(lit) => Returned(FloatText(w, lit), false)
       case Bool(b) => Returned(FloatArg(w, BoolInt(b)), false)
       case _ => Returned(Passed(v), false))
    case Untyped => Returned(Passed(v), false)
  }

  /** For every integer family, the canonical text of an integer converts to
      that integer exactly when it is in the family's range, and is fatal
      otherwise; a string and a JSON number literal behave alike. */
  lemma CanonicalIntegerConverts(t: string, n: int)
    requires Classify(t).IntCol?
    ensures InRange(n, Classify(t).f) ==>
      ConvertCkType(t, Str(FormatDecimal(n))) == Returned(IntArg(n), false) &&
      ConvertCkType(t, Num(FormatDecimal(n))) == Returned(IntArg(n), false)
    ensures !InRange(n, Classify(t).f) ==>
      ConvertCkType(t, Str(FormatDecimal(n))).Fatal? &&
      ConvertCkType(t, Num(FormatDecimal(n))).Fatal?
  {
    FormatParse(n, Classify(t).f);
  }

  /** A text value in an integer column never passes through unchanged: it is
      either an integer of the column's range or fatal. */
  lemma IntegerTextNeverPassesThrough(t: string, v: Value)
    requires IsIntegerType(t) && IsText(v)
    ensures ConvertCkType(t, v).Fatal? ||
      (Classify(t).IntCol? && ConvertCkType(t, v).out.IntArg? &&
       InRange(ConvertCkType(t, v).out.n, Classify(t).f))
  {
  }

  /** "999" is out of range for Int8 and "abc" is not a number: both fatal. */
  lemma Int8Examples()
    ensures ConvertCkType("Int8", Str("999")).Fatal?
    ensures ConvertCkType("Int8", Str("abc")).Fatal?
  {
    assert Classify("Int8") == IntCol(IntFamily(true, 8));
    assert Pow2(7) == 128;
    assert DigitsValue("999") == 999 by {
      assert "999"[..2] == "99" && "99"[..1] == "9";
    }
    assert !IsDigit("abc"[0]);
  }

  /** "-1" has a sign, which an unsigned parse rejects, and "256" is out of
      range for UInt8: both fatal. */
  lemma UInt8Examples()
    ensures ConvertCkType("UInt8", Str("-1")).Fatal?
    ensures ConvertCkType("UInt8", Str("256")).Fatal?
  {
    assert Classify("UInt8") == IntCol(IntFamily(false, 8));
    assert Pow2(8) == 256;
    assert DigitsValue("256") == 256 by {
      assert "256"[..2] == "25" && "25"[..1] == "2";
    }
    assert !IsDigit("-1"[0]);
  }

  /** The JSON number 123 converts to 123 in an Int16 column. */
  lemma Int16Example()
    ensures ConvertCkType("Int16", Num("123")) == Returned(IntArg(123), false)
  {
    var f := IntFamily(true, 16);
    assert Classify("Int16") == IntCol(f);
    assert Pow2(7) == 128;
    Pow2Monotone(7, 15);
    assert DigitsValue("123") == 123 by {
      assert "123"[..2] == "12" && "12"[..1] == "1";
    }
    ParseDigits("123", f, false, "123");
    assert ParseDecimal("123", f) == Some(123);
  }
}
