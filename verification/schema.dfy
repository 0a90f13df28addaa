/**
 The schema cache of the sink: the enum type-name normalisation applied to
 each described column, the default value each column gets when an event
 lacks it, and the database name taken from the table identifier.
 */
module Schema {
  import opened Values
  import opened Strings
  import opened Decimal
  import opened Coercion

  /** One row of `desc table`: column name, type name, default kind
      ("", "DEFAULT", "MATERIALIZED", "ALIAS", …) and default expression. */
  datatype ColumnDesc = ColumnDesc(name: string, typ: string, defaultType: string, defaultExpression: string)

  /** The table's columns keyed by name. */
  type Desc = map<string, ColumnDesc>

  // ---------------------------------------------------------------------------
  // Enum normalisation

  /** "Enum8…" and "Enum16…" differ at their fifth character, so no name has both prefixes. */
  lemma EnumPrefixesDisjoint(t: string)
    ensures !(StartsWith(t, "Enum8") && StartsWith(t, "Enum16"))
  {
    if StartsWith(t, "Enum8") {
      assert t[4] == '8';
    }
  }

  /** Shortens a verbose enum type such as `Enum8('a' = 1, 'b' = 2)` to its tag;
      every other type name is kept. */
  function NormalizeType(t: string): (r: string)
    ensures StartsWith(t, "Enum16") ==> r == "Enum16"
    ensures StartsWith(t, "Enum8") ==> r == "Enum8"
    ensures !StartsWith(t, "Enum16") && !StartsWith(t, "Enum8") ==> r == t
  {
    EnumPrefixesDisjoint(t);
    if StartsWith(t, "Enum16") then "Enum16"
    else if StartsWith(t, "Enum8") then "Enum8"
    else t
  }

  /** Normalising a type name a second time changes nothing. */
  lemma NormalizeIdempotent(t: string)
    ensures NormalizeType(NormalizeType(t)) == NormalizeType(t)
  {
    if StartsWith(t, "Enum16") {
      assert StartsWith("Enum16", "Enum16");
    } else if StartsWith(t, "Enum8") {
      assert !StartsWith("Enum8", "Enum16");
      assert StartsWith("Enum8", "Enum8");
    }
  }

  /** The value of one cell of a described row: only the `type` column is
      normalised. */
  function NormalizeCell(column: string, value: string): string {
    if column == "type" then NormalizeType(value) else value
  }

  /** A described row as (column, value) cells, normalised cell by cell. */
  function NormalizeRow(cells: seq<(string, string)>): (r: seq<(string, string)>)
    ensures |r| == |cells|
    ensures forall i :: 0 <= i < |cells| ==> r[i].0 == cells[i].0
    ensures forall i :: 0 <= i < |cells| && cells[i].0 != "type" ==> r[i].1 == cells[i].1
    ensures forall i :: 0 <= i < |cells| && cells[i].0 == "type" ==> r[i].1 == NormalizeType(cells[i].1)
  {
    seq(|cells|, i requires 0 <= i < |cells| => (cells[i].0, NormalizeCell(cells[i].0, cells[i].1)))
  }

  lemma NormalizeRowIdempotent(cells: seq<(string, string)>)
    ensures NormalizeRow(NormalizeRow(cells)) == NormalizeRow(cells)
  {
    var once := NormalizeRow(cells);
    forall i | 0 <= i < |cells|
      ensures NormalizeRow(once)[i] == once[i]
    {
      NormalizeIdempotent(cells[i].1);
    }
  }

  // ---------------------------------------------------------------------------
  // Default values

  /** How the default table treats a column type name. */
  datatype TypeFamily =
    | StringFam          // String, LowCardinality(String)
    | DateFam            // Date, DateTime, DateTime64
    | IntFam             // Int8 … UInt64
    | FloatFam           // Float32, Float64
    | IPv4Fam
    | IPv6Fam
    | ArrayFam(elem: string)  // Array(T), with the element type of its empty default
    | EnumFam            // Enum8, Enum16 (after normalisation)
    | Unlisted

  function DefaultFamily(t: string): TypeFamily {
    match t
    case "String" => StringFam
    case "LowCardinality(String)" => StringFam
    case "Date" => DateFam
    case "DateTime" => DateFam
    case "DateTime64" => DateFam
    case "UInt8" => IntFam
    case "UInt16" => IntFam
    case "UInt32" => IntFam
    case "UInt64" => IntFam
    case "Int8" => IntFam
    case "Int16" => IntFam
    case "Int32" => IntFam
    case "Int64" => IntFam
    case "Float32" => FloatFam
    case "Float64" => FloatFam
    case "IPv4" => IPv4Fam
    case "IPv6" => IPv6Fam
    case "Array(String)" => ArrayFam("string")
    case "Array(IPv4)" => ArrayFam("string")
    case "Array(IPv6)" => ArrayFam("string")
    case "Array(Date)" => ArrayFam("string")
    case "Array(DateTime)" => ArrayFam("string")
    case "Array(UInt8)" => ArrayFam("uint8")
    case "Array(UInt16)" => ArrayFam("uint16")
    case "Array(UInt32)" => ArrayFam("uint32")
    case "Array(UInt64)" => ArrayFam("uint64")
    case "Array(Int8)" => ArrayFam("int8")
    case "Array(Int16)" => ArrayFam("int16")
    case "Array(Int32)" => ArrayFam("int32")
    case "Array(Int64)" => ArrayFam("int64")
    case "Array(Float32)" => ArrayFam("float32")
    case "Array(Float64)" => ArrayFam("float64")
    case "Enum16" => EnumFam
    case "Enum8" => EnumFam
    case _ => Unlisted
  }

  /** Families whose default is a fixed zero value, whatever the literal. */
  predicate IsFixed(fam: TypeFamily) {
    fam.DateFam? || fam.IPv4Fam? || fam.IPv6Fam? || fam.ArrayFam? || fam.EnumFam?
  }

  /** The default kinds the sink supports: a declared literal, or none. */
  predicate SupportedKind(kind: string) {
    kind == "DEFAULT" || kind == ""
  }

  /** A default literal is parsed as a signed 64-bit integer for every integer column. */
  const Int64Family := IntFamily(true, 64)

  /** The default of one column: `Ok(Some(a))` enters `a` in the table,
      `Ok(None)` leaves the column out, `Fatal` aborts start-up. */
  function ResolveDefault(kind: string, t: string, expr: string): (r: Outcome<Option<Arg>>)
    ensures !SupportedKind(kind) ==> r == Outcome.Fatal
    ensures SupportedKind(kind) && DefaultFamily(t).Unlisted? ==> r == Ok(None)
    ensures SupportedKind(kind) && !DefaultFamily(t).Unlisted? && r != Outcome.Fatal ==> r.Ok? && r.value.Some?
    ensures SupportedKind(kind) && r == Outcome.Fatal ==>
      kind == "DEFAULT" && DefaultFamily(t).IntFam? && ParseDecimal(expr, Int64Family).None?
    ensures SupportedKind(kind) && DefaultFamily(t).StringFam? ==>
      r == Ok(Some(Text(if kind == "DEFAULT" then expr else "")))
    ensures kind == "" && DefaultFamily(t).IntFam? ==> r == Ok(Some(IntArg(0)))
    ensures kind == "DEFAULT" && DefaultFamily(t).IntFam? && ParseDecimal(expr, Int64Family).Some? ==>
      r == Ok(Some(IntArg(ParseDecimal(expr, Int64Family).value)))
    ensures kind == "DEFAULT" && DefaultFamily(t).IntFam? && ParseDecimal(expr, Int64Family).None? ==> r == Outcome.Fatal
    ensures SupportedKind(kind) && DefaultFamily(t).DateFam? ==> r == Ok(Some(Epoch))
    ensures SupportedKind(kind) && DefaultFamily(t).IPv4Fam? ==> r == Ok(Some(Text("0.0.0.0")))
    ensures SupportedKind(kind) && DefaultFamily(t).IPv6Fam? ==> r == Ok(Some(Text("::")))
    ensures SupportedKind(kind) && DefaultFamily(t).ArrayFam? ==> r == Ok(Some(EmptyArray(DefaultFamily(t).elem)))
    ensures SupportedKind(kind) && DefaultFamily(t).EnumFam? ==> r == Ok(Some(Text("")))
    ensures kind == "" && DefaultFamily(t).FloatFam? ==> r == Ok(Some(FloatArg(32, 0)))
    ensures kind == "DEFAULT" && DefaultFamily(t).FloatFam? ==> r == Ok(Some(FloatText(64, expr)))
  {
    if !SupportedKind(kind) then Outcome.Fatal
    else
      var lit: Option<string> := if kind == "DEFAULT" then Some(expr) else None;
      match DefaultFamily(t)
      case StringFam => Ok(Some(Text(if lit.Some? then lit.value else "")))
      case DateFam => Ok(Some(Epoch))
      case IntFam =>
        if lit.None? then Ok(Some(IntArg(0)))
        else (match ParseDecimal(lit.value, Int64Family)
              case Some(n) => Ok(Some(IntArg(n)))
              case None => Outcome.Fatal)
      case FloatFam => Ok(Some(if lit.None? then FloatArg(32, 0) else FloatText(64, lit.value)))
      case IPv4Fam => Ok(Some(Text("0.0.0.0")))
      case IPv6Fam => Ok(Some(Text("::")))
      case ArrayFam(elem) => Ok(Some(EmptyArray(elem)))
      case EnumFam => Ok(Some(Text("")))
      case Unlisted => Ok(None)
  }

  /** The default table's integer types are exactly the integer types the
      coercion parses at their own width. */
  lemma IntFamiliesAgree(t: string)
    ensures DefaultFamily(t).IntFam? <==> Classify(t).IntCol?
  {
  }

  /** Date, IP, array and enum columns get the same default whether or not a
      literal is declared, and whatever it says. */
  lemma FixedDefaultIgnoresLiteral(t: string, e1: string, e2: string)
    requires IsFixed(DefaultFamily(t))
    ensures ResolveDefault("DEFAULT", t, e1) == ResolveDefault("", t, e2)
    ensures ResolveDefault("", t, e1).Ok? && ResolveDefault("", t, e1).value.Some?
  {
  }

  /** A verbose enum type, once normalised, defaults to the empty string. */
  lemma NormalizedEnumDefault(kind: string, t: string, expr: string)
    requires SupportedKind(kind)
    requires StartsWith(t, "Enum8") || StartsWith(t, "Enum16")
    ensures ResolveDefault(kind, NormalizeType(t), expr) == Ok(Some(Text("")))
  {
    if StartsWith(t, "Enum16") {
      assert NormalizeType(t) == "Enum16";
      assert DefaultFamily("Enum16") == EnumFam;
    } else {
      assert NormalizeType(t) == "Enum8";
      assert DefaultFamily("Enum8") == EnumFam;
    }
  }

  function ColumnDefault(d: ColumnDesc): Outcome<Option<Arg>> {
    ResolveDefault(d.defaultType, d.typ, d.defaultExpression)
  }

  predicate ColumnFatal(desc: Desc, name: string)
    requires name in desc
  {
    ColumnDefault(desc[name]).Fatal?
  }

  predicate ColumnHasEntry(desc: Desc, name: string)
    requires name in desc
  {
    ColumnDefault(desc[name]).Ok? && ColumnDefault(desc[name]).value.Some?
  }

  /** The default table of a whole schema: fatal when any column's default is,
      otherwise the entries of every column that has one. The result does
      not depend on the order columns are visited in. */
  function DefaultTable(desc: Desc): Outcome<map<string, Arg>> {
    if exists name :: name in desc && ColumnFatal(desc, name) then Outcome.Fatal
    else Ok(map name | name in desc && ColumnHasEntry(desc, name) :: ColumnDefault(desc[name]).value.value)
  }

  /** The start-up loop: visits the columns in an arbitrary order, stops at the
      first fatal default, otherwise records each entry. Whatever the order,
      it computes `DefaultTable`. */
  method SetColumnDefault(desc: Desc) returns (r: Outcome<map<string, Arg>>)
    ensures r == DefaultTable(desc)
    ensures r.Ok? ==> forall name :: name in r.value <==> name in desc && ColumnHasEntry(desc, name)
  {
    var todo := desc.Keys;
    var table: map<string, Arg> := map[];
    while todo != {}
      invariant todo <= desc.Keys
      invariant forall name :: name in desc && name !in todo ==> !ColumnFatal(desc, name)
      invariant forall name :: name in table <==> name in desc && name !in todo && ColumnHasEntry(desc, name)
      invariant forall name :: name in table ==> table[name] == ColumnDefault(desc[name]).value.value
      decreases todo
    {
      var name :| name in todo;
      var d := ColumnDefault(desc[name]);
      if d.Fatal? {
        assert ColumnFatal(desc, name);
        return Outcome.Fatal;
      }
      if d.value.Some? {
        table := table[name := d.value.value];
      }
      todo := todo - {name};
    }
    r := Ok(table);
    assert table == DefaultTable(desc).value;
  }

  /** A column whose default is computed (MATERIALIZED, ALIAS or any other
      unsupported kind) aborts start-up, whatever its type. */
  lemma ComputedColumnIsFatal(desc: Desc, name: string)
    requires name in desc
    requires desc[name].defaultType != "DEFAULT" && desc[name].defaultType != ""
    ensures DefaultTable(desc) == Outcome.Fatal
  {
    assert ColumnFatal(desc, name);
  }

  /** Replacing one column's description leaves every other column's entry in
      the default table as it was. */
  lemma DefaultTableLocal(desc: Desc, name: string, d: ColumnDesc, other: string)
    requires other != name && other in desc
    requires DefaultTable(desc).Ok? && DefaultTable(desc[name := d]).Ok?
    ensures other in DefaultTable(desc).value <==> other in DefaultTable(desc[name := d]).value
    ensures other in DefaultTable(desc).value ==>
      DefaultTable(desc).value[other] == DefaultTable(desc[name := d]).value[other]
  {
    assert desc[name := d][other] == desc[other];
  }

  // ---------------------------------------------------------------------------
  // Database name

  /** The database part of a `database.table` identifier: the part before the
      dot when the identifier has exactly one dot, and "default" otherwise. */
  function GetDatabase(table: string): (db: string)
    ensures Count(table, '.') == 1 ==> '.' in table && db == table[..IndexOf(table, '.')]
    ensures Count(table, '.') != 1 ==> db == "default"
  {
    var parts := SplitOn(table, '.');
    CountAbsent(table, '.');
    if |parts| == 2 then parts[0] else "default"
  }
}
