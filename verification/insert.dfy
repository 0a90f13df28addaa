/**
 The shape of the insert: the field order fixed at start-up, the statement
 `INSERT INTO <table> ("c1","c2",…) VALUES (?,?,…)` built from it, and the
 positional argument row each event yields.
 */
module Insert {
  import opened Values
  import opened Strings
  import opened Coercion
  import opened Schema

  /** `fields` lists every key of `keys` exactly once, in some order. */
  predicate IsEnumeration(fields: seq<string>, keys: set<string>) {
    && (forall i, j :: 0 <= i < j < |fields| ==> fields[i] != fields[j])
    && (forall i :: 0 <= i < |fields| ==> fields[i] in keys)
    && (forall k :: k in keys ==> k in fields)
  }

  function Quote(name: string): string {
    "\"" + name + "\""
  }

  function QuotedColumns(fields: seq<string>): (q: seq<string>)
    ensures |q| == |fields|
  {
    seq(|fields|, i requires 0 <= i < |fields| => Quote(fields[i]))
  }

  function Placeholders(n: nat): (q: seq<string>)
    ensures |q| == n
  {
    seq(n, _ => "?")
  }

  function ColumnList(fields: seq<string>): string {
    Join(QuotedColumns(fields), ",")
  }

  function PlaceholderList(n: nat): string {
    Join(Placeholders(n), ",")
  }

  function InsertQuery(table: string, fields: seq<string>): string {
    "INSERT INTO " + table + " (" + ColumnList(fields) + ") VALUES (" + PlaceholderList(|fields|) + ")"
  }

  /** Start-up construction of the field order and the statement: the schema's
      column names are taken in the map's (unspecified) iteration order. */
  method BuildInsert(table: string, desc: Desc) returns (fields: seq<string>, query: string)
    ensures IsEnumeration(fields, desc.Keys)
    ensures |fields| == |desc|
    ensures query == InsertQuery(table, fields)
  {
    var todo := desc.Keys;
    fields := [];
    while todo != {}
      invariant todo <= desc.Keys
      invariant forall i, j :: 0 <= i < j < |fields| ==> fields[i] != fields[j]
      invariant forall i :: 0 <= i < |fields| ==> fields[i] in desc && fields[i] !in todo
      invariant forall k :: k in desc && k !in todo ==> k in fields
      invariant |fields| + |todo| == |desc.Keys|
      decreases todo
    {
      var name :| name in todo;
      fields := fields + [name];
      todo := todo - {name};
    }
    query := InsertQuery(table, fields);
  }

  /** Splitting the column list at commas gives back each quoted name, in
      field order, provided no name contains a comma. */
  lemma ColumnListRoundTrip(fields: seq<string>)
    requires |fields| >= 1
    requires forall i :: 0 <= i < |fields| ==> ',' !in fields[i]
    ensures SplitOn(ColumnList(fields), ',') == QuotedColumns(fields)
    ensures forall i :: 0 <= i < |fields| ==> QuotedColumns(fields)[i][1..|fields[i]| + 1] == fields[i]
  {
    var q := QuotedColumns(fields);
    forall k | 0 <= k < |q|
      ensures ',' !in q[k]
    {
      assert q[k] == "\"" + fields[k] + "\"";
    }
    SplitJoin(q, ',');
  }

  /** The placeholder list holds exactly `n` question marks. */
  lemma {:induction false} PlaceholderCount(n: nat)
    ensures Count(PlaceholderList(n), '?') == n
    ensures Count(PlaceholderList(n), ',') == (if n == 0 then 0 else n - 1)
    decreases n
  {
    if n > 1 {
      PlaceholderCount(n - 1);
      assert Placeholders(n)[1..] == Placeholders(n - 1);
      CountAppend("?", "," + PlaceholderList(n - 1), '?');
      CountAppend(",", PlaceholderList(n - 1), '?');
      CountAppend("?", "," + PlaceholderList(n - 1), ',');
      CountAppend(",", PlaceholderList(n - 1), ',');
      assert PlaceholderList(n) == "?" + ("," + PlaceholderList(n - 1));
    }
  }

  /** Splitting the placeholder list at commas gives one "?" per field. */
  lemma PlaceholderSplit(n: nat)
    requires n >= 1
    ensures SplitOn(PlaceholderList(n), ',') == Placeholders(n)
  {
    SplitJoin(Placeholders(n), ',');
  }

  // ---------------------------------------------------------------------------
  // Argument rows

  /** Every field of the order is a described column. */
  predicate Described(fields: seq<string>, desc: Desc) {
    forall i :: 0 <= i < |fields| ==> fields[i] in desc
  }

  /** The value a present, non-null event field contributes. */
  predicate Present(e: Event, f: string) {
    f in e && e[f] != Null
  }

  /** The substitute for an absent or null field: the column's default, or ""
      when the default table has no entry for it. */
  function Substitute(defaults: map<string, Arg>, f: string): Arg {
    if f in defaults then defaults[f] else Text("")
  }

  /** Argument for one field: the converted event value when present and not
      null (falling back to the raw value should conversion report an error),
      the substitute otherwise. */
  function Cell(desc: Desc, defaults: map<string, Arg>, e: Event, f: string): (r: Outcome<Arg>)
    requires f in desc
    ensures Present(e, f) ==> (r.Fatal? <==> ConvertCkType(desc[f].typ, e[f]).Fatal?)
    ensures Present(e, f) && r.Ok? ==> ConvertCkType(desc[f].typ, e[f]) == Returned(r.value, false)
    ensures !Present(e, f) ==> r == Ok(Substitute(defaults, f))
  {
    if Present(e, f) then
      var raw := e[f];
      match ConvertCkType(desc[f].typ, raw)
      case Fatal => Outcome.Fatal
      case Returned(out, err) => Ok(if !err then out else Passed(raw))
    else Ok(Substitute(defaults, f))
  }

  /** The argument row of one event, position by position in field order; a
      fatal conversion at any position ends the process. */
  function BuildRow(desc: Desc, defaults: map<string, Arg>, fields: seq<string>, e: Event): (r: Outcome<seq<Arg>>)
    requires Described(fields, desc)
    ensures r.Fatal? <==>
      exists i :: 0 <= i < |fields| && Present(e, fields[i]) && ConvertCkType(desc[fields[i]].typ, e[fields[i]]).Fatal?
    ensures r.Ok? ==> |r.value| == |fields|
    ensures r.Ok? ==> forall i :: 0 <= i < |fields| && Present(e, fields[i]) ==>
      ConvertCkType(desc[fields[i]].typ, e[fields[i]]) == Returned(r.value[i], false)
    ensures r.Ok? ==> forall i :: 0 <= i < |fields| && !Present(e, fields[i]) ==>
      r.value[i] == Substitute(defaults, fields[i])
    decreases |fields|
  {
    if |fields| == 0 then Ok([])
    else
      match Cell(desc, defaults, e, fields[0])
      case Fatal => Outcome.Fatal
      case Ok(a) =>
        match BuildRow(desc, defaults, fields[1..], e)
        case Fatal =>
          assert forall i :: 1 <= i < |fields| ==> fields[i] == fields[1..][i - 1];
          Outcome.Fatal
        case Ok(rest) =>
          assert forall i :: 1 <= i < |fields| ==> fields[i] == fields[1..][i - 1] && ([a] + rest)[i] == rest[i - 1];
          Ok([a] + rest)
  }

  /** Event keys outside the field order have no effect on the row. */
  lemma {:induction false} RowIgnoresExtraKeys(desc: Desc, defaults: map<string, Arg>, fields: seq<string>, e: Event, keys: set<string>)
    requires Described(fields, desc)
    requires forall i :: 0 <= i < |fields| ==> fields[i] in keys
    ensures BuildRow(desc, defaults, fields, e) == BuildRow(desc, defaults, fields, map k | k in e && k in keys :: e[k])
    decreases |fields|
  {
    if |fields| > 0 {
      var e' := map k | k in e && k in keys :: e[k];
      assert Present(e, fields[0]) <==> Present(e', fields[0]);
      assert Cell(desc, defaults, e, fields[0]) == Cell(desc, defaults, e', fields[0]);
      RowIgnoresExtraKeys(desc, defaults, fields[1..], e, keys);
    }
  }

  /** With the default table computed at start-up, an absent or null field gets
      its column's declared default when the column type has one, and "" when
      it has none. */
  lemma MissingFieldGetsDefault(desc: Desc, defaults: map<string, Arg>, fields: seq<string>, e: Event, i: nat)
    requires Described(fields, desc)
    requires DefaultTable(desc) == Ok(defaults)
    requires i < |fields| && !Present(e, fields[i])
    requires BuildRow(desc, defaults, fields, e).Ok?
    ensures ColumnHasEntry(desc, fields[i]) ==>
      BuildRow(desc, defaults, fields, e).value[i] == ColumnDefault(desc[fields[i]]).value.value
    ensures !ColumnHasEntry(desc, fields[i]) ==> BuildRow(desc, defaults, fields, e).value[i] == Text("")
  {
  }

  /** The rows of a whole batch, one per event in batch order; any fatal row
      ends the process. */
  function BatchRows(desc: Desc, defaults: map<string, Arg>, fields: seq<string>, events: seq<Event>): (r: Outcome<seq<seq<Arg>>>)
    requires Described(fields, desc)
    ensures r.Fatal? <==> exists j :: 0 <= j < |events| && BuildRow(desc, defaults, fields, events[j]).Fatal?
    ensures r.Ok? ==> |r.value| == |events|
    ensures r.Ok? ==> forall j :: 0 <= j < |events| ==>
      |r.value[j]| == |fields| && BuildRow(desc, defaults, fields, events[j]) == Ok(r.value[j])
    decreases |events|
  {
    if |events| == 0 then Ok([])
    else
      match BuildRow(desc, defaults, fields, events[0])
      case Fatal => Outcome.Fatal
      case Ok(row) =>
        match BatchRows(desc, defaults, fields, events[1..])
        case Fatal => Outcome.Fatal
        case Ok(rest) => Ok([row] + rest)
  }
}
