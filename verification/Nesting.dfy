/** The data dictionary: flat column rows nested into schemas, tables and columns in one pass. What the pass builds is
    said without it: each schema and each table where it first appears, described by its first row, with its columns
    in the order of their rows. */
module Nesting {
  import opened Options
  import opened Sequences

  datatype Row = Row(schema: string, table: string, kind: string, tableComment: Option<string>, name: string,
                     dataType: string, nullable: bool, default: Option<string>, comment: Option<string>)

  datatype Column = Column(name: string, dataType: string, nullable: bool, default: Option<string>,
                           comment: Option<string>, reference: Option<string>)

  datatype Table = Table(name: string, kind: string, comment: Option<string>, columns: seq<Column>)

  datatype Schema = Schema(name: string, tables: seq<Table>)

  /** The foreign keys by full table name and column, and the cleaning of column comments. */
  datatype Context = Context(references: map<(string, string), string>, clean: Option<string> -> Option<string>)

  function ColumnOf(cx: Context, row: Row): Column
  {
    var key := (row.schema + "." + row.table, row.name);
    Column(row.name, row.dataType, row.nullable, row.default, cx.clean(row.comment),
           if key in cx.references then Some(cx.references[key]) else None)
  }

  /** A column keeps the members of its row, its comment cleaned, and refers to what the foreign key of that column of
      its table leads to. */
  lemma ColumnIs(cx: Context, row: Row)
    ensures var c := ColumnOf(cx, row);
            c.name == row.name && c.dataType == row.dataType && c.nullable == row.nullable &&
            c.default == row.default && c.comment == cx.clean(row.comment)
    ensures forall target :: ColumnOf(cx, row).reference == Some(target) <==>
              (row.schema + "." + row.table, row.name) in cx.references &&
              cx.references[(row.schema + "." + row.table, row.name)] == target
  {
  }

  // ---- the one pass ----

  function TableIndex(tables: seq<Table>, name: string): (k: nat)
    ensures k <= |tables| && (k < |tables| ==> tables[k].name == name)
    ensures forall i :: 0 <= i < k ==> tables[i].name != name
  {
    FirstIndex(tables, (t: Table) => t.name == name)
  }

  function SchemaIndex(schemas: seq<Schema>, name: string): (k: nat)
    ensures k <= |schemas| && (k < |schemas| ==> schemas[k].name == name)
    ensures forall i :: 0 <= i < k ==> schemas[i].name != name
  {
    FirstIndex(schemas, (s: Schema) => s.name == name)
  }

  /** A column goes to the end of its table, a new table to the end of its schema. */
  function AddToTables(cx: Context, tables: seq<Table>, row: Row): seq<Table>
  {
    var k := TableIndex(tables, row.table);
    if k == |tables| then tables + [Table(row.table, row.kind, row.tableComment, [ColumnOf(cx, row)])]
    else tables[k := tables[k].(columns := tables[k].columns + [ColumnOf(cx, row)])]
  }

  function AddRow(cx: Context, schemas: seq<Schema>, row: Row): seq<Schema>
  {
    var k := SchemaIndex(schemas, row.schema);
    if k == |schemas| then schemas + [Schema(row.schema, AddToTables(cx, [], row))]
    else schemas[k := schemas[k].(tables := AddToTables(cx, schemas[k].tables, row))]
  }

  function Built(cx: Context, rows: seq<Row>): seq<Schema>
  {
    if rows == [] then [] else AddRow(cx, Built(cx, rows[..|rows| - 1]), rows[|rows| - 1])
  }

  /** The table part of a round: the entry is made if it is not there, and the column appended to it. */
  method PutColumn(cx: Context, tables: seq<Table>, row: Row) returns (r: seq<Table>)
    ensures r == AddToTables(cx, tables, row)
  {
    r := tables;
    var t := TableIndex(r, row.table);
    if t == |r| {
      r := r + [Table(row.table, row.kind, row.tableComment, [])];
    }
    r := r[t := r[t].(columns := r[t].columns + [ColumnOf(cx, row)])];
    assert [] + [ColumnOf(cx, row)] == [ColumnOf(cx, row)];
    assert r == AddToTables(cx, tables, row);
  }

  /** A round: the schema's entry is made if it is not there. */
  method PutRow(cx: Context, schemas: seq<Schema>, row: Row) returns (r: seq<Schema>)
    ensures r == AddRow(cx, schemas, row)
  {
    hide AddToTables;
    r := schemas;
    var s := SchemaIndex(r, row.schema);
    if s == |r| {
      r := r + [Schema(row.schema, [])];
    }
    var tables := PutColumn(cx, r[s].tables, row);
    r := r[s := r[s].(tables := tables)];
    assert r == AddRow(cx, schemas, row);
  }

  /** _build_nested_response; the ordered dicts are lists of entries in insertion order. */
  method BuildNestedResponse(cx: Context, rows: seq<Row>) returns (schemas: seq<Schema>)
    ensures schemas == Built(cx, rows)
  {
    hide AddRow;
    schemas := [];
    for n := 0 to |rows|
      invariant schemas == Built(cx, rows[..n])
    {
      assert rows[..n + 1][..n] == rows[..n];
      schemas := PutRow(cx, schemas, rows[n]);
    }
    assert rows[..|rows|] == rows;
  }

  // ---- what it is to be ----

  /** The names without repetitions, each where it first comes. */
  function FirstAppearances(names: seq<string>): seq<string>
  {
    if names == [] then [] else
    var front, last := names[..|names| - 1], names[|names| - 1];
    if last in front then FirstAppearances(front) else FirstAppearances(front) + [last]
  }

  function SchemaNames(rows: seq<Row>): (names: seq<string>)
    ensures |names| == |rows| && forall i :: 0 <= i < |rows| ==> names[i] == rows[i].schema
  {
    if rows == [] then [] else SchemaNames(rows[..|rows| - 1]) + [rows[|rows| - 1].schema]
  }

  function TableNames(rows: seq<Row>): (names: seq<string>)
    ensures |names| == |rows| && forall i :: 0 <= i < |rows| ==> names[i] == rows[i].table
  {
    if rows == [] then [] else TableNames(rows[..|rows| - 1]) + [rows[|rows| - 1].table]
  }

  function InSchema(rows: seq<Row>, schema: string): seq<Row>
  {
    if rows == [] then [] else
    var last := rows[|rows| - 1];
    InSchema(rows[..|rows| - 1], schema) + (if last.schema == schema then [last] else [])
  }

  function InTable(rows: seq<Row>, table: string): seq<Row>
  {
    if rows == [] then [] else
    var last := rows[|rows| - 1];
    InTable(rows[..|rows| - 1], table) + (if last.table == table then [last] else [])
  }

  function Columns(cx: Context, rows: seq<Row>): seq<Column>
  {
    if rows == [] then [] else Columns(cx, rows[..|rows| - 1]) + [ColumnOf(cx, rows[|rows| - 1])]
  }

  /** The columns come one for each row, in row order. */
  lemma {:induction false} ColumnsAre(cx: Context, rows: seq<Row>)
    ensures |Columns(cx, rows)| == |rows|
    ensures forall i :: 0 <= i < |rows| ==> Columns(cx, rows)[i] == ColumnOf(cx, rows[i])
  {
    if rows != [] {
      ColumnsAre(cx, rows[..|rows| - 1]);
    }
  }

  /** The table of these rows, described by the first of them. */
  function TableFrom(cx: Context, name: string, rows: seq<Row>): Table
  {
    if rows == [] then Table(name, "", None, []) else
    Table(name, rows[0].kind, rows[0].tableComment, Columns(cx, rows))
  }

  function TablesFor(cx: Context, names: seq<string>, rows: seq<Row>): (tables: seq<Table>)
    ensures |tables| == |names|
    ensures forall i :: 0 <= i < |names| ==> tables[i] == TableFrom(cx, names[i], InTable(rows, names[i]))
  {
    if names == [] then [] else
    var last := names[|names| - 1];
    TablesFor(cx, names[..|names| - 1], rows) + [TableFrom(cx, last, InTable(rows, last))]
  }

  function TablesOf(cx: Context, rows: seq<Row>): seq<Table>
  {
    TablesFor(cx, FirstAppearances(TableNames(rows)), rows)
  }

  function SchemasFor(cx: Context, names: seq<string>, rows: seq<Row>): (schemas: seq<Schema>)
    ensures |schemas| == |names|
    ensures forall i :: 0 <= i < |names| ==> schemas[i] == Schema(names[i], TablesOf(cx, InSchema(rows, names[i])))
  {
    if names == [] then [] else
    var last := names[|names| - 1];
    SchemasFor(cx, names[..|names| - 1], rows) + [Schema(last, TablesOf(cx, InSchema(rows, last)))]
  }

  /** Each schema, and each table within it, once and where it first appears, with its columns in row order. */
  function Nested(cx: Context, rows: seq<Row>): seq<Schema>
  {
    SchemasFor(cx, FirstAppearances(SchemaNames(rows)), rows)
  }

  // ---- the pass builds it ----

  lemma {:induction false} FirstAppearancesIs(names: seq<string>)
    ensures Distinct(FirstAppearances(names))
    ensures forall x :: x in FirstAppearances(names) <==> x in names
  {
    if names != [] {
      FirstAppearancesIs(names[..|names| - 1]);
      assert names == names[..|names| - 1] + [names[|names| - 1]];
    }
  }

  lemma FirstAppearancesNext(names: seq<string>, x: string)
    ensures FirstAppearances(names + [x]) ==
            if x in names then FirstAppearances(names) else FirstAppearances(names) + [x]
  {
    assert (names + [x])[..|names|] == names;
  }

  lemma NamesNext(rows: seq<Row>, row: Row)
    ensures SchemaNames(rows + [row]) == SchemaNames(rows) + [row.schema]
    ensures TableNames(rows + [row]) == TableNames(rows) + [row.table]
  {
  }

  lemma InNext(rows: seq<Row>, row: Row, name: string)
    ensures InTable(rows + [row], name) == InTable(rows, name) + (if row.table == name then [row] else [])
    ensures InSchema(rows + [row], name) == InSchema(rows, name) + (if row.schema == name then [row] else [])
  {
    assert (rows + [row])[..|rows|] == rows;
  }

  lemma {:induction false} InTableNone(rows: seq<Row>, name: string)
    ensures InTable(rows, name) == [] <==> name !in TableNames(rows)
  {
    if rows != [] {
      var n := |rows| - 1;
      InTableNone(rows[..n], name);
      NamesNext(rows[..n], rows[n]);
      InNext(rows[..n], rows[n], name);
      hide InTable, TableNames;
      assert rows == rows[..n] + [rows[n]];
    }
  }

  lemma {:induction false} InSchemaNone(rows: seq<Row>, name: string)
    ensures InSchema(rows, name) == [] <==> name !in SchemaNames(rows)
  {
    if rows != [] {
      var n := |rows| - 1;
      InSchemaNone(rows[..n], name);
      NamesNext(rows[..n], rows[n]);
      InNext(rows[..n], rows[n], name);
      hide InSchema, SchemaNames;
      assert rows == rows[..n] + [rows[n]];
    }
  }

  lemma TableNext(cx: Context, rows: seq<Row>, row: Row, name: string)
    ensures TableFrom(cx, name, InTable(rows + [row], name)) ==
            var before := TableFrom(cx, name, InTable(rows, name));
            if row.table != name then before
            else if name in TableNames(rows) then before.(columns := before.columns + [ColumnOf(cx, row)])
            else Table(name, row.kind, row.tableComment, [ColumnOf(cx, row)])
  {
    InNext(rows, row, name);
    InTableNone(rows, name);
    assert InTable(rows, name) + [] == InTable(rows, name);
    hide InTable, TableFrom;
    TableGrows(cx, name, InTable(rows, name), row);
  }

  lemma TableGrows(cx: Context, name: string, rows: seq<Row>, row: Row)
    ensures TableFrom(cx, name, rows + [row]) ==
            if rows == [] then Table(name, row.kind, row.tableComment, [ColumnOf(cx, row)])
            else TableFrom(cx, name, rows).(columns := TableFrom(cx, name, rows).columns + [ColumnOf(cx, row)])
  {
    hide ColumnOf;
    assert (rows + [row])[..|rows|] == rows;
    assert Columns(cx, rows + [row]) == Columns(cx, rows) + [ColumnOf(cx, row)];
    if rows == [] {
      assert Columns(cx, []) == [];
    }
  }

  lemma IndexInTables(tables: seq<Table>, names: seq<string>, name: string)
    requires |tables| == |names| && Distinct(names)
    requires forall i :: 0 <= i < |names| ==> tables[i].name == names[i]
    ensures var k := TableIndex(tables, name);
            (k == |tables| <==> name !in names) && (k < |tables| ==> names[k] == name)
    ensures forall i :: 0 <= i < |names| && i != TableIndex(tables, name) ==> names[i] != name
  {
  }

  lemma IndexInSchemas(schemas: seq<Schema>, names: seq<string>, name: string)
    requires |schemas| == |names| && Distinct(names)
    requires forall i :: 0 <= i < |names| ==> schemas[i].name == names[i]
    ensures var k := SchemaIndex(schemas, name);
            (k == |schemas| <==> name !in names) && (k < |schemas| ==> names[k] == name)
    ensures forall i :: 0 <= i < |names| && i != SchemaIndex(schemas, name) ==> names[i] != name
  {
  }

  lemma TablesForNext(cx: Context, names: seq<string>, rows: seq<Row>, row: Row)
    requires Distinct(names) && forall x :: x in names <==> x in TableNames(rows)
    ensures var before := TablesFor(cx, names, rows);
            AddToTables(cx, before, row) ==
            TablesFor(cx, if row.table in names then names else names + [row.table], rows + [row])
  {
    hide TablesFor, InTable, TableIndex, TableNames, ColumnOf;
    var before := TablesFor(cx, names, rows);
    var now := if row.table in names then names else names + [row.table];
    IndexInTables(before, names, row.table);
    hide Distinct, TableFrom;
    var added, after := AddToTables(cx, before, row), TablesFor(cx, now, rows + [row]);
    assert |added| == |now|;
    forall i | 0 <= i < |now|
      ensures after[i] == added[i]
    {
      TableNext(cx, rows, row, now[i]);
      if i < |names| {
        assert now[i] == names[i] && before[i] == TableFrom(cx, names[i], InTable(rows, names[i]));
      }
    }
  }

  lemma TablesNext(cx: Context, rows: seq<Row>, row: Row)
    ensures TablesOf(cx, rows + [row]) == AddToTables(cx, TablesOf(cx, rows), row)
  {
    hide AddToTables, TablesFor, Distinct, FirstAppearances;
    FirstAppearancesIs(TableNames(rows));
    NamesNext(rows, row);
    FirstAppearancesNext(TableNames(rows), row.table);
    TablesForNext(cx, FirstAppearances(TableNames(rows)), rows, row);
  }

  lemma SchemasForNext(cx: Context, names: seq<string>, rows: seq<Row>, row: Row)
    requires Distinct(names) && forall x :: x in names <==> x in SchemaNames(rows)
    ensures var before := SchemasFor(cx, names, rows);
            AddRow(cx, before, row) ==
            SchemasFor(cx, if row.schema in names then names else names + [row.schema], rows + [row])
  {
    var before := SchemasFor(cx, names, rows);
    var now := if row.schema in names then names else names + [row.schema];
    IndexInSchemas(before, names, row.schema);
    var added, after := AddRow(cx, before, row), SchemasFor(cx, now, rows + [row]);
    hide SchemasFor, TablesOf, InSchema, SchemaIndex, SchemaNames, AddToTables, Distinct;
    assert |added| == |now|;
    forall i | 0 <= i < |now|
      ensures after[i] == added[i]
    {
      SchemaEntryNext(cx, rows, row, now[i]);
      if i < |names| {
        assert now[i] == names[i] && before[i] == Schema(names[i], TablesOf(cx, InSchema(rows, names[i])));
      }
    }
  }

  lemma SchemaEntryNext(cx: Context, rows: seq<Row>, row: Row, name: string)
    ensures TablesOf(cx, InSchema(rows + [row], name)) ==
            var before := TablesOf(cx, InSchema(rows, name));
            if row.schema == name then AddToTables(cx, before, row) else before
    ensures name !in SchemaNames(rows) ==> TablesOf(cx, InSchema(rows, name)) == []
  {
    hide AddToTables, TablesOf, InSchema;
    InNext(rows, row, name);
    InSchemaNone(rows, name);
    assert InSchema(rows, name) + [] == InSchema(rows, name);
    TablesNext(cx, InSchema(rows, name), row);
    NothingNested(cx);
  }

  lemma SchemaNext(cx: Context, rows: seq<Row>, row: Row)
    ensures Nested(cx, rows + [row]) == AddRow(cx, Nested(cx, rows), row)
  {
    hide AddRow, SchemasFor, Distinct, FirstAppearances;
    FirstAppearancesIs(SchemaNames(rows));
    NamesNext(rows, row);
    FirstAppearancesNext(SchemaNames(rows), row.schema);
    SchemasForNext(cx, FirstAppearances(SchemaNames(rows)), rows, row);
  }

  /** The pass yields each schema and each table once, in first-appearance order, with the columns of its rows in
      their order, described by the first of them. */
  lemma {:induction false} BuiltIsNested(cx: Context, rows: seq<Row>)
    ensures Built(cx, rows) == Nested(cx, rows)
  {
    hide AddRow, Nested;
    if rows == [] {
      NothingNested(cx);
    } else {
      var n := |rows| - 1;
      BuiltIsNested(cx, rows[..n]);
      SchemaNext(cx, rows[..n], rows[n]);
      assert rows == rows[..n] + [rows[n]];
    }
  }

  lemma NothingNested(cx: Context)
    ensures Nested(cx, []) == [] && TablesOf(cx, []) == []
  {
  }
}
