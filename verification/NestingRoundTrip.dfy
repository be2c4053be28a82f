/** Flattening the data dictionary again. Adding a row to the nested dictionary inserts one entry in the flat list; the
    place is the end exactly if the rows of each schema and each table stand together, which the order of the query
    sees to. */
module NestingRoundTrip {
  import opened Sequences
  import opened Nesting

  datatype Entry = Entry(schema: string, table: string, column: Column)

  function EntryOf(cx: Context, row: Row): Entry
  {
    Entry(row.schema, row.table, ColumnOf(cx, row))
  }

  function Entries(cx: Context, rows: seq<Row>): (es: seq<Entry>)
    ensures |es| == |rows| && forall i :: 0 <= i < |rows| ==> es[i] == EntryOf(cx, rows[i])
  {
    if rows == [] then [] else Entries(cx, rows[..|rows| - 1]) + [EntryOf(cx, rows[|rows| - 1])]
  }

  function OfColumns(schema: string, table: string, columns: seq<Column>): (es: seq<Entry>)
    ensures |es| == |columns|
    ensures forall i :: 0 <= i < |es| ==> es[i] == Entry(schema, table, columns[i])
  {
    if columns == [] then [] else
    OfColumns(schema, table, columns[..|columns| - 1]) + [Entry(schema, table, columns[|columns| - 1])]
  }

  function OfTables(schema: string, tables: seq<Table>): seq<Entry>
  {
    if tables == [] then [] else
    var last := tables[|tables| - 1];
    OfTables(schema, tables[..|tables| - 1]) + OfColumns(schema, last.name, last.columns)
  }

  /** The entries of the response, in its order. */
  function Flatten(schemas: seq<Schema>): seq<Entry>
  {
    if schemas == [] then [] else
    var last := schemas[|schemas| - 1];
    Flatten(schemas[..|schemas| - 1]) + OfTables(last.name, last.tables)
  }

  // ---- adding a row inserts one entry ----

  lemma OfTablesLast(schema: string, tables: seq<Table>, t: Table)
    ensures OfTables(schema, tables + [t]) == OfTables(schema, tables) + OfColumns(schema, t.name, t.columns)
  {
    assert (tables + [t])[..|tables|] == tables;
  }

  lemma FlattenLast(schemas: seq<Schema>, s: Schema)
    ensures Flatten(schemas + [s]) == Flatten(schemas) + OfTables(s.name, s.tables)
  {
    assert (schemas + [s])[..|schemas|] == schemas;
  }

  lemma {:induction false} OfTablesConcat(schema: string, a: seq<Table>, b: seq<Table>)
    ensures OfTables(schema, a + b) == OfTables(schema, a) + OfTables(schema, b)
  {
    if b == [] {
      assert a + b == a;
    } else {
      var front, t := b[..|b| - 1], b[|b| - 1];
      hide OfTables, OfColumns;
      OfTablesConcat(schema, a, front);
      OfTablesLast(schema, a + front, t);
      OfTablesLast(schema, front, t);
      Associative(a, front, [t]);
      Associative(OfTables(schema, a), OfTables(schema, front), OfColumns(schema, t.name, t.columns));
      assert b == front + [t];
    }
  }

  lemma {:induction false} FlattenConcat(a: seq<Schema>, b: seq<Schema>)
    ensures Flatten(a + b) == Flatten(a) + Flatten(b)
  {
    if b == [] {
      assert a + b == a;
    } else {
      var front, s := b[..|b| - 1], b[|b| - 1];
      hide Flatten, OfTables;
      FlattenConcat(a, front);
      FlattenLast(a + front, s);
      FlattenLast(front, s);
      Associative(a, front, [s]);
      Associative(Flatten(a), Flatten(front), OfTables(s.name, s.tables));
      assert b == front + [s];
    }
  }

  lemma OneTable(schema: string, t: Table)
    ensures OfTables(schema, [t]) == OfColumns(schema, t.name, t.columns)
  {
    assert OfTables(schema, []) == [];
  }

  lemma OneSchema(s: Schema)
    ensures Flatten([s]) == OfTables(s.name, s.tables)
  {
    assert Flatten([]) == [];
  }

  lemma OneMoreColumn(schema: string, t: Table, c: Column)
    ensures OfTables(schema, [t.(columns := t.columns + [c])]) == OfTables(schema, [t]) + [Entry(schema, t.name, c)]
  {
    OneTable(schema, t);
    OneTable(schema, t.(columns := t.columns + [c]));
    hide OfTables;
    assert (t.columns + [c])[..|t.columns|] == t.columns;
  }

  /** The tables before and after the one the row goes to. */
  lemma InsertedInTables(cx: Context, tables: seq<Table>, row: Row) returns (x: seq<Entry>, y: seq<Entry>)
    ensures OfTables(row.schema, tables) == x + y
    ensures OfTables(row.schema, AddToTables(cx, tables, row)) == x + [EntryOf(cx, row)] + y
    ensures TableIndex(tables, row.table) >= |tables| - 1 ==> y == []
  {
    var k, c := TableIndex(tables, row.table), ColumnOf(cx, row);
    hide ColumnOf, OfTables;
    if k == |tables| {
      x, y := OfTables(row.schema, tables), [];
      var t := Table(row.table, row.kind, row.tableComment, [c]);
      OfTablesConcat(row.schema, tables, [t]);
      OneTable(row.schema, t);
      assert OfColumns(row.schema, row.table, [c]) == [EntryOf(cx, row)];
    } else {
      var a, t, b := tables[..k], tables[k], tables[k + 1..];
      var u := t.(columns := t.columns + [c]);
      assert tables == a + [t] + b && tables[k := u] == a + [u] + b;
      OfTablesConcat(row.schema, a + [t], b);
      OfTablesConcat(row.schema, a, [t]);
      OfTablesConcat(row.schema, a + [u], b);
      OfTablesConcat(row.schema, a, [u]);
      OneMoreColumn(row.schema, t, c);
      x, y := OfTables(row.schema, a) + OfTables(row.schema, [t]), OfTables(row.schema, b);
      if k == |tables| - 1 {
        NoEntries(row.schema);
      }
    }
  }

  lemma NoEntries(schema: string)
    ensures OfTables(schema, []) == [] && Flatten([]) == []
  {
  }

  /** The row goes to the last table of the last schema, or opens a new one there. */
  ghost predicate AtEnd(schemas: seq<Schema>, row: Row)
  {
    var k := SchemaIndex(schemas, row.schema);
    k >= |schemas| - 1 &&
    (k < |schemas| ==> TableIndex(schemas[k].tables, row.table) >= |schemas[k].tables| - 1)
  }

  lemma NewSchemaInserted(cx: Context, schemas: seq<Schema>, row: Row)
    ensures Flatten(schemas + [Schema(row.schema, AddToTables(cx, [], row))]) == Flatten(schemas) + [EntryOf(cx, row)]
  {
    hide Flatten, EntryOf, OfTables, AddToTables;
    var s := Schema(row.schema, AddToTables(cx, [], row));
    FlattenConcat(schemas, [s]);
    OneSchema(s);
    NoEntries(row.schema);
    var u, v := InsertedInTables(cx, [], row);
    assert u == [] && v == [] && u + [EntryOf(cx, row)] + v == [EntryOf(cx, row)];
  }

  lemma FlattenMiddle(a: seq<Schema>, s: Schema, b: seq<Schema>)
    ensures Flatten(a + [s] + b) == Flatten(a) + OfTables(s.name, s.tables) + Flatten(b)
  {
    FlattenConcat(a + [s], b);
    FlattenConcat(a, [s]);
    OneSchema(s);
    hide Flatten, OfTables;
  }

  lemma Inserted(cx: Context, schemas: seq<Schema>, row: Row) returns (x: seq<Entry>, y: seq<Entry>)
    ensures Flatten(schemas) == x + y
    ensures Flatten(AddRow(cx, schemas, row)) == x + [EntryOf(cx, row)] + y
    ensures AtEnd(schemas, row) ==> y == []
  {
    var k := SchemaIndex(schemas, row.schema);
    hide Flatten, EntryOf, OfTables, AddToTables;
    if k == |schemas| {
      x, y := Flatten(schemas), [];
      NewSchemaInserted(cx, schemas, row);
    } else {
      var a, s, b := schemas[..k], schemas[k], schemas[k + 1..];
      var t := s.(tables := AddToTables(cx, s.tables, row));
      assert schemas == a + [s] + b && schemas[k := t] == a + [t] + b;
      FlattenMiddle(a, s, b);
      FlattenMiddle(a, t, b);
      var u, v := InsertedInTables(cx, s.tables, row);
      x, y := Flatten(a) + u, v + Flatten(b);
      var e := EntryOf(cx, row);
      assert Flatten(a) + (u + v) + Flatten(b) == x + y;
      assert Flatten(a) + (u + [e] + v) + Flatten(b) == x + [e] + y;
      NoEntries("");
    }
  }

  /** Every row comes back once: there are as many columns as rows, and they are the rows' columns. */
  lemma {:induction false} NothingLost(cx: Context, rows: seq<Row>)
    ensures multiset(Flatten(Built(cx, rows))) == multiset(Entries(cx, rows))
    ensures |Flatten(Built(cx, rows))| == |rows|
  {
    hide AddRow, Flatten, EntryOf;
    if rows == [] {
      NoEntries("");
    } else {
      var n := |rows| - 1;
      NothingLost(cx, rows[..n]);
      var x, y := Inserted(cx, Built(cx, rows[..n]), rows[n]);
      hide Built;
      InsertedOne(x, EntryOf(cx, rows[n]), y);
    }
  }

  lemma InsertedOne(x: seq<Entry>, e: Entry, y: seq<Entry>)
    ensures multiset(x + [e] + y) == multiset(x + y) + multiset{e}
    ensures |x + [e] + y| == |x + y| + 1
  {
  }

  // ---- contiguous rows ----

  /** The rows of a schema stand together, and so do those of a table. */
  ghost predicate Contiguous(rows: seq<Row>)
  {
    forall i, j, k :: 0 <= i < j < k < |rows| && rows[i].schema == rows[k].schema ==>
      rows[j].schema == rows[i].schema && (rows[i].table == rows[k].table ==> rows[j].table == rows[i].table)
  }

  /** The last row went to the end of the response. */
  ghost predicate Ends(schemas: seq<Schema>, rows: seq<Row>)
  {
    if rows == [] then schemas == [] else
    schemas != [] && schemas[|schemas| - 1].name == rows[|rows| - 1].schema &&
    var tables := schemas[|schemas| - 1].tables;
    tables != [] && tables[|tables| - 1].name == rows[|rows| - 1].table
  }

  ghost predicate WellNamed(schemas: seq<Schema>)
  {
    (forall i, j :: 0 <= i < j < |schemas| ==> schemas[i].name != schemas[j].name) &&
    forall k :: 0 <= k < |schemas| ==> DistinctTables(schemas[k].tables)
  }

  ghost predicate DistinctTables(tables: seq<Table>)
  {
    forall i, j :: 0 <= i < j < |tables| ==> tables[i].name != tables[j].name
  }

  lemma AddKeepsTables(cx: Context, tables: seq<Table>, row: Row)
    requires DistinctTables(tables)
    ensures DistinctTables(AddToTables(cx, tables, row))
  {
  }

  lemma AddKeepsNames(cx: Context, schemas: seq<Schema>, row: Row)
    requires WellNamed(schemas)
    ensures WellNamed(AddRow(cx, schemas, row))
  {
    var k := SchemaIndex(schemas, row.schema);
    AddKeepsTables(cx, if k < |schemas| then schemas[k].tables else [], row);
    hide AddToTables, DistinctTables;
  }

  lemma {:induction false} BuiltIsWellNamed(cx: Context, rows: seq<Row>)
    ensures WellNamed(Built(cx, rows))
  {
    if rows != [] {
      BuiltIsWellNamed(cx, rows[..|rows| - 1]);
      AddKeepsNames(cx, Built(cx, rows[..|rows| - 1]), rows[|rows| - 1]);
      hide AddRow, WellNamed;
    }
  }

  /** Schemas and tables in the response come from rows. */
  ghost predicate FromRows(schemas: seq<Schema>, rows: seq<Row>)
  {
    forall k :: 0 <= k < |schemas| ==>
      HasSchema(rows, schemas[k].name) && TablesFromRows(schemas[k].tables, schemas[k].name, rows)
  }

  ghost predicate TablesFromRows(tables: seq<Table>, schema: string, rows: seq<Row>)
  {
    forall m :: 0 <= m < |tables| ==> HasTable(rows, schema, tables[m].name)
  }

  ghost predicate HasSchema(rows: seq<Row>, schema: string)
  {
    exists i :: 0 <= i < |rows| && rows[i].schema == schema
  }

  ghost predicate HasTable(rows: seq<Row>, schema: string, table: string)
  {
    exists i :: 0 <= i < |rows| && rows[i].schema == schema && rows[i].table == table
  }

  lemma HasMore(rows: seq<Row>, row: Row, schema: string, table: string)
    ensures HasSchema(rows, schema) || row.schema == schema ==> HasSchema(rows + [row], schema)
    ensures HasTable(rows, schema, table) || (row.schema == schema && row.table == table) ==>
              HasTable(rows + [row], schema, table)
  {
    if HasSchema(rows, schema) {
      var i :| 0 <= i < |rows| && rows[i].schema == schema;
      assert (rows + [row])[i].schema == schema;
    }
    if HasTable(rows, schema, table) {
      var i :| 0 <= i < |rows| && rows[i].schema == schema && rows[i].table == table;
      assert (rows + [row])[i].schema == schema;
    }
    assert (rows + [row])[|rows|] == row;
  }

  lemma TablesFromMore(tables: seq<Table>, schema: string, rows: seq<Row>, row: Row)
    requires TablesFromRows(tables, schema, rows)
    ensures TablesFromRows(tables, schema, rows + [row])
  {
    forall m | 0 <= m < |tables|
      ensures HasTable(rows + [row], schema, tables[m].name)
    {
      HasMore(rows, row, schema, tables[m].name);
    }
  }

  lemma AddedFromMore(cx: Context, tables: seq<Table>, rows: seq<Row>, row: Row)
    requires TablesFromRows(tables, row.schema, rows)
    ensures TablesFromRows(AddToTables(cx, tables, row), row.schema, rows + [row])
  {
    TablesFromMore(tables, row.schema, rows, row);
    HasMore(rows, row, row.schema, row.table);
    hide HasTable, ColumnOf;
  }

  lemma SchemasFromMore(schemas: seq<Schema>, rows: seq<Row>, row: Row)
    requires FromRows(schemas, rows)
    ensures FromRows(schemas, rows + [row])
  {
    forall k | 0 <= k < |schemas|
      ensures HasSchema(rows + [row], schemas[k].name)
      ensures TablesFromRows(schemas[k].tables, schemas[k].name, rows + [row])
    {
      HasMore(rows, row, schemas[k].name, "");
      TablesFromMore(schemas[k].tables, schemas[k].name, rows, row);
    }
  }

  lemma AddFromRows(cx: Context, schemas: seq<Schema>, rows: seq<Row>, row: Row)
    requires FromRows(schemas, rows)
    ensures FromRows(AddRow(cx, schemas, row), rows + [row])
  {
    var k := SchemaIndex(schemas, row.schema);
    HasMore(rows, row, row.schema, row.table);
    SchemasFromMore(schemas, rows, row);
    AddedFromMore(cx, if k < |schemas| then schemas[k].tables else [], rows, row);
    hide AddToTables, HasSchema, HasTable, TablesFromRows, SchemaIndex;
  }

  lemma NothingFromRows()
    ensures FromRows([], [])
  {
  }

  lemma {:induction false} BuiltFromRows(cx: Context, rows: seq<Row>)
    ensures FromRows(Built(cx, rows), rows)
  {
    hide AddRow, FromRows;
    if rows == [] {
      NothingFromRows();
    } else {
      var front, row := rows[..|rows| - 1], rows[|rows| - 1];
      BuiltFromRows(cx, front);
      AddFromRows(cx, Built(cx, front), front, row);
      assert Built(cx, rows) == AddRow(cx, Built(cx, front), row);
      hide Built;
      assert rows == front + [row];
    }
  }

  lemma ContinuesSchema(rows: seq<Row>, row: Row)
    requires Contiguous(rows + [row]) && HasSchema(rows, row.schema)
    ensures rows != [] && rows[|rows| - 1].schema == row.schema
  {
    var i :| 0 <= i < |rows| && rows[i].schema == row.schema;
    var n, all := |rows| - 1, rows + [row];
    assert all[i] == rows[i] && all[n] == rows[n] && all[n + 1] == row;
  }

  lemma ContinuesTable(rows: seq<Row>, row: Row)
    requires Contiguous(rows + [row]) && HasTable(rows, row.schema, row.table)
    ensures rows != [] && rows[|rows| - 1].table == row.table
  {
    var i :| 0 <= i < |rows| && rows[i].schema == row.schema && rows[i].table == row.table;
    var n, all := |rows| - 1, rows + [row];
    assert all[i] == rows[i] && all[n] == rows[n] && all[n + 1] == row;
  }

  /** A row that continues contiguous rows goes to the end. */
  lemma ContinuesAtEnd(schemas: seq<Schema>, rows: seq<Row>, row: Row)
    requires Contiguous(rows + [row]) && Ends(schemas, rows) && WellNamed(schemas) && FromRows(schemas, rows)
    ensures AtEnd(schemas, row)
  {
    hide Contiguous, HasSchema, HasTable;
    var k := SchemaIndex(schemas, row.schema);
    if k < |schemas| {
      assert HasSchema(rows, schemas[k].name);
      ContinuesSchema(rows, row);
      assert k == |schemas| - 1;
      var tables := schemas[k].tables;
      var m := TableIndex(tables, row.table);
      assert DistinctTables(tables) && TablesFromRows(tables, row.schema, rows);
      if m < |tables| {
        assert HasTable(rows, row.schema, tables[m].name);
        ContinuesTable(rows, row);
      }
    }
  }

  lemma AddEnds(cx: Context, schemas: seq<Schema>, rows: seq<Row>, row: Row)
    requires AtEnd(schemas, row)
    ensures Ends(AddRow(cx, schemas, row), rows + [row])
  {
  }

  lemma ContiguousFront(rows: seq<Row>)
    requires Contiguous(rows) && rows != []
    ensures Contiguous(rows[..|rows| - 1])
  {
  }

  lemma {:induction false} ContiguousEnds(cx: Context, rows: seq<Row>)
    requires Contiguous(rows)
    ensures Ends(Built(cx, rows), rows)
    ensures Flatten(Built(cx, rows)) == Entries(cx, rows)
  {
    hide WellNamed, FromRows, AtEnd, AddRow, Flatten, Contiguous, EntryOf;
    if rows == [] {
      NoEntries("");
    } else {
      hide Ends;
      var n := |rows| - 1;
      ContiguousFront(rows);
      ContiguousEnds(cx, rows[..n]);
      assert rows == rows[..n] + [rows[n]];
      BuiltIsWellNamed(cx, rows[..n]);
      BuiltFromRows(cx, rows[..n]);
      RowAtEnd(cx, Built(cx, rows[..n]), rows[..n], rows[n]);
    }
  }

  lemma RowAtEnd(cx: Context, schemas: seq<Schema>, rows: seq<Row>, row: Row)
    requires Contiguous(rows + [row]) && Ends(schemas, rows) && WellNamed(schemas) && FromRows(schemas, rows)
    ensures Ends(AddRow(cx, schemas, row), rows + [row])
    ensures Flatten(AddRow(cx, schemas, row)) == Flatten(schemas) + [EntryOf(cx, row)]
  {
    hide WellNamed, FromRows, AtEnd, Ends, AddRow, Flatten, Contiguous, EntryOf;
    ContinuesAtEnd(schemas, rows, row);
    AddEnds(cx, schemas, rows, row);
    var x, y := Inserted(cx, schemas, row);
    assert x + y == x && x + [EntryOf(cx, row)] + y == x + [EntryOf(cx, row)];
  }

  // ---- and only then ----

  ghost predicate Together(es: seq<Entry>)
  {
    forall i, j, k :: 0 <= i < j < k < |es| && es[i].schema == es[k].schema ==>
      es[j].schema == es[i].schema && (es[i].table == es[k].table ==> es[j].table == es[i].table)
  }

  ghost predicate AllIn(es: seq<Entry>, schema: string)
  {
    forall i :: 0 <= i < |es| ==> es[i].schema == schema
  }

  lemma TogetherBySchema(x: seq<Entry>, y: seq<Entry>)
    requires Together(x) && Together(y)
    requires forall i, j :: 0 <= i < |x| && 0 <= j < |y| ==> x[i].schema != y[j].schema
    ensures Together(x + y)
  {
    assert forall i :: 0 <= i < |x + y| ==> (x + y)[i] == if i < |x| then x[i] else y[i - |x|];
  }

  lemma TogetherByTable(x: seq<Entry>, y: seq<Entry>, schema: string)
    requires Together(x) && Together(y) && AllIn(x, schema) && AllIn(y, schema)
    requires forall i, j :: 0 <= i < |x| && 0 <= j < |y| ==> x[i].table != y[j].table
    ensures Together(x + y) && AllIn(x + y, schema)
  {
    assert forall i :: 0 <= i < |x + y| ==> (x + y)[i] == if i < |x| then x[i] else y[i - |x|];
  }

  lemma {:induction false} TablesTogether(schema: string, tables: seq<Table>)
    requires DistinctTables(tables)
    ensures var es := OfTables(schema, tables);
            Together(es) && AllIn(es, schema) &&
            forall i :: 0 <= i < |es| ==> exists m :: 0 <= m < |tables| && es[i].table == tables[m].name
  {
    if tables != [] {
      var n := |tables| - 1;
      TablesTogether(schema, tables[..n]);
      var x, y := OfTables(schema, tables[..n]), OfColumns(schema, tables[n].name, tables[n].columns);
      hide OfTables;
      forall i, j | 0 <= i < |x| && 0 <= j < |y|
        ensures x[i].table != y[j].table
      {
        var m :| 0 <= m < n && x[i].table == tables[..n][m].name;
      }
      TogetherByTable(x, y, schema);
      forall i | 0 <= i < |x + y|
        ensures exists m :: 0 <= m < |tables| && (x + y)[i].table == tables[m].name
      {
        if i < |x| {
          var m :| 0 <= m < n && x[i].table == tables[..n][m].name;
          assert (x + y)[i].table == tables[m].name;
        } else {
          assert (x + y)[i].table == tables[n].name;
        }
      }
      assert OfTables(schema, tables) == x + y;
    }
  }

  lemma {:induction false} FlattenTogether(schemas: seq<Schema>)
    requires WellNamed(schemas)
    ensures var es := Flatten(schemas);
            Together(es) &&
            forall i :: 0 <= i < |es| ==> exists m :: 0 <= m < |schemas| && es[i].schema == schemas[m].name
  {
    if schemas != [] {
      var n := |schemas| - 1;
      FlattenTogether(schemas[..n]);
      TablesTogether(schemas[n].name, schemas[n].tables);
      var x, y := Flatten(schemas[..n]), OfTables(schemas[n].name, schemas[n].tables);
      assert Flatten(schemas) == x + y;
      hide Flatten, OfTables;
      forall i, j | 0 <= i < |x| && 0 <= j < |y|
        ensures x[i].schema != y[j].schema
      {
        var m :| 0 <= m < n && x[i].schema == schemas[..n][m].name;
      }
      TogetherBySchema(x, y);
      forall i | 0 <= i < |x + y|
        ensures exists m :: 0 <= m < |schemas| && (x + y)[i].schema == schemas[m].name
      {
        if i < |x| {
          var m :| 0 <= m < n && x[i].schema == schemas[..n][m].name;
          assert (x + y)[i].schema == schemas[m].name;
        } else {
          assert (x + y)[i].schema == schemas[n].name;
        }
      }
    }
  }

  /** Flattening the response gives the rows back in their order exactly when the rows of each schema, and of each
      table, stand together, as the ORDER BY of the query makes them. */
  lemma RoundTripIff(cx: Context, rows: seq<Row>)
    ensures Flatten(Built(cx, rows)) == Entries(cx, rows) <==> Contiguous(rows)
  {
    if Contiguous(rows) {
      ContiguousEnds(cx, rows);
    }
    BuiltIsWellNamed(cx, rows);
    FlattenTogether(Built(cx, rows));
    hide Flatten, Built, WellNamed, ColumnOf;
    if Flatten(Built(cx, rows)) == Entries(cx, rows) {
      assert forall i :: 0 <= i < |rows| ==>
               Entries(cx, rows)[i].schema == rows[i].schema && Entries(cx, rows)[i].table == rows[i].table;
    }
  }

  // ---- the ORDER BY ----

  const OTHER_SCHEMA := 8

  /** The CASE of the ORDER BY; the WHERE clause selects no schema other than these. */
  function SchemaRank(schema: string): nat
  {
    if schema == "reporting" then 0 else if schema == "core" then 1 else if schema == "sales" then 2 else
    if schema == "finance" then 3 else if schema == "inventory" then 4 else if schema == "procurement" then 5 else
    if schema == "cashbook" then 6 else if schema == "crm" then 7 else OTHER_SCHEMA
  }

  lemma RankIdentifies(a: string, b: string)
    requires SchemaRank(a) == SchemaRank(b) < OTHER_SCHEMA
    ensures a == b
  {
  }

  /** Ordered by schema rank, then by table name in some collation. */
  ghost predicate Ordered(rows: seq<Row>, before: (string, string) -> bool)
  {
    forall i, j :: 0 <= i < j < |rows| ==>
      SchemaRank(rows[i].schema) < SchemaRank(rows[j].schema) ||
      (SchemaRank(rows[i].schema) == SchemaRank(rows[j].schema) &&
       (rows[i].table == rows[j].table || before(rows[i].table, rows[j].table)))
  }

  /** Rows in the order of the query come back from the response as they are. */
  lemma OrderedRoundTrip(cx: Context, rows: seq<Row>, before: (string, string) -> bool)
    requires forall a, b :: before(a, b) ==> !before(b, a)
    requires Ordered(rows, before) && forall i :: 0 <= i < |rows| ==> SchemaRank(rows[i].schema) < OTHER_SCHEMA
    ensures Flatten(Built(cx, rows)) == Entries(cx, rows)
  {
    hide SchemaRank, Built, Flatten, Entries;
    forall i, j, k | 0 <= i < j < k < |rows| && rows[i].schema == rows[k].schema
      ensures rows[j].schema == rows[i].schema && (rows[i].table == rows[k].table ==> rows[j].table == rows[i].table)
    {
      assert SchemaRank(rows[i].schema) <= SchemaRank(rows[j].schema) <= SchemaRank(rows[k].schema);
      RankIdentifies(rows[i].schema, rows[j].schema);
    }
    RoundTripIff(cx, rows);
  }
}
