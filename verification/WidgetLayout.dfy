/** The packer that places seeded widgets on the twelve-column dashboard grid. */
module WidgetLayout {
  import opened Options
  import opened Sequences

  const GRID_COLUMNS := 12
  const GRID_DEFAULT_SIZE_Y := 3
  const GRID_COLUMNS_PER_AUTHORED_WIDTH := 2

  datatype Cursor = Cursor(col: nat, row: nat)

  /** A widget's place; all widgets are GRID_DEFAULT_SIZE_Y rows high. */
  datatype Position = Position(col: int, row: int, sizeX: int)

  const ORIGIN := Cursor(0, 0)

  function SizeX(width: int): int
  {
    var doubled := width * GRID_COLUMNS_PER_AUTHORED_WIDTH;
    if doubled > GRID_COLUMNS then GRID_COLUMNS else if doubled < 1 then 1 else doubled
  }

  /** The cursor after starting a new row, if the widget does not fit in this one. */
  function Wrapped(c: Cursor, size: int): Cursor
  {
    if c.col + size > GRID_COLUMNS then Cursor(0, c.row + GRID_DEFAULT_SIZE_Y) else c
  }

  function Place(c: Cursor, width: int): Position
  {
    var w := Wrapped(c, SizeX(width));
    Position(w.col, w.row, SizeX(width))
  }

  function Advance(c: Cursor, width: int): Cursor
  {
    var w := Wrapped(c, SizeX(width));
    if w.col + SizeX(width) >= GRID_COLUMNS then Cursor(0, w.row + GRID_DEFAULT_SIZE_Y)
    else Cursor(w.col + SizeX(width), w.row)
  }

  /** The cursor after a sequence of widths, and the positions given out. */
  function CursorAfter(widths: seq<int>): Cursor
  {
    if widths == [] then ORIGIN else Advance(CursorAfter(widths[..|widths| - 1]), widths[|widths| - 1])
  }

  function Layout(widths: seq<int>): (l: seq<Position>)
    ensures |l| == |widths|
  {
    if widths == [] then [] else
    var front := widths[..|widths| - 1];
    Layout(front) + [Place(CursorAfter(front), widths[|widths| - 1])]
  }

  class Packer {
    var col: nat
    var row: nat

    constructor ()
      ensures col == 0 && row == 0
    {
      col, row := 0, 0;
    }

    method NextPosition(width: int) returns (position: Position)
      modifies this
      ensures position == Place(old(Cursor(col, row)), width)
      ensures Cursor(col, row) == Advance(old(Cursor(col, row)), width)
      ensures position.sizeX == if width >= 6 then 12 else if width >= 1 then 2 * width else 1
      ensures if old(col) + position.sizeX <= 12 then position.col == old(col) && position.row == old(row)
              else position.col == 0 && position.row == old(row) + 3
      ensures if position.col + position.sizeX < 12 then col == position.col + position.sizeX && row == position.row
              else col == 0 && row == position.row + 3
    {
      var size := width * GRID_COLUMNS_PER_AUTHORED_WIDTH;
      size := if size > GRID_COLUMNS then GRID_COLUMNS else size;
      size := if size < 1 then 1 else size;

      if col + size > GRID_COLUMNS {
        col := 0;
        row := row + GRID_DEFAULT_SIZE_Y;
      }

      position := Position(col, row, size);

      col := col + size;
      if col >= GRID_COLUMNS {
        col := 0;
        row := row + GRID_DEFAULT_SIZE_Y;
      }
    }
  }

  // ---- the widget loop of the seeder ----

  datatype WidgetDef = WidgetDef(queryKey: string, visIndex: nat, width: Option<int>)

  datatype Widget = Widget(visualization: int, position: Position)

  const DEFAULT_WIDTH := 6

  /** A widget is created when its query exists and has that many visualizations. */
  predicate Creatable(def: WidgetDef, queries: map<string, seq<int>>)
  {
    def.queryKey in queries && def.visIndex < |queries[def.queryKey]|
  }

  function WidthOf(def: WidgetDef): int
  {
    if def.width.Some? then def.width.value else DEFAULT_WIDTH
  }

  function Created(defs: seq<WidgetDef>, queries: map<string, seq<int>>): seq<WidgetDef>
  {
    if defs == [] then [] else
    Created(defs[..|defs| - 1], queries) +
    (if Creatable(defs[|defs| - 1], queries) then [defs[|defs| - 1]] else [])
  }

  function Widths(defs: seq<WidgetDef>): (w: seq<int>)
    ensures |w| == |defs|
  {
    seq(|defs|, i requires 0 <= i < |defs| => WidthOf(defs[i]))
  }

  predicate CreatedFrom(w: Widget, def: WidgetDef, queries: map<string, seq<int>>)
  {
    Creatable(def, queries) && w.visualization == queries[def.queryKey][def.visIndex]
  }

  function Positions(widgets: seq<Widget>): (p: seq<Position>)
    ensures |p| == |widgets|
  {
    seq(|widgets|, i requires 0 <= i < |widgets| => widgets[i].position)
  }

  lemma LayoutLast(widths: seq<int>, width: int)
    ensures Layout(widths + [width]) == Layout(widths) + [Place(CursorAfter(widths), width)]
    ensures CursorAfter(widths + [width]) == Advance(CursorAfter(widths), width)
  {
    assert (widths + [width])[..|widths|] == widths;
  }

  lemma CreatedLast(defs: seq<WidgetDef>, i: nat, queries: map<string, seq<int>>)
    requires i < |defs|
    ensures Created(defs[..i + 1], queries) ==
            Created(defs[..i], queries) + (if Creatable(defs[i], queries) then [defs[i]] else [])
  {
    assert defs[..i + 1][..i] == defs[..i];
  }

  function Exists(defs: seq<WidgetDef>, queries: map<string, seq<int>>): nat -> bool
  {
    (i: nat) => i < |defs| && defs[i].queryKey in queries && defs[i].visIndex < |queries[defs[i].queryKey]|
  }

  ghost predicate DefsAt(some: seq<WidgetDef>, defs: seq<WidgetDef>, at: seq<nat>)
  {
    |some| == |at| && forall j :: 0 <= j < |at| ==> at[j] < |defs| && some[j] == defs[at[j]]
  }

  /** The created widgets are those whose query exists and has the visualization, in order. */
  lemma {:induction false} CreatedAre(defs: seq<WidgetDef>, queries: map<string, seq<int>>, k: nat)
    requires k <= |defs|
    ensures DefsAt(Created(defs[..k], queries), defs, Where(k, Exists(defs, queries)))
  {
    if k > 0 {
      CreatedLast(defs, k - 1, queries);
      var more := if Creatable(defs[k - 1], queries) then [defs[k - 1]] else [];
      var place := if Creatable(defs[k - 1], queries) then [k - 1] else [];
      assert Where(k, Exists(defs, queries)) == Where(k - 1, Exists(defs, queries)) + place;
      hide Created, Where, Exists, Creatable;
      CreatedAre(defs, queries, k - 1);
    }
  }

  /** The positions of the created widgets are the layout of their widths alone: a skipped widget leaves no
      hole. */
  method AddWidgets(defs: seq<WidgetDef>, queries: map<string, seq<int>>) returns (widgets: seq<Widget>)
    ensures Positions(widgets) == Layout(Widths(Created(defs, queries)))
    ensures |widgets| == |Created(defs, queries)|
    ensures forall i :: 0 <= i < |widgets| ==> CreatedFrom(widgets[i], Created(defs, queries)[i], queries)
    ensures forall i :: 0 <= i < |widgets| && Created(defs, queries)[i].width.None? ==> widgets[i].position.sizeX == 12
  {
    hide Layout, CursorAfter, Created, Place, Advance;
    widgets := [];
    var layout := new Packer();
    ghost var created: seq<WidgetDef> := [];
    EmptyLayout(queries);
    assert defs[..0] == [];
    for i := 0 to |defs|
      invariant created == Created(defs[..i], queries)
      invariant Cursor(layout.col, layout.row) == CursorAfter(Widths(created))
      invariant Positions(widgets) == Layout(Widths(created))
      invariant |widgets| == |created|
      invariant forall k :: 0 <= k < |widgets| ==> CreatedFrom(widgets[k], created[k], queries)
      invariant forall k :: 0 <= k < |widgets| && created[k].width.None? ==> widgets[k].position.sizeX == 12
    {
      var def := defs[i];
      CreatedLast(defs, i, queries);
      if def.queryKey !in queries { continue; }
      var visIds := queries[def.queryKey];
      if def.visIndex >= |visIds| { continue; }
      assert Widths(created + [def]) == Widths(created) + [WidthOf(def)];
      LayoutLast(Widths(created), WidthOf(def));
      created := created + [def];
      var position := layout.NextPosition(WidthOf(def));
      widgets := widgets + [Widget(visIds[def.visIndex], position)];
    }
    assert defs[..|defs|] == defs;
  }

  lemma EmptyLayout(queries: map<string, seq<int>>)
    ensures Created([], queries) == [] && Layout([]) == [] && CursorAfter([]) == ORIGIN
  {
  }

  // ---- a row of widgets ----

  function TotalWidth(widths: seq<int>): int
  {
    if widths == [] then 0 else TotalWidth(widths[..|widths| - 1]) + widths[|widths| - 1]
  }

  lemma NextInRow(c: Cursor, taken: int, w: int)
    requires c.col == 2 * taken && w > 0 && taken + w <= 6
    ensures Place(c, w) == Position(2 * taken, c.row, 2 * w)
    ensures Advance(c, w) == if taken + w == 6 then Cursor(0, c.row + 3) else Cursor(2 * (taken + w), c.row)
  {
  }

  lemma {:induction false} CursorInRow(before: seq<int>, widths: seq<int>)
    requires CursorAfter(before).col == 0 && TotalWidth(widths) <= 6
    requires forall i :: 0 <= i < |widths| ==> widths[i] > 0
    ensures 0 <= TotalWidth(widths)
    ensures CursorAfter(before + widths) ==
            if TotalWidth(widths) == 6 then Cursor(0, CursorAfter(before).row + 3)
            else Cursor(2 * TotalWidth(widths), CursorAfter(before).row)
  {
    if widths == [] {
      assert before + widths == before;
    } else {
      var n := |widths| - 1;
      var front, w := widths[..n], widths[n];
      assert TotalWidth(widths) == TotalWidth(front) + w;
      CursorInRow(before, front);
      LayoutLast(before + front, w);
      hide Layout, CursorAfter, TotalWidth, Place, Advance;
      assert before + widths == (before + front) + [w];
      NextInRow(CursorAfter(before + front), TotalWidth(front), w);
    }
  }

  lemma {:induction false} PrefixWidth(widths: seq<int>, k: nat)
    requires k < |widths| && forall i :: 0 <= i < |widths| ==> widths[i] > 0
    ensures TotalWidth(widths[..k]) + widths[k] <= TotalWidth(widths)
  {
    var n := |widths| - 1;
    if k < n {
      PrefixWidth(widths[..n], k);
      assert widths[..n][..k] == widths[..k];
    }
  }

  lemma PlaceInRow(before: seq<int>, widths: seq<int>, i: nat)
    requires CursorAfter(before).col == 0 && TotalWidth(widths) <= 6 && i < |widths|
    requires forall k :: 0 <= k < |widths| ==> widths[k] > 0
    ensures Layout(before + widths)[|before| + i] ==
            Position(2 * TotalWidth(widths[..i]), CursorAfter(before).row, 2 * widths[i])
  {
    var all, k := before + widths, |before| + i;
    hide Layout, CursorAfter, TotalWidth, Place, Advance;
    PrefixWidth(widths, i);
    CursorInRow(before, widths[..i]);
    LayoutAt(all, k);
    assert all[k] == widths[i] && all[..k] == before + widths[..i];
    NextInRow(CursorAfter(before + widths[..i]), TotalWidth(widths[..i]), widths[i]);
  }

  /** Positive widths that add up to at most six stand side by side in one row, each two columns wide for one of its
      width; if they add up to six they fill the row. */
  lemma FillsRow(before: seq<int>, widths: seq<int>)
    requires CursorAfter(before).col == 0 && TotalWidth(widths) <= 6
    requires forall i :: 0 <= i < |widths| ==> widths[i] > 0
    ensures forall i :: 0 <= i < |widths| ==>
              Layout(before + widths)[|before| + i] ==
              Position(2 * TotalWidth(widths[..i]), CursorAfter(before).row, 2 * widths[i])
    ensures TotalWidth(widths) == 6 ==> CursorAfter(before + widths) == Cursor(0, CursorAfter(before).row + 3)
  {
    CursorInRow(before, widths);
    hide Layout, CursorAfter, TotalWidth;
    forall i | 0 <= i < |widths|
      ensures Layout(before + widths)[|before| + i] ==
              Position(2 * TotalWidth(widths[..i]), CursorAfter(before).row, 2 * widths[i])
    {
      PlaceInRow(before, widths, i);
    }
  }

  // ---- safety ----

  predicate InBounds(p: Position)
  {
    0 <= p.row && 0 <= p.col && 1 <= p.sizeX && p.col + p.sizeX <= GRID_COLUMNS
  }

  /** The two widgets cover a common grid cell. */
  predicate Overlap(p: Position, q: Position)
  {
    p.row < q.row + GRID_DEFAULT_SIZE_Y && q.row < p.row + GRID_DEFAULT_SIZE_Y &&
    p.col < q.col + q.sizeX && q.col < p.col + p.sizeX
  }

  predicate ReadsBefore(p: Position, q: Position)
  {
    p.row < q.row || (p.row == q.row && p.col < q.col)
  }

  /** Everything placed so far ends before the cursor. */
  ghost predicate Behind(p: Position, c: Cursor)
  {
    InBounds(p) && p.row % GRID_DEFAULT_SIZE_Y == 0 &&
    (p.row + GRID_DEFAULT_SIZE_Y <= c.row || (p.row == c.row && p.col + p.sizeX <= c.col))
  }

  lemma {:induction false} PlacedBehindCursor(widths: seq<int>)
    ensures CursorAfter(widths).col < GRID_COLUMNS && CursorAfter(widths).row % GRID_DEFAULT_SIZE_Y == 0
    ensures forall i :: 0 <= i < |widths| ==> Behind(Layout(widths)[i], CursorAfter(widths))
  {
    if widths != [] {
      PlacedBehindCursor(widths[..|widths| - 1]);
    }
  }

  lemma {:induction false} LayoutPrefix(widths: seq<int>, k: nat)
    requires k <= |widths|
    ensures Layout(widths)[..k] == Layout(widths[..k])
  {
    if k < |widths| {
      var front := widths[..|widths| - 1];
      LayoutPrefix(front, k);
      assert front[..k] == widths[..k];
    } else {
      assert widths[..k] == widths;
    }
  }

  lemma LayoutAt(widths: seq<int>, j: nat)
    requires j < |widths|
    ensures Layout(widths)[j] == Place(CursorAfter(widths[..j]), widths[j])
    ensures Layout(widths)[..j] == Layout(widths[..j])
  {
    LayoutPrefix(widths, j + 1);
    LayoutPrefix(widths, j);
    assert widths[..j + 1][..j] == widths[..j];
    assert Layout(widths)[j] == Layout(widths)[..j + 1][j];
  }

  /** For every sequence of widths, negative and oversized ones too, widgets lie on the grid, never overlap
      and come in reading order. */
  lemma LayoutIsSafe(widths: seq<int>, i: nat, j: nat)
    requires i < j < |widths|
    ensures InBounds(Layout(widths)[i]) && InBounds(Layout(widths)[j])
    ensures !Overlap(Layout(widths)[i], Layout(widths)[j])
    ensures ReadsBefore(Layout(widths)[i], Layout(widths)[j])
  {
    LayoutAt(widths, j);
    PlacedBehindCursor(widths[..j]);
    assert Layout(widths)[i] == Layout(widths[..j])[i];
    assert Behind(Layout(widths[..j])[i], CursorAfter(widths[..j]));
  }
}
