/** How good the greedy packing is: the least height of all arrangements that keep the widgets in order, no
    row left empty, and at most twice the height of any arrangement whatever. */
module LayoutOptimality {
  import opened WidgetLayout

  /** Any way to put widgets of these widths on the grid: on whatever rows, but inside the columns and
      without overlap. */
  ghost predicate Arrangement(widths: seq<int>, l: seq<Position>)
  {
    && |l| == |widths|
    && (forall i :: 0 <= i < |l| ==> InBounds(l[i]) && l[i].sizeX == SizeX(widths[i]))
    && (forall i, j :: 0 <= i < j < |l| ==> !Overlap(l[i], l[j]))
  }

  /** Later widgets never lie higher. */
  ghost predicate InOrder(l: seq<Position>)
  {
    forall i, j :: 0 <= i < j < |l| ==> l[i].row <= l[j].row
  }

  /** The lowest edge of the dashboard. */
  function Height(l: seq<Position>): int
  {
    if l == [] then 0 else
    var front, last := Height(l[..|l| - 1]), l[|l| - 1].row + GRID_DEFAULT_SIZE_Y;
    if front > last then front else last
  }

  lemma GreedyArranges(widths: seq<int>)
    ensures Arrangement(widths, Layout(widths)) && InOrder(Layout(widths))
  {
    forall i | 0 <= i < |widths| ensures InBounds(Layout(widths)[i]) && Layout(widths)[i].sizeX == SizeX(widths[i]) {
      LayoutAt(widths, i);
      PlacedBehindCursor(widths[..i]);
    }
    forall i, j | 0 <= i < j < |widths|
      ensures !Overlap(Layout(widths)[i], Layout(widths)[j]) && Layout(widths)[i].row <= Layout(widths)[j].row
    {
      LayoutIsSafe(widths, i, j);
    }
  }

  lemma {:induction false} HeightIsMax(l: seq<Position>)
    requires forall i :: 0 <= i < |l| ==> InBounds(l[i])
    ensures forall i :: 0 <= i < |l| ==> l[i].row + GRID_DEFAULT_SIZE_Y <= Height(l)
    ensures l != [] ==> exists i :: 0 <= i < |l| && l[i].row + GRID_DEFAULT_SIZE_Y == Height(l)
  {
    if l != [] {
      var front, last := l[..|l| - 1], |l| - 1;
      HeightIsMax(front);
      if Height(front) > l[last].row + GRID_DEFAULT_SIZE_Y {
        var i :| 0 <= i < |front| && front[i].row + GRID_DEFAULT_SIZE_Y == Height(front);
        assert l[i].row + GRID_DEFAULT_SIZE_Y == Height(l);
      } else {
        assert l[last].row + GRID_DEFAULT_SIZE_Y == Height(l);
      }
    }
  }

  // ---- lines: every widget crosses exactly one grid row 3n + 2 ----

  function Line(p: Position): int
  {
    p.row / GRID_DEFAULT_SIZE_Y
  }

  function Columns(lo: int, hi: int): (r: set<int>)
    ensures forall c :: c in r <==> lo <= c < hi
    decreases hi - lo
  {
    if lo >= hi then {} else {lo} + Columns(lo + 1, hi)
  }

  lemma {:induction false} ColumnCount(lo: int, hi: int)
    requires lo <= hi
    ensures |Columns(lo, hi)| == hi - lo
    decreases hi - lo
  {
    if lo < hi {
      ColumnCount(lo + 1, hi);
    }
  }

  function Load(l: seq<Position>, line: int): int
  {
    if l == [] then 0 else
    Load(l[..|l| - 1], line) + (if Line(l[|l| - 1]) == line then l[|l| - 1].sizeX else 0)
  }

  /** The columns of the line's grid row that widgets cover. */
  function Covered(l: seq<Position>, line: int): set<int>
  {
    if l == [] then {} else
    var p := l[|l| - 1];
    Covered(l[..|l| - 1], line) + (if Line(p) == line then Columns(p.col, p.col + p.sizeX) else {})
  }

  lemma {:induction false} CoveredBy(l: seq<Position>, line: int, c: int)
    requires c in Covered(l, line)
    ensures exists i :: 0 <= i < |l| && Line(l[i]) == line && l[i].col <= c < l[i].col + l[i].sizeX
  {
    var front, p := l[..|l| - 1], l[|l| - 1];
    if c in Covered(front, line) {
      CoveredBy(front, line, c);
      var i :| 0 <= i < |front| && Line(front[i]) == line && front[i].col <= c < front[i].col + front[i].sizeX;
      assert l[i] == front[i];
    } else {
      assert Line(l[|front|]) == line;
    }
  }

  lemma LastCoversNew(widths: seq<int>, l: seq<Position>, line: int)
    requires Arrangement(widths, l) && l != [] && Line(l[|l| - 1]) == line
    ensures var p := l[|l| - 1]; Covered(l[..|l| - 1], line) !! Columns(p.col, p.col + p.sizeX)
  {
    var n := |l| - 1;
    var front, p := l[..n], l[n];
    forall c | c in Covered(front, line) ensures c !in Columns(p.col, p.col + p.sizeX) {
      CoveredBy(front, line, c);
      var i :| 0 <= i < n && Line(front[i]) == line && front[i].col <= c < front[i].col + front[i].sizeX;
      assert !Overlap(l[i], p);
    }
  }

  lemma DisjointSize(a: set<int>, b: set<int>)
    requires a !! b
    ensures |a + b| == |a| + |b|
  {
  }

  lemma CoveredLast(front: seq<Position>, p: Position, line: int)
    ensures Covered(front + [p], line) ==
            Covered(front, line) + (if Line(p) == line then Columns(p.col, p.col + p.sizeX) else {})
    ensures Load(front + [p], line) == Load(front, line) + (if Line(p) == line then p.sizeX else 0)
  {
    assert (front + [p])[..|front|] == front;
  }

  lemma CoveredStep(front: seq<Position>, p: Position, line: int)
    requires InBounds(p) && |Covered(front, line)| == Load(front, line)
    requires Line(p) == line ==> Covered(front, line) !! Columns(p.col, p.col + p.sizeX)
    ensures |Covered(front + [p], line)| == Load(front + [p], line)
  {
    hide Covered, Load, Columns, Line;
    CoveredLast(front, p, line);
    if Line(p) == line {
      ColumnCount(p.col, p.col + p.sizeX);
      DisjointSize(Covered(front, line), Columns(p.col, p.col + p.sizeX));
    }
  }

  /** Widgets on one line cover different columns, so their sizes add up to what they cover. */
  lemma {:induction false} LoadIsCovered(widths: seq<int>, l: seq<Position>, line: int)
    requires Arrangement(widths, l)
    ensures |Covered(l, line)| == Load(l, line)
  {
    if l != [] {
      hide Arrangement, Covered, Load, Columns, Line;
      var n := |l| - 1;
      ArrangementFront(widths, l);
      LoadIsCovered(widths[..n], l[..n], line);
      if Line(l[n]) == line {
        LastCoversNew(widths, l, line);
      }
      CoveredStep(l[..n], l[n], line);
      assert l == l[..n] + [l[n]];
    }
  }

  lemma ArrangementFront(widths: seq<int>, l: seq<Position>)
    requires Arrangement(widths, l) && l != []
    ensures |l| == |widths| && Arrangement(widths[..|l| - 1], l[..|l| - 1]) && InBounds(l[|l| - 1])
  {
    var n := |l| - 1;
    forall i, j | 0 <= i < j < n ensures !Overlap(l[..n][i], l[..n][j]) {
      assert !Overlap(l[i], l[j]);
    }
  }

  lemma {:induction false} CoveredOnGrid(l: seq<Position>, line: int)
    requires forall i :: 0 <= i < |l| ==> InBounds(l[i])
    ensures Covered(l, line) <= Columns(0, GRID_COLUMNS)
  {
    if l != [] {
      CoveredOnGrid(l[..|l| - 1], line);
    }
  }

  lemma SubsetSize(a: set<int>, b: set<int>)
    requires a <= b
    ensures |a| <= |b|
  {
    assert b == a + (b - a);
  }

  lemma LoadBounded(widths: seq<int>, l: seq<Position>, line: int)
    requires Arrangement(widths, l)
    ensures 0 <= Load(l, line) <= GRID_COLUMNS
  {
    LoadIsCovered(widths, l, line);
    CoveredOnGrid(l, line);
    SubsetSize(Covered(l, line), Columns(0, GRID_COLUMNS));
    ColumnCount(0, GRID_COLUMNS);
  }

  // ---- the greedy cursor stays ahead of every arrangement in order ----

  /** How far a packing has come, in columns of whole lines. */
  function Progress(line: int, col: int): int
  {
    GRID_COLUMNS * line + col
  }

  function GreedyProgress(c: Cursor): int
  {
    Progress(c.row / GRID_DEFAULT_SIZE_Y, c.col)
  }

  lemma {:induction false} FreshLineEmpty(l: seq<Position>, line: int)
    requires forall i :: 0 <= i < |l| ==> Line(l[i]) < line
    ensures Load(l, line) == 0
  {
    if l != [] {
      FreshLineEmpty(l[..|l| - 1], line);
    }
  }

  lemma AdvanceProgress(c: Cursor, width: int)
    requires c.col < GRID_COLUMNS && c.row % GRID_DEFAULT_SIZE_Y == 0
    ensures GreedyProgress(Advance(c, width)) ==
            if c.col + SizeX(width) <= GRID_COLUMNS then GreedyProgress(c) + SizeX(width)
            else Progress(c.row / GRID_DEFAULT_SIZE_Y + 1, SizeX(width))
  {
  }

  lemma ProgressStep(r: int, col: int, s: int, line: int, load: int, line': int, load': int)
    requires 0 <= col < GRID_COLUMNS && 1 <= s <= GRID_COLUMNS && 0 <= load <= GRID_COLUMNS
    requires Progress(r, col) <= Progress(line, load)
    requires (line' == line && load' == load + s <= GRID_COLUMNS) || (line' > line && load' == s)
    ensures (if col + s <= GRID_COLUMNS then Progress(r, col) + s else Progress(r + 1, s)) <= Progress(line', load')
  {
    assert r <= line + 1 && (r == line + 1 ==> col == 0 && load == GRID_COLUMNS);
  }

  /** One more widget: the other arrangement keeps its line or takes a later one. */
  lemma StepStaysAhead(c: Cursor, width: int, line: int, load: int, line': int, load': int)
    requires c.col < GRID_COLUMNS && c.row % GRID_DEFAULT_SIZE_Y == 0
    requires GreedyProgress(c) <= Progress(line, load) && 0 <= load <= GRID_COLUMNS
    requires (line' == line && load' == load + SizeX(width) <= GRID_COLUMNS) || (line' > line && load' == SizeX(width))
    ensures GreedyProgress(Advance(c, width)) <= Progress(line', load')
  {
    AdvanceProgress(c, width);
    ProgressStep(c.row / GRID_DEFAULT_SIZE_Y, c.col, SizeX(width), line, load, line', load');
  }

  lemma LoadLast(l: seq<Position>, line: int)
    requires l != []
    ensures Load(l, line) == Load(l[..|l| - 1], line) + (if Line(l[|l| - 1]) == line then l[|l| - 1].sizeX else 0)
  {
  }

  lemma {:induction false} GreedyStaysAhead(widths: seq<int>, l: seq<Position>)
    requires Arrangement(widths, l) && InOrder(l) && l != []
    ensures var line := Line(l[|l| - 1]);
            GreedyProgress(CursorAfter(widths)) <= Progress(line, Load(l, line))
  {
    var n := |l| - 1;
    var front, c, p := l[..n], CursorAfter(widths[..n]), l[n];
    PlacedBehindCursor(widths[..n]);
    LoadBounded(widths, l, Line(p));
    LoadLast(l, Line(p));
    if n == 0 {
      assert widths[..0] == [] && front == [];
      AdvanceProgress(c, widths[n]);
    } else {
      ArrangementFront(widths, l);
      hide Arrangement, Load, Advance, GreedyProgress, Progress, SizeX, Behind, Layout;
      GreedyStaysAhead(widths[..n], front);
      var last := front[n - 1];
      assert last.row <= p.row;
      LoadBounded(widths[..n], front, Line(last));
      if Line(last) < Line(p) {
        assert forall i :: 0 <= i < n ==> front[i].row <= last.row;
        FreshLineEmpty(front, Line(p));
      }
      StepStaysAhead(c, widths[n], Line(last), Load(front, Line(last)), Line(p), Load(l, Line(p)));
    }
  }

  /** The greedy layout ends where its cursor stands. */
  lemma {:induction false} GreedyHeight(widths: seq<int>)
    ensures var c := CursorAfter(widths);
            Height(Layout(widths)) == if c.col == 0 then c.row else c.row + GRID_DEFAULT_SIZE_Y
  {
    if widths != [] {
      var front := widths[..|widths| - 1];
      GreedyHeight(front);
      assert Layout(widths)[..|widths| - 1] == Layout(front);
    }
  }

  lemma AheadIsNoLower(c: Cursor, line: int, load: int, height: int)
    requires c.row % GRID_DEFAULT_SIZE_Y == 0 && load <= GRID_COLUMNS
    requires GreedyProgress(c) <= Progress(line, load) && GRID_DEFAULT_SIZE_Y * (line + 1) <= height
    ensures (if c.col == 0 then c.row else c.row + GRID_DEFAULT_SIZE_Y) <= height
  {
  }

  /** The greedy layout is an arrangement that keeps the widgets in order, and no such arrangement is lower. */
  lemma GreedyIsLowestInOrder(widths: seq<int>, l: seq<Position>)
    requires Arrangement(widths, l) && InOrder(l)
    ensures Arrangement(widths, Layout(widths)) && InOrder(Layout(widths))
    ensures Height(Layout(widths)) <= Height(l)
  {
    GreedyArranges(widths);
    GreedyHeight(widths);
    if l != [] {
      var last := l[|l| - 1];
      GreedyStaysAhead(widths, l);
      LoadBounded(widths, l, Line(last));
      PlacedBehindCursor(widths);
      HeightIsMax(l);
      hide Load, Layout, CursorAfter, Height, Progress, GreedyProgress, Arrangement, InOrder;
      assert last.row + GRID_DEFAULT_SIZE_Y <= Height(l);
      AheadIsNoLower(CursorAfter(widths), Line(last), Load(l, Line(last)), Height(l));
    }
  }

  /** A row that only the next widget makes part of the layout is that widget's row. */
  lemma RowOfNext(c: Cursor, width: int, row: nat)
    requires c.row % GRID_DEFAULT_SIZE_Y == 0 && row % GRID_DEFAULT_SIZE_Y == 0
    requires (if c.col == 0 then c.row else c.row + GRID_DEFAULT_SIZE_Y) <= row
    requires row < Place(c, width).row + GRID_DEFAULT_SIZE_Y
    ensures Place(c, width).row == row
  {
  }

  /** Every row down to the height of the greedy layout holds a widget. */
  lemma {:induction false} NoEmptyRow(widths: seq<int>, row: nat)
    requires row % GRID_DEFAULT_SIZE_Y == 0 && row < Height(Layout(widths))
    ensures exists i :: 0 <= i < |widths| && Layout(widths)[i].row == row
  {
    var n := |widths| - 1;
    var front := widths[..n];
    var l, p := Layout(widths), Place(CursorAfter(front), widths[n]);
    assert l == Layout(front) + [p] && l[..n] == Layout(front);
    var before, last := Height(Layout(front)), p.row + GRID_DEFAULT_SIZE_Y;
    assert Height(l) == if before > last then before else last;
    hide Layout, Height, CursorAfter, Place;
    if row < Height(Layout(front)) {
      NoEmptyRow(front, row);
      var i :| 0 <= i < n && Layout(front)[i].row == row;
      assert l[i] == l[..n][i];
    } else {
      GreedyHeight(front);
      PlacedBehindCursor(front);
      RowOfNext(CursorAfter(front), widths[n], row);
    }
  }

  // ---- against arrangements in any order ----

  function Total(l: seq<Position>): int
  {
    if l == [] then 0 else Total(l[..|l| - 1]) + l[|l| - 1].sizeX
  }

  function SumLoads(l: seq<Position>, lines: nat): int
  {
    if lines == 0 then 0 else SumLoads(l, lines - 1) + Load(l, lines - 1)
  }

  lemma {:induction false} SumLoadsLast(l: seq<Position>, p: Position, lines: nat)
    requires 0 <= Line(p)
    ensures SumLoads(l + [p], lines) == SumLoads(l, lines) + (if Line(p) < lines then p.sizeX else 0)
  {
    assert (l + [p])[..|l|] == l;
    if lines > 0 {
      SumLoadsLast(l, p, lines - 1);
    }
  }

  lemma {:induction false} EmptyLoads(lines: nat)
    ensures SumLoads([], lines) == 0
  {
    if lines > 0 {
      EmptyLoads(lines - 1);
    }
  }

  lemma {:induction false} TotalIsSumOfLoads(l: seq<Position>, lines: nat)
    requires forall i :: 0 <= i < |l| ==> 0 <= Line(l[i]) < lines
    ensures SumLoads(l, lines) == Total(l)
  {
    if l == [] {
      EmptyLoads(lines);
    } else {
      TotalIsSumOfLoads(l[..|l| - 1], lines);
      assert l == l[..|l| - 1] + [l[|l| - 1]];
      SumLoadsLast(l[..|l| - 1], l[|l| - 1], lines);
    }
  }

  lemma {:induction false} LoadsBounded(widths: seq<int>, l: seq<Position>, lines: nat)
    requires Arrangement(widths, l)
    ensures SumLoads(l, lines) <= GRID_COLUMNS * lines
  {
    if lines > 0 {
      LoadsBounded(widths, l, lines - 1);
      LoadBounded(widths, l, lines - 1);
    }
  }

  /** Two consecutive greedy rows hold more than twelve columns together. */
  lemma {:induction false} GreedyRowsAreFull(widths: seq<int>, l: seq<Position>)
    requires |l| == |widths| && widths != []
    requires forall i :: 0 <= i < |l| ==> l[i].sizeX == SizeX(widths[i])
    ensures var c := CursorAfter(widths);
            var row := c.row / GRID_DEFAULT_SIZE_Y;
            2 * Total(l) >= if c.col == 0 then 13 * row else 13 * row + 1 + c.col
  {
    var n := |widths| - 1;
    PlacedBehindCursor(widths[..n]);
    if n == 0 {
      assert widths[..0] == [] && l[..0] == [];
    } else {
      GreedyRowsAreFull(widths[..n], l[..n]);
    }
  }

  lemma CompareHeights(c: Cursor, total: int, height: int)
    requires c.row % GRID_DEFAULT_SIZE_Y == 0 && c.col < GRID_COLUMNS && total >= 1
    requires var row := c.row / GRID_DEFAULT_SIZE_Y;
             2 * total >= if c.col == 0 then 13 * row else 13 * row + 1 + c.col
    requires total <= GRID_COLUMNS * (height / GRID_DEFAULT_SIZE_Y)
    ensures var greedy := if c.col == 0 then c.row else c.row + GRID_DEFAULT_SIZE_Y;
            13 * (greedy / GRID_DEFAULT_SIZE_Y - 1) + 2 <= 24 * (height / GRID_DEFAULT_SIZE_Y) && greedy <= 2 * height
  {
  }

  /** The rows down to the lowest edge. */
  function Lines(l: seq<Position>): int
  {
    Height(l) / GRID_DEFAULT_SIZE_Y
  }

  /** Half of the greedy rows' columns, at the least, are covered by any arrangement of the same widgets. */
  lemma GreedyAgainst(widths: seq<int>, l: seq<Position>)
    requires Arrangement(widths, l) && widths != []
    ensures var c := CursorAfter(widths);
            var row := c.row / GRID_DEFAULT_SIZE_Y;
            2 * Total(l) >= if c.col == 0 then 13 * row else 13 * row + 1 + c.col
    ensures 1 <= Total(l) <= GRID_COLUMNS * Lines(l)
  {
    HeightIsMax(l);
    TotalIsSumOfLoads(l, Lines(l));
    LoadsBounded(widths, l, Lines(l));
    GreedyRowsAreFull(widths, l);
    TotalPositive(l);
  }

  /** Whatever the order, no arrangement takes fewer rows than 13/24 of the rows of the greedy layout less one. */
  lemma GreedyWithinFactor(widths: seq<int>, l: seq<Position>)
    requires Arrangement(widths, l) && widths != []
    ensures 13 * (Lines(Layout(widths)) - 1) + 2 <= 24 * Lines(l)
  {
    GreedyAgainst(widths, l);
    GreedyHeight(widths);
    PlacedBehindCursor(widths);
    hide Layout, CursorAfter, Height, Total;
    CompareHeights(CursorAfter(widths), Total(l), Height(l));
  }

  /** Nor is one lower than half of the greedy layout. */
  lemma GreedyWithinTwice(widths: seq<int>, l: seq<Position>)
    requires Arrangement(widths, l) && widths != []
    ensures Height(Layout(widths)) <= 2 * Height(l)
  {
    GreedyAgainst(widths, l);
    GreedyHeight(widths);
    PlacedBehindCursor(widths);
    hide Layout, CursorAfter, Height, Total;
    CompareHeights(CursorAfter(widths), Total(l), Height(l));
  }

  lemma {:induction false} TotalPositive(l: seq<Position>)
    requires forall i :: 0 <= i < |l| ==> InBounds(l[i])
    ensures Total(l) >= |l|
  {
    if l != [] {
      TotalPositive(l[..|l| - 1]);
    }
  }

  // ---- the factor 24/13 is reached ----

  /** Full rows alternating with the narrowest widgets, n of each. */
  function Alternating(n: nat): (widths: seq<int>)
    ensures |widths| == 2 * n
    ensures forall i :: 0 <= i < n ==> widths[2 * i] == 6 && widths[2 * i + 1] == 0
  {
    if n == 0 then [] else Alternating(n - 1) + [6, 0]
  }

  /** The full rows first, the narrow widgets twelve to a row below them. */
  function Slot(n: nat, i: nat): Position
  {
    if i % 2 == 0 then Position(0, GRID_DEFAULT_SIZE_Y * (i / 2), GRID_COLUMNS)
    else Position(i / 2 % GRID_COLUMNS, GRID_DEFAULT_SIZE_Y * (n + i / 2 / GRID_COLUMNS), 1)
  }

  function FullRowsFirst(n: nat): seq<Position>
  {
    seq(2 * n, i requires 0 <= i < 2 * n => Slot(n, i))
  }

  lemma {:induction false} AlternatingCursor(n: nat)
    requires n > 0
    ensures CursorAfter(Alternating(n)) == Cursor(1, GRID_DEFAULT_SIZE_Y * (2 * n - 1))
  {
    var widths := Alternating(n);
    var c := CursorAfter(Alternating(n - 1));
    if n > 1 {
      AlternatingCursor(n - 1);
    } else {
      assert c == ORIGIN;
    }
    assert widths[..2 * n - 1] == Alternating(n - 1) + [6];
    assert (Alternating(n - 1) + [6])[..2 * n - 2] == Alternating(n - 1);
    hide Alternating;
    assert CursorAfter(Alternating(n - 1) + [6]) == Advance(c, 6);
    assert CursorAfter(widths) == Advance(Advance(c, 6), 0);
  }

  lemma SlotsApart(n: nat, i: nat, j: nat)
    requires i < j < 2 * n
    ensures !Overlap(Slot(n, i), Slot(n, j))
  {
    var a, b := i / 2, j / 2;
    if i % 2 == 1 && j % 2 == 1 && a / GRID_COLUMNS == b / GRID_COLUMNS {
      assert a % GRID_COLUMNS != b % GRID_COLUMNS;
    }
  }

  lemma SlotFits(n: nat, i: nat)
    requires i < 2 * n
    ensures InBounds(Slot(n, i)) && Slot(n, i).sizeX == SizeX(Alternating(n)[i])
  {
    assert Alternating(n)[2 * (i / 2)] == 6 && Alternating(n)[2 * (i / 2) + 1] == 0;
  }

  lemma FullRowsFirstArranges(n: nat)
    ensures Arrangement(Alternating(n), FullRowsFirst(n))
  {
    hide Alternating, Slot, Overlap, InBounds, SizeX;
    forall i | 0 <= i < 2 * n
      ensures InBounds(FullRowsFirst(n)[i]) && FullRowsFirst(n)[i].sizeX == SizeX(Alternating(n)[i])
    {
      SlotFits(n, i);
    }
    forall i, j | 0 <= i < j < 2 * n
      ensures !Overlap(FullRowsFirst(n)[i], FullRowsFirst(n)[j])
    {
      SlotsApart(n, i, j);
    }
  }

  lemma SlotRow(k: nat, i: nat)
    requires i < 2 * (GRID_COLUMNS * k)
    ensures Slot(GRID_COLUMNS * k, i).row <= GRID_DEFAULT_SIZE_Y * (13 * k - 1)
    ensures i == 2 * (GRID_COLUMNS * k) - 1 ==> Slot(GRID_COLUMNS * k, i).row == GRID_DEFAULT_SIZE_Y * (13 * k - 1)
  {
    var a := i / 2;
    assert a / GRID_COLUMNS <= k - 1;
  }

  lemma FullRowsFirstHeight(k: nat)
    requires k > 0
    ensures Height(FullRowsFirst(GRID_COLUMNS * k)) == 13 * k * GRID_DEFAULT_SIZE_Y
  {
    var n := GRID_COLUMNS * k;
    var l := FullRowsFirst(n);
    FullRowsFirstArranges(n);
    HeightIsMax(l);
    hide Height, Alternating, Slot;
    SlotRow(k, 2 * n - 1);
    forall i | 0 <= i < 2 * n
      ensures l[i].row <= GRID_DEFAULT_SIZE_Y * (13 * k - 1)
    {
      SlotRow(k, i);
    }
    assert l[2 * n - 1].row == GRID_DEFAULT_SIZE_Y * (13 * k - 1);
  }

  /** The bound of GreedyWithinFactor cannot be improved by a factor: for every k there are widths that the
      greedy layout puts on 24k rows and some arrangement on 13k. */
  lemma FactorIsReached(k: nat)
    requires k > 0
    ensures var widths, l := Alternating(GRID_COLUMNS * k), FullRowsFirst(GRID_COLUMNS * k);
            Arrangement(widths, l) && Lines(l) == 13 * k && Lines(Layout(widths)) == 24 * k
  {
    FullRowsFirstArranges(GRID_COLUMNS * k);
    FullRowsFirstHeight(k);
    AlternatingCursor(GRID_COLUMNS * k);
    GreedyHeight(Alternating(GRID_COLUMNS * k));
  }
}
