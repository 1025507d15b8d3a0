/**
  The text console as it runs: the grid, the frame it has drawn, a ring of 256
  lines of scrollback, and a cursor bar that may be painted over one cell. The
  frame is kept cell by cell. Rows of the grid, the frame and the ring are values
  held in arrays that are edited in place.
 */
module Console {

  import opened ConsoleScreen

  const MAX_COLS: nat := 240
  const MAX_ROWS: nat := 68
  const SCROLLBACK: nat := 256

  // What a cell of the frame shows; a space shows only its background.
  datatype Look = Blank(bg: nat) | Glyph(ch: char, fg: nat, bg: nat)

  datatype Shown = Shown(look: Look, bar: bool)

  type Frame = seq<seq<Shown>>

  // The cell the cursor bar is painted over.
  datatype Bar = NoBar | BarAt(x: nat, y: nat)

  function Drawn(c: Cell): Look {
    if c.ch == ' ' then Blank(c.bg) else Glyph(c.ch, c.fg, c.bg)
  }

  // The lines the scrollback keeps.
  function Kept(history: seq<Row>): seq<Row> {
    if |history| <= SCROLLBACK then history else history[|history| - SCROLLBACK..]
  }

  // Line k of the scrollback followed by the grid.
  function Line(s: Screen, k: nat): Row
    requires k < |Kept(s.history)| + |s.cells|
  {
    if k < |Kept(s.history)| then Kept(s.history)[k] else s.cells[k - |Kept(s.history)|]
  }

  // The lines in sight when the view is scrolled back by `offset` lines.
  function View(s: Screen, offset: nat): (v: seq<Row>)
    requires offset <= |Kept(s.history)|
    ensures |v| == |s.cells|
  {
    seq(|s.cells|, r requires 0 <= r < |s.cells| => Line(s, |Kept(s.history)| - offset + r))
  }

  lemma ViewAtBottom(s: Screen)
    ensures View(s, 0) == s.cells
  {
    var v := View(s, 0);
    forall r | 0 <= r < |v| ensures v[r] == s.cells[r] {
      assert v[r] == Line(s, |Kept(s.history)| - 0 + r);
    }
  }

  // Scrolled back by some lines, the view is the window of everything ever shown that
  // ends so many lines above the last.
  lemma ViewIsWindow(s: Screen, offset: nat, r: nat)
    requires offset <= |s.history| && offset <= SCROLLBACK && r < |s.cells|
    ensures offset <= |Kept(s.history)| && View(s, offset)[r] == (s.history + s.cells)[|s.history| - offset + r]
  {
    var k := Kept(s.history);
    assert View(s, offset)[r] == Line(s, |k| - offset + r);
  }

  lemma ViewLines(s: Screen, offset: nat, rows: nat, cols: nat)
    requires offset <= |Kept(s.history)| && WellFormed(s, rows, cols)
    ensures forall r :: 0 <= r < rows ==>
              View(s, offset)[r] == Line(s, |Kept(s.history)| - offset + r) && |View(s, offset)[r]| == cols
  {
  }

  lemma ViewOfCells(s: Screen, s': Screen, offset: nat)
    requires s.cells == s'.cells && s.history == s'.history && offset <= |Kept(s.history)|
    ensures View(s, offset) == View(s', offset)
  {
    var v, v' := View(s, offset), View(s', offset);
    forall r | 0 <= r < |v| ensures v[r] == v'[r] {
      assert v[r] == Line(s, |Kept(s.history)| - offset + r) && v'[r] == Line(s', |Kept(s.history)| - offset + r);
    }
  }

  // Row r of the frame shows the line, apart from the cursor bar.
  predicate RowShows(f: Frame, r: nat, line: Row, bar: Bar)
    requires r < |f|
  {
    && |f[r]| == |line|
    && forall c :: 0 <= c < |line| ==> f[r][c] == Shown(Drawn(line[c]), bar == BarAt(c, r))
  }

  predicate Shows(f: Frame, v: seq<Row>, bar: Bar) {
    && |f| == |v|
    && forall r :: 0 <= r < |f| ==> RowShows(f, r, v[r], bar)
  }

  function Paint(f: Frame, row: nat, col: nat, x: Shown): Frame {
    if row < |f| && col < |f[row]| then f[row := f[row][col := x]] else f
  }

  lemma PutShows(f: Frame, v: seq<Row>, row: nat, col: nat, c: Cell)
    requires Shows(f, v, NoBar)
    ensures Shows(Paint(f, row, col, Shown(Drawn(c), false)), PutAt(v, row, col, c), NoBar)
  {
    var f', v' := Paint(f, row, col, Shown(Drawn(c), false)), PutAt(v, row, col, c);
    forall r | 0 <= r < |f| ensures RowShows(f', r, v'[r], NoBar) {
      assert RowShows(f, r, v[r], NoBar);
      if row < |f| { assert RowShows(f, row, v[row], NoBar); }
    }
  }

  // Taking the bar away, or painting it, touches one cell.
  lemma BarShows(f: Frame, v: seq<Row>, x: nat, y: nat, bar: bool)
    requires Shows(f, v, if bar then NoBar else BarAt(x, y)) && y < |v| && x < |v[y]|
    ensures Shows(Paint(f, y, x, Shown(Drawn(v[y][x]), bar)), v, if bar then BarAt(x, y) else NoBar)
  {
    var b, b' := if bar then NoBar else BarAt(x, y), if bar then BarAt(x, y) else NoBar;
    var f' := Paint(f, y, x, Shown(Drawn(v[y][x]), bar));
    assert RowShows(f, y, v[y], b);
    forall r | 0 <= r < |f| ensures RowShows(f', r, v[r], b') {
      assert RowShows(f, r, v[r], b);
    }
  }

  function BlankShown(cols: nat, bg: nat): seq<Shown> {
    seq(cols, _ => Shown(Blank(bg), false))
  }

  // Moving the frame up by a line and filling the last one with the background.
  lemma ScrollShows(f: Frame, v: seq<Row>, cols: nat, p: Pen)
    requires Shows(f, v, NoBar) && 0 < |v|
    ensures Shows(f[1..] + [BlankShown(cols, p.bg)], v[1..] + [BlankRow(cols, Fresh(p))], NoBar)
  {
    var f', v' := f[1..] + [BlankShown(cols, p.bg)], v[1..] + [BlankRow(cols, Fresh(p))];
    forall r | 0 <= r < |f'| ensures RowShows(f', r, v'[r], NoBar) {
      if r + 1 < |f| {
        assert RowShows(f, r + 1, v[r + 1], NoBar);
      }
    }
  }

  // ------------------------------------------------------------------- the ring

  // Line j of the history is in slot j mod 256, for the lines kept.
  predicate RingHolds(ring: seq<Row>, history: seq<Row>) {
    && |ring| == SCROLLBACK
    && forall j :: 0 <= j < |history| && |history| <= j + SCROLLBACK ==> ring[j % SCROLLBACK] == history[j]
  }

  lemma PushHolds(ring: seq<Row>, history: seq<Row>, line: Row)
    requires RingHolds(ring, history)
    ensures RingHolds(ring[|history| % SCROLLBACK := line], history + [line])
  {
    var h := |history| % SCROLLBACK;
    var ring', history' := ring[h := line], history + [line];
    forall j | 0 <= j < |history'| && |history'| <= j + SCROLLBACK ensures ring'[j % SCROLLBACK] == history'[j] {
      if j < |history| {
        SlotsDiffer(j, |history|);
      }
    }
  }

  lemma SlotsDiffer(j: nat, k: nat)
    requires j < k < j + SCROLLBACK
    ensures j % SCROLLBACK != k % SCROLLBACK
  {
  }

  // scrollback_index
  function RingIndex(head: nat, count: nat, logical: nat): nat {
    ((if count < SCROLLBACK then 0 else head) + logical) % SCROLLBACK
  }

  lemma RingIndexFinds(ring: seq<Row>, history: seq<Row>, head: nat, count: nat, logical: nat)
    requires RingHolds(ring, history) && head == |history| % SCROLLBACK && count == |Kept(history)|
    requires logical < count
    ensures ring[RingIndex(head, count, logical)] == Kept(history)[logical]
  {
    hide RingIndex;
    RingIndexIs(|history|, count, logical);
    var j := |history| - count + logical;
    assert Kept(history)[logical] == history[j];
  }

  lemma RingIndexIs(n: nat, count: nat, logical: nat)
    requires logical < count <= n && (count == n || count == SCROLLBACK) && count <= SCROLLBACK
    ensures RingIndex(n % SCROLLBACK, count, logical) == (n - count + logical) % SCROLLBACK
  {
    if count == SCROLLBACK {
      Wraps(n, logical);
    }
  }

  lemma Wraps(n: nat, logical: nat)
    requires n >= SCROLLBACK
    ensures (n % SCROLLBACK + logical) % SCROLLBACK == (n - SCROLLBACK + logical) % SCROLLBACK
  {
  }

  // ------------------------------------------------------- frame and screen agree

  // The scrollback ring, its counters and the view offset.
  datatype Back = Back(ring: seq<Row>, head: nat, count: nat, offset: nat)

  predicate BackHolds(b: Back, history: seq<Row>) {
    && RingHolds(b.ring, history) && b.head == |history| % SCROLLBACK
    && b.count == |Kept(history)| && b.offset <= b.count
  }

  predicate BarOk(bar: Bar, offset: nat, rows: nat, cols: nat) {
    bar.BarAt? ==> offset == 0 && bar.x < cols && bar.y < rows
  }

  predicate Agrees(s: Screen, f: Frame, b: Back, bar: Bar, rows: nat, cols: nat) {
    && WellFormed(s, rows, cols) && BackHolds(b, s.history) && BarOk(bar, b.offset, rows, cols)
    && Shows(f, View(s, b.offset), bar)
  }

  lemma AgreesShapes(s: Screen, f: Frame, b: Back, bar: Bar, rows: nat, cols: nat)
    requires Agrees(s, f, b, bar, rows, cols)
    ensures |f| == rows && forall r :: 0 <= r < rows ==> |f[r]| == cols
  {
    var v := View(s, b.offset);
    forall r | 0 <= r < rows ensures |f[r]| == cols {
      assert RowShows(f, r, v[r], bar) && v[r] == Line(s, |Kept(s.history)| - b.offset + r);
    }
  }

  lemma PutAgrees(s: Screen, f: Frame, b: Back, rows: nat, cols: nat, row: nat, col: nat, c: Cell)
    requires Agrees(s, f, b, NoBar, rows, cols) && b.offset == 0
    ensures Agrees(s.(cells := PutAt(s.cells, row, col, c)), Paint(f, row, col, Shown(Drawn(c), false)), b, NoBar, rows, cols)
  {
    ViewAtBottom(s);
    ViewAtBottom(s.(cells := PutAt(s.cells, row, col, c)));
    PutShows(f, s.cells, row, col, c);
    hide Shows, View, BackHolds;
  }

  lemma BarAgrees(s: Screen, f: Frame, b: Back, rows: nat, cols: nat, x: nat, y: nat, bar: bool)
    requires Agrees(s, f, b, if bar then NoBar else BarAt(x, y), rows, cols) && b.offset == 0 && x < cols && y < rows
    ensures Agrees(s, Paint(f, y, x, Shown(Drawn(s.cells[y][x]), bar)), b, if bar then BarAt(x, y) else NoBar, rows, cols)
  {
    ViewAtBottom(s);
    BarShows(f, s.cells, x, y, bar);
    hide Shows, View, BackHolds;
  }

  // Neither the cursor nor the pen nor the parser is on the frame.
  lemma TermAgrees(s: Screen, f: Frame, b: Back, bar: Bar, rows: nat, cols: nat, t: Term)
    requires Agrees(s, f, b, bar, rows, cols) && TermOk(t, rows, cols)
    ensures Agrees(s.(t := t), f, b, bar, rows, cols)
  {
    ViewOfCells(s, s.(t := t), b.offset);
    hide Shows, View, BackHolds;
  }

  lemma ScrollAgrees(s: Screen, f: Frame, b: Back, rows: nat, cols: nat)
    requires Agrees(s, f, b, NoBar, rows, cols) && b.offset == 0
    ensures Agrees(ScrollUp(s, rows, cols), f[1..] + [BlankShown(cols, s.t.pen.bg)], Pushed(b, s.cells[0]), NoBar, rows, cols)
  {
    var s' := ScrollUp(s, rows, cols);
    ViewAtBottom(s);
    ViewAtBottom(s');
    ScrollShows(f, s.cells, cols, s.t.pen);
    PushHolds(b.ring, s.history, s.cells[0]);
    hide Shows, View, RingHolds;
  }

  // scrollback_push_line
  function Pushed(b: Back, line: Row): Back
    requires b.head < |b.ring|
  {
    Back(b.ring[b.head := line], (b.head + 1) % SCROLLBACK, if b.count < SCROLLBACK then b.count + 1 else b.count, b.offset)
  }

  const StartTerm := Term(Cursor(0, 0, false), DefaultPen, Ansi(Normal, seq(8, _ => 0), 0, false), 0, 0, true, true)

  function StartScreen(rows: nat, cols: nat): Screen {
    Screen(seq(rows, _ => BlankRow(cols, Fresh(DefaultPen))), [], StartTerm)
  }

  lemma StartAgrees(rows: nat, cols: nat, b: Back)
    requires 0 < rows && 0 < cols && |b.ring| == SCROLLBACK && b.head == b.count == b.offset == 0
    ensures Agrees(StartScreen(rows, cols), seq(rows, _ => BlankShown(cols, DefaultPen.bg)), b, NoBar, rows, cols)
  {
    ViewAtBottom(StartScreen(rows, cols));
  }

  class Console {
    const rows: nat
    const cols: nat
    var term: Term
    const cells: array<Row>
    const frame: array<seq<Shown>>
    const ring: array<Row>
    var head: nat
    var count: nat
    var offset: nat
    var drawn: bool
    var drawnX: nat
    var drawnY: nat
    ghost var history: seq<Row>

    // The screen this console stands for.
    ghost function Screen(): Screen
      reads this, cells
    {
      ConsoleScreen.Screen(cells[..], history, term)
    }

    ghost function CursorBar(): Bar
      reads this
    {
      if drawn then BarAt(drawnX, drawnY) else NoBar
    }

    ghost function Scrollback(): Back
      reads this, ring
    {
      Back(ring[..], head, count, offset)
    }

    ghost predicate Geometry()
      reads this
    {
      && 0 < rows <= MAX_ROWS && 0 < cols <= MAX_COLS
      && cells.Length == rows && frame.Length == rows && ring.Length == SCROLLBACK && cells != ring
    }

    // The frame shows the view of the screen, the ring holds its last 256 lines.
    ghost predicate Valid()
      reads this, cells, frame, ring
    {
      Geometry() && Agrees(Screen(), frame[..], Scrollback(), CursorBar(), rows, cols)
    }

    // A console of this size, as initialisation leaves it.
    constructor (rows: nat, cols: nat)
      requires 0 < rows <= MAX_ROWS && 0 < cols <= MAX_COLS
      ensures Valid() && fresh(cells) && fresh(frame) && fresh(ring)
      ensures this.rows == rows && this.cols == cols && Screen() == StartScreen(rows, cols)
    {
      this.rows, this.cols := rows, cols;
      cells := new Row[rows](_ => BlankRow(cols, Fresh(DefaultPen)));
      frame := new seq<Shown>[rows](_ => BlankShown(cols, DefaultPen.bg));
      ring := new Row[SCROLLBACK](_ => []);
      head, count, offset, history := 0, 0, 0, [];
      drawn, drawnX, drawnY := false, 0, 0;
      term := StartTerm;
      new;
      StartAgrees(rows, cols, Scrollback());
      hide Agrees;
      assert cells[..] == seq(rows, _ => BlankRow(cols, Fresh(DefaultPen)));
      assert frame[..] == seq(rows, _ => BlankShown(cols, DefaultPen.bg));
    }

    // console_erase_cursor
    method EraseCursor()
      requires Valid()
      modifies this`drawn, frame
      ensures Valid() && !drawn && Screen() == old(Screen())
    {
      if drawn {
        ghost var f, s := frame[..], Screen();
        assert drawnX < cols && drawnY < rows && offset == 0 && |cells[drawnY]| == cols;
        AgreesShapes(s, f, Scrollback(), CursorBar(), rows, cols);
        BarAgrees(s, f, Scrollback(), rows, cols, drawnX, drawnY, false);
        hide Agrees;
        frame[drawnY] := frame[drawnY][drawnX := Shown(Drawn(cells[drawnY][drawnX]), false)];
        drawn := false;
        assert frame[..] == Paint(f, drawnY, drawnX, Shown(Drawn(s.cells[drawnY][drawnX]), false));
      }
    }

    // console_put_cell: a cell that is already there is not drawn again.
    method PutCell(col: nat, row: nat, c: Cell)
      requires Valid() && offset == 0 && !drawn
      modifies cells, frame
      ensures Valid() && Screen() == old(Screen()).(cells := PutAt(old(Screen()).cells, row, col, c))
    {
      if col >= cols || row >= rows {
        return;
      }
      ghost var f, s := frame[..], Screen();
      AgreesShapes(s, f, Scrollback(), NoBar, rows, cols);
      PutAgrees(s, f, Scrollback(), rows, cols, row, col, c);
      assert |cells[row]| == cols;
      hide Agrees, WellFormed;
      if cells[row][col] == c {
        assert cells[row][col := c] == cells[row];
        assert cells[..][row := cells[row]] == cells[..];
        return;
      }
      frame[row] := frame[row][col := Shown(Drawn(c), false)];
      cells[row] := cells[row][col := c];
      assert frame[..] == Paint(f, row, col, Shown(Drawn(c), false));
      assert cells[..] == PutAt(s.cells, row, col, c);
    }

    // console_clear_line_range, with both columns included.
    method ClearLineRange(row: nat, first: nat, last: nat, c: Cell)
      requires Valid() && offset == 0 && !drawn
      modifies cells, frame
      ensures Valid() && Screen() == old(Screen()).(cells := ClearRange(old(Screen()).cells, row, first, last + 1, c))
    {
      ghost var s := Screen();
      assert WellFormed(s, rows, cols);
      if row >= rows || first >= cols {
        ClearNothing(s.cells, row, first, last + 1, c);
        return;
      }
      var end := if last >= cols then cols - 1 else last;
      var col := first;
      ClearNothing(s.cells, row, first, first, c);
      hide Agrees, WellFormed, ClearRange;
      while col <= end
        invariant first <= col && (col <= end + 1 || col == first)
        invariant Valid() && term == old(term) && history == old(history)
        invariant cells[..] == ClearRange(s.cells, row, first, col, c)
      {
        ClearOneMore(s.cells, row, first, col, c);
        PutCell(col, row, c);
        col := col + 1;
      }
      ClearEnough(s.cells, row, first, col, last + 1, c);
    }

    // Store new cursor, pen or parser fields.
    method SetTerm(t: Term)
      requires Valid() && TermOk(t, rows, cols)
      modifies this`term
      ensures Valid() && term == t
    {
      TermAgrees(Screen(), frame[..], Scrollback(), CursorBar(), rows, cols, t);
      hide Agrees;
      term := t;
    }

    // scroll_screen without a scrolling backend.
    method ScrollScreen()
      requires Valid() && offset == 0 && !drawn
      modifies this`term, this`head, this`count, this`history, cells, frame, ring
      ensures Valid() && Screen() == ScrollUp(old(Screen()), rows, cols)
    {
      ghost var s := Screen();
      assert head < SCROLLBACK;
      ScrollAgrees(s, frame[..], Scrollback(), rows, cols);
      hide Agrees, WellFormed;
      ghost var b := Scrollback();
      ShiftUp(frame, BlankShown(cols, term.pen.bg));
      ring[head] := cells[0];
      head := (head + 1) % SCROLLBACK;
      if count < SCROLLBACK {
        count := count + 1;
      }
      history := history + [cells[0]];
      ShiftUp(cells, BlankRow(cols, Fresh(term.pen)));
      term := term.(cur := Cursor(term.cur.x, rows - 1, false));
      assert Scrollback() == Pushed(b, s.cells[0]);
    }

    method LineFeed()
      requires Valid() && offset == 0 && !drawn
      modifies this`term, this`head, this`count, this`history, cells, frame, ring
      ensures Valid() && Screen() == Linefeed(old(Screen()), rows, cols)
    {
      assert WellFormed(Screen(), rows, cols);
      if term.cur.y + 1 >= rows {
        ScrollScreen();
      } else {
        SetTerm(term.(cur := term.cur.(y := term.cur.y + 1)));
      }
    }

    // console_printable_char
    method PrintableChar(c: char)
      requires Valid() && offset == 0 && !drawn
      modifies this`term, this`head, this`count, this`history, cells, frame, ring
      ensures Valid() && Screen() == Print(old(Screen()), rows, cols, c)
    {
      assert WellFormed(Screen(), rows, cols);
      if term.cur.pending && term.wrap {
        SetTerm(term.(cur := term.cur.(x := 0)));
        LineFeed();
        assert WellFormed(Screen(), rows, cols);
        SetTerm(term.(cur := term.cur.(pending := false)));
      }
      assert WellFormed(Screen(), rows, cols);
      hide Agrees;
      PutCell(term.cur.x, term.cur.y, Cell(c, Fg(term.pen), Bg(term.pen)));
      SetTerm(term.(cur := Advance(term.cur, term.wrap, cols)));
    }

    // clear_screen
    method Clear()
      requires Valid()
      modifies this`term, this`offset, this`drawn, cells, frame
      ensures Valid() && offset == 0 && !drawn && Screen() == ClearScreen(old(Screen()))
    {
      EraseCursor();
      ghost var s, b := Screen(), Scrollback();
      ClearAgrees(s, frame[..], b, CursorBar(), rows, cols);
      hide Agrees, WellFormed;
      Fill(frame, BlankShown(cols, term.pen.bg));
      Fill(cells, BlankRow(cols, Fresh(term.pen)));
      offset := 0;
      term := term.(cur := Cursor(0, 0, false));
      assert cells[..] == ClearScreen(s).cells && Scrollback() == b.(offset := 0);
    }

    // Whole rows, as the loops of "erase in display" clear them.
    method ClearWholeRows(first: nat, end: nat, c: Cell)
      requires Valid() && offset == 0 && !drawn && first <= end <= rows
      modifies cells, frame
      ensures Valid() && Screen() == old(Screen()).(cells := ClearRows(old(Screen()).cells, first, end, c))
    {
      ghost var v := cells[..];
      assert WellFormed(Screen(), rows, cols);
      NoRowsCleared(v, first, c);
      var r := first;
      while r < end
        invariant first <= r <= end
        invariant Valid() && term == old(term) && history == old(history)
        invariant cells[..] == ClearRows(v, first, r, c)
      {
        OneRowMore(v, first, r, c);
        ClearLineRange(r, 0, cols - 1, c);
        r := r + 1;
      }
    }

    // CSI K
    method EraseLine(n: nat)
      requires Valid() && offset == 0 && !drawn
      modifies cells, frame
      ensures Valid() && Screen() == old(Screen()).(cells := EraseInLine(old(Screen()), n, cols))
    {
      var blank := Cleared(term.pen);
      if n == 0 {
        ClearLineRange(term.cur.y, term.cur.x, cols - 1, blank);
      } else if n == 1 {
        ClearLineRange(term.cur.y, 0, term.cur.x, blank);
      } else if n == 2 {
        ClearLineRange(term.cur.y, 0, cols - 1, blank);
      }
    }

    // CSI J
    method EraseDisplay(n: nat)
      requires Valid() && offset == 0 && !drawn
      modifies this`term, this`offset, this`drawn, cells, frame
      ensures Valid() && offset == 0 && !drawn
      ensures Screen() == EraseInScreen(old(Screen()), n, rows, cols)
    {
      assert WellFormed(Screen(), rows, cols);
      hide Agrees;
      var blank := Cleared(term.pen);
      if n == 0 {
        EraseLine(0);
        ClearWholeRows(term.cur.y + 1, rows, blank);
      } else if n == 1 {
        ClearWholeRows(0, term.cur.y, blank);
        ClearLineRange(term.cur.y, 0, term.cur.x, blank);
      } else if n == 2 || n == 3 {
        Clear();
      }
    }

    // console_apply_sgr
    method ApplySgr() returns (pen: Pen)
      requires AnsiOk(term.ansi)
      ensures pen == Sgr(term.pen, term.ansi)
    {
      if term.ansi.count == 0 {
        return DefaultPen;
      }
      pen := term.pen;
      var bold := false;
      ghost var params := term.ansi.params[..term.ansi.count];
      var i := 0;
      while i < term.ansi.count
        invariant 0 <= i <= term.ansi.count
        invariant SgrFrom(pen, bold, params[i..]) == SgrFrom(term.pen, false, params)
      {
        assert params[i..][0] == term.ansi.params[i] && params[i..][1..] == params[i + 1..];
        var (pen', bold') := Sgr1(pen, bold, term.ansi.params[i]);
        pen, bold := pen', bold';
        i := i + 1;
      }
    }

    // Where console_handle_csi moves the cursor.
    method CursorAfter(final: char) returns (c: Cursor)
      requires TermOk(term, rows, cols)
      ensures c == CsiMove(term, final, rows, cols)
    {
      var x, y, pending := term.cur.x, term.cur.y, false;
      var n := ParamOr(term.ansi, 0, 1);
      if final == 'A' {
        if n > y { y := 0; } else { y := y - n; }
      } else if final == 'B' {
        y := (y + n) % WORD;
        if y >= rows { y := rows - 1; }
      } else if final == 'C' {
        x := (x + n) % WORD;
        if x >= cols { x := cols - 1; }
      } else if final == 'D' {
        if n > x { x := 0; } else { x := x - n; }
      } else if final == 'H' || final == 'f' {
        var col := ParamOr(term.ansi, 1, 1);
        if n > 0 { y := n - 1; } else { y := 0; }
        if col > 0 { x := col - 1; } else { x := 0; }
        if y >= rows { y := rows - 1; }
        if x >= cols { x := cols - 1; }
      } else if final == 'u' {
        x, y := term.savedX, term.savedY;
        if x >= cols { x := cols - 1; }
        if y >= rows { y := rows - 1; }
      } else {
        pending := term.cur.pending;
      }
      c := Cursor(x, y, pending);
    }

    // What console_handle_csi saves and switches.
    method ModesAfter(final: char) returns (t: Term)
      requires AnsiOk(term.ansi)
      ensures t == CsiMode(term, final)
    {
      t := term;
      match final
      case 's' => t := t.(savedX := t.cur.x, savedY := t.cur.y);
      case 'h' =>
        if t.ansi.params[0] == 25 { t := t.(visible := true); }
        else if t.ansi.params[0] == 7 { t := t.(wrap := true); }
      case 'l' =>
        if t.ansi.params[0] == 25 { t := t.(visible := false); }
        else if t.ansi.params[0] == 7 { t := t.(wrap := false); }
      case _ =>
    }

    // console_handle_csi
    method HandleCsi(final: char)
      requires Valid() && offset == 0 && !drawn
      modifies this`term, this`offset, this`drawn, cells, frame
      ensures Valid() && offset == 0 && !drawn
      ensures Screen() == CsiFinal(old(Screen()), final, rows, cols)
    {
      assert WellFormed(Screen(), rows, cols);
      hide Agrees;
      if final == 'J' {
        EraseDisplay(FirstParam(term.ansi));
      } else if final == 'K' {
        EraseLine(FirstParam(term.ansi));
      } else {
        CsiTermOk(term, final, rows, cols);
        if final == 'm' {
          var pen := ApplySgr();
          SetTerm(term.(pen := pen));
        } else {
          var t := ModesAfter(final);
          var c := CursorAfter(final);
          SetTerm(t.(cur := c));
        }
      }
    }

    // console_consume_ansi
    method ConsumeAnsi(c: char) returns (consumed: bool)
      requires Valid() && offset == 0 && !drawn && Returns(Screen(), c, cols)
      modifies this`term, this`offset, this`drawn, cells, frame
      ensures Valid() && offset == 0 && !drawn
      ensures consumed <==> !(old(term).ansi.state.Normal? && c != ESC)
      ensures Screen() == if consumed then Feed(old(Screen()), c, rows, cols) else old(Screen())
    {
      assert WellFormed(Screen(), rows, cols);
      hide Agrees;
      match term.ansi.state {
        case Normal =>
          if c == ESC {
            SetTerm(term.(ansi := term.ansi.(state := Escape)));
            return true;
          }
          return false;
        case Escape =>
          EscapeByte(c);
          return true;
        case Csi =>
          CsiByte(c);
          return true;
      }
    }

    method EscapeByte(c: char)
      requires Valid() && offset == 0 && !drawn && term.ansi.state.Escape?
      modifies this`term, this`offset, this`drawn, cells, frame
      ensures Valid() && offset == 0 && !drawn
      ensures Screen() == InEscape(old(Screen()), c, rows, cols)
    {
      assert WellFormed(Screen(), rows, cols);
      hide Agrees;
      if c == '[' {
        SetTerm(term.(ansi := Ansi(Csi, seq(8, _ => 0), 0, false)));
      } else {
        SetTerm(term.(ansi := term.ansi.(state := Normal)));
        if c == '7' {
          SetTerm(term.(savedX := term.cur.x, savedY := term.cur.y));
        } else if c == '8' {
          SetTerm(term.(cur := Restore(term, rows, cols)));
        } else if c == 'c' {
          SetTerm(term.(pen := DefaultPen));
          Clear();
        }
      }
    }

    method CsiByte(c: char)
      requires Valid() && offset == 0 && !drawn && term.ansi.state.Csi?
      modifies this`term, this`offset, this`drawn, cells, frame
      ensures Valid() && offset == 0 && !drawn
      ensures Screen() == InCsi(old(Screen()), c, rows, cols)
    {
      assert WellFormed(Screen(), rows, cols);
      if c == '?' || c == '>' || c == '=' || c == ':' {
        return;
      }
      CsiWellFormed(Screen(), c, rows, cols);
      hide Agrees;
      if '0' <= c <= '9' {
        var a := term.ansi;
        if a.count == 0 { a := a.(count := 1); }
        var value := a.params[a.count - 1] * 10 + (c - '0') as nat;
        SetTerm(term.(ansi := a.(active := true, params := a.params[a.count - 1 := value % WORD])));
      } else if c == ';' {
        var a := term.ansi;
        if a.count == 0 { a := a.(count := 1); }
        if a.count < 8 { a := a.(count := a.count + 1); }
        SetTerm(term.(ansi := a.(active := false)));
      } else {
        if IsFinal(c) {
          HandleCsi(c);
        }
        SetTerm(term.(ansi := term.ansi.(state := Normal)));
      }
    }

    // draw_cell_snapshot over a whole row.
    method DrawRow(row: nat, line: Row)
      requires Geometry() && row < rows && |line| == cols && |frame[row]| == cols
      modifies frame
      ensures frame[..] == old(frame[..])[row := ShownRow(line)]
    {
      ghost var f := frame[..];
      var col := 0;
      while col < cols
        invariant 0 <= col <= cols && |frame[row]| == cols
        invariant forall k :: 0 <= k < col ==> frame[row][k] == Shown(Drawn(line[k]), false)
        invariant frame[..] == f[row := frame[row]]
      {
        frame[row] := frame[row][col := Shown(Drawn(line[col]), false)];
        col := col + 1;
      }
      assert frame[row] == ShownRow(line);
    }

    // A line of the scrollback or, after its end, of the grid.
    method FetchLine(logical: nat) returns (line: Row)
      requires Geometry() && BackHolds(Scrollback(), history) && logical < count + rows
      ensures line == Line(Screen(), logical)
    {
      if logical < count {
        RingIndexFinds(ring[..], history, head, count, logical);
        line := ring[RingIndex(head, count, logical)];
      } else {
        line := cells[logical - count];
      }
    }

    // Every row of the frame, from the ring and the grid.
    method RenderRows(ghost v: seq<Row>)
      requires Geometry() && BackHolds(Scrollback(), history)
      requires |v| == rows
      requires forall r :: 0 <= r < rows ==> v[r] == Line(Screen(), count - offset + r) && |v[r]| == cols
      requires forall r :: 0 <= r < rows ==> |frame[r]| == cols
      modifies frame
      ensures forall r :: 0 <= r < rows ==> frame[r] == ShownRow(v[r])
    {
      assert offset <= count;
      var row := 0;
      while row < rows
        invariant 0 <= row <= rows
        invariant forall r :: 0 <= r < rows ==> |frame[r]| == cols
        invariant forall r :: 0 <= r < row ==> frame[r] == ShownRow(v[r])
      {
        RenderRow(row, v);
        row := row + 1;
      }
    }

    method RenderRow(row: nat, ghost v: seq<Row>)
      requires Geometry() && BackHolds(Scrollback(), history) && row < rows == |v|
      requires v[row] == Line(Screen(), count - offset + row) && |v[row]| == cols && |frame[row]| == cols
      modifies frame
      ensures frame[..] == old(frame[..])[row := ShownRow(v[row])] && |frame[row]| == cols
    {
      var line := FetchLine(count - offset + row);
      DrawRow(row, line);
    }

    // console_erase_cursor, before the frame is drawn anew.
    method UndrawCursor()
      requires Geometry() && WellFormed(Screen(), rows, cols)
      requires forall r :: 0 <= r < rows ==> |frame[r]| == cols
      modifies this`drawn, frame
      ensures !drawn && forall r :: 0 <= r < rows ==> |frame[r]| == cols
    {
      if drawn {
        if drawnX < cols && drawnY < rows {
          frame[drawnY] := frame[drawnY][drawnX := Shown(Drawn(cells[drawnY][drawnX]), false)];
        }
        drawn := false;
      }
    }

    // console_render_scrollback
    method Render()
      requires Geometry() && WellFormed(Screen(), rows, cols) && BackHolds(Scrollback(), history)
      requires forall r :: 0 <= r < rows ==> |frame[r]| == cols
      modifies this`drawn, frame
      ensures Valid() && !drawn
    {
      ghost var s, b, v := Screen(), Scrollback(), View(Screen(), offset);
      ViewLines(s, offset, rows, cols);
      hide Shows, View, BackHolds, Line, ShownRow, WellFormed;
      UndrawCursor();
      assert Screen() == s && Scrollback() == b;
      BackFacts(b, history);
      RenderRows(v);
      RowsShow(frame[..], v);
      assert Screen() == s && Scrollback() == b;
    }

    // console_scrollback_reset_view
    method ResetView()
      requires Valid()
      modifies this`offset, this`drawn, frame
      ensures Valid() && offset == 0 && Screen() == old(Screen())
    {
      if offset != 0 {
        AgreesShapes(Screen(), frame[..], Scrollback(), CursorBar(), rows, cols);
        offset := 0;
        Render();
      }
    }

    // display_scrollback_apply_up
    method ScrollBack(lines: nat)
      requires Valid()
      modifies this`offset, this`drawn, frame
      ensures Valid() && Screen() == old(Screen())
      ensures offset == if old(offset) + lines > count then count else old(offset) + lines
    {
      if lines == 0 || count == 0 {
        return;
      }
      AgreesShapes(Screen(), frame[..], Scrollback(), CursorBar(), rows, cols);
      if offset + lines > count {
        offset := count;
      } else {
        offset := offset + lines;
      }
      Render();
    }

    // display_scrollback_apply_down
    method ScrollForward(lines: nat)
      requires Valid()
      modifies this`offset, this`drawn, frame
      ensures Valid() && Screen() == old(Screen())
      ensures offset == if lines >= old(offset) then 0 else old(offset) - lines
    {
      if lines == 0 || offset == 0 {
        return;
      }
      AgreesShapes(Screen(), frame[..], Scrollback(), CursorBar(), rows, cols);
      if lines >= offset {
        offset := 0;
      } else {
        offset := offset - lines;
      }
      Render();
    }

    // The cursor part of framebuffer_flush_dirty.
    method DrawCursor(blinkOn: bool)
      requires Valid()
      modifies this`drawn, this`drawnX, this`drawnY, frame
      ensures Valid() && Screen() == old(Screen())
      ensures drawn <==> term.visible && blinkOn && offset == 0
      ensures drawn ==> drawnX == term.cur.x && drawnY == term.cur.y
    {
      if drawn && (!blinkOn || !term.visible || drawnX != term.cur.x || drawnY != term.cur.y) {
        EraseCursor();
      }
      if term.visible && offset == 0 && blinkOn && !drawn {
        ghost var f, s := frame[..], Screen();
        var x, y := term.cur.x, term.cur.y;
        AgreesShapes(s, f, Scrollback(), NoBar, rows, cols);
        BarAgrees(s, f, Scrollback(), rows, cols, x, y, true);
        assert x < cols && y < rows && |cells[y]| == cols;
        hide Agrees, WellFormed;
        frame[y] := frame[y][x := Shown(Drawn(cells[y][x]), true)];
        drawn, drawnX, drawnY := true, x, y;
        assert frame[..] == Paint(f, y, x, Shown(Drawn(s.cells[y][x]), true));
      }
    }

    // The tab case of console_putchar.
    method TabChar()
      requires Valid() && offset == 0 && !drawn && TabEnds(term, cols)
      modifies this`term, this`head, this`count, this`history, cells, frame, ring
      ensures Valid() && Screen() == Tab(old(Screen()), rows, cols)
    {
      assert WellFormed(Screen(), rows, cols);
      PrintableChar(' ');
      hide Agrees;
      if !AtStop(term.cur) {
        TabTurn(old(Screen()), rows, cols);
      }
      while !AtStop(term.cur)
        invariant Valid()
        invariant WellFormed(Screen(), rows, cols)
        invariant !AtStop(term.cur) ==> TabEnds(term, cols)
        invariant Tab(old(Screen()), rows, cols) == if AtStop(term.cur) then Screen() else Tab(Screen(), rows, cols)
        decreases if AtStop(term.cur) then 0 else 1 + TabRank(term, cols)
      {
        ghost var s := Screen();
        PrintWellFormed(s, rows, cols, ' ');
        PrintableChar(' ');
        if !AtStop(term.cur) {
          TabTurn(s, rows, cols);
        }
      }
    }

    // console_putchar: the screen moves by one byte, and the frame shows it.
    method PutChar(c: char)
      requires Valid() && Returns(Screen(), c, cols)
      modifies this`term, this`head, this`count, this`history, this`offset, this`drawn, cells, frame, ring
      ensures Valid() && offset == 0 && !drawn
      ensures Screen() == Feed(old(Screen()), c, rows, cols)
    {
      ResetView();
      EraseCursor();
      var consumed := ConsumeAnsi(c);
      if !consumed {
        PlainChar(c);
      }
    }

    // console_puts: after any string of bytes the console stands for the screen
    // that the string leaves, and its frame shows it.
    method Puts(str: seq<char>)
      requires Valid() && AllReturn(Screen(), str, rows, cols)
      modifies this`term, this`head, this`count, this`history, this`offset, this`drawn, cells, frame, ring
      ensures Valid() && Screen() == FeedAll(old(Screen()), str, rows, cols)
    {
      var i := 0;
      while i < |str|
        invariant 0 <= i <= |str| && Valid() && WellFormed(Screen(), rows, cols)
        invariant AllReturn(Screen(), str[i..], rows, cols)
        invariant FeedAll(Screen(), str[i..], rows, cols) == FeedAll(old(Screen()), str, rows, cols)
      {
        assert str[i..][0] == str[i] && str[i..][1..] == str[i + 1..];
        ghost var s := Screen();
        hide Agrees;
        FeedWellFormed(s, str[i], rows, cols);
        PutChar(str[i]);
        i := i + 1;
      }
    }

    method PlainChar(c: char)
      requires Valid() && offset == 0 && !drawn && Returns(Screen(), c, cols) && term.ansi.state.Normal? && c != ESC
      modifies this`term, this`head, this`count, this`history, cells, frame, ring
      ensures Valid() && Screen() == Feed(old(Screen()), c, rows, cols)
    {
      assert WellFormed(Screen(), rows, cols);
      hide Agrees;
      if c == '\n' {
        SetTerm(term.(cur := Cursor(0, term.cur.y, false)));
        LineFeed();
      } else if c == '\r' {
        SetTerm(term.(cur := Cursor(0, term.cur.y, false)));
      } else if c == '\U{8}' || c == '\U{7F}' {
        if term.cur.x > 0 {
          PutCell(term.cur.x - 1, term.cur.y, Cleared(term.pen));
          SetTerm(term.(cur := Cursor(term.cur.x - 1, term.cur.y, false)));
        } else {
          SetTerm(term.(cur := term.cur.(pending := false)));
        }
      } else if c == '\t' {
        TabChar();
      } else if ' ' <= c <= '~' {
        PrintableChar(c);
      }
    }
  }

  function ShownRow(line: Row): seq<Shown> {
    seq(|line|, k requires 0 <= k < |line| => Shown(Drawn(line[k]), false))
  }

  lemma BackFacts(b: Back, history: seq<Row>)
    requires BackHolds(b, history)
    ensures b.count == |Kept(history)| && b.offset <= b.count
  {
  }

  lemma RowsShow(f: Frame, v: seq<Row>)
    requires |f| == |v| && forall r :: 0 <= r < |f| ==> f[r] == ShownRow(v[r])
    ensures Shows(f, v, NoBar)
  {
    forall r | 0 <= r < |f| ensures RowShows(f, r, v[r], NoBar) {
      assert f[r] == ShownRow(v[r]);
    }
  }

  method Fill<T>(a: array<T>, x: T)
    modifies a
    ensures a[..] == seq(a.Length, _ => x)
  {
    for i := 0 to a.Length
      invariant forall k :: 0 <= k < i ==> a[k] == x
    {
      a[i] := x;
    }
  }

  lemma ClearAgrees(s: Screen, f: Frame, b: Back, bar: Bar, rows: nat, cols: nat)
    requires Agrees(s, f, b, bar, rows, cols)
    ensures Agrees(ClearScreen(s), seq(rows, _ => BlankShown(cols, s.t.pen.bg)), b.(offset := 0), NoBar, rows, cols)
    ensures ClearScreen(s).cells == seq(rows, _ => BlankRow(cols, Fresh(s.t.pen)))
  {
    var s', f' := ClearScreen(s), seq(rows, _ => BlankShown(cols, s.t.pen.bg));
    ClearRowsWellFormed(s.cells, 0, |s.cells|, Fresh(s.t.pen));
    ViewAtBottom(s');
    assert forall r :: 0 <= r < rows ==> s'.cells[r] == BlankRow(cols, Fresh(s.t.pen));
    forall r | 0 <= r < rows ensures RowShows(f', r, s'.cells[r], NoBar) {
    }
    hide View, RingHolds, RowShows, ClearRows;
  }

  lemma NoRowsCleared(v: seq<Row>, first: nat, c: Cell)
    ensures ClearRows(v, first, first, c) == v
  {
  }

  lemma OneRowMore(v: seq<Row>, first: nat, r: nat, c: Cell)
    requires first <= r < |v|
    ensures ClearRange(ClearRows(v, first, r, c), r, 0, |v[r]|, c) == ClearRows(v, first, r + 1, c)
  {
    var a, b := ClearRange(ClearRows(v, first, r, c), r, 0, |v[r]|, c), ClearRows(v, first, r + 1, c);
    assert ClearRows(v, first, r, c)[r] == v[r];
    assert a[r] == b[r];
    assert forall k :: 0 <= k < |v| && k != r ==> a[k] == ClearRows(v, first, r, c)[k];
  }

  // Every line moves up by one, as the memmove on the frame and the row copies on
  // the grid do, and the last one is filled.
  method ShiftUp<T>(a: array<T>, last: T)
    requires 0 < a.Length
    modifies a
    ensures a[..] == old(a[..])[1..] + [last]
  {
    var r := 1;
    while r < a.Length
      invariant 1 <= r <= a.Length
      invariant forall k :: 0 <= k < r - 1 ==> a[k] == old(a[k + 1])
      invariant forall k :: r - 1 <= k < a.Length ==> a[k] == old(a[k])
    {
      a[r - 1] := a[r];
      r := r + 1;
    }
    a[a.Length - 1] := last;
  }

  lemma ClearNothing(cells: seq<Row>, row: nat, first: nat, end: nat, c: Cell)
    requires row < |cells| ==> first >= |cells[row]| || first >= end
    ensures ClearRange(cells, row, first, end, c) == cells
  {
    if row < |cells| {
      assert ClearRange(cells, row, first, end, c)[row] == cells[row];
    }
  }

  lemma ClearOneMore(cells: seq<Row>, row: nat, first: nat, col: nat, c: Cell)
    requires row < |cells| && first <= col < |cells[row]|
    ensures PutAt(ClearRange(cells, row, first, col, c), row, col, c) == ClearRange(cells, row, first, col + 1, c)
  {
    assert PutAt(ClearRange(cells, row, first, col, c), row, col, c)[row] == ClearRange(cells, row, first, col + 1, c)[row];
  }

  lemma ClearEnough(cells: seq<Row>, row: nat, first: nat, e: nat, end: nat, c: Cell)
    requires row < |cells| && (e == end || (e <= first && end <= first) || (|cells[row]| <= e && |cells[row]| <= end))
    ensures ClearRange(cells, row, first, e, c) == ClearRange(cells, row, first, end, c)
  {
    assert ClearRange(cells, row, first, e, c)[row] == ClearRange(cells, row, first, end, c)[row];
  }
}
