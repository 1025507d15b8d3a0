/**
  What the text console is meant to show: a grid of cells, the lines that have
  scrolled off it, a cursor and an ANSI parser, as a value. Feed gives the screen
  after one more byte, FeedAll after a string of them, whenever the console comes
  back from every byte.
 */
module ConsoleScreen {

  const WORD: nat := 0x1_0000_0000
  const ESC: char := '\U{1B}'
  const DEFAULT_FG: nat := 0xFFFFFFFF
  const DEFAULT_BG: nat := 0xFF000000

  datatype Cell = Cell(ch: char, fg: nat, bg: nat)

  type Row = seq<Cell>

  datatype Parser = Normal | Escape | Csi

  datatype Cursor = Cursor(x: nat, y: nat, pending: bool)

  datatype Pen = Pen(fg: nat, bg: nat, reverse: bool)

  // The parameters collected by a control sequence.
  datatype Ansi = Ansi(state: Parser, params: seq<nat>, count: nat, active: bool)

  datatype Term = Term(cur: Cursor, pen: Pen, ansi: Ansi, savedX: nat, savedY: nat, wrap: bool, visible: bool)

  // `history` holds every line that has scrolled off, oldest first.
  datatype Screen = Screen(cells: seq<Row>, history: seq<Row>, t: Term)

  predicate WellFormed(s: Screen, rows: nat, cols: nat) {
    && 0 < rows && 0 < cols && |s.cells| == rows
    && (forall r :: 0 <= r < rows ==> |s.cells[r]| == cols)
    && (forall k :: 0 <= k < |s.history| ==> |s.history[k]| == cols)
    && TermOk(s.t, rows, cols)
  }

  predicate InGrid(c: Cursor, rows: nat, cols: nat) {
    c.x < cols && c.y < rows
  }

  predicate AnsiOk(a: Ansi) {
    |a.params| == 8 && a.count <= 8 && (a.active ==> 0 < a.count)
  }

  predicate TermOk(t: Term, rows: nat, cols: nat) {
    InGrid(t.cur, rows, cols) && AnsiOk(t.ansi)
  }

  // ------------------------------------------------------------------ the grid

  function Fg(p: Pen): nat { if p.reverse then p.bg else p.fg }
  function Bg(p: Pen): nat { if p.reverse then p.fg else p.bg }

  function Cleared(p: Pen): Cell { Cell(' ', Fg(p), Bg(p)) }
  function Fresh(p: Pen): Cell { Cell(' ', p.fg, p.bg) }

  function BlankRow(cols: nat, c: Cell): Row {
    seq(cols, _ => c)
  }

  function PutAt(cells: seq<Row>, row: nat, col: nat, c: Cell): seq<Row> {
    if row < |cells| && col < |cells[row]| then cells[row := cells[row][col := c]] else cells
  }

  // The cells of a row from `first` on, `end` not included, as far as they exist.
  function ClearRange(cells: seq<Row>, row: nat, first: nat, end: nat, c: Cell): seq<Row> {
    if row < |cells| then
      var line := cells[row];
      cells[row := seq(|line|, i requires 0 <= i < |line| => if first <= i < end then c else line[i])]
    else cells
  }

  // The rows from `first` on, `end` not included, entirely.
  function ClearRows(cells: seq<Row>, first: nat, end: nat, c: Cell): seq<Row> {
    seq(|cells|, r requires 0 <= r < |cells| => if first <= r < end then BlankRow(|cells[r]|, c) else cells[r])
  }

  // The screen with its cursor moved.
  function MoveTo(s: Screen, c: Cursor): Screen {
    s.(t := s.t.(cur := c))
  }

  function ScrollUp(s: Screen, rows: nat, cols: nat): Screen
    requires WellFormed(s, rows, cols)
  {
    Screen(s.cells[1..] + [BlankRow(cols, Fresh(s.t.pen))], s.history + [s.cells[0]],
           s.t.(cur := Cursor(s.t.cur.x, rows - 1, false)))
  }

  function Linefeed(s: Screen, rows: nat, cols: nat): Screen
    requires WellFormed(s, rows, cols)
  {
    if s.t.cur.y + 1 >= rows then ScrollUp(s, rows, cols) else MoveTo(s, s.t.cur.(y := s.t.cur.y + 1))
  }

  function Wrapped(s: Screen, rows: nat, cols: nat): Screen
    requires WellFormed(s, rows, cols)
  {
    if s.t.cur.pending && s.t.wrap then
      var s' := Linefeed(MoveTo(s, s.t.cur.(x := 0)), rows, cols);
      MoveTo(s', s'.t.cur.(pending := false))
    else s
  }

  // The cursor after a character has been put under it.
  function Advance(c: Cursor, wrap: bool, cols: nat): Cursor {
    if c.x + 1 >= cols then c.(pending := wrap || c.pending) else Cursor(c.x + 1, c.y, false)
  }

  // One printable character.
  function Print(s: Screen, rows: nat, cols: nat, c: char): Screen
    requires WellFormed(s, rows, cols)
  {
    var w := Wrapped(s, rows, cols);
    var cur, pen := w.t.cur, w.t.pen;
    Screen(PutAt(w.cells, cur.y, cur.x, Cell(c, Fg(pen), Bg(pen))), w.history,
           w.t.(cur := Advance(cur, w.t.wrap, cols)))
  }

  function ClearScreen(s: Screen): Screen {
    Screen(ClearRows(s.cells, 0, |s.cells|, Fresh(s.t.pen)), s.history, s.t.(cur := Cursor(0, 0, false)))
  }

  // ------------------------------------------------------------- ANSI sequences

  function ParamOr(a: Ansi, index: nat, fallback: nat): nat
    requires AnsiOk(a) && index < 8
  {
    if index >= a.count || a.params[index] == 0 then fallback else a.params[index]
  }

  function Add32(a: nat, b: nat): nat { (a + b) % WORD }

  function Clamp(v: nat, size: nat): nat
    requires 0 < size
  {
    if v >= size then size - 1 else v
  }

  function Less(v: nat, n: nat): nat { if n > v then 0 else v - n }

  // The palette, from the parameter 30..37, 40..47 or 90..107 less its base.
  function Dark(k: nat): nat
    requires k < 8
  {
    [0xFF000000, 0xFFAA0000, 0xFF00AA00, 0xFFAA5500, 0xFF0000AA, 0xFFAA00AA, 0xFF00AAAA, 0xFFAAAAAA][k]
  }

  function Bright(k: nat): nat
    requires k < 8
  {
    [0xFF555555, 0xFFFF5555, 0xFF55FF55, 0xFFFFFF55, 0xFF5555FF, 0xFFFF55FF, 0xFF55FFFF, 0xFFFFFFFF][k]
  }

  const DefaultPen := Pen(DEFAULT_FG, DEFAULT_BG, false)

  // One parameter of "select graphic rendition"; bold lasts for one sequence.
  function Sgr1(p: Pen, bold: bool, n: nat): (Pen, bool) {
    if n == 0 then (DefaultPen, false)
    else if n == 1 then (p, true)
    else if n == 7 then (p.(reverse := true), bold)
    else if n == 22 then (p, false)
    else if n == 27 then (p.(reverse := false), bold)
    else if 30 <= n <= 37 then (p.(fg := if bold then Bright(n - 30) else Dark(n - 30)), bold)
    else if n == 39 then (p.(fg := DEFAULT_FG), bold)
    else if 40 <= n <= 47 then (p.(bg := Dark(n - 40)), bold)
    else if n == 49 then (p.(bg := DEFAULT_BG), bold)
    else if 90 <= n <= 97 then (p.(fg := Bright(n - 90)), bold)
    else if 100 <= n <= 107 then (p.(bg := Bright(n - 100)), bold)
    else (p, bold)
  }

  function SgrFrom(p: Pen, bold: bool, params: seq<nat>): Pen
    decreases |params|
  {
    if params == [] then p else var (p', b) := Sgr1(p, bold, params[0]); SgrFrom(p', b, params[1..])
  }

  function Sgr(p: Pen, a: Ansi): Pen
    requires AnsiOk(a)
  {
    if a.count == 0 then DefaultPen else SgrFrom(p, false, a.params[..a.count])
  }

  function Restore(t: Term, rows: nat, cols: nat): Cursor
    requires 0 < rows && 0 < cols
  {
    Cursor(Clamp(t.savedX, cols), Clamp(t.savedY, rows), false)
  }

  // The sequences that move the cursor.
  function CsiMove(t: Term, final: char, rows: nat, cols: nat): Cursor
    requires TermOk(t, rows, cols)
  {
    var c, n := t.cur, ParamOr(t.ansi, 0, 1);
    if final == 'A' then Cursor(c.x, Less(c.y, n), false)
    else if final == 'B' then Cursor(c.x, Clamp(Add32(c.y, n), rows), false)
    else if final == 'C' then Cursor(Clamp(Add32(c.x, n), cols), c.y, false)
    else if final == 'D' then Cursor(Less(c.x, n), c.y, false)
    else if final == 'H' || final == 'f' then
      Cursor(Clamp(Less(ParamOr(t.ansi, 1, 1), 1), cols), Clamp(Less(n, 1), rows), false)
    else if final == 'u' then Restore(t, rows, cols)
    else c
  }

  // Save the cursor, set or reset a mode.
  function CsiMode(t: Term, final: char): Term
    requires AnsiOk(t.ansi)
  {
    var mode := t.ansi.params[0];
    if final == 's' then t.(savedX := t.cur.x, savedY := t.cur.y)
    else if final == 'h' || final == 'l' then
      if mode == 25 then t.(visible := final == 'h') else if mode == 7 then t.(wrap := final == 'h') else t
    else t
  }

  function CsiTerm(t: Term, final: char, rows: nat, cols: nat): Term
    requires TermOk(t, rows, cols)
  {
    if final == 'm' then t.(pen := Sgr(t.pen, t.ansi))
    else CsiMode(t, final).(cur := CsiMove(t, final, rows, cols))
  }

  function FirstParam(a: Ansi): nat
    requires AnsiOk(a)
  {
    if a.count == 0 then 0 else a.params[0]
  }

  function EraseInLine(s: Screen, n: nat, cols: nat): seq<Row>
    requires 0 < cols
  {
    var c, blank := s.t.cur, Cleared(s.t.pen);
    if n == 0 then ClearRange(s.cells, c.y, c.x, cols, blank)
    else if n == 1 then ClearRange(s.cells, c.y, 0, c.x + 1, blank)
    else if n == 2 then ClearRange(s.cells, c.y, 0, cols, blank)
    else s.cells
  }

  function EraseInScreen(s: Screen, n: nat, rows: nat, cols: nat): Screen
    requires 0 < cols
  {
    var c, blank := s.t.cur, Cleared(s.t.pen);
    if n == 0 then s.(cells := ClearRows(EraseInLine(s, 0, cols), c.y + 1, rows, blank))
    else if n == 1 then s.(cells := ClearRange(ClearRows(s.cells, 0, c.y, blank), c.y, 0, c.x + 1, blank))
    else if n == 2 || n == 3 then ClearScreen(s)
    else s
  }

  function CsiFinal(s: Screen, final: char, rows: nat, cols: nat): Screen
    requires WellFormed(s, rows, cols)
  {
    if final == 'J' then EraseInScreen(s, FirstParam(s.t.ansi), rows, cols)
    else if final == 'K' then s.(cells := EraseInLine(s, FirstParam(s.t.ansi), cols))
    else s.(t := CsiTerm(s.t, final, rows, cols))
  }

  predicate IsFinal(c: char) {
    c in {'A', 'B', 'C', 'D', 'H', 'f', 'J', 'K', 'm', 'h', 'l', 's', 'u'}
  }

  function Digit(a: Ansi, d: nat): Ansi
    requires AnsiOk(a)
  {
    var n := if a.count == 0 then 1 else a.count;
    Ansi(a.state, a.params[n - 1 := (a.params[n - 1] * 10 + d) % WORD], n, true)
  }

  function Separator(a: Ansi): Ansi {
    var n := if a.count == 0 then 1 else a.count;
    Ansi(a.state, a.params, if n < 8 then n + 1 else n, false)
  }

  function InState(s: Screen, p: Parser): Screen {
    s.(t := s.t.(ansi := s.t.ansi.(state := p)))
  }

  // A byte inside an escape sequence.
  function InEscape(s: Screen, c: char, rows: nat, cols: nat): Screen
    requires WellFormed(s, rows, cols)
  {
    var done := InState(s, Normal);
    if c == '[' then s.(t := s.t.(ansi := Ansi(Csi, seq(8, _ => 0), 0, false)))
    else if c == '7' then done.(t := done.t.(savedX := s.t.cur.x, savedY := s.t.cur.y))
    else if c == '8' then MoveTo(done, Restore(s.t, rows, cols))
    else if c == 'c' then ClearScreen(done.(t := done.t.(pen := DefaultPen)))
    else done
  }

  // A byte inside a control sequence.
  function InCsi(s: Screen, c: char, rows: nat, cols: nat): Screen
    requires WellFormed(s, rows, cols)
  {
    if c == '?' || c == '>' || c == '=' || c == ':' then s
    else if '0' <= c <= '9' then s.(t := s.t.(ansi := Digit(s.t.ansi, (c - '0') as nat)))
    else if c == ';' then s.(t := s.t.(ansi := Separator(s.t.ansi)))
    else InState(if IsFinal(c) then CsiFinal(s, c, rows, cols) else s, Normal)
  }

  // ------------------------------------------------------------- one more byte

  function Backspace(s: Screen): Screen {
    var c := s.t.cur;
    if c.x > 0 then
      Screen(PutAt(s.cells, c.y, c.x - 1, Cleared(s.t.pen)), s.history, s.t.(cur := Cursor(c.x - 1, c.y, false)))
    else MoveTo(s, c.(pending := false))
  }

  // The tab loop stops: it waits to wrap, or has reached a multiple of eight.
  predicate AtStop(c: Cursor) {
    c.pending || c.x % 8 == 0
  }

  // Whether the tab loop comes to an end from here.
  predicate TabEnds(t: Term, cols: nat) {
    || t.wrap
    || (t.cur.pending && t.cur.x + 1 >= cols)
    || (cols - 1) % 8 == 0
    || t.cur.x - t.cur.x % 8 + 8 < cols
  }

  // How far the loop still is from the end of the row.
  function TabRank(t: Term, cols: nat): int {
    if t.cur.pending && t.wrap then cols + 1 else cols - t.cur.x
  }

  function Tab(s: Screen, rows: nat, cols: nat): Screen
    requires WellFormed(s, rows, cols) && TabEnds(s.t, cols)
    decreases TabRank(s.t, cols)
  {
    var s' := Print(s, rows, cols, ' ');
    PrintWellFormed(s, rows, cols, ' ');
    if AtStop(s'.t.cur) then s' else Tab(s', rows, cols)
  }

  // One turn of the tab loop that does not stop comes nearer to its end.
  lemma TabTurn(s: Screen, rows: nat, cols: nat)
    requires WellFormed(s, rows, cols) && TabEnds(s.t, cols) && !AtStop(Print(s, rows, cols, ' ').t.cur)
    ensures var t := Print(s, rows, cols, ' ').t; TabEnds(t, cols) && 0 <= TabRank(t, cols) < TabRank(s.t, cols)
  {
    PrintWellFormed(s, rows, cols, ' ');
  }

  // console_puts, byte by byte, and when it returns.
  predicate AllReturn(s: Screen, str: seq<char>, rows: nat, cols: nat)
    requires WellFormed(s, rows, cols)
    decreases |str|
  {
    str == [] || (Returns(s, str[0], cols)
                  && (FeedWellFormed(s, str[0], rows, cols);
                      AllReturn(Feed(s, str[0], rows, cols), str[1..], rows, cols)))
  }

  lemma PrintWellFormed(s: Screen, rows: nat, cols: nat, c: char)
    requires WellFormed(s, rows, cols)
    ensures WellFormed(Print(s, rows, cols, c), rows, cols)
  {
  }

  // Bytes for which the console returns.
  predicate Returns(s: Screen, c: char, cols: nat) {
    c == '\t' && s.t.ansi.state.Normal? ==> TabEnds(s.t, cols)
  }

  function Feed(s: Screen, c: char, rows: nat, cols: nat): Screen
    requires WellFormed(s, rows, cols) && Returns(s, c, cols)
  {
    match s.t.ansi.state
    case Escape => InEscape(s, c, rows, cols)
    case Csi => InCsi(s, c, rows, cols)
    case Normal =>
      if c == ESC then InState(s, Escape)
      else if c == '\n' then Linefeed(MoveTo(s, Cursor(0, s.t.cur.y, false)), rows, cols)
      else if c == '\r' then MoveTo(s, Cursor(0, s.t.cur.y, false))
      else if c == '\U{8}' || c == '\U{7F}' then Backspace(s)
      else if c == '\t' then Tab(s, rows, cols)
      else if ' ' <= c <= '~' then Print(s, rows, cols, c)
      else s
  }

  // -------------------------------------------------- what every byte preserves

  lemma ClearRowsWellFormed(cells: seq<Row>, first: nat, end: nat, c: Cell)
    ensures |ClearRows(cells, first, end, c)| == |cells|
    ensures forall r :: 0 <= r < |cells| ==> |ClearRows(cells, first, end, c)[r]| == |cells[r]|
  {
  }

  lemma EscapeWellFormed(s: Screen, c: char, rows: nat, cols: nat)
    requires WellFormed(s, rows, cols)
    ensures WellFormed(InEscape(s, c, rows, cols), rows, cols)
  {
    ClearRowsWellFormed(s.cells, 0, |s.cells|, Fresh(DefaultPen));
  }

  lemma CsiTermOk(t: Term, final: char, rows: nat, cols: nat)
    requires TermOk(t, rows, cols)
    ensures TermOk(CsiTerm(t, final, rows, cols), rows, cols)
  {
    hide Add32, Sgr;
  }

  lemma EraseWellFormed(s: Screen, n: nat, rows: nat, cols: nat)
    requires WellFormed(s, rows, cols)
    ensures WellFormed(EraseInScreen(s, n, rows, cols), rows, cols)
    ensures WellFormed(s.(cells := EraseInLine(s, n, cols)), rows, cols)
  {
    var cur, blank := s.t.cur, Cleared(s.t.pen);
    ClearRowsWellFormed(s.cells, 0, |s.cells|, Fresh(s.t.pen));
    ClearRowsWellFormed(s.cells, 0, cur.y, blank);
    ClearRowsWellFormed(EraseInLine(s, 0, cols), cur.y + 1, rows, blank);
    hide ClearRows;
  }

  lemma CsiWellFormed(s: Screen, c: char, rows: nat, cols: nat)
    requires WellFormed(s, rows, cols)
    ensures WellFormed(InCsi(s, c, rows, cols), rows, cols)
  {
    hide CsiTerm, EraseInScreen, EraseInLine, FirstParam;
    CsiTermOk(s.t, c, rows, cols);
    EraseWellFormed(s, FirstParam(s.t.ansi), rows, cols);
  }

  lemma {:induction false} TabWellFormed(s: Screen, rows: nat, cols: nat)
    requires WellFormed(s, rows, cols) && TabEnds(s.t, cols)
    ensures WellFormed(Tab(s, rows, cols), rows, cols)
    decreases TabRank(s.t, cols)
  {
    hide Print, WellFormed, TabEnds, TabRank, AtStop;
    var s' := Print(s, rows, cols, ' ');
    PrintWellFormed(s, rows, cols, ' ');
    if !AtStop(s'.t.cur) {
      TabTurn(s, rows, cols);
      TabWellFormed(s', rows, cols);
    }
  }

  // The grid keeps its shape and the cursor stays inside it.
  lemma FeedWellFormed(s: Screen, c: char, rows: nat, cols: nat)
    requires WellFormed(s, rows, cols) && Returns(s, c, cols)
    ensures WellFormed(Feed(s, c, rows, cols), rows, cols)
  {
    if s.t.ansi.state.Escape? {
      EscapeWellFormed(s, c, rows, cols);
    } else if s.t.ansi.state.Csi? {
      CsiWellFormed(s, c, rows, cols);
    } else if c == '\t' {
      TabWellFormed(s, rows, cols);
    } else if ' ' <= c <= '~' {
      PrintWellFormed(s, rows, cols, c);
    } else {
      hide Tab, Print, InEscape, InCsi;
    }
  }

  // --------------------------------------------------- when the tab loop returns

  // After n turns of the tab loop, had it not stopped before.
  function Turns(s: Screen, rows: nat, cols: nat, n: nat): (s': Screen)
    requires WellFormed(s, rows, cols)
    ensures WellFormed(s', rows, cols)
  {
    if n == 0 then s
    else
      var p := Turns(s, rows, cols, n - 1);
      PrintWellFormed(p, rows, cols, ' ');
      Print(p, rows, cols, ' ')
  }

  lemma {:induction false} NoStopAhead(s: Screen, rows: nat, cols: nat, n: nat)
    requires WellFormed(s, rows, cols) && !TabEnds(s.t, cols) && 0 < n
    ensures var t := Turns(s, rows, cols, n).t; !AtStop(t.cur) && !TabEnds(t, cols)
  {
    if n > 1 {
      NoStopAhead(s, rows, cols, n - 1);
    }
    hide PutAt;
    var p := Turns(s, rows, cols, n - 1);
    assert !TabEnds(p.t, cols);
    StepWithoutStop(p, rows, cols);
  }

  lemma StepWithoutStop(s: Screen, rows: nat, cols: nat)
    requires WellFormed(s, rows, cols) && !TabEnds(s.t, cols)
    ensures var t := Print(s, rows, cols, ' ').t; !AtStop(t.cur) && !TabEnds(t, cols)
  {
    var c := s.t.cur;
    assert Print(s, rows, cols, ' ').t.cur == if c.x + 1 >= cols then c else Cursor(c.x + 1, c.y, false);
    assert c.x % 8 != 7 || c.x + 1 >= cols;
  }

  lemma {:induction false} StopAhead(s: Screen, rows: nat, cols: nat) returns (n: nat)
    requires WellFormed(s, rows, cols) && TabEnds(s.t, cols)
    ensures 0 < n && AtStop(Turns(s, rows, cols, n).t.cur) && Turns(s, rows, cols, n) == Tab(s, rows, cols)
    decreases TabRank(s.t, cols)
  {
    var s' := Print(s, rows, cols, ' ');
    PrintWellFormed(s, rows, cols, ' ');
    hide Print, WellFormed, TabEnds, TabRank, AtStop;
    assert Turns(s, rows, cols, 0) == s && Turns(s, rows, cols, 1) == s';
    if AtStop(s'.t.cur) {
      n := 1;
    } else {
      TabTurn(s, rows, cols);
      var m := StopAhead(s', rows, cols);
      TurnsAfterOne(s, rows, cols, m);
      n := m + 1;
    }
  }

  lemma {:induction false} TurnsAfterOne(s: Screen, rows: nat, cols: nat, n: nat)
    requires WellFormed(s, rows, cols)
    ensures Turns(s, rows, cols, n + 1) == Turns(Turns(s, rows, cols, 1), rows, cols, n)
  {
    hide Print, WellFormed;
    if n > 0 {
      TurnsAfterOne(s, rows, cols, n - 1);
    }
  }

  ghost predicate StopsAfter(s: Screen, rows: nat, cols: nat, n: nat)
    requires WellFormed(s, rows, cols)
  {
    0 < n && AtStop(Turns(s, rows, cols, n).t.cur)
  }

  // The loop for a tab ends exactly when automatic wrapping is on, a multiple of
  // eight lies ahead in the row, or the cursor waits to wrap at the row's end.
  lemma TabReturnsIff(s: Screen, rows: nat, cols: nat)
    requires WellFormed(s, rows, cols)
    ensures (exists n :: StopsAfter(s, rows, cols, n)) <==> TabEnds(s.t, cols)
  {
    if TabEnds(s.t, cols) {
      var n := StopAhead(s, rows, cols);
      assert StopsAfter(s, rows, cols, n);
    } else {
      forall n | 0 < n ensures !StopsAfter(s, rows, cols, n) {
        NoStopAhead(s, rows, cols, n);
      }
    }
  }

  // The screen after a string of bytes.
  function FeedAll(s: Screen, str: seq<char>, rows: nat, cols: nat): (s': Screen)
    requires WellFormed(s, rows, cols) && AllReturn(s, str, rows, cols)
    ensures WellFormed(s', rows, cols)
    decreases |str|
  {
    if str == [] then s
    else
      FeedWellFormed(s, str[0], rows, cols);
      FeedAll(Feed(s, str[0], rows, cols), str[1..], rows, cols)
  }

  // ---------------------------------------------------- what it means to a writer

  predicate Printable(str: seq<char>) {
    forall i :: 0 <= i < |str| ==> ' ' <= str[i] <= '~'
  }

  function Styled(str: seq<char>, p: Pen): Row {
    seq(|str|, i requires 0 <= i < |str| => Cell(str[i], Fg(p), Bg(p)))
  }

  // The screen with a run of text written at the cursor.
  function Written(s: Screen, str: seq<char>): Screen
    requires s.t.cur.y < |s.cells| && s.t.cur.x + |str| <= |s.cells[s.t.cur.y]|
  {
    var c, row := s.t.cur, s.cells[s.t.cur.y];
    Screen(s.cells[c.y := row[..c.x] + Styled(str, s.t.pen) + row[c.x + |str|..]], s.history,
           s.t.(cur := Cursor(c.x + |str|, c.y, false)))
  }

  // Text that ends before the last column goes into the row, in the pen's colours,
  // and nothing else on the screen changes.
  lemma {:induction false} TextIsWritten(s: Screen, str: seq<char>, rows: nat, cols: nat)
    requires WellFormed(s, rows, cols) && s.t.ansi.state.Normal? && !s.t.cur.pending
    requires Printable(str) && s.t.cur.x + |str| < cols
    ensures AllReturn(s, str, rows, cols)
    ensures FeedAll(s, str, rows, cols) == Written(s, str)
    decreases |str|
  {
    var c, row := s.t.cur, s.cells[s.t.cur.y];
    if str == [] {
      assert row[..c.x] + Styled(str, s.t.pen) + row[c.x..] == row;
      assert s.cells[c.y := row] == s.cells;
    } else {
      FirstIsWritten(s, str[0], rows, cols);
      var s' := Feed(s, str[0], rows, cols);
      FeedWellFormed(s, str[0], rows, cols);
      hide Feed, Returns;
      TextIsWritten(s', str[1..], rows, cols);
      assert str[..1] == [str[0]];
      WrittenJoins(s, str);
    }
  }

  lemma FirstIsWritten(s: Screen, c: char, rows: nat, cols: nat)
    requires WellFormed(s, rows, cols) && s.t.ansi.state.Normal? && !s.t.cur.pending
    requires ' ' <= c <= '~' && s.t.cur.x + 1 < cols
    ensures Returns(s, c, cols) && Feed(s, c, rows, cols) == Written(s, [c])
  {
    var row, x := s.cells[s.t.cur.y], s.t.cur.x;
    assert row[..x] + Styled([c], s.t.pen) + row[x + 1..] == row[x := Cell(c, Fg(s.t.pen), Bg(s.t.pen))];
  }

  lemma WrittenJoins(s: Screen, str: seq<char>)
    requires str != [] && s.t.cur.y < |s.cells| && s.t.cur.x + |str| <= |s.cells[s.t.cur.y]|
    ensures Written(Written(s, str[..1]), str[1..]) == Written(s, str)
  {
    var c, row, p := s.t.cur, s.cells[s.t.cur.y], s.t.pen;
    var mid := row[..c.x] + Styled(str[..1], p) + row[c.x + 1..];
    assert mid[..c.x + 1] + Styled(str[1..], p) + mid[c.x + |str|..] == row[..c.x] + Styled(str, p) + row[c.x + |str|..];
  }

  // Decimal digits, most significant first.
  function Number(digits: seq<nat>): nat {
    if digits == [] then 0 else Number(digits[..|digits| - 1]) * 10 + digits[|digits| - 1]
  }

  function Digits(a: Ansi, digits: seq<nat>): (r: Ansi)
    requires AnsiOk(a)
    ensures AnsiOk(r)
  {
    if digits == [] then a else Digit(Digits(a, digits[..|digits| - 1]), digits[|digits| - 1])
  }

  // The parameter that digits go to.
  function Current(a: Ansi): nat {
    if a.count == 0 then 0 else a.count - 1
  }

  // The digits of a control sequence's parameter stand for their number, modulo 2^32,
  // and the parameter counts as given.
  lemma {:induction false} DigitsAreANumber(a: Ansi, digits: seq<nat>)
    requires AnsiOk(a) && a.params[Current(a)] == 0
    ensures var r := Digits(a, digits);
            && r.state == a.state && r.params == a.params[Current(a) := Number(digits) % WORD]
            && r.count == if digits == [] then a.count else Current(a) + 1
  {
    if digits == [] {
      assert a.params[Current(a) := 0] == a.params;
    } else {
      var n := |digits| - 1;
      DigitsAreANumber(a, digits[..n]);
      MulMod(Number(digits[..n]), digits[n]);
    }
  }

  lemma MulMod(n: nat, d: nat)
    ensures (n % WORD * 10 + d) % WORD == (n * 10 + d) % WORD
  {
  }

  // ----------------------------------------------------------- several bytes on

  lemma {:induction false} FeedTwo(s: Screen, a: seq<char>, b: seq<char>, rows: nat, cols: nat)
    requires WellFormed(s, rows, cols) && AllReturn(s, a, rows, cols)
    ensures AllReturn(s, a + b, rows, cols) <==> AllReturn(FeedAll(s, a, rows, cols), b, rows, cols)
    ensures AllReturn(s, a + b, rows, cols) ==>
              FeedAll(s, a + b, rows, cols) == FeedAll(FeedAll(s, a, rows, cols), b, rows, cols)
    decreases |a|
  {
    hide Feed, WellFormed, Returns;
    if a == [] {
      assert a + b == b;
    } else {
      FeedWellFormed(s, a[0], rows, cols);
      assert (a + b)[1..] == a[1..] + b;
      FeedTwo(Feed(s, a[0], rows, cols), a[1..], b, rows, cols);
    }
  }

  lemma FeedOne(s: Screen, c: char, rows: nat, cols: nat)
    requires WellFormed(s, rows, cols)
    ensures AllReturn(s, [c], rows, cols) <==> Returns(s, c, cols)
    ensures Returns(s, c, cols) ==> FeedAll(s, [c], rows, cols) == Feed(s, c, rows, cols)
  {
    hide Feed, WellFormed, Returns;
    if Returns(s, c, cols) {
      FeedWellFormed(s, c, rows, cols);
      assert [c][1..] == [];
    }
  }

  // A byte that is no tab goes after a string that returns.
  lemma FeedNext(s: Screen, a: seq<char>, c: char, rows: nat, cols: nat)
    requires WellFormed(s, rows, cols) && AllReturn(s, a, rows, cols) && c != '\t'
    ensures AllReturn(s, a + [c], rows, cols)
    ensures FeedAll(s, a + [c], rows, cols) == Feed(FeedAll(s, a, rows, cols), c, rows, cols)
  {
    hide Feed, FeedAll, AllReturn, WellFormed;
    FeedTwo(s, a, [c], rows, cols);
    FeedOne(FeedAll(s, a, rows, cols), c, rows, cols);
  }

  // ------------------------------------------------------ a tab that never returns

  const WRAP_OFF: seq<char> := [ESC, '[', '?', '7', 'l']

  lemma WrapOff(s: Screen, rows: nat, cols: nat)
    requires WellFormed(s, rows, cols) && s.t.ansi.state.Normal?
    ensures AllReturn(s, WRAP_OFF, rows, cols)
    ensures FeedAll(s, WRAP_OFF, rows, cols) ==
              s.(t := s.t.(wrap := false, ansi := Ansi(Normal, [7, 0, 0, 0, 0, 0, 0, 0], 1, true)))
  {
    hide FeedAll, AllReturn, WellFormed;
    NothingFed(s, rows, cols);
    FeedNext(s, [], ESC, rows, cols);
    FeedNext(s, [] + [ESC], '[', rows, cols);
    FeedNext(s, [] + [ESC] + ['['], '?', rows, cols);
    FeedNext(s, [] + [ESC] + ['['] + ['?'], '7', rows, cols);
    FeedNext(s, [] + [ESC] + ['['] + ['?'] + ['7'], 'l', rows, cols);
    assert [] + [ESC] + ['['] + ['?'] + ['7'] + ['l'] == WRAP_OFF;
  }

  lemma NothingFed(s: Screen, rows: nat, cols: nat)
    requires WellFormed(s, rows, cols)
    ensures AllReturn(s, [], rows, cols) && FeedAll(s, [], rows, cols) == s
  {
    hide Feed, WellFormed;
  }

  // Where n characters leave the cursor when nothing wraps.
  function Along(c: Cursor, n: nat, cols: nat): Cursor
    requires 0 < cols
  {
    Cursor(Clamp(c.x + n, cols), c.y, c.pending && (n == 0 || c.x + 1 >= cols))
  }

  lemma {:induction false} TextWithoutWrap(s: Screen, text: seq<char>, rows: nat, cols: nat)
    requires WellFormed(s, rows, cols) && s.t.ansi.state.Normal? && !s.t.wrap && Printable(text)
    ensures AllReturn(s, text, rows, cols)
    ensures FeedAll(s, text, rows, cols).t == s.t.(cur := Along(s.t.cur, |text|, cols))
    decreases |text|
  {
    if text != [] {
      var s' := Feed(s, text[0], rows, cols);
      FeedWellFormed(s, text[0], rows, cols);
      assert s'.t == s.t.(cur := Along(s.t.cur, 1, cols));
      hide Feed, Returns, WellFormed;
      TextWithoutWrap(s', text[1..], rows, cols);
    }
  }

  // Wrapping off, some text, a tab: the console comes back exactly when a multiple of
  // eight lies ahead of where the text ends, which is the last column if it is too long,
  // or the last column is such a multiple, or the cursor waits there to wrap.
  lemma TabAfterTextReturnsIff(s: Screen, text: seq<char>, rows: nat, cols: nat)
    requires WellFormed(s, rows, cols) && s.t.ansi.state.Normal? && Printable(text)
    ensures AllReturn(s, WRAP_OFF + text, rows, cols)
    ensures var c := Along(s.t.cur, |text|, cols);
            AllReturn(s, WRAP_OFF + text + ['\t'], rows, cols) <==>
              (c.pending && c.x == cols - 1) || (cols - 1) % 8 == 0 || c.x - c.x % 8 + 8 < cols
  {
    hide Feed, FeedAll, AllReturn, Printable;
    WrapOff(s, rows, cols);
    var off := FeedAll(s, WRAP_OFF, rows, cols);
    TextWithoutWrap(off, text, rows, cols);
    FeedTwo(s, WRAP_OFF, text, rows, cols);
    hide WellFormed;
    FeedTwo(s, WRAP_OFF + text, ['\t'], rows, cols);
    FeedOne(FeedAll(s, WRAP_OFF + text, rows, cols), '\t', rows, cols);
  }

  // On 80 columns, 72 characters from the start of a line are enough to hang.
  lemma TabCanHang(s: Screen) returns (str: seq<char>)
    requires WellFormed(s, 25, 80) && s.t.ansi.state.Normal? && s.t.cur.x == 0 && !s.t.cur.pending
    ensures str == WRAP_OFF + seq(72, _ => 'x') + ['\t'] && !AllReturn(s, str, 25, 80)
  {
    hide AllReturn, WellFormed;
    var text := seq(72, _ => 'x');
    TabAfterTextReturnsIff(s, text, 25, 80);
    str := WRAP_OFF + text + ['\t'];
  }

  // --------------------------------------------------------- saving the cursor

  // The bytes that save the cursor: 7 after an ESC, and the s that ends a control sequence.
  predicate Saves(a: Ansi, c: char) {
    (a.state.Escape? && c == '7') || (a.state.Csi? && c == 's')
  }

  predicate NeverSaves(s: Screen, str: seq<char>, rows: nat, cols: nat)
    requires WellFormed(s, rows, cols) && AllReturn(s, str, rows, cols)
    decreases |str|
  {
    str == [] || (!Saves(s.t.ansi, str[0])
                  && (FeedWellFormed(s, str[0], rows, cols);
                      NeverSaves(Feed(s, str[0], rows, cols), str[1..], rows, cols)))
  }

  predicate SameSaved(s: Screen, s': Screen) {
    s'.t.savedX == s.t.savedX && s'.t.savedY == s.t.savedY
  }

  lemma {:induction false} TabKeepsSaved(s: Screen, rows: nat, cols: nat)
    requires WellFormed(s, rows, cols) && TabEnds(s.t, cols)
    ensures SameSaved(s, Tab(s, rows, cols))
    decreases TabRank(s.t, cols)
  {
    var s' := Print(s, rows, cols, ' ');
    PrintWellFormed(s, rows, cols, ' ');
    if !AtStop(s'.t.cur) {
      TabTurn(s, rows, cols);
      TabKeepsSaved(s', rows, cols);
    }
  }

  lemma FeedKeepsSaved(s: Screen, c: char, rows: nat, cols: nat)
    requires WellFormed(s, rows, cols) && Returns(s, c, cols) && !Saves(s.t.ansi, c)
    ensures SameSaved(s, Feed(s, c, rows, cols))
  {
    hide Add32, Sgr, ClearRows, ClearRange, PutAt;
    if s.t.ansi.state.Normal? && c == '\t' {
      TabKeepsSaved(s, rows, cols);
    }
  }

  lemma {:induction false} AllKeepSaved(s: Screen, str: seq<char>, rows: nat, cols: nat)
    requires WellFormed(s, rows, cols) && AllReturn(s, str, rows, cols) && NeverSaves(s, str, rows, cols)
    ensures SameSaved(s, FeedAll(s, str, rows, cols))
    decreases |str|
  {
    hide Feed, WellFormed, Returns;
    if str != [] {
      FeedKeepsSaved(s, str[0], rows, cols);
      FeedWellFormed(s, str[0], rows, cols);
      AllKeepSaved(Feed(s, str[0], rows, cols), str[1..], rows, cols);
    }
  }

  function Saved(s: Screen): Screen {
    s.(t := s.t.(savedX := s.t.cur.x, savedY := s.t.cur.y))
  }

  lemma SaveCursor(s: Screen, rows: nat, cols: nat)
    requires WellFormed(s, rows, cols) && s.t.ansi.state.Normal?
    ensures AllReturn(s, [ESC, '7'], rows, cols) && FeedAll(s, [ESC, '7'], rows, cols) == Saved(s)
  {
    hide FeedAll, AllReturn, WellFormed;
    NothingFed(s, rows, cols);
    FeedNext(s, [], ESC, rows, cols);
    FeedNext(s, [] + [ESC], '7', rows, cols);
    assert [] + [ESC] + ['7'] == [ESC, '7'];
  }

  lemma RestoreCursor(s: Screen, rows: nat, cols: nat)
    requires WellFormed(s, rows, cols) && s.t.ansi.state.Normal?
    ensures AllReturn(s, [ESC, '8'], rows, cols)
    ensures FeedAll(s, [ESC, '8'], rows, cols) == MoveTo(s, Restore(s.t, rows, cols))
  {
    hide FeedAll, AllReturn, WellFormed;
    NothingFed(s, rows, cols);
    FeedNext(s, [], ESC, rows, cols);
    FeedNext(s, [] + [ESC], '8', rows, cols);
    assert [] + [ESC] + ['8'] == [ESC, '8'];
  }

  // ESC 7, then any bytes that do not save again (text, scrolling, erasing, moving)
  // and finish their last sequence, then ESC 8: the cursor is back where it was.
  lemma SavedCursorReturns(s: Screen, str: seq<char>, rows: nat, cols: nat)
    requires WellFormed(s, rows, cols) && s.t.ansi.state.Normal?
    requires AllReturn(Saved(s), str, rows, cols) && NeverSaves(Saved(s), str, rows, cols)
    requires FeedAll(Saved(s), str, rows, cols).t.ansi.state.Normal?
    ensures AllReturn(s, [ESC, '7'] + str + [ESC, '8'], rows, cols)
    ensures FeedAll(s, [ESC, '7'] + str + [ESC, '8'], rows, cols).t.cur == s.t.cur.(pending := false)
  {
    hide FeedAll, AllReturn, NeverSaves;
    SaveCursor(s, rows, cols);
    FeedTwo(s, [ESC, '7'], str, rows, cols);
    AllKeepSaved(Saved(s), str, rows, cols);
    RestoreCursor(FeedAll(s, [ESC, '7'] + str, rows, cols), rows, cols);
    FeedTwo(s, [ESC, '7'] + str, [ESC, '8'], rows, cols);
  }
}
