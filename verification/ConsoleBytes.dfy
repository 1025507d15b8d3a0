/**
  What the bytes sent to the console mean, for whoever writes to it: control sequences
  with their decimal parameters, colours and modes, and the plain control bytes
  newline, carriage return, backspace and tab.

  Every statement is about the screen after whole byte sequences have been fed, and says
  cell by cell, or in plain arithmetic on the cursor, what has changed and what has not.
  The functions of the screen model that compute a cursor, an erased range, a colour or
  a parameter are left to the proofs.
 */
module ConsoleBytes {

  import opened ConsoleScreen

  // ---------------------------------------------------------- control sequences

  predicate AreDigits(ds: seq<nat>) {
    forall i :: 0 <= i < |ds| ==> ds[i] < 10
  }

  function DigitChar(d: nat): char
    requires d < 10
  {
    '0' + d as char
  }

  function Chars(ds: seq<nat>): seq<char>
    requires AreDigits(ds)
  {
    seq(|ds|, i requires 0 <= i < |ds| => DigitChar(ds[i]))
  }

  // One to eight parameters, each in decimal and possibly left empty.
  predicate AreParams(ps: seq<seq<nat>>) {
    1 <= |ps| <= 8 && forall i :: 0 <= i < |ps| ==> AreDigits(ps[i])
  }

  // The parameters as they are sent, with semicolons between them.
  function Text(ps: seq<seq<nat>>): seq<char>
    requires AreParams(ps)
  {
    if |ps| == 1 then Chars(ps[0]) else Text(ps[..|ps| - 1]) + [';'] + Chars(ps[|ps| - 1])
  }

  function Opening(private: bool): seq<char> {
    if private then [ESC, '[', '?'] else [ESC, '[']
  }

  // ESC [ p ; p ; ... final, with a question mark if it is private
  function Sequence(ps: seq<seq<nat>>, final: char, private: bool := false): seq<char>
    requires AreParams(ps)
  {
    Opening(private) + Text(ps) + [final]
  }

  // The value of a parameter in 32 bits, zero if it is empty or missing.
  function Param(ps: seq<seq<nat>>, i: nat): nat {
    if i < |ps| then Number(ps[i]) % WORD else 0
  }

  function AtLeastOne(n: nat): nat {
    if n == 0 then 1 else n
  }

  // The parser has collected the parameters.
  predicate Collected(a: Ansi, ps: seq<seq<nat>>) {
    && AnsiOk(a) && a.state.Csi?
    && (forall i :: 0 <= i < 8 ==> a.params[i] == Param(ps, i))
    && a.count == if |ps| == 1 && ps[0] == [] then 0 else |ps|
  }

  function WithAnsi(s: Screen, a: Ansi): Screen {
    s.(t := s.t.(ansi := a))
  }

  lemma DigitIsFed(s: Screen, d: nat, rows: nat, cols: nat)
    requires WellFormed(s, rows, cols) && s.t.ansi.state.Csi? && d < 10
    ensures Feed(s, DigitChar(d), rows, cols) == WithAnsi(s, Digit(s.t.ansi, d))
  {
  }

  lemma {:induction false} DigitsAreFed(s: Screen, ds: seq<nat>, rows: nat, cols: nat)
    requires WellFormed(s, rows, cols) && s.t.ansi.state.Csi? && AreDigits(ds)
    ensures AllReturn(s, Chars(ds), rows, cols)
    ensures FeedAll(s, Chars(ds), rows, cols) == WithAnsi(s, Digits(s.t.ansi, ds))
    ensures Digits(s.t.ansi, ds).state.Csi?
  {
    hide FeedAll, AllReturn, Feed;
    if ds == [] {
      NothingFed(s, rows, cols);
      assert Chars(ds) == [];
    } else {
      var n := |ds| - 1;
      DigitsAreFed(s, ds[..n], rows, cols);
      assert Chars(ds) == Chars(ds[..n]) + [DigitChar(ds[n])];
      FeedNext(s, Chars(ds[..n]), DigitChar(ds[n]), rows, cols);
      DigitIsFed(FeedAll(s, Chars(ds[..n]), rows, cols), ds[n], rows, cols);
    }
  }

  // A semicolon opens the next parameter.
  lemma NextParameter(a: Ansi, ps: seq<seq<nat>>, ds: seq<nat>)
    requires AreParams(ps) && |ps| < 8 && Collected(a, ps) && AreDigits(ds)
    ensures Collected(Digits(Separator(a), ds), ps + [ds])
  {
    DigitsAreANumber(Separator(a), ds);
    hide Digits, Number;
  }

  lemma FirstParameter(a: Ansi, ds: seq<nat>)
    requires a == Ansi(Csi, seq(8, _ => 0), 0, false) && AreDigits(ds)
    ensures Collected(Digits(a, ds), [ds])
  {
    DigitsAreANumber(a, ds);
    hide Digits, Number;
  }

  lemma SemicolonIsFed(s: Screen, rows: nat, cols: nat)
    requires WellFormed(s, rows, cols) && s.t.ansi.state.Csi?
    ensures Feed(s, ';', rows, cols) == WithAnsi(s, Separator(s.t.ansi))
  {
  }

  lemma {:induction false} ParametersAreFed(s: Screen, ps: seq<seq<nat>>, rows: nat, cols: nat) returns (a: Ansi)
    requires WellFormed(s, rows, cols) && s.t.ansi == Ansi(Csi, seq(8, _ => 0), 0, false) && AreParams(ps)
    ensures AllReturn(s, Text(ps), rows, cols) && Collected(a, ps)
    ensures FeedAll(s, Text(ps), rows, cols) == WithAnsi(s, a)
    decreases |ps|
  {
    hide FeedAll, AllReturn, Feed, Collected, Digits;
    if |ps| == 1 {
      DigitsAreFed(s, ps[0], rows, cols);
      FirstParameter(s.t.ansi, ps[0]);
      assert ps == [ps[0]];
      a := Digits(s.t.ansi, ps[0]);
    } else {
      var n := |ps| - 1;
      var b := ParametersAreFed(s, ps[..n], rows, cols);
      assert ps == ps[..n] + [ps[n]];
      a := OneMoreIsFed(s, ps[..n], b, ps[n], rows, cols);
    }
  }

  lemma OneMoreIsFed(s: Screen, ps: seq<seq<nat>>, b: Ansi, ds: seq<nat>, rows: nat, cols: nat) returns (a: Ansi)
    requires WellFormed(s, rows, cols) && AreParams(ps) && |ps| < 8 && AreDigits(ds) && Collected(b, ps)
    requires AllReturn(s, Text(ps), rows, cols) && FeedAll(s, Text(ps), rows, cols) == WithAnsi(s, b)
    ensures AllReturn(s, Text(ps) + [';'] + Chars(ds), rows, cols) && Collected(a, ps + [ds])
    ensures FeedAll(s, Text(ps) + [';'] + Chars(ds), rows, cols) == WithAnsi(s, a)
  {
    hide FeedAll, AllReturn, Feed, Digits, Chars, Text;
    FeedNext(s, Text(ps), ';', rows, cols);
    SemicolonIsFed(WithAnsi(s, b), rows, cols);
    var mid := WithAnsi(s, Separator(b));
    DigitsAreFed(mid, ds, rows, cols);
    FeedTwo(s, Text(ps) + [';'], Chars(ds), rows, cols);
    NextParameter(b, ps, ds);
    a := Digits(Separator(b), ds);
  }

  // ESC [ opens a sequence with no parameters yet; a question mark changes nothing.
  lemma OpeningIsFed(s: Screen, private: bool, rows: nat, cols: nat)
    requires WellFormed(s, rows, cols) && s.t.ansi.state.Normal?
    ensures AllReturn(s, Opening(private), rows, cols)
    ensures FeedAll(s, Opening(private), rows, cols) == WithAnsi(s, Ansi(Csi, seq(8, _ => 0), 0, false))
  {
    hide FeedAll, AllReturn, WellFormed;
    NothingFed(s, rows, cols);
    FeedNext(s, [], ESC, rows, cols);
    FeedNext(s, [] + [ESC], '[', rows, cols);
    assert [] + [ESC] + ['['] == [ESC, '['];
    FeedNext(s, [ESC, '['], '?', rows, cols);
    assert [ESC, '['] + ['?'] == [ESC, '[', '?'];
  }

  // A whole control sequence acts with the parameters it was sent.
  lemma SequenceIsFed(s: Screen, ps: seq<seq<nat>>, final: char, rows: nat, cols: nat, private: bool := false)
    returns (a: Ansi)
    requires WellFormed(s, rows, cols) && s.t.ansi.state.Normal? && AreParams(ps) && IsFinal(final)
    ensures AllReturn(s, Sequence(ps, final, private), rows, cols) && Collected(a, ps)
    ensures FeedAll(s, Sequence(ps, final, private), rows, cols) ==
              InState(CsiFinal(WithAnsi(s, a), final, rows, cols), Normal)
  {
    hide FeedAll, AllReturn, Feed, Text, Opening;
    OpeningIsFed(s, private, rows, cols);
    var open := FeedAll(s, Opening(private), rows, cols);
    a := ParametersAreFed(open, ps, rows, cols);
    FeedTwo(s, Opening(private), Text(ps), rows, cols);
    FeedNext(s, Opening(private) + Text(ps), final, rows, cols);
    FinalIsFed(WithAnsi(s, a), final, rows, cols);
  }

  lemma FinalIsFed(s: Screen, final: char, rows: nat, cols: nat)
    requires WellFormed(s, rows, cols) && s.t.ansi.state.Csi? && IsFinal(final)
    ensures Feed(s, final, rows, cols) == InState(CsiFinal(s, final, rows, cols), Normal)
  {
    hide CsiFinal;
  }

  // The screen after a control sequence.
  function Sent(s: Screen, ps: seq<seq<nat>>, final: char, rows: nat, cols: nat): Screen
    requires WellFormed(s, rows, cols) && AreParams(ps) && AllReturn(s, Sequence(ps, final), rows, cols)
  {
    FeedAll(s, Sequence(ps, final), rows, cols)
  }

  // ------------------------------------------------------------------ the cursor

  // Nothing but the cursor has changed, and the parser is at rest.
  predicate OnlyMoved(s: Screen, s': Screen, x: nat, y: nat) {
    s' == s.(t := s.t.(cur := Cursor(x, y, false), ansi := s'.t.ansi)) && s'.t.ansi.state.Normal?
  }

  // ESC [ row ; column H puts the cursor there, counting from one, and inside the screen.
  lemma CursorIsPut(s: Screen, ps: seq<seq<nat>>, final: char, rows: nat, cols: nat)
    requires WellFormed(s, rows, cols) && s.t.ansi.state.Normal? && AreParams(ps) && final in {'H', 'f'}
    ensures AllReturn(s, Sequence(ps, final), rows, cols)
    ensures var r, c := AtLeastOne(Param(ps, 0)), AtLeastOne(Param(ps, 1));
            OnlyMoved(s, Sent(s, ps, final, rows, cols),
                      (if c < cols then c else cols) - 1, (if r < rows then r else rows) - 1)
  {
    hide FeedAll, AllReturn;
    var a := SequenceIsFed(s, ps, final, rows, cols);
    assert a.params[0] == Param(ps, 0) && a.params[1] == Param(ps, 1);
    hide Param, WellFormed;
  }

  // ESC [ n A and D move up and left by n, at least one, and stop at the edge.
  lemma CursorGoesBack(s: Screen, ps: seq<seq<nat>>, final: char, rows: nat, cols: nat)
    requires WellFormed(s, rows, cols) && s.t.ansi.state.Normal? && AreParams(ps) && final in {'A', 'D'}
    ensures AllReturn(s, Sequence(ps, final), rows, cols)
    ensures var n, c := AtLeastOne(Param(ps, 0)), s.t.cur;
            var up, left := if final == 'A' then n else 0, if final == 'D' then n else 0;
            OnlyMoved(s, Sent(s, ps, final, rows, cols),
                      if left < c.x then c.x - left else 0, if up < c.y then c.y - up else 0)
  {
    hide FeedAll, AllReturn;
    var a := SequenceIsFed(s, ps, final, rows, cols);
    assert a.params[0] == Param(ps, 0);
    hide Param, WellFormed;
  }

  // ESC [ n B and C move down and right by n, at least one, and stop at the edge, unless
  // the 32-bit sum wraps: then they move up and left.
  lemma CursorGoesOn(s: Screen, ps: seq<seq<nat>>, final: char, rows: nat, cols: nat)
    requires WellFormed(s, rows, cols) && s.t.ansi.state.Normal? && AreParams(ps) && final in {'B', 'C'}
    requires rows < WORD && cols < WORD
    ensures AllReturn(s, Sequence(ps, final), rows, cols)
    ensures var n, c := AtLeastOne(Param(ps, 0)), s.t.cur;
            var y := if final == 'B' then c.y + n else c.y;
            var x := if final == 'C' then c.x + n else c.x;
            OnlyMoved(s, Sent(s, ps, final, rows, cols),
                      if x >= WORD then x - WORD else if x < cols then x else cols - 1,
                      if y >= WORD then y - WORD else if y < rows then y else rows - 1)
  {
    hide FeedAll, AllReturn;
    var a := SequenceIsFed(s, ps, final, rows, cols);
    var n := AtLeastOne(Param(ps, 0));
    assert a.params[0] == Param(ps, 0) < WORD;
    Sum32(s.t.cur.x, n);
    Sum32(s.t.cur.y, n);
    hide Param, WellFormed, Add32;
  }

  lemma Sum32(v: nat, n: nat)
    requires v < WORD && n < WORD
    ensures Add32(v, n) == if v + n < WORD then v + n else v + n - WORD
  {
  }

  // ESC [ 4294967295 B from the second line moves up, not down.
  lemma DownCanGoUp(s: Screen, rows: nat, cols: nat)
    requires WellFormed(s, rows, cols) && s.t.ansi.state.Normal? && s.t.cur.y == 1 && rows < WORD && cols < WORD
    ensures var ps := [[4, 2, 9, 4, 9, 6, 7, 2, 9, 5]];
            && AreParams(ps) && AllReturn(s, Sequence(ps, 'B'), rows, cols)
            && Sent(s, ps, 'B', rows, cols).t.cur == Cursor(s.t.cur.x, 0, false)
  {
    hide FeedAll, AllReturn;
    var ps := [[4, 2, 9, 4, 9, 6, 7, 2, 9, 5]];
    LastNumber();
    CursorGoesOn(s, ps, 'B', rows, cols);
  }

  lemma NumberGrows(ds: seq<nat>, d: nat)
    ensures Number(ds + [d]) == Number(ds) * 10 + d
  {
    assert (ds + [d])[..|ds|] == ds;
  }

  lemma LastNumber()
    ensures Number([4, 2, 9, 4, 9, 6, 7, 2, 9, 5]) == 0xFFFF_FFFF
  {
    assert Number([]) == 0;
    hide Number;
    NumberGrows([], 4);
    NumberGrows([] + [4], 2);
    NumberGrows([] + [4] + [2], 9);
    NumberGrows([] + [4] + [2] + [9], 4);
    NumberGrows([] + [4] + [2] + [9] + [4], 9);
    var half := [] + [4] + [2] + [9] + [4] + [9];
    NumberGrows(half, 6);
    NumberGrows(half + [6], 7);
    NumberGrows(half + [6] + [7], 2);
    NumberGrows(half + [6] + [7] + [2], 9);
    NumberGrows(half + [6] + [7] + [2] + [9], 5);
    assert half + [6] + [7] + [2] + [9] + [5] == [4, 2, 9, 4, 9, 6, 7, 2, 9, 5];
  }

  // -------------------------------------------------------------------- erasing

  // An erased cell: a blank in the pen's colours, exchanged if it is in reverse.
  function Erased(p: Pen): Cell {
    if p.reverse then Cell(' ', p.bg, p.fg) else Cell(' ', p.fg, p.bg)
  }

  // ESC [ n K erases in the cursor's line: for 0 from the cursor on, for 1 up to the
  // cursor, for 2 all of it; for any other n, and elsewhere, every cell stays.
  lemma LineIsErased(s: Screen, ps: seq<seq<nat>>, rows: nat, cols: nat, r: nat, c: nat)
    requires WellFormed(s, rows, cols) && s.t.ansi.state.Normal? && AreParams(ps) && r < rows && c < cols
    ensures AllReturn(s, Sequence(ps, 'K'), rows, cols)
    ensures var n, cur, s' := Param(ps, 0), s.t.cur, Sent(s, ps, 'K', rows, cols);
      && s'.t.cur == cur && s'.history == s.history && |s'.cells| == rows && |s'.cells[r]| == cols
      && s'.cells[r][c] == if r == cur.y && ((n == 0 && cur.x <= c) || (n == 1 && c <= cur.x) || n == 2)
                           then Erased(s.t.pen) else s.cells[r][c]
  {
    hide FeedAll, AllReturn;
    var a := SequenceIsFed(s, ps, 'K', rows, cols);
    assert a.params[0] == Param(ps, 0);
    FirstIs(a, ps);
    hide Param, FirstParam;
  }

  lemma FirstIs(a: Ansi, ps: seq<seq<nat>>)
    requires AreParams(ps) && Collected(a, ps)
    ensures FirstParam(a) == Param(ps, 0)
  {
    assert a.params[0] == Param(ps, 0);
  }

  // ESC [ n J erases: for 0 from the cursor to the end of the screen, for 1 from its start
  // to the cursor. For 2 and 3 it clears the screen in the pen's own colours and sends the
  // cursor home. For any other n, and elsewhere, every cell stays.
  lemma ScreenIsErased(s: Screen, ps: seq<seq<nat>>, rows: nat, cols: nat, r: nat, c: nat)
    requires WellFormed(s, rows, cols) && s.t.ansi.state.Normal? && AreParams(ps) && r < rows && c < cols
    ensures AllReturn(s, Sequence(ps, 'J'), rows, cols)
    ensures var n, cur, s' := Param(ps, 0), s.t.cur, Sent(s, ps, 'J', rows, cols);
      && s'.t.cur == (if n == 2 || n == 3 then Cursor(0, 0, false) else cur) && s'.history == s.history
      && |s'.cells| == rows && |s'.cells[r]| == cols
      && s'.cells[r][c] == if n == 2 || n == 3 then Cell(' ', s.t.pen.fg, s.t.pen.bg)
                           else if (n == 0 && (cur.y < r || (r == cur.y && cur.x <= c)))
                                   || (n == 1 && (r < cur.y || (r == cur.y && c <= cur.x)))
                           then Erased(s.t.pen) else s.cells[r][c]
  {
    hide FeedAll, AllReturn;
    var a := SequenceIsFed(s, ps, 'J', rows, cols);
    FirstIs(a, ps);
    EraseWellFormed(WithAnsi(s, a), FirstParam(a), rows, cols);
    hide Param, FirstParam;
  }

  // ------------------------------------------------------- the plain control bytes

  // A newline goes to the start of the next line; on the last line every line moves up,
  // the first into the history, and a blank one comes in.
  lemma NewlineMovesOn(s: Screen, rows: nat, cols: nat, r: nat, c: nat)
    requires WellFormed(s, rows, cols) && s.t.ansi.state.Normal? && r < rows && c < cols
    ensures WellFormed(Feed(s, '\n', rows, cols), rows, cols)
    ensures var s', last := Feed(s, '\n', rows, cols), s.t.cur.y + 1 == rows;
      && s'.t.cur == Cursor(0, if last then s.t.cur.y else s.t.cur.y + 1, false)
      && s'.history == (if last then s.history + [s.cells[0]] else s.history)
      && s'.cells[r][c] == if !last then s.cells[r][c]
                           else if r + 1 < rows then s.cells[r + 1][c] else Cell(' ', s.t.pen.fg, s.t.pen.bg)
  {
    FeedWellFormed(s, '\n', rows, cols);
  }

  // Backspace and delete blank the cell before the cursor and step onto it; at the start
  // of a line they do nothing.
  lemma BackspaceErases(s: Screen, b: char, rows: nat, cols: nat, r: nat, c: nat)
    requires WellFormed(s, rows, cols) && s.t.ansi.state.Normal? && b in {'\U{8}', '\U{7F}'} && r < rows && c < cols
    ensures WellFormed(Feed(s, b, rows, cols), rows, cols)
    ensures var s', cur := Feed(s, b, rows, cols), s.t.cur;
      && s'.t.cur == Cursor(if cur.x > 0 then cur.x - 1 else 0, cur.y, false) && s'.history == s.history
      && s'.cells[r][c] == if r == cur.y && c + 1 == cur.x then Erased(s.t.pen) else s.cells[r][c]
  {
    FeedWellFormed(s, b, rows, cols);
  }

  // A carriage return goes to the start of the line.
  lemma ReturnGoesToTheStart(s: Screen, rows: nat, cols: nat)
    requires WellFormed(s, rows, cols) && s.t.ansi.state.Normal?
    ensures Feed(s, '\r', rows, cols) == s.(t := s.t.(cur := Cursor(0, s.t.cur.y, false)))
  {
  }

  // ESC c clears the screen in the default colours and sends the cursor home.
  lemma ResetClears(s: Screen, rows: nat, cols: nat, r: nat, c: nat)
    requires WellFormed(s, rows, cols) && s.t.ansi.state.Normal? && r < rows && c < cols
    ensures AllReturn(s, [ESC, 'c'], rows, cols)
    ensures var s' := FeedAll(s, [ESC, 'c'], rows, cols);
      && s'.t == s.t.(cur := Cursor(0, 0, false), pen := Pen(0xFFFFFFFF, 0xFF000000, false))
      && s'.history == s.history && s'.cells[r][c] == Cell(' ', 0xFFFFFFFF, 0xFF000000)
  {
    hide FeedAll, AllReturn;
    NothingFed(s, rows, cols);
    FeedNext(s, [], ESC, rows, cols);
    FeedNext(s, [] + [ESC], 'c', rows, cols);
    assert [] + [ESC] + ['c'] == [ESC, 'c'];
  }

  // A tab writes blanks up to the next multiple of eight, if there is one in the row.
  lemma TabWritesBlanks(s: Screen, rows: nat, cols: nat)
    requires WellFormed(s, rows, cols) && s.t.ansi.state.Normal? && !s.t.cur.pending
    requires s.t.cur.x - s.t.cur.x % 8 + 8 < cols
    ensures Tab(s, rows, cols) == Written(s, seq(8 - s.t.cur.x % 8, _ => ' '))
  {
    hide Tab, Written, WellFormed;
    TabWrites(s, 8 - s.t.cur.x % 8, rows, cols);
  }

  lemma NextStop(x: nat, n: nat)
    requires 1 <= n <= 8 && (x + n) % 8 == 0
    ensures x - x % 8 + 8 == x + n && (x % 8 == 7 <==> n == 1)
  {
  }

  lemma {:induction false} TabWrites(s: Screen, n: nat, rows: nat, cols: nat)
    requires WellFormed(s, rows, cols) && s.t.ansi.state.Normal? && !s.t.cur.pending
    requires 1 <= n <= 8 && (s.t.cur.x + n) % 8 == 0 && s.t.cur.x + n < cols
    ensures TabEnds(s.t, cols) && Tab(s, rows, cols) == Written(s, seq(n, _ => ' '))
    decreases n
  {
    hide Print;
    var blanks := seq(n, _ => ' ');
    NextStop(s.t.cur.x, n);
    BlankIsWritten(s, rows, cols);
    var s' := Print(s, rows, cols, ' ');
    assert blanks[..1] == [' '];
    hide AtStop, WellFormed, TabEnds, TabRank;
    if n == 1 {
      assert blanks == [' '];
    } else {
      assert blanks[1..] == seq(n - 1, _ => ' ');
      TabWrites(s', n - 1, rows, cols);
      WrittenJoins(s, blanks);
    }
  }

  lemma BlankIsWritten(s: Screen, rows: nat, cols: nat)
    requires WellFormed(s, rows, cols) && s.t.ansi.state.Normal? && !s.t.cur.pending && s.t.cur.x + 1 < cols
    ensures WellFormed(Print(s, rows, cols, ' '), rows, cols) && Print(s, rows, cols, ' ') == Written(s, [' '])
    ensures AtStop(Print(s, rows, cols, ' ').t.cur) <==> s.t.cur.x % 8 == 7
  {
    FirstIsWritten(s, ' ', rows, cols);
    PrintWellFormed(s, rows, cols, ' ');
  }

  // A written cell.
  function Inked(p: Pen, ch: char): Cell {
    if p.reverse then Cell(ch, p.bg, p.fg) else Cell(ch, p.fg, p.bg)
  }

  // At the right margin a character is written and the cursor waits on it.
  lemma MarginWaits(s: Screen, a: char, rows: nat, cols: nat)
    requires WellFormed(s, rows, cols) && s.t.ansi.state.Normal? && s.t.wrap && ' ' <= a <= '~'
    requires s.t.cur.x == cols - 1 && !s.t.cur.pending
    ensures var y := s.t.cur.y;
            Feed(s, a, rows, cols) ==
              s.(cells := s.cells[y := s.cells[y][cols - 1 := Inked(s.t.pen, a)]], t := s.t.(cur := Cursor(cols - 1, y, true)))
  {
  }

  // The next character begins the following line; on the last line the screen moves up.
  lemma WaitingWraps(s: Screen, b: char, rows: nat, cols: nat, r: nat, c: nat)
    requires WellFormed(s, rows, cols) && s.t.ansi.state.Normal? && s.t.wrap && ' ' <= b <= '~'
    requires s.t.cur.pending && 1 < cols && r < rows && c < cols
    ensures WellFormed(Feed(s, b, rows, cols), rows, cols)
    ensures var s', y := Feed(s, b, rows, cols), s.t.cur.y;
            var last := y + 1 == rows;
            var y' := if last then y else y + 1;
      && s'.t.cur == Cursor(1, y', false)
      && s'.history == (if last then s.history + [s.cells[0]] else s.history)
      && s'.cells[r][c] == if r == y' && c == 0 then Inked(s.t.pen, b)
                           else if !last then s.cells[r][c]
                           else if r + 1 < rows then s.cells[r + 1][c] else Cell(' ', s.t.pen.fg, s.t.pen.bg)
  {
    FeedWellFormed(s, b, rows, cols);
  }

  // So text that reaches the right margin goes on at the start of the next line.
  lemma TextWraps(s: Screen, a: char, b: char, rows: nat, cols: nat, r: nat, c: nat)
    requires WellFormed(s, rows, cols) && s.t.ansi.state.Normal? && s.t.wrap && Printable([a, b])
    requires s.t.cur.x == cols - 1 && !s.t.cur.pending && 1 < cols && r < rows && c < cols
    ensures AllReturn(s, [a, b], rows, cols)
    ensures var s', y := FeedAll(s, [a, b], rows, cols), s.t.cur.y;
            var last := y + 1 == rows;
            var up := if last then 1 else 0;
      && s'.t.cur == Cursor(1, y + 1 - up, false)
      && s'.cells[r][c] == if r == y + 1 - up && c == 0 then Inked(s.t.pen, b)
                           else if r + up == y && c == cols - 1 then Inked(s.t.pen, a)
                           else if r + up < rows then s.cells[r + up][c] else Cell(' ', s.t.pen.fg, s.t.pen.bg)
  {
    hide FeedAll, AllReturn, Feed;
    assert [a, b][0] == a && [a, b][1] == b;
    MarginWaits(s, a, rows, cols);
    FeedOne(s, a, rows, cols);
    var m := Feed(s, a, rows, cols);
    FeedWellFormed(s, a, rows, cols);
    WaitingWraps(m, b, rows, cols, r, c);
    FeedOne(m, b, rows, cols);
    FeedTwo(s, [a], [b], rows, cols);
    assert [a] + [b] == [a, b];
  }

  // ------------------------------------------------------------ colours and modes

  // The ANSI palette: one bit each for red, green and blue, dark yellow being brown.
  function Rgb(k: nat, bright: bool): nat
    requires k < 8
  {
    var red, green, blue := k % 2, k / 2 % 2, k / 4;
    if bright then 0xFF555555 + red * 0xAA0000 + green * 0xAA00 + blue * 0xAA
    else 0xFF000000 + red * 0xAA0000 + green * (if k == 3 then 0x5500 else 0xAA00) + blue * 0xAA
  }

  lemma PaletteIsAnsi(k: nat)
    requires k < 8
    ensures Dark(k) == Rgb(k, false) && Bright(k) == Rgb(k, true)
  {
  }

  // The pen after ESC [ n m; inside a sequence that has made it bold, dark becomes bright.
  function Painted(p: Pen, bold: bool, n: nat): Pen {
    if n == 0 then Pen(0xFFFFFFFF, 0xFF000000, false)
    else if n == 7 || n == 27 then p.(reverse := n == 7)
    else if n == 39 then p.(fg := 0xFFFFFFFF)
    else if n == 49 then p.(bg := 0xFF000000)
    else if 30 <= n <= 37 then p.(fg := Rgb(n - 30, bold))
    else if 40 <= n <= 47 then p.(bg := Rgb(n - 40, false))
    else if 90 <= n <= 97 then p.(fg := Rgb(n - 90, true))
    else if 100 <= n <= 107 then p.(bg := Rgb(n - 100, true))
    else p
  }

  lemma ParameterPaints(p: Pen, bold: bool, n: nat)
    ensures SgrFrom(p, bold, [n]) == Painted(p, bold, n)
  {
    assert [n][1..] == [];
    if 30 <= n <= 37 { PaletteIsAnsi(n - 30); }
    if 40 <= n <= 47 { PaletteIsAnsi(n - 40); }
    if 90 <= n <= 97 { PaletteIsAnsi(n - 90); }
    if 100 <= n <= 107 { PaletteIsAnsi(n - 100); }
    hide Rgb, Dark, Bright;
  }

  // Nothing but the pen has changed, and the parser is at rest.
  predicate OnlyPainted(s: Screen, s': Screen, p: Pen) {
    s' == s.(t := s.t.(pen := p, ansi := s'.t.ansi)) && s'.t.ansi.state.Normal?
  }

  lemma ColourIsSet(s: Screen, ds: seq<nat>, rows: nat, cols: nat)
    requires WellFormed(s, rows, cols) && s.t.ansi.state.Normal? && AreDigits(ds)
    ensures AllReturn(s, Sequence([ds], 'm'), rows, cols)
    ensures OnlyPainted(s, Sent(s, [ds], 'm', rows, cols), Painted(s.t.pen, false, Number(ds) % WORD))
  {
    hide FeedAll, AllReturn, Painted;
    var n := Number(ds) % WORD;
    var a := SequenceIsFed(s, [ds], 'm', rows, cols);
    assert Param([ds], 0) == n && a.params[0] == n;
    if a.count == 0 {
      DefaultPaints(s.t.pen);
    } else {
      assert a.params[..1] == [n];
      ParameterPaints(s.t.pen, false, n);
    }
    hide SgrFrom, Param, Number;
  }

  lemma DefaultPaints(p: Pen)
    ensures Painted(p, false, 0) == DefaultPen && Number([]) == 0
  {
  }

  // ESC [ 1 ; n m: bold, for the one sequence, makes the foreground bright.
  lemma BoldBrightens(s: Screen, ds: seq<nat>, rows: nat, cols: nat)
    requires WellFormed(s, rows, cols) && s.t.ansi.state.Normal? && AreDigits(ds)
    ensures AllReturn(s, Sequence([[1], ds], 'm'), rows, cols)
    ensures OnlyPainted(s, Sent(s, [[1], ds], 'm', rows, cols), Painted(s.t.pen, true, Number(ds) % WORD))
  {
    hide FeedAll, AllReturn, Painted;
    var n := Number(ds) % WORD;
    var ps := [[1], ds];
    var a := SequenceIsFed(s, ps, 'm', rows, cols);
    assert Number([1]) == 1 by {
      assert [1][..0] == [];
    }
    assert Param(ps, 0) == 1 && Param(ps, 1) == n;
    assert a.params[0] == 1 && a.params[1] == n && a.params[..2] == [1, n];
    assert SgrFrom(s.t.pen, false, [1, n]) == SgrFrom(s.t.pen, true, [n]) by {
      assert [1, n][1..] == [n];
    }
    ParameterPaints(s.t.pen, true, n);
    hide SgrFrom, Param, Number;
  }

  // ESC [ n h and l: 7 is wrapping at the margin, 25 the cursor, and nothing else changes.
  lemma ModeIsSet(s: Screen, private: bool, ps: seq<seq<nat>>, final: char, rows: nat, cols: nat)
    requires WellFormed(s, rows, cols) && s.t.ansi.state.Normal? && AreParams(ps) && final in {'h', 'l'}
    ensures AllReturn(s, Sequence(ps, final, private), rows, cols)
    ensures var n, s' := Param(ps, 0), FeedAll(s, Sequence(ps, final, private), rows, cols);
      && s' == s.(t := s.t.(wrap := if n == 7 then final == 'h' else s.t.wrap,
                            visible := if n == 25 then final == 'h' else s.t.visible, ansi := s'.t.ansi))
      && s'.t.ansi.state.Normal?
  {
    hide FeedAll, AllReturn;
    var a := SequenceIsFed(s, ps, final, rows, cols, private);
    assert a.params[0] == Param(ps, 0);
    hide Param, WellFormed;
  }

  // ESC [ s, then any bytes that do not save again and finish their last sequence, then
  // ESC [ u: the cursor is back where it was.
  lemma SavedCursorComesBack(s: Screen, ps: seq<seq<nat>>, str: seq<char>, qs: seq<seq<nat>>, rows: nat, cols: nat)
    requires WellFormed(s, rows, cols) && s.t.ansi.state.Normal? && AreParams(ps) && AreParams(qs)
    requires AllReturn(s, Sequence(ps, 's'), rows, cols)
    requires var saved := Sent(s, ps, 's', rows, cols);
             && AllReturn(saved, str, rows, cols) && NeverSaves(saved, str, rows, cols)
             && FeedAll(saved, str, rows, cols).t.ansi.state.Normal?
    ensures var bytes := Sequence(ps, 's') + str + Sequence(qs, 'u');
            AllReturn(s, bytes, rows, cols) && FeedAll(s, bytes, rows, cols).t.cur == s.t.cur.(pending := false)
  {
    hide FeedAll, AllReturn, NeverSaves, Sequence;
    var a := SequenceIsFed(s, ps, 's', rows, cols);
    var saved := Sent(s, ps, 's', rows, cols);
    FeedTwo(s, Sequence(ps, 's'), str, rows, cols);
    AllKeepSaved(saved, str, rows, cols);
    var moved := FeedAll(saved, str, rows, cols);
    var b := SequenceIsFed(moved, qs, 'u', rows, cols);
    FeedTwo(s, Sequence(ps, 's') + str, Sequence(qs, 'u'), rows, cols);
  }
}
