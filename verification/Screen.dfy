// The text screen of one terminal: what putc, scroll and clear (lib.c) do to a 4 KB
// video page and a cursor, and the unbounded scrollback tape they refine.
module Screen {
  import opened Bytes

  const NUM_COLS := 80
  const NUM_ROWS := 25
  const NUM_CELLS := 2000
  const PAGE_SIZE := 4096
  const ATTRIB: Byte := 7

  // One 4 KB page of video memory: 2000 (character, attribute) pairs, then 96 spare bytes.
  type Page = p: seq<Byte> | |p| == PAGE_SIZE witness seq(PAGE_SIZE, _ => 0)

  datatype Term = Term(page: Page, x: int, y: int)

  predicate InRange(t: Term) {
    0 <= t.x < NUM_COLS && 0 <= t.y < NUM_ROWS
  }

  // Writing a character cell and its attribute.
  function Poke(p: Page, cell: nat, c: Byte): Page
    requires cell < NUM_CELLS
  {
    p[2 * cell := c][2 * cell + 1 := ATTRIB]
  }

  // The character bytes move up one row and the last row is blanked; attributes stay.
  function ScrollUp(p: Page): Page {
    seq(PAGE_SIZE, k requires 0 <= k < PAGE_SIZE =>
      if k % 2 == 1 || k >= 2 * NUM_CELLS then p[k]
      else if k >= 2 * (NUM_CELLS - NUM_COLS) then SPACE
      else p[k + 2 * NUM_COLS])
  }

  function BlankPage(p: Page): Page {
    seq(PAGE_SIZE, k requires 0 <= k < PAGE_SIZE =>
      if k >= 2 * NUM_CELLS then p[k] else if k % 2 == 0 then SPACE else ATTRIB)
  }

  function ScrollIfFull(t: Term): Term {
    if t.y == NUM_ROWS then Term(ScrollUp(t.page), t.x, NUM_ROWS - 1) else t
  }

  // Backspace at the home position leaves putc early.
  predicate AtHome(t: Term) {
    t.x + t.y == 0
  }

  // The effect of putc on the page and cursor it is working on.
  function Put(t: Term, c: Byte): (r: Term)
    requires InRange(t)
    ensures InRange(r)
  {
    if c == NUL then t
    else if c == NEWLINE || c == RETURN then ScrollIfFull(Term(t.page, 0, t.y + 1))
    else if c == BACKSPACE then
      if AtHome(t) then t
      else
        var x, y := if t.x == 0 then NUM_COLS - 1 else t.x - 1, if t.x == 0 then t.y - 1 else t.y;
        Term(Poke(t.page, NUM_COLS * y + x, SPACE), x, y)
    else
      var p := Poke(t.page, NUM_COLS * t.y + t.x, c);
      ScrollIfFull(if t.x + 1 == NUM_COLS then Term(p, 0, t.y + 1) else Term(p, t.x + 1, t.y))
  }

  function Cleared(t: Term): Term {
    Term(BlankPage(t.page), 0, 0)
  }

  // What a terminal can be told to do.
  datatype Input = Char(c: Byte) | Wipe

  function Apply(t: Term, i: Input): (r: Term)
    requires InRange(t)
    ensures InRange(r)
  {
    match i
    case Char(c) => Put(t, c)
    case Wipe => Cleared(t)
  }

  function Replay(t: Term, inputs: seq<Input>): (r: Term)
    requires InRange(t)
    ensures InRange(r)
    decreases |inputs|
  {
    if inputs == [] then t
    else Apply(Replay(t, inputs[..|inputs| - 1]), inputs[|inputs| - 1])
  }

  // ---------------------------------------------------------------------------------------
  // What that looks like, cell by cell: a cell is a character and an attribute.

  function Cell(t: Term, row: int, col: int): (Byte, Byte)
    requires 0 <= row < 25 && 0 <= col < 80
  {
    (t.page[2 * (80 * row + col)], t.page[2 * (80 * row + col) + 1])
  }

  lemma CellsDiffer(row: int, col: int, r: int, c: int)
    requires 0 <= col < 80 && 0 <= c < 80 && 80 * row + col == 80 * r + c
    ensures row == r && col == c
  {
  }

  // Clearing blanks every cell and puts the cursor at the top-left.
  lemma ClearingBlanks(t: Term, row: int, col: int)
    requires InRange(t) && 0 <= row < 25 && 0 <= col < 80
    ensures var r := Apply(t, Wipe); r.x == r.y == 0 && Cell(r, row, col) == (32, 7)
  {
  }

  // A line end goes to the start of the next row; on the last row the other rows move up, with
  // the attributes left where they are, and the last row's characters are blanked.
  lemma LineEndMoves(t: Term, c: Byte, row: int, col: int)
    requires InRange(t) && c in {10, 13} && 0 <= row < 25 && 0 <= col < 80
    ensures
      var r := Put(t, c);
      && r.x == 0 && r.y == (if t.y < 24 then t.y + 1 else 24)
      && Cell(r, row, col).1 == Cell(t, row, col).1
      && Cell(r, row, col).0 ==
           if t.y < 24 then Cell(t, row, col).0 else if row == 24 then 32 else Cell(t, row + 1, col).0
  {
  }

  // A character goes into the cell at the cursor, with attribute 7, and the cursor one on; past
  // the end of the last row that is a line end as well.
  lemma CharacterGoesToCursor(t: Term, c: Byte, row: int, col: int)
    requires InRange(t) && c !in {0, 8, 10, 13} && 0 <= row < 25 && 0 <= col < 80
    ensures
      var r := Put(t, c);
      var last := t.x == 79 && t.y == 24;
      && (t.x < 79 ==> r.x == t.x + 1 && r.y == t.y)
      && (t.x == 79 ==> r.x == 0 && r.y == if t.y < 24 then t.y + 1 else 24)
      && (!last ==> Cell(r, row, col) == if row == t.y && col == t.x then (c, 7) else Cell(t, row, col))
      && (last && row == 24 ==> Cell(r, row, col).0 == 32)
      && (last && row < 24 ==> Cell(r, row, col).0 == if row == 23 && col == 79 then c else Cell(t, row + 1, col).0)
  {
    if 80 * row + col == 80 * t.y + t.x {
      CellsDiffer(row, col, t.y, t.x);
    }
  }

  lemma NulIsIgnored(t: Term)
    requires InRange(t)
    ensures Apply(t, Char(0)) == t
  {
  }

  // Backspace goes one cell back and blanks it; at the top-left it does nothing.
  lemma BackspaceErases(t: Term, row: int, col: int)
    requires InRange(t) && 0 <= row < 25 && 0 <= col < 80
    ensures
      var r := Put(t, 8);
      && (t.x == t.y == 0 ==> r == t)
      && (!(t.x == t.y == 0) ==>
            && 80 * r.y + r.x == 80 * t.y + t.x - 1
            && Cell(r, row, col) == if row == r.y && col == r.x then (32, 7) else Cell(t, row, col))
  {
    var r := Put(t, 8);
    if 80 * row + col == 80 * r.y + r.x {
      CellsDiffer(row, col, r.y, r.x);
    }
  }

  // ---------------------------------------------------------------------------------------
  // The scrollback tape: an array of character cells with no lower edge, of which the screen
  // shows the last 25 rows. Nothing that has scrolled out of the window is ever changed.

  datatype Tape = Tape(cells: seq<Byte>, pos: nat)

  function Top(tp: Tape): int {
    |tp.cells| - NUM_CELLS
  }

  predicate TapeOk(tp: Tape) {
    |tp.cells| % NUM_COLS == 0 && 0 <= Top(tp) <= tp.pos < |tp.cells|
  }

  // A position just past the last row opens a new row.
  function Extend(tp: Tape): Tape {
    if tp.pos == |tp.cells| then Tape(tp.cells + Fill(NUM_COLS, SPACE), tp.pos) else tp
  }

  function TapePut(tp: Tape, c: Byte): (r: Tape)
    requires TapeOk(tp)
    ensures TapeOk(r)
    ensures Top(tp) <= Top(r) && |tp.cells| <= |r.cells|
    ensures forall k :: 0 <= k < Top(tp) ==> r.cells[k] == tp.cells[k]
  {
    if c == NUL then tp
    else if c == NEWLINE || c == RETURN then Extend(Tape(tp.cells, (tp.pos / NUM_COLS + 1) * NUM_COLS))
    else if c == BACKSPACE then
      if tp.pos == Top(tp) then tp else Tape(tp.cells[tp.pos - 1 := SPACE], tp.pos - 1)
    else Extend(Tape(tp.cells[tp.pos := c], tp.pos + 1))
  }

  // Clearing the screen starts a fresh window below everything written so far.
  function TapeApply(tp: Tape, i: Input): (r: Tape)
    requires TapeOk(tp)
    ensures TapeOk(r)
  {
    match i
    case Char(c) => TapePut(tp, c)
    case Wipe => Tape(tp.cells + Fill(NUM_CELLS, SPACE), |tp.cells|)
  }

  function TapeReplay(tp: Tape, inputs: seq<Input>): (r: Tape)
    requires TapeOk(tp)
    ensures TapeOk(r)
    decreases |inputs|
  {
    if inputs == [] then tp
    else TapeApply(TapeReplay(tp, inputs[..|inputs| - 1]), inputs[|inputs| - 1])
  }

  ghost predicate Matches(p: Page, cells: seq<Byte>) {
    |cells| >= NUM_CELLS &&
    forall k :: 0 <= k < NUM_CELLS ==> p[2 * k] == cells[|cells| - NUM_CELLS + k]
  }

  // The screen is the tape's window and the cursor is the tape's position in it.
  ghost predicate Shows(t: Term, tp: Tape) {
    && InRange(t) && TapeOk(tp)
    && NUM_COLS * t.y + t.x == tp.pos - Top(tp)
    && Matches(t.page, tp.cells)
  }

  lemma ScrollMatches(p: Page, cells: seq<Byte>)
    requires Matches(p, cells)
    ensures Matches(ScrollUp(p), cells + Fill(NUM_COLS, SPACE))
  {
    var longer := cells + Fill(NUM_COLS, SPACE);
    forall k | 0 <= k < NUM_CELLS
      ensures ScrollUp(p)[2 * k] == longer[|longer| - NUM_CELLS + k]
    {
      if k < NUM_CELLS - NUM_COLS {
        assert ScrollUp(p)[2 * k] == p[2 * (k + NUM_COLS)];
      }
    }
  }

  lemma PokeMatches(p: Page, cells: seq<Byte>, at: nat, c: Byte)
    requires Matches(p, cells) && at < NUM_CELLS
    ensures Matches(Poke(p, at, c), cells[|cells| - NUM_CELLS + at := c])
  {
  }

  // Moving on to position `pos`, which is at most one past the window, may scroll.
  lemma AdvanceShows(p: Page, cells: seq<Byte>, x: nat, y: nat, pos: nat)
    requires Matches(p, cells) && |cells| % NUM_COLS == 0
    requires x < NUM_COLS && y <= NUM_ROWS && (y == NUM_ROWS ==> x == 0)
    requires pos == |cells| - NUM_CELLS + NUM_COLS * y + x
    ensures Shows(ScrollIfFull(Term(p, x, y)), Extend(Tape(cells, pos)))
  {
    if y == NUM_ROWS {
      ScrollMatches(p, cells);
    }
  }

  lemma NewlineShows(t: Term, tp: Tape, c: Byte)
    requires Shows(t, tp) && (c == NEWLINE || c == RETURN)
    ensures Shows(Put(t, c), TapePut(tp, c))
  {
    assert (tp.pos / NUM_COLS + 1) * NUM_COLS == Top(tp) + NUM_COLS * (t.y + 1);
    AdvanceShows(t.page, tp.cells, 0, t.y + 1, Top(tp) + NUM_COLS * (t.y + 1));
  }

  lemma BackspaceShows(t: Term, tp: Tape)
    requires Shows(t, tp)
    ensures Shows(Put(t, BACKSPACE), TapePut(tp, BACKSPACE))
  {
    var at := NUM_COLS * t.y + t.x;
    if at > 0 {
      PokeMatches(t.page, tp.cells, at - 1, SPACE);
    }
  }

  lemma PrintShows(t: Term, tp: Tape, c: Byte)
    requires Shows(t, tp) && c !in {NUL, NEWLINE, RETURN, BACKSPACE}
    ensures Shows(Put(t, c), TapePut(tp, c))
  {
    var at := NUM_COLS * t.y + t.x;
    PokeMatches(t.page, tp.cells, at, c);
    var wraps := t.x + 1 == NUM_COLS;
    AdvanceShows(Poke(t.page, at, c), tp.cells[tp.pos := c],
                 if wraps then 0 else t.x + 1, if wraps then t.y + 1 else t.y, tp.pos + 1);
  }

  lemma PutShows(t: Term, tp: Tape, c: Byte)
    requires Shows(t, tp)
    ensures Shows(Put(t, c), TapePut(tp, c))
  {
    if c == NUL {
    } else if c == NEWLINE || c == RETURN {
      NewlineShows(t, tp, c);
    } else if c == BACKSPACE {
      BackspaceShows(t, tp);
    } else {
      PrintShows(t, tp, c);
    }
  }

  lemma ApplyShows(t: Term, tp: Tape, i: Input)
    requires Shows(t, tp)
    ensures Shows(Apply(t, i), TapeApply(tp, i))
  {
    match i
    case Char(c) => PutShows(t, tp, c);
    case Wipe =>
  }

  // Whatever a terminal is sent, its screen is the last-25-rows window of the tape.
  lemma {:induction false} ScreenIsTapeWindow(t: Term, tp: Tape, inputs: seq<Input>)
    requires Shows(t, tp)
    ensures Shows(Replay(t, inputs), TapeReplay(tp, inputs))
    decreases |inputs|
  {
    if inputs != [] {
      var n := |inputs| - 1;
      ScreenIsTapeWindow(t, tp, inputs[..n]);
      ApplyShows(Replay(t, inputs[..n]), TapeReplay(tp, inputs[..n]), inputs[n]);
    }
  }

  // The tape a screen starts from: nothing has scrolled away yet.
  function TapeOf(t: Term): (tp: Tape)
    requires InRange(t)
  {
    Tape(seq(NUM_CELLS, k requires 0 <= k < NUM_CELLS => t.page[2 * k]), NUM_COLS * t.y + t.x)
  }

  lemma EveryRunShowsItsTape(t: Term, inputs: seq<Input>)
    requires InRange(t)
    ensures TapeOk(TapeOf(t))
    ensures Shows(Replay(t, inputs), TapeReplay(TapeOf(t), inputs))
  {
    ScreenIsTapeWindow(t, TapeOf(t), inputs);
  }

  // ---------------------------------------------------------------------------------------
  // Attributes, and the 96 bytes of the page that are not cells.

  ghost predicate PlainAttributes(p: Page) {
    forall k :: 0 <= k < NUM_CELLS ==> p[2 * k + 1] == ATTRIB
  }

  ghost predicate SameSpare(p: Page, q: Page) {
    p[2 * NUM_CELLS..] == q[2 * NUM_CELLS..]
  }

  lemma ApplyKeepsAttributes(t: Term, i: Input)
    requires InRange(t)
    ensures PlainAttributes(t.page) ==> PlainAttributes(Apply(t, i).page)
    ensures SameSpare(t.page, Apply(t, i).page)
  {
  }

  lemma {:induction false} AttributesStayPlain(t: Term, inputs: seq<Input>)
    requires InRange(t)
    ensures PlainAttributes(t.page) ==> PlainAttributes(Replay(t, inputs).page)
    ensures SameSpare(t.page, Replay(t, inputs).page)
    decreases |inputs|
  {
    if inputs != [] {
      var n := |inputs| - 1;
      AttributesStayPlain(t, inputs[..n]);
      ApplyKeepsAttributes(Replay(t, inputs[..n]), inputs[n]);
    }
  }

  // ---------------------------------------------------------------------------------------
  // Printable text lands on the tape in order, from the cursor on.

  predicate Printable(c: Byte) {
    c !in {NUL, NEWLINE, RETURN, BACKSPACE}
  }

  function Chars(text: seq<Byte>): (s: seq<Input>)
    ensures |s| == |text|
  {
    seq(|text|, k requires 0 <= k < |text| => Char(text[k]))
  }

  // From tape `a` to tape `b`, `text` was written from a's position on and nothing else.
  ghost predicate Wrote(a: Tape, b: Tape, text: seq<Byte>) {
    && b.pos == a.pos + |text| && |a.cells| <= |b.cells| && b.pos <= |b.cells|
    && b.cells[a.pos..b.pos] == text
    && (forall k :: 0 <= k < a.pos && k < |a.cells| ==> b.cells[k] == a.cells[k])
    && (forall k :: b.pos <= k < |a.cells| ==> b.cells[k] == a.cells[k])
    // and the window moved only as far as the writing pushed it
    && (Top(b) == Top(a) || Top(b) <= b.pos - (NUM_CELLS - NUM_COLS))
  }

  lemma WroteOneMore(a: Tape, b: Tape, text: seq<Byte>, c: Byte)
    requires TapeOk(a) && TapeOk(b) && Wrote(a, b, text) && Printable(c)
    ensures Wrote(a, TapePut(b, c), text + [c])
  {
    var r := TapePut(b, c);
    assert r.cells[b.pos] == c;
    assert forall k :: 0 <= k < |b.cells| && k != b.pos ==> r.cells[k] == b.cells[k];
    assert r.cells[a.pos..r.pos] == b.cells[a.pos..b.pos] + [c];
  }

  lemma TapeReplaySnoc(tp: Tape, inputs: seq<Input>, i: Input)
    requires TapeOk(tp)
    ensures TapeReplay(tp, inputs + [i]) == TapeApply(TapeReplay(tp, inputs), i)
  {
    hide TapeApply, TapeOk;
    assert (inputs + [i])[..|inputs|] == inputs;
  }

  lemma TapeReplayText(tp: Tape, text: seq<Byte>, c: Byte)
    requires TapeOk(tp)
    ensures TapeReplay(tp, Chars(text + [c])) == TapePut(TapeReplay(tp, Chars(text)), c)
  {
    hide TapePut, TapeOk, TapeReplay;
    assert Chars(text + [c]) == Chars(text) + [Char(c)];
    TapeReplaySnoc(tp, Chars(text), Char(c));
  }

  lemma {:induction false} TextLandsInOrder(tp: Tape, text: seq<Byte>)
    requires TapeOk(tp) && forall k :: 0 <= k < |text| ==> Printable(text[k])
    ensures Wrote(tp, TapeReplay(tp, Chars(text)), text)
    decreases |text|
  {
    if text != [] {
      hide *;
      var n := |text| - 1;
      TextLandsInOrder(tp, text[..n]);
      WroteOneMore(tp, TapeReplay(tp, Chars(text[..n])), text[..n], text[n]);
      TapeReplayText(tp, text[..n], text[n]);
      assert text == text[..n] + [text[n]];
    }
  }
}
