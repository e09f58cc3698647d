// How long a line can get (terminal.c terminal_read, keyboard.c keyboard_handler): the limit that
// a read sets, what a drain leaves, and when the line fits what was asked for.
module Limits {
  import opened Bytes
  import opened Machine
  import opened Screen
  import opened Video
  import opened Keyboard
  import opened Keys
  import opened Replies

  // A read of n bytes turns echo on at its own terminal and makes n the limit of all of them.
  lemma ReadSetsLimit(c: Console, n: int)
    requires ConsoleOk(c) && !c.fault && n > 0 && !c.lines[c.video.scheduled].reading
    ensures
      var t, r := c.video.scheduled, Happen(c, ReadBegin(n));
      && r == c.(limit := n, lines := r.lines) && r.lines == c.lines[t := r.lines[t]]
      && r.lines[t] == Line(c.lines[t].buf, c.lines[t].n, c.lines[t].entered, true, n)
  {
  }

  // The drain leaves an empty line that nobody reads and the limit for typing ahead, 128, and
  // nothing else has changed.
  lemma DrainResets(c: Console)
    requires ConsoleOk(c) && !c.fault
    requires var l := c.lines[c.video.scheduled]; l.reading && l.entered && l.n > 0
    ensures
      var t, r := c.video.scheduled, Happen(c, ReadPoll);
      && r == c.(limit := 128, lines := r.lines) && r.lines == c.lines[t := r.lines[t]]
      && var l := r.lines[t];
         |l.buf| == 128 && (forall i :: 0 <= i < 128 ==> l.buf[i] == 0) && l.n == 0 && !l.entered && !l.reading
  {
  }

  // Whenever a key reaches terminal t the limit is n.
  predicate LimitStays(c: Console, hs: seq<Happening>, t: TerminalId, n: int)
    requires ConsoleOk(c)
    decreases |hs|
  {
    hs == [] ||
    (var before, h := hs[..|hs| - 1], hs[|hs| - 1];
     var d := Happens(c, before);
     LimitStays(c, before, t, n) && (h.Key? && d.video.visible == t ==> d.limit == n))
  }

  predicate Fits(l: Line, n: int) {
    l.entered || l.n <= n - 1
  }

  lemma FitsStep(c: Console, h: Happening, t: TerminalId, n: int)
    requires ConsoleOk(c) && Fits(c.lines[t], n) && n >= 1
    requires h.Key? && c.video.visible == t ==> c.limit == n
    ensures Fits(Happen(c, h).lines[t], n)
  {
    hide Steps, Putc;
  }

  lemma {:induction false} StaysFitting(c: Console, hs: seq<Happening>, t: TerminalId, n: int)
    requires ConsoleOk(c) && Fits(c.lines[t], n) && n >= 1 && LimitStays(c, hs, t, n)
    ensures Fits(Happens(c, hs).lines[t], n)
    decreases |hs|
  {
    hide Happen, Fits;
    if hs != [] {
      StaysFitting(c, hs[..|hs| - 1], t, n);
      FitsStep(Happens(c, hs[..|hs| - 1]), hs[|hs| - 1], t, n);
    }
  }

  lemma {:induction false} LimitStaysPrefix(c: Console, hs: seq<Happening>, p: seq<Happening>, t: TerminalId, n: int)
    requires ConsoleOk(c) && LimitStays(c, hs, t, n) && p <= hs
    ensures LimitStays(c, p, t, n)
    decreases |hs|
  {
    hide Happens;
    if p != hs {
      LimitStaysPrefix(c, hs[..|hs| - 1], p, t, n);
    }
  }

  // In every run in which the limit is the one that the reader set whenever a key reaches its
  // terminal, the line that it is handed, newline included, is no longer than it asked for.
  lemma LineFitsRequest(c: Console, hs: seq<Happening>, t: TerminalId, n: int)
    requires ConsoleOk(c) && !c.lines[t].entered && c.lines[t].n < n && !Happens(c, hs).fault
    requires LimitStays(c, hs, t, n) && Happens(c, hs).lines[t].entered
    ensures |SentLine(c, hs, t)| <= n
  {
    hide Happens, Received, EditAll, ToEnter, Happen, Submits, LimitStays;
    var p := ToEnter(c, hs, t);
    FaultFree(c, hs, p);
    LinesAreEdited(c, p, t);
    ToEnterEndsWithEnter(c, hs, t);
    var most, h := p[..|p| - 1], p[|p| - 1];
    LimitStaysPrefix(c, hs, most, t, n);
    StaysFitting(c, most, t, n);
    LastHappens(c, p);
    NoFaultBefore(Happens(c, most), h);
    EnterAddsOne(Happens(c, most), h, t);
  }

  lemma EnterAddsOne(c: Console, h: Happening, t: TerminalId)
    requires ConsoleOk(c) && Submits(c, h, t) && !c.fault && !Happen(c, h).fault
    ensures Happen(c, h).lines[t].n <= c.lines[t].n + 1
  {
    hide Steps, Putc;
  }

  // The limit is shared, so another terminal's read lifts it: a reader that asked for 2 bytes, and
  // has one character typed, is handed 3.
  lemma SharedLimitExample(c: Console, u: TerminalId)
    requires ConsoleOk(c) && !c.fault && u != c.video.visible && !c.lines[u].reading
    requires !c.mods.ctrl && c.limit == 2
    requires var l := c.lines[c.video.visible]; l.reading && !l.entered && l.n == 1 && l.want == 2
    ensures
      var r := Happens(c, [Tick(u), ReadBegin(100), Key(30), Key(28)]);
      var l := r.lines[c.video.visible];
      !r.fault && l.entered && l.want == 2 && l.n == 3 && DrainedCount(l) == 3
  {
    hide Happen, Happens, DrainedCount, LineShape;
    var c1 := Happen(c, Tick(u));
    TickMoves(c, u);
    ReadSetsLimit(c1, 100);
    TwoMoreBytes(Happen(c1, ReadBegin(100)));
    FourHappen(c, Tick(u), ReadBegin(100), Key(30), Key(28));
  }

  lemma TwoMoreBytes(c: Console)
    requires ConsoleOk(c) && !c.fault && !c.mods.ctrl && c.limit == 100
    requires var l := c.lines[c.video.visible]; l.reading && !l.entered && l.n == 1
    ensures
      var v, r := c.video.visible, Happen(Happen(c, Key(30)), Key(28));
      var l := r.lines[v];
      !r.fault && l.entered && l.want == c.lines[v].want && l.n == 3 && DrainedCount(l) == 3
  {
    hide Happen, LineWith, Printed, ConsoleOk, LineShape;
    LineSizes(c);
    LetterCases(30);
    KeyDoes(c, 30);
    OneMore(c, Character(30, c.mods.leftShift || c.mods.rightShift, c.mods.caps).value);
    var d := Happen(c, Key(30));
    LineSizes(d);
    KeyDoes(d, 28);
    OneMore(d, 10);
  }

  lemma LineSizes(c: Console)
    requires ConsoleOk(c)
    ensures |c.lines| == MAX_TERMINALS && LineShape(c.lines[c.video.visible])
    ensures var l := c.lines[c.video.visible]; |l.buf| == 128 && 0 <= l.n <= 128
  {
  }

  lemma OneMore(c: Console, x: Byte)
    requires ConsoleOk(c) && c.lines[c.video.visible].n < 128
    ensures
      var v, d := c.video.visible, LineWith(c, [x]);
      var l := c.lines[v];
      && d == c.(video := d.video, lines := c.lines[v := l.(buf := l.buf[l.n := x], n := l.n + 1)])
      && d.video.visible == v
  {
    hide Putc;
    LineWithOne(c, x);
    EchoKeepsVisible(c.video, Echoes([x]));
  }

  lemma FourHappen(c: Console, x: Happening, y: Happening, z: Happening, w: Happening)
    requires ConsoleOk(c)
    ensures Happens(c, [x, y, z, w]) == Happen(Happen(Happen(Happen(c, x), y), z), w)
  {
    hide Happen, ConsoleOk, Happens;
    ThreeHappen(c, x, y, z);
    HappensSnoc(c, [x, y, z], w);
    assert [x, y, z] + [w] == [x, y, z, w];
  }

  lemma HappensSnoc(c: Console, hs: seq<Happening>, h: Happening)
    requires ConsoleOk(c)
    ensures Happens(c, hs + [h]) == Happen(Happens(c, hs), h)
  {
    hide Happen, ConsoleOk;
    assert (hs + [h])[..|hs|] == hs;
  }

  lemma TickMoves(c: Console, u: TerminalId)
    requires ConsoleOk(c) && !c.fault
    ensures Happen(c, Tick(u)) == c.(video := c.video.(scheduled := u))
  {
  }
}
