// The keyboard and terminal-read drivers themselves, over the real line buffers and the
// display driver they echo through.
module KeyboardDriver {
  import opened Bytes
  import opened Machine
  import opened Screen
  import opened Video
  import opened Keyboard
  import opened DisplayDriver
  import Strings

  // The console after `s` was appended, character by character, to the visible line.
  function Appended(c: Console, s: seq<Byte>): (r: Console)
    requires ConsoleOk(c) && c.lines[c.video.visible].n + |s| <= BUF_SIZE
    ensures ConsoleOk(r)
  {
    var v := c.video.visible;
    var l := c.lines[v];
    c.(lines := c.lines[v := l.(buf := l.buf[..l.n] + s + l.buf[l.n + |s|..], n := l.n + |s|)],
       video := if l.reading then Steps(c.video, Echoes(s)) else c.video)
  }

  lemma StepsSnoc(v: VideoState, es: seq<Event>, e: Event)
    requires Ok(v)
    ensures Steps(v, es + [e]) == Step(Steps(v, es), e)
  {
    assert (es + [e])[..|es|] == es;
  }

  lemma AppendedNone(c: Console)
    requires ConsoleOk(c)
    ensures Appended(c, []) == c
  {
    var l := c.lines[c.video.visible];
    assert l.buf[..l.n] + [] + l.buf[l.n..] == l.buf;
    assert Echoes([]) == [];
  }

  lemma AppendedSnoc(c: Console, s: seq<Byte>, b: Byte)
    requires ConsoleOk(c) && c.lines[c.video.visible].n + |s| < BUF_SIZE
    ensures
      var d := Appended(c, s);
      var v := c.video.visible;
      var l := d.lines[v];
      && d.video.visible == v
      && Appended(c, s + [b]) ==
           d.(lines := d.lines[v := l.(buf := l.buf[l.n := b], n := l.n + 1)],
              video := if l.reading then Putc(d.video, b, true) else d.video)
  {
    hide Step, Putc;
    var v := c.video.visible;
    var l := c.lines[v];
    EchoKeepsVisible(c.video, Echoes(s));
    assert Echoes(s + [b]) == Echoes(s) + [Echo(b)];
    StepsSnoc(c.video, Echoes(s), Echo(b));
    EchoIsPutc(Steps(c.video, Echoes(s)), b);
    var k := l.n + |s|;
    assert l.buf[..l.n] + (s + [b]) + l.buf[k + 1..] == (l.buf[..l.n] + s + l.buf[k..])[k := b];
  }

  lemma EchoIsPutc(v: VideoState, b: Byte)
    requires Ok(v)
    ensures Step(v, Echo(b)) == Putc(v, b, true)
  {
  }

  // Keys that add to the line do just that.
  lemma ActAppends(c: Console, a: Action)
    requires ConsoleOk(c) && !Overruns(c.lines[c.video.visible], a, c.limit)
    requires a.Submit? || a.Pad? || a.Type?
    ensures
      var v := c.video.visible;
      var d := Appended(c, Added(c.lines[v], a, c.limit));
      Act(c, a) ==
        if a.Submit? && c.lines[v].reading then d.(lines := d.lines[v := d.lines[v].(entered := true)]) else d
  {
    assert Steps(c.video, []) == c.video;
    hide Steps;
  }

  lemma AddsNothing(c: Console, a: Action)
    requires ConsoleOk(c)
    requires var l := c.lines[c.video.visible]; (a.Submit? && !l.reading) || (a.Type? && AtLimit(l.n, c.limit))
    ensures Act(c, a) == c
  {
    AppendedNone(c);
    ActAppends(c, a);
  }

  // A key that adds one character b, in one piece.
  lemma OneKeyActs(c: Console, a: Action, b: Byte)
    requires ConsoleOk(c) && Added(c.lines[c.video.visible], a, c.limit) == [b]
    requires (a.Submit? && c.lines[c.video.visible].reading) || a.Type?
    ensures
      var v := c.video.visible;
      var l := c.lines[v];
      Act(c, a) ==
        if l.n == BUF_SIZE then c.(fault := true)
        else c.(lines := c.lines[v := l.(buf := l.buf[l.n := b], n := l.n + 1, entered := l.entered || a.Submit?)],
                video := if l.reading then Putc(c.video, b, true) else c.video)
  {
    hide Putc, Steps;
    var l := c.lines[c.video.visible];
    if l.n < BUF_SIZE {
      ActAppends(c, a);
      AppendedNone(c);
      AppendedSnoc(c, [], b);
      assert [] + [b] == [b];
    }
  }

  lemma PadActs(c: Console)
    requires ConsoleOk(c)
    ensures
      var l := c.lines[c.video.visible];
      var room := PadRoom(l.n, c.limit);
      && l.n + room <= BUF_SIZE
      && Act(c, Pad) == Appended(c, Fill(room, SPACE))
      && Appended(c, Fill(0, SPACE)) == c
  {
    hide Steps;
    ActAppends(c, Pad);
    AppendedNone(c);
    assert Fill(0, SPACE) == [];
  }

  lemma NothingActs(c: Console)
    requires ConsoleOk(c)
    ensures Act(c, Nothing) == c
  {
    var l := c.lines[c.video.visible];
    assert l.buf[..l.n] + [] + l.buf[l.n..] == l.buf;
    assert Edit(l, Nothing, c.limit) == l;
    assert Echoed(l, Nothing, c.limit) == [];
  }

  lemma SwallowedIsNothing(m: Modifiers, code: Byte)
    requires Swallowed(code)
    ensures Decode(m, code) == Nothing
  {
  }

  lemma RedrawActs(c: Console)
    requires ConsoleOk(c)
    ensures
      var l := c.lines[c.video.visible];
      && Act(c, Redraw) ==
           c.(video := if l.reading then Steps(c.video, [ClearScreen] + Echoes(Typed(l))) else Clear(c.video))
      && Steps(c.video, [ClearScreen] + Echoes(l.buf[..0])) == Clear(c.video)
  {
    var l := c.lines[c.video.visible];
    EditMatches(l, Redraw, c.limit);
    assert Edit(l, Redraw, c.limit) == l;
    OneStep(c.video, ClearScreen);
    assert [ClearScreen] + Echoes(l.buf[..0]) == [ClearScreen];
    hide Steps;
  }

  lemma RedrawOneMore(c: Console, i: nat)
    requires ConsoleOk(c) && i < c.lines[c.video.visible].n
    ensures
      var l := c.lines[c.video.visible];
      var so := Steps(c.video, [ClearScreen] + Echoes(l.buf[..i]));
      && so.visible == c.video.visible
      && Steps(c.video, [ClearScreen] + Echoes(l.buf[..i + 1])) == Putc(so, l.buf[i], true)
  {
    hide Putc, Step;
    var l := c.lines[c.video.visible];
    var es := [ClearScreen] + Echoes(l.buf[..i]);
    EchoKeepsVisible(c.video, es);
    StepsSnoc(c.video, es, Echo(l.buf[i]));
    EchoIsPutc(Steps(c.video, es), l.buf[i]);
    assert [ClearScreen] + Echoes(l.buf[..i + 1]) == es + [Echo(l.buf[i])];
  }

  lemma EraseActs(c: Console)
    requires ConsoleOk(c)
    ensures
      var v := c.video.visible;
      var l := c.lines[v];
      Act(c, Erase) ==
        if l.n == 0 then c
        else c.(lines := c.lines[v := l.(n := l.n - 1)],
                video := if l.reading then Putc(c.video, BACKSPACE, true) else c.video)
  {
    assert Steps(c.video, []) == c.video;
    OneStep(c.video, Echo(BACKSPACE));
    hide Putc, Steps;
  }

  lemma LineFacts(c: Console, t: TerminalId)
    requires ConsoleOk(c)
    ensures Ok(c.video) && |c.lines| == MAX_TERMINALS
    ensures var l := c.lines[t]; LineShape(l) && |l.buf| == BUF_SIZE && 0 <= l.n <= BUF_SIZE && l.want >= 0
  {
  }

  lemma BlankForgets(l: Line)
    requires LineShape(l) && l.n >= 1
    ensures BlankLine(Stripped(l).(reading := false)) == BlankLine(l).(reading := false)
    ensures Stripped(l).want == l.want && |Stripped(l).buf| == BUF_SIZE
  {
  }

  class TerminalLine {
    const kbBuf: array<Byte>
    var kbBufI: int
    var kbEnterFlag: bool
    var inTerminalRead: bool
    var want: int                // the n_bytes of the blocked terminal_read

    constructor ()
      ensures kbBuf.Length == BUF_SIZE && fresh(kbBuf)
      ensures Value() == Line(Fill(BUF_SIZE, NUL), 0, false, false, 0)
    {
      kbBuf := new Byte[BUF_SIZE](_ => NUL);
      kbBufI, kbEnterFlag, inTerminalRead, want := 0, false, false, 0;
    }

    ghost function Value(): Line
      reads this, kbBuf
    {
      Line(kbBuf[..], kbBufI, kbEnterFlag, inTerminalRead, want)
    }
  }

  class KeyboardDevice {
    const display: Display
    const lines: seq<TerminalLine>
    var mods: Modifiers
    var terminalBufNBytes: int
    var fault: bool              // kb_buf was accessed outside its bytes

    // init_terminal's part of the keyboard state.
    constructor (screen: Display)
      requires screen.Valid()
      ensures Valid() && display == screen
      ensures State() == FreshConsole(screen.State())
    {
      display := screen;
      var a := new TerminalLine();
      var b := new TerminalLine();
      var c := new TerminalLine();
      lines := [a, b, c];
      mods := Modifiers(false, false, false, false, false);
      terminalBufNBytes := 0;
      fault := false;
    }

    ghost predicate Valid()
      reads this, display, lines
    {
      && display.Valid()
      && |lines| == MAX_TERMINALS
      && (forall i :: 0 <= i < MAX_TERMINALS ==>
            lines[i].kbBuf.Length == BUF_SIZE && lines[i].kbBuf != display.phys)
      && (forall i, j :: 0 <= i < j < MAX_TERMINALS ==> lines[i] != lines[j] && lines[i].kbBuf != lines[j].kbBuf)
    }

    ghost function Buffers(): set<object>
      requires |lines| == MAX_TERMINALS
      reads this
    {
      {lines[0].kbBuf, lines[1].kbBuf, lines[2].kbBuf}
    }

    ghost function State(): Console
      requires Valid()
      reads this, display, display.phys, lines, Buffers()
    {
      Console(display.State(), [lines[0].Value(), lines[1].Value(), lines[2].Value()],
              mods, terminalBufNBytes, fault)
    }

    function Terminal(t: TerminalId): (l: TerminalLine)
      requires |lines| == MAX_TERMINALS
      reads this
      ensures l in lines
    {
      lines[t]
    }

    // The visible terminal's struct, and that it is the line the model calls visible.
    function Visible(): (l: TerminalLine)
      requires |lines| == MAX_TERMINALS
      reads this, display
      ensures l in lines
    {
      lines[display.visible]
    }

    method SetFlags(code: Byte)
      requires Valid()
      modifies this`mods
      ensures Valid() && State() == old(State()).(mods := Modify(old(State()).mods, code))
    {
      match code {
        case 0x2A => mods := mods.(leftShift := true);
        case 0xAA => mods := mods.(leftShift := false);
        case 0x36 => mods := mods.(rightShift := true);
        case 0xB6 => mods := mods.(rightShift := false);
        case 0x3A => mods := mods.(caps := !mods.caps);
        case 0x1D => mods := mods.(ctrl := true);
        case 0x9D => mods := mods.(ctrl := false);
        case 0x38 => mods := mods.(alt := true);
        case 0xB8 => mods := mods.(alt := false);
        case _ =>
      }
    }

    // kb_buf[(*kb_buf_i)++] = b
    method Store(b: Byte)
      requires Valid() && 0 <= Visible().kbBufI < BUF_SIZE
      modifies Visible()`kbBufI, Visible().kbBuf
      ensures Valid() && display.visible == old(display.visible) && Visible().kbBufI == old(Visible().kbBufI) + 1
      ensures
        var c := old(State());
        var v := c.video.visible;
        var l := c.lines[v];
        State() == c.(lines := c.lines[v := l.(buf := l.buf[l.n := b], n := l.n + 1)])
    {
      var l := Visible();
      l.kbBuf[l.kbBufI] := b;
      l.kbBufI := l.kbBufI + 1;
    }

    method SetEnterFlag()
      requires Valid()
      modifies Visible()`kbEnterFlag
      ensures Valid() && display.visible == old(display.visible)
      ensures
        var c := old(State());
        var v := c.video.visible;
        State() == c.(lines := c.lines[v := c.lines[v].(entered := true)])
    {
      Visible().kbEnterFlag := true;
    }

    method StoreEnter()
      requires Valid() && 0 <= Visible().kbBufI < BUF_SIZE
      modifies Visible()`kbBufI, Visible()`kbEnterFlag, Visible().kbBuf
      ensures Valid() && display.visible == old(display.visible)
      ensures
        var c := old(State());
        var v := c.video.visible;
        var l := c.lines[v];
        State() == c.(lines := c.lines[v := l.(buf := l.buf[l.n := NEWLINE], n := l.n + 1, entered := true)])
    {
      hide Frames, Display.State;
      Store(NEWLINE);
      SetEnterFlag();
    }

    // if (print_allowed) putc(b, 1)
    method EchoIfReading(b: Byte)
      requires Valid() && Ok(State().video)
      modifies display, display.phys
      ensures Valid() && display.visible == old(display.visible)
      ensures
        var c := old(State());
        State() == c.(video := if c.lines[c.video.visible].reading then Putc(c.video, b, true) else c.video)
    {
      if Visible().inTerminalRead {
        display.PutChar(b, true);
      }
    }

    method StoreAndEcho(b: Byte)
      requires Valid() && Ok(State().video) && 0 <= Visible().kbBufI < BUF_SIZE
      modifies display, display.phys, Visible()`kbBufI, Visible().kbBuf
      ensures Valid() && display.visible == old(display.visible) && Visible().kbBufI == old(Visible().kbBufI) + 1
      ensures
        var c := old(State());
        var v := c.video.visible;
        var l := c.lines[v];
        State() == c.(lines := c.lines[v := l.(buf := l.buf[l.n := b], n := l.n + 1)],
                      video := if l.reading then Putc(c.video, b, true) else c.video)
    {
      hide Putc, Frames, Display.State;
      Store(b);
      EchoIfReading(b);
    }

    method DoErase()
      requires Valid() && ConsoleOk(State())
      modifies display, display.phys, lines
      ensures Valid() && State() == Act(old(State()), Erase)
    {
      hide Putc;
      EraseActs(State());
      var l := Visible();
      assert l.Value() == State().lines[display.visible];
      if l.kbBufI > 0 {
        l.kbBufI := l.kbBufI - 1;
        EchoIfReading(BACKSPACE);
      }
    }

    method DoSubmit()
      requires Valid() && ConsoleOk(State())
      modifies this`fault, display, display.phys, lines, Buffers()
      ensures Valid() && State() == Act(old(State()), Submit)
    {
      hide Putc, Act, Frames, Display.State, ConsoleOk, LineShape, Ok;
      ghost var c := State();
      LineFacts(c, display.visible);
      var l := Visible();
      assert l.Value() == c.lines[display.visible];
      if !l.inTerminalRead {
        AddsNothing(c, Submit);
        return;
      }
      OneKeyActs(c, Submit, NEWLINE);
      if l.kbBufI == BUF_SIZE {
        fault := true;
        return;
      }
      StoreEnter();
      EchoIfReading(NEWLINE);
    }

    method DoType(b: Byte)
      requires Valid() && ConsoleOk(State())
      modifies this`fault, display, display.phys, lines, Buffers()
      ensures Valid() && State() == Act(old(State()), Type(b))
    {
      hide Putc, Act, Frames, Display.State, ConsoleOk, LineShape, Ok;
      ghost var c := State();
      LineFacts(c, display.visible);
      var l := Visible();
      assert l.Value() == c.lines[display.visible];
      if l.kbBufI == CHAR_MAX || l.kbBufI == terminalBufNBytes - 1 {
        AddsNothing(c, Type(b));
        return;
      }
      OneKeyActs(c, Type(b), b);
      if l.kbBufI == BUF_SIZE {
        fault := true;
        return;
      }
      StoreAndEcho(b);
    }

    method PadOne(ghost c: Console, ghost i: nat)
      requires Valid() && ConsoleOk(c) && c.lines[c.video.visible].n + i < BUF_SIZE
      requires State() == Appended(c, Fill(i, SPACE))
      modifies display, display.phys, lines, Buffers()
      ensures Valid() && display.visible == old(display.visible)
      ensures Visible().kbBufI == old(Visible().kbBufI) + 1
      ensures State() == Appended(c, Fill(i + 1, SPACE))
    {
      AppendedSnoc(c, Fill(i, SPACE), SPACE);
      assert Fill(i, SPACE) + [SPACE] == Fill(i + 1, SPACE);
      assert Ok(State().video) && State().lines[display.visible].n < BUF_SIZE;
      assert LineShape(State().lines[display.visible]);
      hide Putc, Frames, Display.State, Appended, ConsoleOk, LineShape, Ok;
      StoreAndEcho(SPACE);
    }

    // A tab is up to eight spaces, as far as the line has room.
    method DoPad()
      requires Valid() && ConsoleOk(State())
      modifies this`fault, display, display.phys, lines, Buffers()
      ensures Valid() && State() == Act(old(State()), Pad)
    {
      hide Putc, Act, Appended, Frames, Steps, Display.State, ConsoleOk, LineShape, Ok;
      ghost var c := State();
      LineFacts(c, display.visible);
      ghost var n := Visible().kbBufI;
      assert Visible().Value() == c.lines[display.visible];
      PadActs(c);
      if Visible().kbBufI == CHAR_MAX || Visible().kbBufI == terminalBufNBytes - 1 {
        return;
      }
      var i := 0;
      while i < 8
        invariant 0 <= i <= PadRoom(n, c.limit) && Valid() && terminalBufNBytes == c.limit
        invariant State() == Appended(c, Fill(i, SPACE))
        invariant display.visible == c.video.visible && Visible().kbBufI == n + i
      {
        if Visible().kbBufI < CHAR_MAX && Visible().kbBufI < terminalBufNBytes - 1 {
          PadOne(c, i);
        } else {
          break;
        }
        i := i + 1;
      }
    }

    // Ctrl-L: blank the screen and print the buffer again.
    method DoRedraw()
      requires Valid() && ConsoleOk(State())
      modifies display, display.phys
      ensures Valid() && State() == Act(old(State()), Redraw)
    {
      ghost var c := State();
      ghost var l := c.lines[c.video.visible];
      assert Visible().Value() == l;
      RedrawActs(c);
      hide Putc, Act, Clear, Steps, Frames, Display.State;
      display.ClearScreen();
      assert State() == c.(video := Clear(c.video));
      if Visible().inTerminalRead {
        var i := 0;
        while i < Visible().kbBufI
          invariant 0 <= i <= l.n && Valid() && display.visible == c.video.visible
          invariant State() == c.(video := Steps(c.video, [ClearScreen] + Echoes(l.buf[..i])))
        {
          RedrawOneMore(c, i);
          display.PutChar(Visible().kbBuf[i], true);
          i := i + 1;
        }
        assert l.buf[..i] == Typed(l);
      }
    }

    method DoSwitch(t: TerminalId)
      requires Valid() && ConsoleOk(State())
      modifies display, display.phys
      ensures Valid() && State() == Act(old(State()), Switch(t))
    {
      display.SwitchTo(t);
    }

    // What is left of the handler once releases and modifier keys have returned, in the order
    // of its tests.
    method HandleKey(code: Byte)
      requires Valid() && ConsoleOk(State()) && !Swallowed(code)
      modifies this`fault, display, display.phys, lines, Buffers()
      ensures Valid() && State() == Act(old(State()), Decode(old(State()).mods, code))
    {
      NothingActs(State());
      hide Act, Frames, Display.State;
      var key: Byte := SCAN_TABLE[code];
      if key == BACKSPACE {
        DoErase();
        return;
      }
      if key == NEWLINE {
        DoSubmit();
        return;
      }
      if mods.ctrl && key == LOWER_L {
        DoRedraw();
        return;
      }
      if mods.alt {
        if code == F1 {
          DoSwitch(0);
          return;
        }
        if code == F1 + 1 {
          DoSwitch(1);
          return;
        }
        if code == F1 + 2 {
          DoSwitch(2);
          return;
        }
      }
      if key == NUL {
        return;
      }
      if key == TAB {
        DoPad();
        return;
      }
      DoType(Shifted(mods, key));
    }

    method KeyboardHandler(code: Byte)
      requires Valid() && ConsoleOk(State())
      modifies this`mods, this`fault, display, display.phys, lines, Buffers()
      ensures Valid() && State() == PressKey(old(State()), code)
    {
      ghost var c := State();
      SetFlags(code);
      NothingActs(State());
      hide Act, Decode, Frames, Display.State;
      if Swallowed(code) {
        SwallowedIsNothing(mods, code);
        return;
      }
      HandleKey(code);
    }

    method MarkReading(nBytes: int)
      requires Valid()
      modifies Terminal(display.scheduled)`inTerminalRead, Terminal(display.scheduled)`want
      ensures Valid()
      ensures
        var s, c := display.scheduled, old(State());
        State() == c.(lines := c.lines[s := c.lines[s].(reading := true, want := nBytes)])
    {
      hide Frames, Display.State;
      var l := Terminal(display.scheduled);
      l.inTerminalRead := true;
      l.want := nBytes;
    }

    // terminal_read up to the loop that waits for Enter.
    method TerminalReadBegin(nBytes: int)
      requires Valid() && ConsoleOk(State())
      modifies this`terminalBufNBytes, lines
      ensures Valid() && State() == BeginRead(old(State()), nBytes)
    {
      hide Frames, Display.State, ConsoleOk;
      if nBytes <= 0 {
        return;
      }
      terminalBufNBytes := nBytes;
      MarkReading(nBytes);
    }

    method ClearKeyboardVars(t: TerminalId)
      requires Valid()
      modifies Terminal(t)`kbBufI, Terminal(t)`kbEnterFlag, Terminal(t).kbBuf
      ensures Valid()
      ensures State() == old(State()).(lines := old(State()).lines[t := BlankLine(old(State()).lines[t])])
    {
      var l := lines[t];
      l.kbBufI := 0;
      l.kbEnterFlag := false;
      var i := 0;
      while i < BUF_SIZE
        invariant 0 <= i <= BUF_SIZE && Valid() && l.kbBufI == 0 && !l.kbEnterFlag
        invariant forall k :: 0 <= k < i ==> l.kbBuf[k] == NUL
      {
        l.kbBuf[i] := NUL;
        i := i + 1;
      }
      assert l.kbBuf[..] == Fill(BUF_SIZE, NUL);
    }

    // The end of the wait: echo off, and one character after the newline dropped.
    method StripLateKey()
      requires Valid() && ConsoleOk(State())
      requires LineShape(Terminal(display.scheduled).Value()) && Terminal(display.scheduled).kbBufI >= 1
      modifies Terminal(display.scheduled), Terminal(display.scheduled).kbBuf
      ensures Valid()
      ensures State() == old(State()).(lines := old(State()).lines[display.scheduled :=
                Stripped(old(State()).lines[display.scheduled]).(reading := false)])
      ensures Terminal(display.scheduled).Value() ==
              Stripped(old(Terminal(display.scheduled).Value())).(reading := false)
    {
      hide Frames, Display.State;
      var l := Terminal(display.scheduled);
      assert l.Value() == State().lines[display.scheduled];
      l.inTerminalRead := false;
      if l.kbBuf[l.kbBufI - 1] != NEWLINE {
        l.kbBuf[l.kbBufI - 1] := NUL;
        l.kbBufI := l.kbBufI - 1;
      }
    }

    // terminal_read after the wait, when the copy to the caller's buffer faults.
    method TerminalReadFault()
      requires Valid() && ConsoleOk(State()) && State().lines[display.scheduled].reading
      modifies this`fault, lines, Buffers()
      ensures Valid() && State() == FaultRead(old(State()))
    {
      hide Frames, Display.State, ConsoleOk, LineShape, Stripped;
      var l := lines[display.scheduled];
      assert l.Value() == State().lines[display.scheduled];
      LineFacts(State(), display.scheduled);
      if !l.kbEnterFlag {
        return;
      }
      if l.kbBufI == 0 {
        fault := true;
        return;
      }
      StripLateKey();
    }

    // One test of the Enter flag, and the drain once it is set.
    method TerminalReadPoll(buf: array<Byte>) returns (done: bool, bytesWritten: int)
      requires Valid() && ConsoleOk(State()) && State().lines[display.scheduled].reading
      requires buf.Length >= lines[display.scheduled].want
      requires buf != display.phys && forall i :: 0 <= i < MAX_TERMINALS ==> buf != lines[i].kbBuf
      modifies this`terminalBufNBytes, this`fault, lines, Buffers(), buf
      ensures Valid() && State() == PollRead(old(State()))
      ensures
        var l := old(State().lines[display.scheduled]);
        && done == (l.entered && l.n > 0)
        && (done ==> bytesWritten == DrainedCount(l) && buf[..l.want] == DrainedBytes(l))
    {
      hide Frames, Display.State, ConsoleOk, LineShape, BlankLine, Stripped, Strings.Text;
      done, bytesWritten := false, 0;
      var l := lines[display.scheduled];
      assert l.Value() == State().lines[display.scheduled];
      LineFacts(State(), display.scheduled);
      if !l.kbEnterFlag {
        return;
      }
      if l.kbBufI == 0 {
        fault := true;
        return;
      }
      BlankForgets(l.Value());
      StripLateKey();
      Strings.Strncpy(buf, l.kbBuf[..] + [NUL], l.want);
      bytesWritten := l.kbBufI;
      terminalBufNBytes := BUF_SIZE;
      ClearKeyboardVars(display.scheduled);
      done := true;
    }
  }
}
