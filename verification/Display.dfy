// The display driver itself: video memory as an array of physical bytes, written through one
// page-table entry, and the shared cursor variables of lib.c.
module DisplayDriver {
  import opened Bytes
  import opened Machine
  import opened Screen
  import opened Video
  import Memory

  const VIDEO_BYTES := NUM_PAGES * PAGE_SIZE

  // The physical pages 0xB8..0xBB as four sequences.
  function Frames(m: seq<Byte>): (r: seq<Page>)
    requires |m| == VIDEO_BYTES
    ensures |r| == NUM_PAGES
  {
    [m[..4096], m[4096..8192], m[8192..12288], m[12288..]]
  }

  lemma FramesAt(m: seq<Byte>, i: nat, k: nat)
    requires |m| == VIDEO_BYTES && i < NUM_PAGES && k < PAGE_SIZE
    ensures Frames(m)[i][k] == m[PAGE_SIZE * i + k]
  {
  }

  // Two memories that agree outside frame i, and in it show page p.
  lemma FrameReplaced(m: seq<Byte>, m': seq<Byte>, i: nat, p: Page)
    requires |m| == |m'| == VIDEO_BYTES && i < NUM_PAGES
    requires forall k :: 0 <= k < VIDEO_BYTES ==>
      m'[k] == if PAGE_SIZE * i <= k < PAGE_SIZE * (i + 1) then p[k - PAGE_SIZE * i] else m[k]
    ensures Frames(m') == Frames(m)[i := p]
  {
    forall j | 0 <= j < NUM_PAGES ensures Frames(m')[j] == Frames(m)[i := p][j] {
      forall k | 0 <= k < PAGE_SIZE ensures Frames(m')[j][k] == Frames(m)[i := p][j][k] {
        FramesAt(m', j, k);
        FramesAt(m, j, k);
      }
    }
  }

  // The state with another page behind virtual page 0xB8.
  function SetPage(v: VideoState, p: Page): VideoState
    requires Shape(v)
  {
    v.(pages := v.pages[v.base - VIDMEM_PAGE := p])
  }

  // The first `done` cells have been scrolled, in place, and the others not yet.
  function ScrolledTo(p: Page, done: nat): Page {
    var up := ScrollUp(p);
    seq(PAGE_SIZE, k requires 0 <= k < PAGE_SIZE => if k < 2 * done then up[k] else p[k])
  }

  lemma ScrolledNone(p: Page)
    ensures ScrolledTo(p, 0) == p
  {
  }

  lemma ScrolledAll(p: Page)
    ensures ScrolledTo(p, NUM_CELLS) == ScrollUp(p)
  {
  }

  lemma ScrolledOneMore(p: Page, at: nat)
    requires at < NUM_CELLS
    ensures
      var q := ScrolledTo(p, at);
      ScrolledTo(p, at + 1) ==
        q[2 * at := if at < NUM_CELLS - NUM_COLS then q[2 * (at + NUM_COLS)] else SPACE]
  {
    var q := ScrolledTo(p, at);
    var c := if at < NUM_CELLS - NUM_COLS then q[2 * (at + NUM_COLS)] else SPACE;
    assert c == ScrollUp(p)[2 * at];
    assert p[2 * at + 1] == ScrollUp(p)[2 * at + 1];
  }

  // Likewise for the loop of clear.
  function BlankedTo(p: Page, done: nat): Page {
    var blank := BlankPage(p);
    seq(PAGE_SIZE, k requires 0 <= k < PAGE_SIZE => if k < 2 * done then blank[k] else p[k])
  }

  lemma BlankedNone(p: Page)
    ensures BlankedTo(p, 0) == p
  {
  }

  lemma BlankedAll(p: Page)
    ensures BlankedTo(p, NUM_CELLS) == BlankPage(p)
  {
  }

  lemma BlankedOneMore(p: Page, at: nat)
    requires at < NUM_CELLS
    ensures BlankedTo(p, at + 1) == BlankedTo(p, at)[2 * at := SPACE][2 * at + 1 := ATTRIB]
  {
    assert BlankPage(p)[2 * at] == SPACE && BlankPage(p)[2 * at + 1] == ATTRIB;
  }

  class Display {
    const phys: array<Byte>      // physical memory from 0xB8000 to 0xBBFFF
    var vidmemEntry: int         // page_table_one[VIDMEM_PAGE_BASE].page_base_address
    var screenX: int
    var screenY: int
    var vgaLow: Byte             // VGA registers 0x0F and 0x0E
    var vgaHigh: Byte
    var cursors: seq<Cursor>     // terminals[i].cursor_x, terminals[i].cursor_y
    var visible: TerminalId
    var scheduled: TerminalId

    ghost predicate Valid()
      reads this
    {
      && phys.Length == VIDEO_BYTES
      && |cursors| == MAX_TERMINALS
      && VIDMEM_PAGE <= vidmemEntry < VIDMEM_PAGE + NUM_PAGES
    }

    ghost function State(): (v: VideoState)
      requires Valid()
      reads this, phys
      ensures Shape(v) && v.visible == visible && v.scheduled == scheduled
    {
      VideoState(Frames(phys[..]), vidmemEntry, Cursor(screenX, screenY), vgaLow + 256 * vgaHigh,
                 cursors, visible, scheduled)
    }

    constructor (memory: array<Byte>)
      requires memory.Length == VIDEO_BYTES
      ensures Valid() && phys == memory
      ensures State() == VideoState(Frames(memory[..]), VIDMEM_PAGE, Cursor(0, 0), 0,
                                    [Cursor(0, 0), Cursor(0, 0), Cursor(0, 0)], 0, 0)
    {
      phys := memory;
      vidmemEntry := VIDMEM_PAGE;
      screenX, screenY, vgaLow, vgaHigh := 0, 0, 0, 0;
      cursors := [Cursor(0, 0), Cursor(0, 0), Cursor(0, 0)];
      visible, scheduled := 0, 0;
    }

    // A byte of virtual page 0xB8, through its page-table entry.
    method ReadByte(off: nat) returns (b: Byte)
      requires Valid() && off < PAGE_SIZE
      ensures b == Target(State()).page[off]
    {
      FramesAt(phys[..], vidmemEntry - VIDMEM_PAGE, off);
      b := phys[PAGE_SIZE * (vidmemEntry - VIDMEM_PAGE) + off];
    }

    method WriteByte(off: nat, b: Byte)
      requires Valid() && off < PAGE_SIZE
      modifies phys
      ensures State() == SetPage(old(State()), Target(old(State())).page[off := b])
    {
      ghost var m, i := phys[..], vidmemEntry - VIDMEM_PAGE;
      phys[PAGE_SIZE * (vidmemEntry - VIDMEM_PAGE) + off] := b;
      forall k | 0 <= k < PAGE_SIZE ensures Frames(m)[i][k] == m[PAGE_SIZE * i + k] { FramesAt(m, i, k); }
      FrameReplaced(m, phys[..], i, Frames(m)[i][off := b]);
    }

    method RedirectVidmemPage(t: int)
      requires Valid()
      modifies this`vidmemEntry
      ensures Valid()
      ensures 0 <= t < MAX_TERMINALS ==> State() == Redirect(old(State()), t)
      ensures !(0 <= t < MAX_TERMINALS) ==> State() == old(State())
    {
      if t < 0 || t > 2 {
        return;
      }
      if t == visible {
        vidmemEntry := VIDMEM_PAGE;
      } else {
        vidmemEntry := VIDMEM_PAGE + t + 1;
      }
    }

    method MoveCursor(x: int, y: int)
      requires Valid()
      modifies this`screenX, this`screenY, this`vgaLow, this`vgaHigh
      ensures Valid() && State() == UpdateCursor(old(State()), Cursor(x, y))
    {
      var pos := (y * NUM_COLS + x) % 0x10000;
      screenX := x;
      screenY := y;
      vgaLow := pos % 256;
      vgaHigh := pos / 256;
    }

    method WriteCell(cell: nat, c: Byte)
      requires Valid() && cell < NUM_CELLS
      modifies phys
      ensures State() == SetPage(old(State()), Poke(Target(old(State())).page, cell, c))
    {
      WriteByte(2 * cell, c);
      WriteByte(2 * cell + 1, ATTRIB);
    }

    // The rows move up in place, first row first.
    method Scroll()
      requires Valid()
      modifies phys
      ensures State() == SetPage(old(State()), ScrollUp(Target(old(State())).page))
    {
      ghost var v := State();
      ghost var p := Target(v).page;
      ScrolledNone(p);
      var row := 0;
      while row < NUM_ROWS
        invariant 0 <= row <= NUM_ROWS
        invariant State() == SetPage(v, ScrolledTo(p, NUM_COLS * row))
      {
        var col := 0;
        while col < NUM_COLS
          invariant 0 <= col <= NUM_COLS
          invariant State() == SetPage(v, ScrolledTo(p, NUM_COLS * row + col))
        {
          ScrolledOneMore(p, NUM_COLS * row + col);
          if row == NUM_ROWS - 1 {
            WriteByte(2 * (NUM_COLS * row + col), SPACE);
          } else {
            var b := ReadByte(2 * (NUM_COLS * (row + 1) + col));
            WriteByte(2 * (NUM_COLS * row + col), b);
          }
          col := col + 1;
        }
        row := row + 1;
      }
      ScrolledAll(p);
    }

    method ClearScreen()
      requires Valid() && Ok(State())
      modifies this`screenX, this`screenY, this`vgaLow, this`vgaHigh, this`cursors, phys
      ensures Valid() && State() == Clear(old(State()))
    {
      ghost var v := State();
      ghost var p := Target(v).page;
      BlankedNone(p);
      var i := 0;
      while i < NUM_ROWS * NUM_COLS
        invariant 0 <= i <= NUM_CELLS && Valid()
        invariant State() == SetPage(v, BlankedTo(p, i))
      {
        BlankedOneMore(p, i);
        WriteByte(2 * i, SPACE);
        WriteByte(2 * i + 1, ATTRIB);
        i := i + 1;
      }
      BlankedAll(p);
      MoveCursor(0, 0);
      cursors := cursors[visible := Cursor(0, 0)];
    }

    method ScrollWhenFull()
      requires Valid()
      modifies this`screenY, phys
      ensures Valid() && State() == SetTarget(old(State()), ScrollIfFull(Target(old(State()))))
    {
      if screenY == NUM_ROWS {
        Scroll();
        screenY := NUM_ROWS - 1;
      }
    }

    method DrawPlain(c: Byte)
      requires Valid() && OnScreen(Cursor(screenX, screenY)) && Printable(c)
      modifies this`screenX, this`screenY, phys
      ensures Valid() && State() == SetTarget(old(State()), Put(Target(old(State())), c))
    {
      WriteCell(NUM_COLS * screenY + screenX, c);
      screenX := screenX + 1;
      if screenX == NUM_COLS {
        screenX := 0;
        screenY := screenY + 1;
      }
      ScrollWhenFull();
    }

    // The drawing part of putc. `early` reports the return taken for a backspace at (0,0).
    method Draw(c: Byte) returns (early: bool)
      requires Valid() && OnScreen(Cursor(screenX, screenY)) && c != NUL
      modifies this`screenX, this`screenY, phys
      ensures Valid()
      ensures early == (c == BACKSPACE && AtHome(Target(old(State()))))
      ensures early ==> State() == old(State())
      ensures !early ==> State() == SetTarget(old(State()), Put(Target(old(State())), c))
    {
      early := false;
      if c == NEWLINE || c == RETURN {
        screenY := screenY + 1;
        screenX := 0;
        ScrollWhenFull();
      } else if c == BACKSPACE {
        if screenX + screenY == 0 {
          return true;
        }
        screenX := screenX - 1;
        if screenX == -1 {
          screenX := NUM_COLS - 1;
          screenY := screenY - 1;
        }
        WriteCell(NUM_COLS * screenY + screenX, SPACE);
      } else {
        DrawPlain(c);
      }
    }

    method PutChar(c: Byte, keyboard: bool)
      requires Valid() && Ok(State())
      modifies this`vidmemEntry, this`screenX, this`screenY, this`vgaLow, this`vgaHigh, this`cursors, phys
      ensures Valid() && State() == Putc(old(State()), c, keyboard)
    {
      hide Put;
      if c == NUL {
        return;
      }
      if visible != scheduled {
        if !keyboard {
          RedirectVidmemPage(scheduled);
          screenX := cursors[scheduled].x;
          screenY := cursors[scheduled].y;
        }
      }
      assert State() == Enter(old(State()), Background(old(State()), keyboard));
      var early := Draw(c);
      if early {
        return;
      }
      if visible != scheduled {
        if !keyboard {
          RedirectVidmemPage(visible);
          cursors := cursors[scheduled := Cursor(screenX, screenY)];
          screenX := cursors[visible].x;
          screenY := cursors[visible].y;
          return;
        }
      }
      cursors := cursors[visible := Cursor(screenX, screenY)];
      MoveCursor(screenX, screenY);
    }

    // One 4 KB memcpy between physical pages.
    method CopyFrame(dest: nat, src: nat)
      requires Valid() && dest < NUM_PAGES && src < NUM_PAGES
      modifies phys
      ensures Frames(phys[..]) == Frames(old(phys[..]))[dest := Frames(old(phys[..]))[src]]
    {
      ghost var m := phys[..];
      Memory.Memcpy(phys, PAGE_SIZE * dest, PAGE_SIZE * src, PAGE_SIZE);
      forall k | 0 <= k < PAGE_SIZE ensures Frames(m)[src][k] == m[PAGE_SIZE * src + k] { FramesAt(m, src, k); }
      FrameReplaced(m, phys[..], dest, Frames(m)[src]);
    }

    method ChangeTerminalVideoPage(from: int, to: int)
      requires Valid()
      modifies phys
      ensures 0 <= from < MAX_TERMINALS && 0 <= to < MAX_TERMINALS ==> State() == CopyPages(old(State()), from, to)
      ensures !(0 <= from < MAX_TERMINALS && 0 <= to < MAX_TERMINALS) ==> State() == old(State())
    {
      if from < 0 || from > 2 || to < 0 || to > 2 {
        return;
      }
      CopyFrame(from + 1, vidmemEntry - VIDMEM_PAGE);
      CopyFrame(vidmemEntry - VIDMEM_PAGE, to + 1);
    }

    method SwitchTo(t: TerminalId)
      requires Valid() && Ok(State())
      modifies this`screenX, this`screenY, this`vgaLow, this`vgaHigh, this`cursors, this`visible, phys
      ensures Valid() && State() == SwitchVisible(old(State()), t)
    {
      if t == visible {
        return;
      }
      ChangeTerminalVideoPage(visible, t);
      cursors := cursors[visible := Cursor(screenX, screenY)];
      MoveCursor(cursors[t].x, cursors[t].y);
      visible := t;
    }

    // Any run of the driver is the run of the model, so while no background process is stuck
    // it is three independent terminals.
    method Perform(es: seq<Event>)
      requires Valid() && Ok(State())
      modifies this, phys
      ensures Valid() && State() == Steps(old(State()), es)
      ensures Settled(old(State())) && NeverStuck(Abs(old(State())), es) ==>
                Settled(State()) && Abs(State()) == TrioSteps(Abs(old(State())), es)
    {
      ghost var v := State();
      var i := 0;
      while i < |es|
        invariant 0 <= i <= |es| && Valid()
        invariant State() == Steps(v, es[..i])
      {
        match es[i] {
          case Out(c) => PutChar(c, false);
          case Echo(c) => PutChar(c, true);
          case ClearScreen => ClearScreen();
          case Show(t) => SwitchTo(t);
          case Run(t) => scheduled := t;
        }
        assert es[..i + 1][..i] == es[..i];
        i := i + 1;
      }
      assert es[..|es|] == es;
      if Settled(v) {
        RunRefines(v, es);
      }
    }
  }
}
