// The keyboard line editor (keyboard.c keyboard_handler) and the reading side of a terminal
// (terminal.c terminal_read), as steps of the whole console: three line buffers, the
// modifier flags, the shared length limit and the display they echo to.
module Keyboard {
  import opened Bytes
  import opened Machine
  import opened Screen
  import opened Video
  import Strings

  const BUF_SIZE := 128
  const CHAR_MAX := 127

  // ---------------------------------------------------------------------------------------
  // From scan codes to editing actions.

  datatype Modifiers = Modifiers(leftShift: bool, rightShift: bool, ctrl: bool, caps: bool, alt: bool) {
    predicate Shift() { leftShift || rightShift }
  }

  const LEFT_SHIFT: Byte := 0x2A
  const RIGHT_SHIFT: Byte := 0x36
  const CAPS_LOCK: Byte := 0x3A
  const LEFT_CTRL: Byte := 0x1D
  const LEFT_ALT: Byte := 0x38
  const RELEASED := 0x80
  const F1: Byte := 0x3B
  const LOWER_L: Byte := 108

  // No key yields a carriage return.
  type KeyChar = b: Byte | b != RETURN

  // ASCII by scan code, for the codes the handler looks up, in the rows of the C table.
  const ROW_0: seq<KeyChar> := [0, 0x1B, 49, 50, 51, 52, 53, 54, 55, 56]        // esc 1-8
  const ROW_1: seq<KeyChar> := [57, 48, 45, 61, 8, 9, 113, 119, 101, 114]       // 9 0 - = backspace tab q w e r
  const ROW_2: seq<KeyChar> := [116, 121, 117, 105, 111, 112, 91, 93, 10, 0]    // t y u i o p [ ] enter ctrl
  const ROW_3: seq<KeyChar> := [97, 115, 100, 102, 103, 104, 106, 107, 108, 59] // a s d f g h j k l ;
  const ROW_4: seq<KeyChar> := [39, 96, 0, 92, 122, 120, 99, 118, 98, 110]      // ' ` shift \ z x c v b n
  const ROW_5: seq<KeyChar> := [109, 44, 46, 47, 0, 42, 0, 32, 0, 0, 0, 0]      // m , . / shift * alt space caps F1-F3
  const SCAN_TABLE: seq<KeyChar> := ROW_0 + (ROW_1 + (ROW_2 + (ROW_3 + (ROW_4 + ROW_5))))

  // Where backspace, tab and Enter are.
  lemma EditingKeys()
    ensures |SCAN_TABLE| == 62
    ensures SCAN_TABLE[14] == BACKSPACE && SCAN_TABLE[15] == TAB && SCAN_TABLE[28] == NEWLINE
  {
    var rest := ROW_2 + (ROW_3 + (ROW_4 + ROW_5));
    assert SCAN_TABLE[14] == (ROW_1 + rest)[4] == ROW_1[4];
    assert SCAN_TABLE[15] == (ROW_1 + rest)[5] == ROW_1[5];
    assert SCAN_TABLE[28] == (ROW_1 + rest)[18] == rest[8] == ROW_2[8];
  }

  function Modify(m: Modifiers, code: Byte): Modifiers {
    if code == LEFT_SHIFT then m.(leftShift := true)
    else if code == LEFT_SHIFT + RELEASED then m.(leftShift := false)
    else if code == RIGHT_SHIFT then m.(rightShift := true)
    else if code == RIGHT_SHIFT + RELEASED then m.(rightShift := false)
    else if code == CAPS_LOCK then m.(caps := !m.caps)
    else if code == LEFT_CTRL then m.(ctrl := true)
    else if code == LEFT_CTRL + RELEASED then m.(ctrl := false)
    else if code == LEFT_ALT then m.(alt := true)
    else if code == LEFT_ALT + RELEASED then m.(alt := false)
    else m
  }

  // Releases, everything above F3, and the modifier keys themselves end the handler at once.
  predicate Swallowed(code: Byte) {
    code >= 0x3E || code in {LEFT_SHIFT, RIGHT_SHIFT, CAPS_LOCK, LEFT_CTRL, LEFT_ALT}
  }

  // The shifted character of a non-letter key.
  function Symbol(k: Byte): Byte {
    match k
    case 96 => 126  case 49 => 33   case 50 => 64   case 51 => 35   case 52 => 36
    case 53 => 37   case 54 => 94   case 55 => 38   case 56 => 42   case 57 => 40
    case 48 => 41   case 45 => 95   case 61 => 43   case 91 => 123  case 93 => 125
    case 92 => 124  case 59 => 58   case 39 => 34   case 44 => 60   case 46 => 62
    case 47 => 63   case _ => k
  }

  // Letters follow caps lock exclusive-or shift; the other keys follow shift alone.
  function Shifted(m: Modifiers, k: Byte): (c: Byte)
    ensures Printable(k) ==> Printable(c)
    ensures 97 <= k <= 122 ==> c == if m.caps != m.Shift() then k - 32 else k
    ensures !(97 <= k <= 122) && !m.Shift() ==> c == k
  {
    var up: Byte := if m.caps != m.Shift() && 97 <= k <= 122 then k - 32 else k;
    if m.Shift() then Symbol(up) else up
  }

  datatype Action = Nothing | Erase | Submit | Redraw | Switch(t: TerminalId) | Pad | Type(c: Byte)

  // What a key press means, in the handler's order of tests.
  function Decode(m: Modifiers, code: Byte): (a: Action)
    ensures a.Type? ==> Printable(a.c)
  {
    if Swallowed(code) then Nothing
    else
      var k := SCAN_TABLE[code];
      if k == BACKSPACE then Erase
      else if k == NEWLINE then Submit
      else if m.ctrl && k == LOWER_L then Redraw
      else if m.alt && F1 <= code <= F1 + 2 then Switch(code - F1)
      else if k == NUL then Nothing
      else if k == TAB then Pad
      else Type(Shifted(m, k))
  }

  // ---------------------------------------------------------------------------------------
  // One line buffer.

  // `want` is the length the blocked terminal_read was called with.
  datatype Line = Line(buf: seq<Byte>, n: int, entered: bool, reading: bool, want: int)

  predicate LineShape(l: Line) {
    |l.buf| == BUF_SIZE && 0 <= l.n <= BUF_SIZE
  }

  function Typed(l: Line): seq<Byte>
    requires LineShape(l)
  {
    l.buf[..l.n]
  }

  predicate AtLimit(n: int, limit: int) {
    n == CHAR_MAX || n == limit - 1
  }

  // How many of a tab's eight spaces fit.
  function PadRoom(n: int, limit: int): (r: nat)
    ensures r <= 8 && (n + r <= Min(CHAR_MAX, limit - 1) || r == 0)
    ensures r == 8 || n + r >= Min(CHAR_MAX, limit - 1)
  {
    var room := Min(CHAR_MAX, limit - 1) - n;
    if AtLimit(n, limit) || room < 0 then 0 else Min(8, room)
  }

  // The bytes an action adds to the line.
  function Added(l: Line, a: Action, limit: int): (s: seq<Byte>)
    ensures |s| <= 8
  {
    match a
    case Submit => if l.reading then [NEWLINE] else []
    case Pad => Fill(PadRoom(l.n, limit), SPACE)
    case Type(c) => if AtLimit(l.n, limit) then [] else [c]
    case _ => []
  }

  // The action would touch a byte outside kb_buf.
  predicate Overruns(l: Line, a: Action, limit: int) {
    l.n + |Added(l, a, limit)| > BUF_SIZE
  }

  function Edit(l: Line, a: Action, limit: int): (r: Line)
    requires LineShape(l) && !Overruns(l, a, limit)
    ensures LineShape(r)
  {
    if a.Erase? then (if l.n > 0 then l.(n := l.n - 1) else l)
    else
      var s := Added(l, a, limit);
      l.(buf := l.buf[..l.n] + s + l.buf[l.n + |s|..], n := l.n + |s|,
         entered := l.entered || (a.Submit? && l.reading))
  }

  // What is echoed, when the terminal's process is waiting in terminal_read.
  function Echoed(l: Line, a: Action, limit: int): seq<Event>
    requires LineShape(l)
  {
    if !l.reading then (if a.Redraw? then [ClearScreen] else [])
    else
      match a
      case Erase => if l.n > 0 then [Echo(BACKSPACE)] else []
      case Redraw => [ClearScreen] + Echoes(Typed(l))
      case _ => Echoes(Added(l, a, limit))
  }

  function Echoes(s: seq<Byte>): (es: seq<Event>)
    ensures |es| == |s|
  {
    seq(|s|, k requires 0 <= k < |s| => Echo(s[k]))
  }

  function BlankLine(l: Line): Line {
    Line(Fill(BUF_SIZE, NUL), 0, false, l.reading, l.want)
  }

  // The drain of terminal_read: drop one character after the newline, hand the text over.
  function Stripped(l: Line): (r: Line)
    requires LineShape(l) && l.n >= 1
    ensures LineShape(r)
  {
    if l.buf[l.n - 1] != NEWLINE then l.(buf := l.buf[l.n - 1 := NUL], n := l.n - 1) else l
  }

  // strncpy's source: kb_buf, and the byte after it, which is in_terminal_read, just cleared.
  function DrainedBytes(l: Line): (out: seq<Byte>)
    requires LineShape(l) && l.n >= 1 && l.want >= 0
    ensures |out| == l.want
  {
    Strings.Padded(Stripped(l).buf + [NUL], l.want)
  }

  function DrainedCount(l: Line): int
    requires LineShape(l) && l.n >= 1
  {
    Stripped(l).n
  }

  // ---------------------------------------------------------------------------------------
  // The console.

  // `fault` records that kb_buf was accessed outside its 128 bytes; from then on the model
  // says nothing.
  datatype Console = Console(video: VideoState, lines: seq<Line>, mods: Modifiers, limit: int, fault: bool)

  predicate ConsoleOk(c: Console) {
    && Ok(c.video) && |c.lines| == MAX_TERMINALS
    && forall t :: 0 <= t < MAX_TERMINALS ==> LineShape(c.lines[t]) && c.lines[t].want >= 0
  }

  datatype Happening =
    | Key(code: Byte)             // keyboard_handler
    | Print(c: Byte)              // putc(c, 0) by the scheduled terminal's process
    | Tick(t: TerminalId)         // the scheduler moves on
    | ReadBegin(n: int)           // the scheduled process calls terminal_read
    | ReadPoll                    // it tests kb_enter_flag, and drains the line once it is set
    | ReadFault                   // the same, but the copy to its buffer ends it in a page fault

  function Act(c: Console, a: Action): (r: Console)
    requires ConsoleOk(c)
    ensures ConsoleOk(r)
  {
    var v := c.video.visible;
    var l := c.lines[v];
    if a.Switch? then c.(video := SwitchVisible(c.video, a.t))
    else if Overruns(l, a, c.limit) then c.(fault := true)
    else c.(lines := c.lines[v := Edit(l, a, c.limit)], video := Steps(c.video, Echoed(l, a, c.limit)))
  }

  function PressKey(c: Console, code: Byte): (r: Console)
    requires ConsoleOk(c)
    ensures ConsoleOk(r)
  {
    var m := Modify(c.mods, code);
    Act(c.(mods := m), Decode(m, code))
  }

  function BeginRead(c: Console, n: int): (r: Console)
    requires ConsoleOk(c)
    ensures ConsoleOk(r)
  {
    var s := c.video.scheduled;
    if n <= 0 then c
    else c.(limit := n, lines := c.lines[s := c.lines[s].(reading := true, want := n)])
  }

  function PollRead(c: Console): (r: Console)
    requires ConsoleOk(c)
    ensures ConsoleOk(r)
  {
    var s := c.video.scheduled;
    var l := c.lines[s];
    if !l.entered then c
    else if l.n == 0 then c.(fault := true)
    else c.(limit := BUF_SIZE, lines := c.lines[s := BlankLine(l).(reading := false)])
  }

  // A fault in the copy leaves the line submitted, with no process reading it.
  function FaultRead(c: Console): (r: Console)
    requires ConsoleOk(c)
    ensures ConsoleOk(r)
  {
    var s := c.video.scheduled;
    var l := c.lines[s];
    if !l.entered then c
    else if l.n == 0 then c.(fault := true)
    else c.(lines := c.lines[s := Stripped(l).(reading := false)])
  }

  // A process blocked in terminal_read neither prints nor calls it again.
  function Happen(c: Console, h: Happening): (r: Console)
    requires ConsoleOk(c)
    ensures ConsoleOk(r)
  {
    if c.fault then c
    else
      var waiting := c.lines[c.video.scheduled].reading;
      match h
      case Key(code) => PressKey(c, code)
      case Print(b) => if waiting then c else c.(video := Putc(c.video, b, false))
      case Tick(t) => c.(video := Schedule(c.video, t))
      case ReadBegin(n) => if waiting then c else BeginRead(c, n)
      case ReadPoll => if waiting then PollRead(c) else c
      case ReadFault => if waiting then FaultRead(c) else c
  }

  function Happens(c: Console, hs: seq<Happening>): (r: Console)
    requires ConsoleOk(c)
    ensures ConsoleOk(r)
    decreases |hs|
  {
    if hs == [] then c else Happen(Happens(c, hs[..|hs| - 1]), hs[|hs| - 1])
  }

  // ---------------------------------------------------------------------------------------
  // The line editor is a fold over the keys received while visible.

  datatype Stroke = Stroke(a: Action, limit: int, reading: bool) | Taken | Trimmed

  // What the drain hands over of a line: it drops one character after the newline.
  function Cut(s: seq<Byte>): seq<Byte> {
    if s != [] && s[|s| - 1] != NEWLINE then s[..|s| - 1] else s
  }

  function EditText(s: seq<Byte>, k: Stroke): seq<Byte> {
    match k
    case Taken => []
    case Trimmed => Cut(s)
    case Stroke(Erase, _, _) => if s == [] then [] else s[..|s| - 1]
    case Stroke(Submit, _, reading) => if reading then s + [NEWLINE] else s
    case Stroke(Pad, limit, _) => s + Fill(PadRoom(|s|, limit), SPACE)
    case Stroke(Type(c), limit, _) => if AtLimit(|s|, limit) then s else s + [c]
    case _ => s
  }

  function EditAll(s: seq<Byte>, ks: seq<Stroke>): seq<Byte>
    decreases |ks|
  {
    if ks == [] then s else EditText(EditAll(s, ks[..|ks| - 1]), ks[|ks| - 1])
  }

  function Given(c: Console, h: Happening, t: TerminalId): (ks: seq<Stroke>)
    requires ConsoleOk(c)
    ensures |ks| <= 1
  {
    match h
    case Key(code) =>
      if t == c.video.visible then [Stroke(Decode(Modify(c.mods, code), code), c.limit, c.lines[t].reading)]
      else []
    case ReadPoll =>
      if t == c.video.scheduled && c.lines[t].reading && c.lines[t].entered then [Taken] else []
    case ReadFault =>
      if t == c.video.scheduled && c.lines[t].reading && c.lines[t].entered then [Trimmed] else []
    case _ => []
  }

  function Received(c: Console, hs: seq<Happening>, t: TerminalId): seq<Stroke>
    requires ConsoleOk(c)
    decreases |hs|
  {
    if hs == [] then []
    else Received(c, hs[..|hs| - 1], t) + Given(Happens(c, hs[..|hs| - 1]), hs[|hs| - 1], t)
  }

  lemma EditMatches(l: Line, a: Action, limit: int)
    requires LineShape(l) && !Overruns(l, a, limit)
    ensures Typed(Edit(l, a, limit)) == EditText(Typed(l), Stroke(a, limit, l.reading))
  {
    if a.Erase? {
    } else {
      var s := Added(l, a, limit);
      assert Typed(Edit(l, a, limit)) == Typed(l) + s;
      if s == [] {
        assert Typed(l) + s == Typed(l);
      }
    }
  }

  lemma HappenEdits(c: Console, h: Happening, t: TerminalId)
    requires ConsoleOk(c) && !Happen(c, h).fault
    ensures Typed(Happen(c, h).lines[t]) == EditAll(Typed(c.lines[t]), Given(c, h, t))
  {
    var ks := Given(c, h, t);
    assert ks != [] ==> ks[..0] == [] && EditAll(Typed(c.lines[t]), ks) == EditText(Typed(c.lines[t]), ks[0]);
    match h
    case Key(code) =>
      var a := Decode(Modify(c.mods, code), code);
      var l := c.lines[c.video.visible];
      if !a.Switch? {
        EditMatches(l, a, c.limit);
      }
    case _ =>
  }

  lemma EditAllAppend(s: seq<Byte>, ks: seq<Stroke>, more: seq<Stroke>)
    requires |more| <= 1
    ensures EditAll(s, ks + more) == EditAll(EditAll(s, ks), more)
  {
    if more == [] {
      assert ks + more == ks;
    } else {
      assert (ks + more)[..|ks|] == ks && more[..0] == [];
    }
  }

  lemma {:induction false} LinesAreEdited(c: Console, hs: seq<Happening>, t: TerminalId)
    requires ConsoleOk(c) && !Happens(c, hs).fault
    ensures Typed(Happens(c, hs).lines[t]) == EditAll(Typed(c.lines[t]), Received(c, hs, t))
    decreases |hs|
  {
    if hs != [] {
      var before := hs[..|hs| - 1];
      LinesAreEdited(c, before, t);
      HappenEdits(Happens(c, before), hs[|hs| - 1], t);
      EditAllAppend(Typed(c.lines[t]), Received(c, before, t), Given(Happens(c, before), hs[|hs| - 1], t));
    }
  }

  // ---------------------------------------------------------------------------------------
  // Bounds, and what terminal_read returns.

  // A line being edited is at most 127 characters; a submitted one ends with its newline.
  ghost predicate LineOk(l: Line) {
    && LineShape(l)
    && (!l.entered ==> l.n <= CHAR_MAX && forall k :: 0 <= k < l.n ==> Printable(l.buf[k]))
    && (l.entered ==> l.n >= 1 && l.buf[l.n - 1] == NEWLINE &&
                      forall k :: 0 <= k < l.n - 1 ==> Printable(l.buf[k]))
  }

  predicate Edits(a: Action) {
    a.Erase? || a.Submit? || a.Pad? || a.Type?
  }

  // What a key means in the state it finds.
  function Meaning(c: Console, code: Byte): (a: Action)
    ensures a.Type? ==> Printable(a.c)
  {
    Decode(Modify(c.mods, code), code)
  }

  // The key would edit terminal t's line, whose newline has not been taken yet.
  predicate Late(c: Console, h: Happening, t: TerminalId)
    requires ConsoleOk(c)
  {
    h.Key? && c.video.visible == t && c.lines[t].entered && Edits(Meaning(c, h.code))
  }

  predicate NoneLate(c: Console, hs: seq<Happening>, t: TerminalId)
    requires ConsoleOk(c)
    decreases |hs|
  {
    hs == [] || (NoneLate(c, hs[..|hs| - 1], t) && !Late(Happens(c, hs[..|hs| - 1]), hs[|hs| - 1], t))
  }

  // Exactly when an edit would leave the array: the line already fills all 128 bytes.
  lemma OverrunsExactly(l: Line, a: Action, limit: int)
    requires LineShape(l)
    ensures Overruns(l, a, limit) <==>
            l.n == BUF_SIZE && ((a.Submit? && l.reading) || (a.Type? && limit != BUF_SIZE + 1))
  {
  }

  lemma EditKeepsLineOk(l: Line, a: Action, limit: int)
    requires LineOk(l) && (a.Type? ==> Printable(a.c))
    requires !(l.entered && Edits(a))
    ensures !Overruns(l, a, limit) && LineOk(Edit(l, a, limit))
  {
    OverrunsExactly(l, a, limit);
  }

  // One terminal's line stays in order whatever happens to the others.
  lemma HappenKeepsLine(c: Console, h: Happening, t: TerminalId)
    requires ConsoleOk(c) && LineOk(c.lines[t]) && !Late(c, h, t)
    ensures LineOk(Happen(c, h).lines[t])
  {
    match h
    case Key(code) =>
      if c.video.visible == t {
        EditKeepsLineOk(c.lines[t], Meaning(c, code), c.limit);
      }
    case _ =>
  }

  // ---------------------------------------------------------------------------------------
  // Accesses outside kb_buf.

  // The two ways: a key stored past the end, and a drain that looks before the first byte.
  predicate Faults(c: Console, h: Happening)
    requires ConsoleOk(c)
  {
    match h
    case Key(code) =>
      var l, a := c.lines[c.video.visible], Meaning(c, code);
      l.n == BUF_SIZE && ((a.Submit? && l.reading) || (a.Type? && c.limit != BUF_SIZE + 1))
    case ReadPoll => var l := c.lines[c.video.scheduled]; l.reading && l.entered && l.n == 0
    case ReadFault => var l := c.lines[c.video.scheduled]; l.reading && l.entered && l.n == 0
    case _ => false
  }

  lemma FaultsExactly(c: Console, h: Happening)
    requires ConsoleOk(c) && !c.fault
    ensures Happen(c, h).fault <==> Faults(c, h)
  {
    match h
    case Key(code) => OverrunsExactly(c.lines[c.video.visible], Meaning(c, code), c.limit);
    case _ =>
  }

  predicate NeverFaults(c: Console, hs: seq<Happening>)
    requires ConsoleOk(c)
    decreases |hs|
  {
    hs == [] || (NeverFaults(c, hs[..|hs| - 1]) && !Faults(Happens(c, hs[..|hs| - 1]), hs[|hs| - 1]))
  }

  // A run stays inside kb_buf if and only if no step finds a full line to add to or an empty
  // one to drain.
  lemma {:induction false} RunFaultsExactly(c: Console, hs: seq<Happening>)
    requires ConsoleOk(c) && !c.fault
    ensures Happens(c, hs).fault <==> !NeverFaults(c, hs)
    decreases |hs|
  {
    hide Faults, Happen, ConsoleOk;
    if hs != [] {
      var before := hs[..|hs| - 1];
      RunFaultsExactly(c, before);
      if !Happens(c, before).fault {
        FaultsExactly(Happens(c, before), hs[|hs| - 1]);
      } else {
        FaultStays(Happens(c, before), hs[|hs| - 1]);
      }
    }
  }

  lemma FaultStays(c: Console, h: Happening)
    requires ConsoleOk(c) && c.fault
    ensures Happen(c, h) == c
  {
  }

  // The shortest such run: Enter, backspace and a look at the flag, on an empty line.
  lemma EraseAfterEnterFaults(c: Console)
    requires ConsoleOk(c) && !c.fault && c.video.visible == c.video.scheduled
    requires var l := c.lines[c.video.visible]; l.reading && !l.entered && l.n == 0
    ensures Happens(c, [Key(28), Key(14), ReadPoll]).fault
  {
    hide Steps, Putc;
    EditingKeys();
    var v := c.video.visible;
    var enter: Happening, erase: Happening := Key(28), Key(14);
    var c1 := Happen(c, enter);
    var c2 := Happen(c1, erase);
    EchoKeepsVisible(c.video, Echoed(c.lines[v], Submit, c.limit));
    assert Meaning(c, 28) == Submit && c1.lines[v].n == 1 && c1.lines[v].entered;
    EchoKeepsVisible(c1.video, Echoed(c1.lines[v], Erase, c1.limit));
    assert Meaning(c1, 14) == Erase && c2.lines[v].n == 0 && c2.lines[v].entered;
    assert Faults(c2, ReadPoll);
    FaultsExactly(c2, ReadPoll);
    ThreeHappen(c, enter, erase, ReadPoll);
  }

  lemma ThreeHappen(c: Console, x: Happening, y: Happening, z: Happening)
    requires ConsoleOk(c)
    ensures Happens(c, [x, y, z]) == Happen(Happen(Happen(c, x), y), z)
  {
    hide Happen;
    assert [x, y, z][..2] == [x, y] && [x, y][..1] == [x] && [x][..0] == [];
    assert Happens(c, [x]) == Happen(c, x) && Happens(c, [x, y]) == Happen(Happens(c, [x]), y);
  }

  // No late key anywhere is enough to stay inside, and then no line being edited is longer
  // than 127 characters.
  lemma {:induction false} LinesStayInBounds(c: Console, hs: seq<Happening>)
    requires ConsoleOk(c) && !c.fault
    requires forall t: TerminalId :: LineOk(c.lines[t]) && NoneLate(c, hs, t)
    ensures !Happens(c, hs).fault && forall t: TerminalId :: LineOk(Happens(c, hs).lines[t])
    decreases |hs|
  {
    hide LineOk, Late, Happen, Faults;
    if hs != [] {
      var before, h := hs[..|hs| - 1], hs[|hs| - 1];
      LinesStayInBounds(c, before);
      var d := Happens(c, before);
      forall t: TerminalId ensures LineOk(d.lines[t]) && !Late(d, h, t) && LineOk(Happens(c, hs).lines[t]) {
        assert NoneLate(c, hs, t);
        HappenKeepsLine(d, h, t);
      }
      OnTimeIsInside(d, h);
      FaultsExactly(d, h);
    }
  }

  lemma OnTimeIsInside(c: Console, h: Happening)
    requires ConsoleOk(c) && forall t: TerminalId :: LineOk(c.lines[t]) && !Late(c, h, t)
    ensures !Faults(c, h)
  {
    var v, s := c.video.visible, c.video.scheduled;
    assert LineOk(c.lines[v]) && !Late(c, h, v) && LineOk(c.lines[s]);
  }

  // What init_terminal leaves: empty lines, nobody reading, no key held.
  function FreshConsole(v: VideoState): Console {
    Console(v, seq(MAX_TERMINALS, _ => Line(Fill(BUF_SIZE, NUL), 0, false, false, 0)),
            Modifiers(false, false, false, false, false), 0, false)
  }

  lemma FreshConsoleIsOk(v: VideoState)
    requires Ok(v)
    ensures
      var c := FreshConsole(v);
      && ConsoleOk(c) && !c.fault
      && forall t: TerminalId :: LineOk(c.lines[t]) && !c.lines[t].reading && c.lines[t].n == 0
  {
  }

  // ---------------------------------------------------------------------------------------
  // Echo agrees with the line buffer.

  // What a happening does to the display.
  function Shown(c: Console, h: Happening): seq<Event>
    requires ConsoleOk(c)
  {
    match h
    case Key(code) =>
      var a := Decode(Modify(c.mods, code), code);
      if a.Switch? then [Show(a.t)] else Echoed(c.lines[c.video.visible], a, c.limit)
    case Print(b) => if c.lines[c.video.scheduled].reading then [] else [Out(b)]
    case Tick(t) => [Run(t)]
    case _ => []
  }

  lemma OneStep(v: VideoState, e: Event)
    requires Ok(v)
    ensures Steps(v, [e]) == Step(v, e)
  {
    assert [e][..0] == [];
  }

  lemma HappenShows(c: Console, h: Happening)
    requires ConsoleOk(c) && !c.fault && !Happen(c, h).fault
    ensures Happen(c, h).video == Steps(c.video, Shown(c, h))
  {
    match h
    case Key(code) =>
      var a := Decode(Modify(c.mods, code), code);
      if a.Switch? { OneStep(c.video, Show(a.t)); }
    case Print(b) => OneStep(c.video, Out(b));
    case Tick(t) => OneStep(c.video, Run(t));
    case _ =>
  }

  predicate EchoOnly(es: seq<Event>) {
    forall k :: 0 <= k < |es| ==> es[k].Echo? || es[k].ClearScreen?
  }

  lemma {:induction false} EchoKeepsVisible(v: VideoState, es: seq<Event>)
    requires Ok(v) && EchoOnly(es)
    ensures Steps(v, es).visible == v.visible && Steps(v, es).scheduled == v.scheduled
    decreases |es|
  {
    if es != [] {
      EchoKeepsVisible(v, es[..|es| - 1]);
    }
  }

  function InputOf(e: Event): Input {
    if e.Echo? then Char(e.c) else Wipe
  }

  lemma {:induction false} EchoesGoToVisible(v: TerminalId, s: TerminalId, es: seq<Event>, t: TerminalId)
    requires EchoOnly(es)
    ensures VisibleAfter(v, es) == v
    ensures Sent(v, s, es, t) ==
            if t == v then InputsOf(es) else []
    decreases |es|
  {
    if es != [] {
      var n := |es| - 1;
      EchoesGoToVisible(v, s, es[..n], t);
      assert InputsOf(es) == InputsOf(es[..n]) + [InputOf(es[n])];
    }
  }

  lemma {:induction false} EchoesAreNeverStuck(m: Trio, es: seq<Event>)
    requires TrioOk(m) && EchoOnly(es)
    ensures NeverStuck(m, es)
    decreases |es|
  {
    if es != [] {
      EchoesAreNeverStuck(m, es[..|es| - 1]);
    }
  }

  lemma OneIsNeverStuck(m: Trio, e: Event)
    requires TrioOk(m) && !Stuck(m, e)
    ensures NeverStuck(m, [e])
  {
    assert [e][..0] == [];
  }

  lemma EchoedIsEcho(l: Line, a: Action, limit: int)
    requires LineShape(l)
    ensures EchoOnly(Echoed(l, a, limit))
  {
  }

  lemma ShownIsNeverStuck(c: Console, h: Happening)
    requires ConsoleOk(c) && Settled(c.video)
    requires h.Print? && !c.lines[c.video.scheduled].reading ==> !Stuck(Abs(c.video), Out(h.c))
    ensures NeverStuck(Abs(c.video), Shown(c, h))
  {
    assert NeverStuck(Abs(c.video), []);
    hide Echoed, EchoOnly, NeverStuck;
    match h
    case Key(code) =>
      var a := Decode(Modify(c.mods, code), code);
      if a.Switch? {
        OneIsNeverStuck(Abs(c.video), Show(a.t));
      } else {
        EchoedIsEcho(c.lines[c.video.visible], a, c.limit);
        EchoesAreNeverStuck(Abs(c.video), Shown(c, h));
      }
    case Print(b) => if Shown(c, h) != [] { OneIsNeverStuck(Abs(c.video), Out(b)); }
    case Tick(t) => OneIsNeverStuck(Abs(c.video), Run(t));
    case _ =>
  }

  // Terminal t is waiting in terminal_read; what it has echoed since tape position p is the
  // line buffer, the cursor is just after it, and none of it has scrolled away.
  ghost predicate EchoAgrees(c: Console, t: TerminalId, tp: Tape, p: int) {
    && ConsoleOk(c) && LineOk(c.lines[t]) && !c.fault && Settled(c.video)
    && c.lines[t].reading && !c.lines[t].entered
    && Shows(View(c.video, t), tp)
    && Holds(tp, p, Typed(c.lines[t]))
  }

  function TapeAfter(c: Console, h: Happening, t: TerminalId, tp: Tape): Tape
    requires ConsoleOk(c) && TapeOk(tp)
  {
    TapeReplay(tp, Sent(c.video.visible, c.video.scheduled, Shown(c, h), t))
  }

  // Ctrl-L moves the line to the top-left corner of a fresh window.
  function OriginAfter(c: Console, h: Happening, t: TerminalId, tp: Tape, p: int): int
    requires ConsoleOk(c)
  {
    if h.Key? && c.video.visible == t && Decode(Modify(c.mods, h.code), h.code).Redraw? then |tp.cells| else p
  }

  // Reading starts with an empty buffer wherever the cursor is.
  lemma ReadingStartsAgreed(c: Console, n: int)
    requires ConsoleOk(c) && !c.fault && Settled(c.video) && n > 0
    requires var l := c.lines[c.video.scheduled]; LineOk(l) && !l.reading && l.n == 0
    ensures
      var t := c.video.scheduled;
      var tp := TapeOf(View(c.video, t));
      EchoAgrees(Happen(c, ReadBegin(n)), t, tp, tp.pos)
  {
    var t := c.video.scheduled;
    var tp := TapeOf(View(c.video, t));
    assert tp.cells[tp.pos..tp.pos] == [];
  }

  function InputsOf(es: seq<Event>): seq<Input> {
    seq(|es|, k requires 0 <= k < |es| => InputOf(es[k]))
  }

  // Tape `tp` holds `text` from p up to the cursor, all of it inside the window.
  ghost predicate Holds(tp: Tape, p: int, text: seq<Byte>) {
    && TapeOk(tp) && Top(tp) <= p && tp.pos == p + |text| && tp.cells[p..tp.pos] == text
  }

  lemma BackedTape(tp: Tape, p: int, text: seq<Byte>)
    requires Holds(tp, p, text) && text != []
    ensures Holds(TapePut(tp, BACKSPACE), p, text[..|text| - 1])
  {
    var r := TapePut(tp, BACKSPACE);
    assert r == Tape(tp.cells[tp.pos - 1 := SPACE], tp.pos - 1);
    assert r.cells[p..r.pos] == tp.cells[p..r.pos] == tp.cells[p..tp.pos][..|text| - 1];
  }

  lemma ErasedTape(tp: Tape, p: int, text: seq<Byte>)
    requires Holds(tp, p, text) && text != []
    ensures Holds(TapeReplay(tp, [Char(BACKSPACE)]), p, text[..|text| - 1])
  {
    assert TapeOk(tp);
    BackedTape(tp, p, text);
    hide TapePut, Holds, TapeOk;
    assert [Char(BACKSPACE)] == [] + [Char(BACKSPACE)];
    TapeReplaySnoc(tp, [], Char(BACKSPACE));
  }

  lemma ExtendedTape(tp: Tape, p: int, text: seq<Byte>, s: seq<Byte>)
    requires Holds(tp, p, text) && |text| + |s| <= CHAR_MAX
    requires forall k :: 0 <= k < |s| ==> Printable(s[k])
    ensures Holds(TapeReplay(tp, Chars(s)), p, text + s)
  {
    hide TapeReplay, TapePut, Chars;
    TextLandsInOrder(tp, s);
    var r := TapeReplay(tp, Chars(s));
    assert r.cells[p..tp.pos] == tp.cells[p..tp.pos];
    SliceJoins(r.cells, p, tp.pos, r.pos);
  }

  lemma SliceJoins(s: seq<Byte>, a: nat, b: nat, c: nat)
    requires a <= b <= c <= |s|
    ensures s[a..c] == s[a..b] + s[b..c]
  {
  }

  lemma RedrawnTape(tp: Tape, text: seq<Byte>)
    requires TapeOk(tp) && |text| <= CHAR_MAX
    requires forall k :: 0 <= k < |text| ==> Printable(text[k])
    ensures Holds(TapeReplay(tp, [Wipe] + Chars(text)), |tp.cells|, text)
  {
    var wiped := TapeApply(tp, Wipe);
    assert wiped.cells[|tp.cells|..|tp.cells|] == [];
    TapeReplayWiped(tp, text);
    ExtendedTape(wiped, |tp.cells|, [], text);
    assert [] + text == text;
  }

  lemma AddedTape(l: Line, a: Action, limit: int, tp: Tape, p: int)
    requires LineOk(l) && l.reading && !l.entered && !a.Submit? && (a.Type? ==> Printable(a.c))
    requires !a.Redraw? && (a.Erase? ==> l.n == 0)
    requires Holds(tp, p, Typed(l))
    ensures !Overruns(l, a, limit)
    ensures Holds(TapeReplay(tp, InputsOf(Echoed(l, a, limit))), p, Typed(Edit(l, a, limit)))
  {
    assert TapeOk(tp);
    hide Holds, TapeReplay, TapeOk;
    var s := Added(l, a, limit);
    assert InputsOf(Echoed(l, a, limit)) == Chars(s);
    ExtendedTape(tp, p, Typed(l), s);
    EditKeepsLineOk(l, a, limit);
    assert Typed(Edit(l, a, limit)) == Typed(l) + s;
  }

  lemma RedrawnLine(l: Line, limit: int, tp: Tape)
    requires LineOk(l) && l.reading && !l.entered && TapeOk(tp)
    ensures !Overruns(l, Redraw, limit)
    ensures Holds(TapeReplay(tp, InputsOf(Echoed(l, Redraw, limit))), |tp.cells|, Typed(Edit(l, Redraw, limit)))
  {
    hide Holds, TapeReplay, TapeOk;
    assert InputsOf(Echoed(l, Redraw, limit)) == [Wipe] + Chars(Typed(l));
    RedrawnTape(tp, Typed(l));
    EditMatches(l, Redraw, limit);
  }

  lemma ErasedLine(l: Line, limit: int, tp: Tape, p: int)
    requires LineOk(l) && l.reading && !l.entered && l.n > 0 && Holds(tp, p, Typed(l))
    ensures !Overruns(l, Erase, limit)
    ensures Holds(TapeReplay(tp, InputsOf(Echoed(l, Erase, limit))), p, Typed(Edit(l, Erase, limit)))
  {
    hide Holds, TapeReplay, TapeOk;
    assert InputsOf(Echoed(l, Erase, limit)) == [Char(BACKSPACE)];
    ErasedTape(tp, p, Typed(l));
    EditMatches(l, Erase, limit);
  }

  // The tape side of one key on a waiting terminal's line.
  lemma EchoedTape(l: Line, a: Action, limit: int, tp: Tape, p: int)
    requires LineOk(l) && l.reading && !l.entered && !a.Submit? && (a.Type? ==> Printable(a.c))
    requires Holds(tp, p, Typed(l))
    ensures !Overruns(l, a, limit)
    ensures Holds(TapeReplay(tp, InputsOf(Echoed(l, a, limit))),
                  if a.Redraw? then |tp.cells| else p, Typed(Edit(l, a, limit)))
  {
    assert TapeOk(tp);
    hide Holds, TapeReplay, TapeOk, Typed, InputsOf, Echoed, Overruns, Edit, LineOk;
    if a.Erase? && l.n > 0 {
      ErasedLine(l, limit, tp, p);
    } else if a.Redraw? {
      RedrawnLine(l, limit, tp);
    } else {
      AddedTape(l, a, limit, tp, p);
    }
  }

  lemma {:induction false} TapeReplayWiped(tp: Tape, text: seq<Byte>)
    requires TapeOk(tp)
    ensures TapeReplay(tp, [Wipe] + Chars(text)) == TapeReplay(TapeApply(tp, Wipe), Chars(text))
    decreases |text|
  {
    if text == [] {
      assert [Wipe] + Chars(text) == [] + [Wipe];
      TapeReplaySnoc(tp, [], Wipe);
    } else {
      var n := |text| - 1;
      TapeReplayWiped(tp, text[..n]);
      assert [Wipe] + Chars(text) == ([Wipe] + Chars(text[..n])) + [Char(text[n])];
      TapeReplaySnoc(tp, [Wipe] + Chars(text[..n]), Char(text[n]));
      assert Chars(text) == Chars(text[..n]) + [Char(text[n])];
      TapeReplaySnoc(TapeApply(tp, Wipe), Chars(text[..n]), Char(text[n]));
    }
  }

  // Terminal t's line is submitted by this key.
  predicate Submits(c: Console, h: Happening, t: TerminalId)
    requires ConsoleOk(c)
  {
    h.Key? && c.video.visible == t && Decode(Modify(c.mods, h.code), h.code).Submit?
  }

  // A background process is about to get stuck.
  predicate Sticks(c: Console, h: Happening)
    requires ConsoleOk(c)
  {
    h.Print? && !c.lines[c.video.scheduled].reading && Stuck(Abs(c.video), Out(h.c))
  }

  lemma ScreenFollows(c: Console, h: Happening, t: TerminalId, tp: Tape)
    requires ConsoleOk(c) && !c.fault && !Happen(c, h).fault
    requires Settled(c.video) && !Sticks(c, h) && Shows(View(c.video, t), tp)
    ensures Settled(Happen(c, h).video)
    ensures Shows(View(Happen(c, h).video, t), TapeAfter(c, h, t, tp))
  {
    hide Happen, Shown, Shows, Steps, Stuck, NeverStuck, TrioSteps, Replay;
    HappenShows(c, h);
    ShownIsNeverStuck(c, h);
    var es := Shown(c, h);
    RunRefines(c.video, es);
    TerminalsAreIndependent(Abs(c.video), es, t);
    assert Abs(c.video).terms[t] == View(c.video, t);
    assert Abs(Steps(c.video, es)).terms[t] == View(Steps(c.video, es), t);
    ScreenIsTapeWindow(View(c.video, t), tp, Sent(c.video.visible, c.video.scheduled, es, t));
  }

  // Nothing that happens elsewhere reaches a waiting terminal's line or screen.
  lemma OthersStayAway(c: Console, h: Happening, t: TerminalId)
    requires ConsoleOk(c) && !c.fault && c.lines[t].reading && !c.lines[t].entered
    requires h.Key? ==> c.video.visible != t || Decode(Modify(c.mods, h.code), h.code).Switch?
    ensures Happen(c, h).lines[t] == c.lines[t]
    ensures Sent(c.video.visible, c.video.scheduled, Shown(c, h), t) == []
  {
    var v, s := c.video.visible, c.video.scheduled;
    match h
    case Key(code) =>
      var a := Decode(Modify(c.mods, code), code);
      if a.Switch? {
        SentOne(v, s, Show(a.t), t);
      } else {
        EchoedIsEcho(c.lines[v], a, c.limit);
        EchoesGoToVisible(v, s, Shown(c, h), t);
      }
    case Print(b) => SentOne(v, s, Out(b), t);
    case Tick(x) => SentOne(v, s, Run(x), t);
    case _ =>
  }

  lemma SentOne(v: TerminalId, s: TerminalId, e: Event, t: TerminalId)
    ensures Sent(v, s, [e], t) == Delivered(v, s, e, t)
  {
    assert [e][..0] == [];
  }

  lemma LineFollows(c: Console, h: Happening, t: TerminalId, tp: Tape, p: int)
    requires EchoAgrees(c, t, tp, p) && !Happen(c, h).fault && !Submits(c, h, t)
    ensures
      var l := Happen(c, h).lines[t];
      l.reading && !l.entered && Holds(TapeAfter(c, h, t, tp), OriginAfter(c, h, t, tp, p), Typed(l))
  {
    hide Holds, Typed, Echoed, LineOk;
    if h.Key? && c.video.visible == t && !Decode(Modify(c.mods, h.code), h.code).Switch? {
      var a := Decode(Modify(c.mods, h.code), h.code);
      EchoedIsEcho(c.lines[t], a, c.limit);
      EchoesGoToVisible(t, c.video.scheduled, Shown(c, h), t);
      EchoedTape(c.lines[t], a, c.limit, tp, p);
    } else {
      OthersStayAway(c, h, t);
    }
  }

  // One happening keeps a waiting terminal's screen and line buffer together.
  lemma EchoStep(c: Console, h: Happening, t: TerminalId, tp: Tape, p: int)
    requires EchoAgrees(c, t, tp, p) && !Happen(c, h).fault && !Submits(c, h, t) && !Sticks(c, h)
    ensures TapeOk(TapeAfter(c, h, t, tp))
    ensures EchoAgrees(Happen(c, h), t, TapeAfter(c, h, t, tp), OriginAfter(c, h, t, tp, p))
  {
    HappenKeepsLine(c, h, t);
    ScreenFollows(c, h, t, tp);
    LineFollows(c, h, t, tp, p);
  }

  // The tape and the line's position on it, after a run.
  function Through(c: Console, hs: seq<Happening>, t: TerminalId, tp: Tape, p: int): (r: (Tape, int))
    requires ConsoleOk(c) && TapeOk(tp)
    ensures TapeOk(r.0)
    decreases |hs|
  {
    if hs == [] then (tp, p)
    else
      var before := hs[..|hs| - 1];
      var r := Through(c, before, t, tp, p);
      var d := Happens(c, before);
      (TapeAfter(d, hs[|hs| - 1], t, r.0), OriginAfter(d, hs[|hs| - 1], t, r.0, r.1))
  }

  predicate Undisturbed(c: Console, hs: seq<Happening>, t: TerminalId)
    requires ConsoleOk(c)
    decreases |hs|
  {
    hs == [] ||
    (var before, h := hs[..|hs| - 1], hs[|hs| - 1];
     var d := Happens(c, before);
     Undisturbed(c, before, t) && !Submits(d, h, t) && !Sticks(d, h))
  }

  lemma NoFaultBefore(c: Console, h: Happening)
    requires ConsoleOk(c) && !Happen(c, h).fault
    ensures !c.fault
  {
  }

  // Every run up to Enter: whatever is typed, erased, padded or redrawn, with any terminal
  // switches, ticks, other terminals' output and reads in between, the terminal's screen shows
  // its line buffer from p on and the cursor is just after it.
  lemma {:induction false} EchoAgreesUntilEnter(c: Console, hs: seq<Happening>, t: TerminalId, tp: Tape, p: int)
    requires EchoAgrees(c, t, tp, p) && Undisturbed(c, hs, t) && !Happens(c, hs).fault
    ensures
      var r := Through(c, hs, t, tp, p);
      EchoAgrees(Happens(c, hs), t, r.0, r.1)
    decreases |hs|
  {
    if hs != [] {
      hide EchoAgrees, Submits, Sticks, TapeAfter, OriginAfter, Happen;
      var before := hs[..|hs| - 1];
      NoFaultBefore(Happens(c, before), hs[|hs| - 1]);
      var r := Through(c, before, t, tp, p);
      EchoAgreesUntilEnter(c, before, t, tp, p);
      EchoStep(Happens(c, before), hs[|hs| - 1], t, r.0, r.1);
    }
  }

  // What agreement means on the glass.
  lemma EchoOnScreen(c: Console, t: TerminalId, tp: Tape, p: int)
    requires EchoAgrees(c, t, tp, p)
    ensures
      var v, l := View(c.video, t), c.lines[t];
      var start := p - Top(tp);
      && 0 <= start && start + l.n < NUM_CELLS
      && NUM_COLS * v.y + v.x == start + l.n
      && (forall k :: 0 <= k < l.n ==> v.page[2 * (start + k)] == l.buf[k])
      && (l.n > 0 ==> !AtHome(v))
  {
    var v, l := View(c.video, t), c.lines[t];
    forall k | 0 <= k < l.n ensures v.page[2 * (p - Top(tp) + k)] == l.buf[k] {
      assert tp.cells[p..tp.pos][k] == Typed(l)[k];
      assert v.page[2 * (p - Top(tp) + k)] == tp.cells[Top(tp) + (p - Top(tp) + k)];
    }
  }
}
