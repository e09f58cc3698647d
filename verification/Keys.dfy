// What the keys of the keyboard do, key by key and in runs of scan codes (keyboard.c
// keyboard_handler), read off the characters printed on them.
module Keys {
  import opened Bytes
  import opened Machine
  import opened Screen
  import opened Video
  import opened Keyboard
  import opened KeyboardDriver

  // The four rows of keys: what is printed on them, without and with shift.
  const DIGIT_ROW := "1234567890-="        // scan codes 2 to 13
  const DIGIT_ROW_SHIFTED := "!@#$%^&*()_+"
  const TOP_ROW := "qwertyuiop[]"          // 16 to 27
  const TOP_ROW_SHIFTED := "QWERTYUIOP{}"
  const HOME_ROW := "asdfghjkl;'`"         // 30 to 41
  const HOME_ROW_SHIFTED := "ASDFGHJKL:\"~"
  const BOTTOM_ROW := "\\zxcvbnm,./"       // 43 to 53
  const BOTTOM_ROW_SHIFTED := "|ZXCVBNM<>?"

  predicate IsLetter(code: Byte) {
    16 <= code <= 25 || 30 <= code <= 38 || 44 <= code <= 50
  }

  function Printed(code: Byte, shifted: bool): Option<int> {
    if 2 <= code <= 13 then Some((if shifted then DIGIT_ROW_SHIFTED else DIGIT_ROW)[code - 2] as int)
    else if 16 <= code <= 27 then Some((if shifted then TOP_ROW_SHIFTED else TOP_ROW)[code - 16] as int)
    else if 30 <= code <= 41 then Some((if shifted then HOME_ROW_SHIFTED else HOME_ROW)[code - 30] as int)
    else if 43 <= code <= 53 then Some((if shifted then BOTTOM_ROW_SHIFTED else BOTTOM_ROW)[code - 43] as int)
    else match code
      case 1 => Some(27)                   // escape
      case 55 => Some('*' as int)
      case 57 => Some(' ' as int)
      case _ => None
  }

  // The character a key types: for a letter, caps lock turns the shift around.
  function Character(code: Byte, shift: bool, caps: bool): Option<int> {
    Printed(code, if IsLetter(code) then shift != caps else shift)
  }

  // ---------------------------------------------------------------------------------------
  // The table has these characters.

  lemma RowAt(code: Byte)
    requires code < 62
    ensures |SCAN_TABLE| == 62
    ensures SCAN_TABLE[code] ==
            if code < 10 then ROW_0[code]
            else if code < 20 then ROW_1[code - 10]
            else if code < 30 then ROW_2[code - 20]
            else if code < 40 then ROW_3[code - 30]
            else if code < 50 then ROW_4[code - 40]
            else ROW_5[code - 50]
  {
    var r4 := ROW_4 + ROW_5;
    var r3 := ROW_3 + r4;
    var r2 := ROW_2 + r3;
    var r1 := ROW_1 + r2;
    assert SCAN_TABLE == ROW_0 + r1;
  }

  // The table's character for a key that has one, and what is printed on the key.
  predicate Agrees(code: Byte, k: Byte) {
    && k !in {NUL, BACKSPACE, TAB, NEWLINE, RETURN} && (k == LOWER_L <==> code == 38)
    && Printed(code, false) == Some(k as int) && (IsLetter(code) <==> 97 <= k <= 122)
    && Printed(code, true) == Some(if IsLetter(code) then k - 32 else Symbol(k) as int)
  }

  lemma DigitRow(code: Byte)
    requires 2 <= code <= 13
    ensures |SCAN_TABLE| == 62 && Agrees(code, SCAN_TABLE[code])
  {
    hide SCAN_TABLE;
    RowAt(code);
  }

  lemma TopRow(code: Byte)
    requires 16 <= code <= 27
    ensures |SCAN_TABLE| == 62 && Agrees(code, SCAN_TABLE[code])
  {
    hide SCAN_TABLE;
    RowAt(code);
  }

  lemma HomeRow(code: Byte)
    requires 30 <= code <= 41
    ensures |SCAN_TABLE| == 62 && Agrees(code, SCAN_TABLE[code])
  {
    hide SCAN_TABLE;
    RowAt(code);
  }

  lemma BottomRow(code: Byte)
    requires 43 <= code <= 53
    ensures |SCAN_TABLE| == 62 && Agrees(code, SCAN_TABLE[code])
  {
    hide SCAN_TABLE;
    RowAt(code);
  }

  lemma OtherKeys(code: Byte)
    requires code in {1, 55, 57}
    ensures |SCAN_TABLE| == 62 && Agrees(code, SCAN_TABLE[code])
  {
    hide SCAN_TABLE;
    RowAt(code);
  }

  // The other keys of the table.
  lemma SpecialKeys(code: Byte)
    requires code < 62 && Printed(code, false).None?
    ensures |SCAN_TABLE| == 62
    ensures SCAN_TABLE[code] ==
            if code == 14 then BACKSPACE else if code == 15 then TAB else if code == 28 then NEWLINE else NUL
  {
    hide SCAN_TABLE;
    RowAt(code);
  }

  lemma TableAgrees(code: Byte)
    requires Printed(code, false).Some?
    ensures |SCAN_TABLE| == 62 && code < 62 && Agrees(code, SCAN_TABLE[code])
  {
    hide Agrees;
    if code <= 13 && code != 1 {
      DigitRow(code);
    } else if 16 <= code <= 27 {
      TopRow(code);
    } else if 30 <= code <= 41 {
      HomeRow(code);
    } else if 43 <= code <= 53 {
      BottomRow(code);
    } else {
      OtherKeys(code);
    }
  }

  lemma TypesWhatIsPrinted(m: Modifiers, code: Byte, k: Byte)
    requires Printed(code, false).Some? && Agrees(code, k)
    ensures Character(code, m.Shift(), m.caps) == Some(Shifted(m, k) as int)
  {
    hide Printed;
  }

  // ---------------------------------------------------------------------------------------
  // What each scan code does to the console.

  // The modifier keys: pressed and released; caps lock turns over.
  function Held(m: Modifiers, code: Byte): Modifiers {
    match code
    case 0x2A => m.(leftShift := true)
    case 0xAA => m.(leftShift := false)
    case 0x36 => m.(rightShift := true)
    case 0xB6 => m.(rightShift := false)
    case 0x1D => m.(ctrl := true)
    case 0x9D => m.(ctrl := false)
    case 0x38 => m.(alt := true)
    case 0xB8 => m.(alt := false)
    case 0x3A => m.(caps := !m.caps)
    case _ => m
  }

  // The visible line with characters added, echoed if somebody reads.
  function LineWith(c: Console, text: seq<Byte>): Console
    requires ConsoleOk(c) && c.lines[c.video.visible].n + |text| <= 128
  {
    var v := c.video.visible;
    var l := c.lines[v];
    c.(lines := c.lines[v := l.(buf := l.buf[..l.n] + text + l.buf[l.n + |text|..], n := l.n + |text|)],
       video := if l.reading then Steps(c.video, Echoes(text)) else c.video)
  }

  // A line takes 127 characters, and one less than the reader asked for.
  function Room(n: int, limit: int): int {
    (if limit - 1 < 127 then limit - 1 else 127) - n
  }

  function Erased(c: Console): Console
    requires ConsoleOk(c)
  {
    var v := c.video.visible;
    var l := c.lines[v];
    if l.n == 0 then c
    else c.(lines := c.lines[v := l.(n := l.n - 1)],
            video := if l.reading then Putc(c.video, BACKSPACE, true) else c.video)
  }

  function Tabbed(c: Console): Console
    requires ConsoleOk(c)
  {
    var room := Room(c.lines[c.video.visible].n, c.limit);
    if room <= 0 then c else LineWith(c, Fill(if room < 8 then room else 8, 32))
  }

  function Entered(c: Console): Console
    requires ConsoleOk(c)
  {
    var v := c.video.visible;
    var l := c.lines[v];
    if !l.reading then c
    else if l.n == 128 then c.(fault := true)
    else
      var d := LineWith(c, [10]);
      d.(lines := d.lines[v := d.lines[v].(entered := true)])
  }

  function Redrawn(c: Console): Console
    requires ConsoleOk(c)
  {
    var l := c.lines[c.video.visible];
    c.(video := if l.reading then Steps(c.video, [ClearScreen] + Echoes(Typed(l))) else Clear(c.video))
  }

  // A character is ignored at the two limits only.
  function TypedIn(c: Console, x: Byte): Console
    requires ConsoleOk(c)
  {
    var l := c.lines[c.video.visible];
    if l.n == 127 || l.n == c.limit - 1 then c
    else if l.n == 128 then c.(fault := true)
    else LineWith(c, [x])
  }

  // All 256 scan codes.
  function Pressed(c: Console, code: Byte): Console
    requires ConsoleOk(c)
  {
    var m := c.mods;
    if Held(m, code) != m || code in {0x2A, 0x36, 0x1D, 0x38, 0x3A} || code >= 0x3E then c.(mods := Held(m, code))
    else if code == 14 then Erased(c)
    else if code == 15 then Tabbed(c)
    else if code == 28 then Entered(c)
    else if code == 38 && m.ctrl then Redrawn(c)
    else if 0x3B <= code <= 0x3D then (if m.alt then c.(video := SwitchVisible(c.video, code - 0x3B)) else c)
    else match Character(code, m.leftShift || m.rightShift, m.caps)
      case Some(x) => TypedIn(c, if 0 <= x < 256 then x else 0)
      case None => c
  }

  lemma LineWithOne(c: Console, x: Byte)
    requires ConsoleOk(c) && c.lines[c.video.visible].n < 128
    ensures
      var v := c.video.visible;
      var l := c.lines[v];
      LineWith(c, [x]) ==
        c.(lines := c.lines[v := l.(buf := l.buf[l.n := x], n := l.n + 1)],
           video := if l.reading then Putc(c.video, x, true) else c.video)
  {
    hide Putc;
    var l := c.lines[c.video.visible];
    assert l.buf[..l.n] + [x] + l.buf[l.n + 1..] == l.buf[l.n := x];
    assert Echoes([x]) == [Echo(x)];
    OneStep(c.video, Echo(x));
  }

  lemma ErasesSo(c: Console)
    requires ConsoleOk(c)
    ensures Act(c, Erase) == Erased(c)
  {
    hide Putc, Act;
    EraseActs(c);
  }

  lemma PadsSo(c: Console)
    requires ConsoleOk(c)
    ensures Act(c, Pad) == Tabbed(c)
  {
    hide Putc, Act, Steps;
    PadActs(c);
  }

  lemma EntersSo(c: Console)
    requires ConsoleOk(c)
    ensures Act(c, Submit) == Entered(c)
  {
    hide Putc, Act, Steps, LineWith;
    var l := c.lines[c.video.visible];
    if !l.reading {
      AddsNothing(c, Submit);
    } else {
      OneKeyActs(c, Submit, 10);
      if l.n < 128 {
        LineWithOne(c, 10);
      }
    }
  }

  lemma TypesSo(c: Console, x: Byte)
    requires ConsoleOk(c)
    ensures Act(c, Type(x)) == TypedIn(c, x)
  {
    hide Putc, Act, Steps, LineWith;
    var l := c.lines[c.video.visible];
    if l.n == 127 || l.n == c.limit - 1 {
      AddsNothing(c, Type(x));
    } else {
      OneKeyActs(c, Type(x), x);
      if l.n < 128 {
        LineWithOne(c, x);
      }
    }
  }

  lemma RedrawsSo(c: Console)
    requires ConsoleOk(c)
    ensures Act(c, Redraw) == Redrawn(c)
  {
    hide Putc, Act, Steps;
    RedrawActs(c);
  }

  lemma HeldIsModify(m: Modifiers, code: Byte)
    ensures Modify(m, code) == Held(m, code)
    ensures Swallowed(code) <==> code in {0x2A, 0x36, 0x1D, 0x38, 0x3A} || code >= 0x3E
    ensures !Swallowed(code) ==> Held(m, code) == m
  {
  }

  lemma PrintedKey(c: Console, code: Byte)
    requires ConsoleOk(c) && !c.fault && Printed(code, false).Some?
    ensures Happen(c, Key(code)) == Pressed(c, code)
  {
    hide SCAN_TABLE, Act, Shifted, Printed, Redrawn, TypedIn;
    NotSpecial(code);
    HeldIsModify(c.mods, code);
    TableAgrees(code);
    var k := SCAN_TABLE[code];
    TypesWhatIsPrinted(c.mods, code, k);
    RedrawsSo(c);
    TypesSo(c, Shifted(c.mods, k));
  }

  lemma NotSpecial(code: Byte)
    requires Printed(code, false).Some?
    ensures code < 0x3B && code !in {14, 15, 28, 0x2A, 0x36, 0x1D, 0x38, 0x3A}
  {
  }

  lemma UnprintedKey(c: Console, code: Byte)
    requires ConsoleOk(c) && !c.fault && Printed(code, false).None?
    ensures Happen(c, Key(code)) == Pressed(c, code)
  {
    hide SCAN_TABLE, Act, Modify, Swallowed, Held, Shifted, Erased, Tabbed, Entered, Redrawn, TypedIn;
    HeldIsModify(c.mods, code);
    NothingActs(c.(mods := Held(c.mods, code)));
    if !Swallowed(code) {
      SpecialKeys(code);
      ErasesSo(c);
      PadsSo(c);
      EntersSo(c);
      NeitherPrinted(code, c.mods);
      SwitchActs(c, code);
    }
  }

  lemma NeitherPrinted(code: Byte, m: Modifiers)
    requires Printed(code, false).None?
    ensures Character(code, m.leftShift || m.rightShift, m.caps).None? && code != 38
  {
  }

  lemma SwitchActs(c: Console, code: Byte)
    requires ConsoleOk(c)
    ensures 0x3B <= code <= 0x3D ==>
              Act(c, Switch(code - 0x3B)) == c.(video := SwitchVisible(c.video, code - 0x3B))
  {
  }

  // The handler does exactly this, for every scan code and every state of the keys held.
  lemma KeyDoes(c: Console, code: Byte)
    requires ConsoleOk(c) && !c.fault
    ensures Happen(c, Key(code)) == Pressed(c, code)
  {
    hide Happen, Pressed;
    if Printed(code, false).Some? {
      PrintedKey(c, code);
    } else {
      UnprintedKey(c, code);
    }
  }

  // ---------------------------------------------------------------------------------------
  // Runs of scan codes.

  // Alt held: the function keys F1, F2 and F3 show terminals 0, 1 and 2 and touch no line.
  lemma AltShowsTerminal(c: Console, t: TerminalId)
    requires ConsoleOk(c) && !c.fault
    ensures
      var r := Happen(c, Key(0x3B + t));
      && r.video.visible == (if c.mods.alt then t else c.video.visible)
      && r.lines == c.lines && r.mods == c.mods && r.limit == c.limit && !r.fault
      && (!c.mods.alt ==> r == c)
  {
    hide Happen, Character;
    KeyDoes(c, 0x3B + t);
  }

  lemma TwoKeys(c: Console, x: Byte, y: Byte)
    requires ConsoleOk(c)
    ensures Happens(c, [Key(x), Key(y)]) == Happen(Happen(c, Key(x)), Key(y))
  {
    hide Happen;
    assert [Key(x), Key(y)][..1] == [Key(x)] && [Key(x)][..0] == [];
    assert Happens(c, [Key(x)]) == Happen(c, Key(x));
  }

  lemma AltThenFunctionKey(c: Console, t: TerminalId)
    requires ConsoleOk(c) && !c.fault
    ensures
      var r := Happens(c, [Key(0x38), Key(0x3B + t)]);
      r.video.visible == t && r.lines == c.lines
  {
    hide Happen, Happens, Character;
    KeyDoes(c, 0x38);
    TwoKeys(c, 0x38, 0x3B + t);
    AltShowsTerminal(Happen(c, Key(0x38)), t);
  }

  // A key released undoes its press, and two presses of caps lock undo each other.
  lemma ReleaseUndoesPress(c: Console, key: Byte)
    requires ConsoleOk(c) && !c.fault
    requires match key
      case 0x2A => !c.mods.leftShift
      case 0x36 => !c.mods.rightShift
      case 0x1D => !c.mods.ctrl
      case 0x38 => !c.mods.alt
      case _ => false
    ensures Happens(c, [Key(key), Key(key + 0x80)]) == c
  {
    hide Happen, Happens, Character;
    TwoKeys(c, key, key + 0x80);
    KeyDoes(c, key);
    KeyDoes(Happen(c, Key(key)), key + 0x80);
  }

  lemma CapsTwiceIsNothing(c: Console)
    requires ConsoleOk(c) && !c.fault
    ensures Happens(c, [Key(0x3A), Key(0x3A)]) == c
  {
    hide Happen, Happens, Character;
    TwoKeys(c, 0x3A, 0x3A);
    KeyDoes(c, 0x3A);
    KeyDoes(Happen(c, Key(0x3A)), 0x3A);
  }

  // Whether the key with these codes is down after a run.
  predicate Down(hs: seq<Happening>, press: Byte, before: bool)
    requires press < 0x80
    decreases |hs|
  {
    if hs == [] then before
    else if hs[|hs| - 1] == Key(press) then true
    else if hs[|hs| - 1] == Key(press + 0x80) then false
    else Down(hs[..|hs| - 1], press, before)
  }

  predicate CapsOn(hs: seq<Happening>, before: bool)
    decreases |hs|
  {
    if hs == [] then before
    else if hs[|hs| - 1] == Key(0x3A) then !CapsOn(hs[..|hs| - 1], before)
    else CapsOn(hs[..|hs| - 1], before)
  }

  // The modifier keys that are down after a run, read off its scan codes.
  function HeldAfter(m: Modifiers, hs: seq<Happening>): Modifiers {
    Modifiers(Down(hs, 0x2A, m.leftShift), Down(hs, 0x36, m.rightShift), Down(hs, 0x1D, m.ctrl),
              CapsOn(hs, m.caps), Down(hs, 0x38, m.alt))
  }

  lemma KeysHeldStep(c: Console, h: Happening)
    requires ConsoleOk(c) && !c.fault
    ensures Happen(c, h).mods == if h.Key? then Held(c.mods, h.code) else c.mods
  {
    hide Character, Held, Putc, Steps;
    if h.Key? {
      HeldIsModify(c.mods, h.code);
      KeyDoes(c, h.code);
    }
  }

  lemma {:induction false} KeysHeldFollow(c: Console, hs: seq<Happening>)
    requires ConsoleOk(c) && !Happens(c, hs).fault
    ensures Happens(c, hs).mods == HeldAfter(c.mods, hs)
    decreases |hs|
  {
    hide Happen;
    if hs != [] {
      var before, h := hs[..|hs| - 1], hs[|hs| - 1];
      NoFaultBefore(Happens(c, before), h);
      KeysHeldFollow(c, before);
      KeysHeldStep(Happens(c, before), h);
    }
  }

  // In every run: the next key that has a character types the one printed on it, by the shift
  // keys that are down and by how often caps lock was pressed (Ctrl-L apart).
  lemma KeyTypesCharacter(c: Console, hs: seq<Happening>, code: Byte, x: Byte)
    requires ConsoleOk(c) && !Happens(c, hs).fault
    requires
      var m := HeldAfter(c.mods, hs);
      Character(code, m.leftShift || m.rightShift, m.caps) == Some(x as int) && !(code == 38 && m.ctrl)
    ensures Happen(Happens(c, hs), Key(code)) == TypedIn(Happens(c, hs), x)
  {
    hide Happen, Happens, TypedIn, Printed;
    KeysHeldFollow(c, hs);
    KeyDoes(Happens(c, hs), code);
    CharactersArePrinted(code, HeldAfter(c.mods, hs));
  }

  lemma CharactersArePrinted(code: Byte, m: Modifiers)
    requires Character(code, m.leftShift || m.rightShift, m.caps).Some?
    ensures code < 0x3B && code !in {14, 15, 28, 0x2A, 0x36, 0x1D, 0x38, 0x3A}
  {
  }

  lemma LetterCases(code: Byte)
    requires IsLetter(code)
    ensures Printed(code, false).Some? && Printed(code, true).Some?
    ensures 97 <= Printed(code, false).value <= 122 && Printed(code, true).value == Printed(code, false).value - 32
  {
    hide SCAN_TABLE;
    TableAgrees(code);
  }

  // Caps lock turns the case of the next letter over.
  lemma CapsTurnsLetter(c: Console, code: Byte) returns (x: Byte, y: Byte)
    requires ConsoleOk(c) && !c.fault && IsLetter(code) && !c.mods.ctrl
    ensures x == y + 32 || y == x + 32
    ensures Happen(c, Key(code)) == TypedIn(c, x)
    ensures Happens(c, [Key(0x3A), Key(code)]) == TypedIn(Happen(c, Key(0x3A)), y)
  {
    hide Happen, Happens, TypedIn, Printed;
    LetterCases(code);
    var m := c.mods;
    var shift := m.leftShift || m.rightShift;
    x, y := Character(code, shift, m.caps).value, Character(code, shift, !m.caps).value;
    TwoKeys(c, 0x3A, code);
    KeyDoes(c, 0x3A);
    KeyDoes(c, code);
    KeyDoes(Happen(c, Key(0x3A)), code);
    CharactersArePrinted(code, m);
  }
}
