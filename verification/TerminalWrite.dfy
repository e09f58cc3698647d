// The writing side of a terminal (terminal.c terminal_write): a process's bytes, and after the
// shell's prompt whatever the user has typed ahead.
module TerminalDriver {
  import opened Bytes
  import opened Screen
  import opened Video
  import opened Keyboard
  import opened DisplayDriver
  import opened KeyboardDriver
  import opened Keys
  import Strings

  // "391OS> ", as a C string.
  const PROMPT: seq<Byte> := [51, 57, 49, 79, 83, 62, 32, 0]
  const PROMPT_LENGTH := 7

  function Outs(s: seq<Byte>): (es: seq<Event>)
    ensures |es| == |s|
  {
    seq(|s|, k requires 0 <= k < |s| => Out(s[k]))
  }

  predicate StartsWithPrompt(buf: seq<Byte>) {
    Strings.Text(buf, PROMPT_LENGTH) == Strings.Text(PROMPT, PROMPT_LENGTH)
  }

  // What is printed: the caller's n bytes, then after the prompt the type-ahead.
  function Text(c: Console, buf: seq<Byte>, n: nat, shellsUp: bool): seq<Byte>
    requires ConsoleOk(c) && n <= |buf|
  {
    buf[..n] + if shellsUp && StartsWithPrompt(buf) then Typed(c.lines[c.video.scheduled]) else []
  }

  function Written(c: Console, text: seq<Byte>): (r: Console)
    requires ConsoleOk(c)
    ensures ConsoleOk(r)
  {
    c.(video := Steps(c.video, Outs(text)))
  }

  lemma OutsSnoc(text: seq<Byte>, b: Byte)
    ensures Outs(text + [b]) == Outs(text) + [Out(b)]
  {
  }

  lemma WrittenSnoc(c: Console, text: seq<Byte>, b: Byte)
    requires ConsoleOk(c)
    ensures Written(c, text + [b]) == Written(c, text).(video := Putc(Written(c, text).video, b, false))
  {
    hide Putc;
    OutsSnoc(text, b);
    StepsSnoc(c.video, Outs(text), Out(b));
  }

  lemma WrittenNone(c: Console)
    requires ConsoleOk(c)
    ensures Written(c, []) == c
  {
    assert Outs([]) == [];
  }

  lemma {:induction false} WrittenAppend(c: Console, a: seq<Byte>, b: seq<Byte>)
    requires ConsoleOk(c)
    ensures Written(Written(c, a), b) == Written(c, a + b)
    decreases |b|
  {
    hide Putc, ConsoleOk, Written;
    if b == [] {
      WrittenNone(Written(c, a));
      assert a + b == a;
    } else {
      var most, last := b[..|b| - 1], b[|b| - 1];
      WrittenAppend(c, a, most);
      WrittenSnoc(Written(c, a), most, last);
      WrittenSnoc(c, a + most, last);
      assert b == most + [last] && a + b == (a + most) + [last];
    }
  }

  lemma {:induction false} OutsKeepRouting(v: TerminalId, s: TerminalId, text: seq<Byte>, t: TerminalId)
    ensures VisibleAfter(v, Outs(text)) == v && ScheduledAfter(s, Outs(text)) == s
    ensures Sent(v, s, Outs(text), t) == if t == s then Chars(text) else []
    decreases |text|
  {
    if text != [] {
      var most, last := text[..|text| - 1], text[|text| - 1];
      OutsKeepRouting(v, s, most, t);
      OutsSnoc(most, last);
      assert text == most + [last];
      assert Outs(text)[..|text| - 1] == Outs(most);
      assert Chars(text) == Chars(most) + [Char(last)];
    }
  }

  lemma {:induction false} StepsKeepScheduled(v: VideoState, text: seq<Byte>)
    requires Ok(v)
    ensures Steps(v, Outs(text)).scheduled == v.scheduled && Steps(v, Outs(text)).visible == v.visible
    decreases |text|
  {
    if text != [] {
      var most := text[..|text| - 1];
      StepsKeepScheduled(v, most);
      assert Outs(text)[..|text| - 1] == Outs(most);
    }
  }

  // terminal_write reaches the scheduled terminal's tape, in order, and no other terminal,
  // whichever terminal is visible.
  lemma WriteReachesOneTerminal(c: Console, text: seq<Byte>, t: TerminalId)
    requires ConsoleOk(c) && Settled(c.video) && NeverStuck(Abs(c.video), Outs(text))
    ensures
      var r, s := Written(c, text), c.video.scheduled;
      && Settled(r.video) && r.video.visible == c.video.visible && r.video.scheduled == s
      && (t != s ==> View(r.video, t) == View(c.video, t))
      && Shows(View(r.video, s), TapeReplay(TapeOf(View(c.video, s)), Chars(text)))
  {
    hide Putc, NeverStuck, TapeReplay, Shows, Settled, TrioSteps, Steps, Abs, View, Sent, Replay, TapeOf, Outs, InRange;
    hide VisibleAfter, ScheduledAfter, Ok;
    SettledTape(c.video, t);
    var s := c.video.scheduled;
    TrioFacts(c.video, t);
    NoInputs(View(c.video, t));
    StepsKeepScheduled(c.video, text);
    RunRefines(c.video, Outs(text));
    SettledTape(Steps(c.video, Outs(text)), t);
    TrioFacts(Steps(c.video, Outs(text)), t);
    OutsKeepRouting(c.video.visible, s, text, t);
    OutsKeepRouting(c.video.visible, s, text, s);
    TerminalsAreIndependent(Abs(c.video), Outs(text), t);
    EachTerminalShowsItsOwnTape(c.video, Outs(text), s);
  }

  lemma NoInputs(t: Term)
    requires InRange(t)
    ensures Replay(t, []) == t
  {
  }

  lemma TrioFacts(v: VideoState, t: TerminalId)
    requires Shape(v)
    ensures Abs(v).terms[t] == View(v, t) && Abs(v).visible == v.visible && Abs(v).scheduled == v.scheduled
  {
  }

  // Plain text, such as a prompt and a line being edited, is on the tape character for
  // character after what was there.
  lemma PlainTextLands(c: Console, text: seq<Byte>)
    requires ConsoleOk(c) && Settled(c.video) && forall k :: 0 <= k < |text| ==> Printable(text[k])
    ensures
      var s := c.video.scheduled;
      var before := TapeOf(View(c.video, s));
      exists after :: Shows(View(Written(c, text).video, s), after) && Wrote(before, after, text)
  {
    hide Putc, Shows, Wrote, TapeReplay, Settled, NeverStuck;
    var s := c.video.scheduled;
    var before := TapeOf(View(c.video, s));
    SettledTape(c.video, s);
    PlainIsNeverStuck(Abs(c.video), text);
    WriteReachesOneTerminal(c, text, s);
    TextLandsInOrder(before, text);
    assert Shows(View(Written(c, text).video, s), TapeReplay(before, Chars(text)));
  }

  lemma SettledTape(v: VideoState, t: TerminalId)
    requires Settled(v)
    ensures Ok(v) && Shape(v) && InRange(View(v, t)) && TapeOk(TapeOf(View(v, t))) && TrioOk(Abs(v))
  {
  }

  lemma {:induction false} PlainIsNeverStuck(m: Trio, text: seq<Byte>)
    requires TrioOk(m) && forall k :: 0 <= k < |text| ==> Printable(text[k])
    ensures NeverStuck(m, Outs(text))
    decreases |text|
  {
    if text != [] {
      PlainIsNeverStuck(m, text[..|text| - 1]);
      assert Outs(text)[..|text| - 1] == Outs(text[..|text| - 1]);
    }
  }

  // When the shell writes its prompt and then reads, what was typed ahead is on the screen after
  // the prompt, and screen and line buffer start in agreement with it.
  lemma PromptThenReadAgrees(c: Console, n: int)
    requires ConsoleOk(c) && !c.fault && Settled(c.video) && n > 0
    requires var l := c.lines[c.video.scheduled]; LineOk(l) && !l.reading && !l.entered
    ensures
      var t := c.video.scheduled;
      var before := TapeOf(View(c.video, t));
      var after := TapeReplay(before, Chars(PROMPT[..PROMPT_LENGTH] + Typed(c.lines[t])));
      var d := Written(c, Text(c, PROMPT, PROMPT_LENGTH, true));
      EchoAgrees(Happen(d, ReadBegin(n)), t, after, before.pos + PROMPT_LENGTH)
  {
    hide Putc, Shows, TapeReplay, Settled, NeverStuck, TapeOf, Strings.Text, TapeOk, Steps, View;
    var t := c.video.scheduled;
    SettledTape(c.video, t);
    var before, typed := TapeOf(View(c.video, t)), Typed(c.lines[t]);
    var text := PROMPT[..PROMPT_LENGTH] + typed;
    HasPromptItself();
    PlainPrompt(c.lines[t]);
    PlainIsNeverStuck(Abs(c.video), text);
    WriteReachesOneTerminal(c, text, t);
    TextLandsInOrder(before, text);
    TypedIsHeld(before, TapeReplay(before, Chars(text)), PROMPT[..PROMPT_LENGTH], typed);
  }

  lemma PlainPrompt(l: Line)
    requires LineOk(l) && !l.entered
    ensures |Typed(l)| <= CHAR_MAX
    ensures var text := PROMPT[..PROMPT_LENGTH] + Typed(l); forall k :: 0 <= k < |text| ==> Printable(text[k])
  {
  }

  // The second of two texts written one after the other is where the first ended.
  lemma TypedIsHeld(a: Tape, b: Tape, first: seq<Byte>, second: seq<Byte>)
    requires TapeOk(a) && TapeOk(b) && Wrote(a, b, first + second) && |first| + |second| <= 2 * CHAR_MAX
    ensures Holds(b, a.pos + |first|, second)
  {
    assert b.cells[a.pos + |first|..b.pos] == b.cells[a.pos..b.pos][|first|..];
  }

  // ---------------------------------------------------------------------------------------

  // The printing loop.
  method PutAll(dev: KeyboardDevice, buf: seq<Byte>, n: nat)
    requires dev.Valid() && ConsoleOk(dev.State()) && n <= |buf|
    modifies dev.display, dev.display.phys
    ensures dev.Valid() && dev.State() == Written(old(dev.State()), buf[..n])
  {
    hide Putc, Frames, Display.State, Written, Steps;
    ghost var c := dev.State();
    WrittenNone(c);
    assert buf[..0] == [];
    var i := 0;
    while i < n
      invariant 0 <= i <= n && dev.Valid() && dev.State() == Written(c, buf[..i])
    {
      WrittenSnoc(c, buf[..i], buf[i]);
      assert buf[..i + 1] == buf[..i] + [buf[i]];
      dev.display.PutChar(buf[i], false);
      i := i + 1;
    }
  }

  predicate Reprints(buf: seq<Byte>, shellsUp: bool) {
    shellsUp && StartsWithPrompt(buf)
  }

  // terminal_write of a buffer, and the calls it makes on the line buffer, are over within this
  // many calls. Nothing writes to the line buffer meanwhile.
  predicate EndsWithin(lineBuf: seq<Byte>, buf: seq<Byte>, shellsUp: bool, calls: nat)
    decreases calls
  {
    calls > 0 && (Reprints(buf, shellsUp) ==> EndsWithin(lineBuf, lineBuf, shellsUp, calls - 1))
  }

  lemma {:induction false} PromptInLineNeverEnds(lineBuf: seq<Byte>, shellsUp: bool, calls: nat)
    requires Reprints(lineBuf, shellsUp)
    ensures !EndsWithin(lineBuf, lineBuf, shellsUp, calls)
  {
    if calls > 0 {
      PromptInLineNeverEnds(lineBuf, shellsUp, calls - 1);
    }
  }

  // The reprint is terminal_write on the line buffer, and it asks again whether that begins
  // with the prompt: all of kb_buf's bytes count, those already erased too. If both buffers begin
  // with it the calls never end; otherwise two are all there are.
  lemma ReprintEndsExactly(lineBuf: seq<Byte>, buf: seq<Byte>, shellsUp: bool)
    ensures Reprints(buf, shellsUp) && Reprints(lineBuf, shellsUp) ==>
              forall calls: nat :: !EndsWithin(lineBuf, buf, shellsUp, calls)
    ensures !(Reprints(buf, shellsUp) && Reprints(lineBuf, shellsUp)) ==> EndsWithin(lineBuf, buf, shellsUp, 2)
  {
    hide Reprints;
    if Reprints(buf, shellsUp) && Reprints(lineBuf, shellsUp) {
      forall calls: nat ensures !EndsWithin(lineBuf, buf, shellsUp, calls) {
        if calls > 0 {
          PromptInLineNeverEnds(lineBuf, shellsUp, calls - 1);
        }
      }
    }
  }

  // An input for the endless case: the prompt itself, typed ahead while nothing reads. The keys
  // are 3, 9, 1, left shift, o, s, full stop, left shift released and space.
  const PROMPT_KEYS: seq<Byte> := [4, 10, 2, 0x2A, 24, 31, 52, 0xAA, 57]

  // A key that types x on a line that nobody reads and that has room.
  lemma KeyTypes(c: Console, code: Byte, x: Byte)
    requires ConsoleOk(c) && !c.fault && code != 38
    requires Character(code, c.mods.leftShift || c.mods.rightShift, c.mods.caps) == Some(x as int)
    requires var l := c.lines[c.video.visible]; !l.reading && l.n < CHAR_MAX && l.n != c.limit - 1
    ensures
      var v := c.video.visible;
      var l := c.lines[v];
      Happen(c, Key(code)) == c.(lines := c.lines[v := l.(buf := l.buf[l.n := x], n := l.n + 1)])
  {
    hide Printed, Happen, Putc, LineWith;
    CharactersArePrinted(code, c.mods);
    KeyDoes(c, code);
    LineWithOne(c, x);
  }

  predicate NoShift(m: Modifiers) {
    !m.leftShift && !m.rightShift && !m.caps
  }

  function Presses(codes: seq<Byte>): (hs: seq<Happening>)
    ensures |hs| == |codes|
  {
    seq(|codes|, i requires 0 <= i < |codes| => Key(codes[i]))
  }

  // After the first i keys: n characters of the prompt are typed, and the left shift key is as
  // given.
  predicate Ahead(c: Console, i: nat, n: nat, shift: bool)
    requires ConsoleOk(c) && i <= |PROMPT_KEYS| && n <= PROMPT_LENGTH
  {
    var d := Happens(c, Presses(PROMPT_KEYS[..i]));
    && !d.fault && d.video == c.video && d.limit == c.limit && d.mods == c.mods.(leftShift := shift)
    && var l := d.lines[c.video.visible]; !l.reading && l.n == n && Typed(l) == PROMPT[..n]
  }

  lemma PressOneMore(c: Console, i: nat)
    requires ConsoleOk(c) && i < |PROMPT_KEYS|
    ensures Happens(c, Presses(PROMPT_KEYS[..i + 1])) ==
            Happen(Happens(c, Presses(PROMPT_KEYS[..i])), Key(PROMPT_KEYS[i]))
  {
    hide Happen;
    assert Presses(PROMPT_KEYS[..i + 1])[..i] == Presses(PROMPT_KEYS[..i]);
  }

  lemma TypesNext(c: Console, i: nat, n: nat, shift: bool)
    requires ConsoleOk(c) && NoShift(c.mods) && !(1 <= c.limit <= PROMPT_LENGTH)
    requires i < |PROMPT_KEYS| && n < PROMPT_LENGTH && Ahead(c, i, n, shift) && PROMPT_KEYS[i] != 38
    requires Character(PROMPT_KEYS[i], shift, false) == Some(PROMPT[n] as int)
    ensures Ahead(c, i + 1, n + 1, shift)
  {
    hide Printed, Happen, Happens;
    var d := Happens(c, Presses(PROMPT_KEYS[..i]));
    KeyTypes(d, PROMPT_KEYS[i], PROMPT[n]);
    PressOneMore(c, i);
    assert PROMPT[..n] + [PROMPT[n]] == PROMPT[..n + 1];
    var l := d.lines[c.video.visible];
    assert l.buf[l.n := PROMPT[n]][..l.n + 1] == l.buf[..l.n] + [PROMPT[n]];
  }

  lemma ShiftsNext(c: Console, i: nat, n: nat, shift: bool)
    requires ConsoleOk(c) && NoShift(c.mods) && i < |PROMPT_KEYS| && n <= PROMPT_LENGTH
    requires Ahead(c, i, n, !shift) && PROMPT_KEYS[i] == if shift then 0x2A else 0xAA
    ensures Ahead(c, i + 1, n, shift)
  {
    hide Happen, Happens, Character;
    var d := Happens(c, Presses(PROMPT_KEYS[..i]));
    KeyDoes(d, PROMPT_KEYS[i]);
    PressOneMore(c, i);
  }

  lemma PromptIsTyped(c: Console)
    requires ConsoleOk(c) && !c.fault && NoShift(c.mods) && !(1 <= c.limit <= PROMPT_LENGTH)
    requires var l := c.lines[c.video.visible]; !l.reading && l.n == 0
    ensures Ahead(c, |PROMPT_KEYS|, PROMPT_LENGTH, false)
  {
    hide Happen, Ahead;
    NothingAhead(c);
    TypesNext(c, 0, 0, false);
    TypesNext(c, 1, 1, false);
    TypesNext(c, 2, 2, false);
    ShiftsNext(c, 3, 3, true);
    TypesNext(c, 4, 3, true);
    TypesNext(c, 5, 4, true);
    TypesNext(c, 6, 5, true);
    ShiftsNext(c, 7, 6, false);
    TypesNext(c, 8, 6, false);
  }

  lemma NothingAhead(c: Console)
    requires ConsoleOk(c) && !c.fault && NoShift(c.mods)
    requires var l := c.lines[c.video.visible]; !l.reading && l.n == 0
    ensures Ahead(c, 0, 0, false)
  {
    assert Presses(PROMPT_KEYS[..0]) == [];
  }

  // From any console on which nothing is typed or read at the visible terminal and no shift or
  // caps lock is on, these keys make the next prompt's terminal_write call itself without end.
  lemma TypedPromptNeverEnds(c: Console)
    requires ConsoleOk(c) && !c.fault && NoShift(c.mods) && !(1 <= c.limit <= PROMPT_LENGTH)
    requires var l := c.lines[c.video.visible]; !l.reading && l.n == 0
    ensures
      var d := Happens(c, Presses(PROMPT_KEYS));
      var lineBuf := d.lines[c.video.visible].buf;
      && !d.fault && d.video == c.video && Reprints(lineBuf, true)
      && forall calls: nat :: !EndsWithin(lineBuf, PROMPT, true, calls)
  {
    hide Happens, Reprints;
    PromptIsTyped(c);
    assert PROMPT_KEYS[..|PROMPT_KEYS|] == PROMPT_KEYS;
    var l := Happens(c, Presses(PROMPT_KEYS)).lines[c.video.visible];
    HasPrompt(l);
    HasPromptItself();
    ReprintEndsExactly(l.buf, PROMPT, true);
  }

  lemma HasPromptItself()
    ensures Reprints(PROMPT, true)
  {
  }

  lemma HasPrompt(l: Line)
    requires LineShape(l) && Typed(l) == PROMPT[..PROMPT_LENGTH]
    ensures Reprints(l.buf, true)
  {
    forall i | 0 <= i < PROMPT_LENGTH ensures l.buf[i] == PROMPT[i] != NUL {
      assert l.buf[i] == Typed(l)[i] == PROMPT[..PROMPT_LENGTH][i];
    }
    var a, b := Strings.Text(l.buf, PROMPT_LENGTH), Strings.Text(PROMPT, PROMPT_LENGTH);
    assert |a| == |b| == PROMPT_LENGTH;
  }

  method TerminalWrite(dev: KeyboardDevice, buf: seq<Byte>, n: int, shellsUp: bool) returns (r: int)
    requires dev.Valid() && ConsoleOk(dev.State()) && n <= |buf|
    requires PROMPT_LENGTH <= |buf| || NUL in buf
    requires n >= 0 && Reprints(buf, shellsUp) ==>
               !Reprints(dev.State().lines[dev.display.scheduled].buf, shellsUp)
    modifies dev.display, dev.display.phys
    ensures dev.Valid() && r == if n < 0 then -1 else n
    ensures dev.State() ==
              if n < 0 then old(dev.State()) else Written(old(dev.State()), Text(old(dev.State()), buf, n, shellsUp))
    decreases if Reprints(buf, shellsUp) then 1 else 0
  {
    hide Putc, Frames, Display.State, Written, Steps, Text, Strings.Text, ConsoleOk, LineShape, Typed;
    if n < 0 {
      return -1;
    }
    ghost var c := dev.State();
    ConsoleFacts(c);
    TextFacts(c, buf, n, shellsUp);
    PutAll(dev, buf, n);
    var diff := Strings.Strncmp(buf, PROMPT, PROMPT_LENGTH);
    if diff == 0 && shellsUp {
      ghost var w := dev.State();
      ConsoleFacts(w);
      var l := dev.lines[dev.display.scheduled];
      assert l.Value() == w.lines[dev.display.scheduled];
      TextFacts(w, l.kbBuf[..], l.kbBufI, shellsUp);
      var again := TerminalWrite(dev, l.kbBuf[..], l.kbBufI, shellsUp);
    }
    r := n;
  }

  lemma ConsoleFacts(c: Console)
    requires ConsoleOk(c)
    ensures
      var l := c.lines[c.video.scheduled];
      0 <= l.n <= |l.buf| == BUF_SIZE && Typed(l) == l.buf[..l.n]
  {
  }

  // Printing, then reprinting, is printing the whole text.
  lemma TextFacts(c: Console, buf: seq<Byte>, n: nat, shellsUp: bool)
    requires ConsoleOk(c) && n <= |buf|
    ensures !Reprints(buf, shellsUp) ==> Text(c, buf, n, shellsUp) == buf[..n]
    ensures
      var w, l := Written(c, buf[..n]), c.lines[c.video.scheduled];
      && w.lines == c.lines && w.video.scheduled == c.video.scheduled
      && (Reprints(buf, shellsUp) && !Reprints(l.buf, shellsUp) ==>
            0 <= l.n <= |l.buf| && Written(w, Text(w, l.buf, l.n, shellsUp)) == Written(c, Text(c, buf, n, shellsUp)))
  {
    hide Strings.Text, Putc, Steps;
    var w, l := Written(c, buf[..n]), c.lines[c.video.scheduled];
    StepsKeepScheduled(c.video, buf[..n]);
    assert buf[..n] + [] == buf[..n];
    assert l.buf[..l.n] + [] == l.buf[..l.n];
    WrittenAppend(c, buf[..n], Typed(l));
  }
}
