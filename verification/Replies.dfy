// What terminal_read hands over (terminal.c terminal_read), and what the keys that arrive
// between Enter and the drain do to it.
module Replies {
  import opened Bytes
  import opened Screen
  import opened Video
  import opened Keyboard
  import Strings

  // A submitted line is handed over whole: its length with the newline, and its bytes as far
  // as the caller's buffer goes.
  lemma DrainReturnsLine(l: Line)
    requires LineOk(l) && l.entered && l.want >= 0
    ensures DrainedCount(l) == l.n
    ensures var m := Min(l.want, l.n); DrainedBytes(l)[..m] == l.buf[..m]
  {
    var m := Min(l.want, l.n);
    var t := Strings.Text(l.buf + [NUL], l.want);
    assert m <= |t|;
    assert DrainedBytes(l)[..m] == t[..m];
  }

  // The caller cannot tell the two lines apart by what it gets.
  predicate SameReply(l: Line, r: Line)
    requires LineShape(l) && LineShape(r) && l.n >= 1 && l.want == r.want >= 0
  {
    && r.n >= 1 && DrainedCount(r) == DrainedCount(l)
    && var m := Min(l.want, DrainedCount(l)); DrainedBytes(r)[..m] == DrainedBytes(l)[..m]
  }

  // Line l with one more printable character after its newline.
  predicate WithLateKey(l: Line, r: Line) {
    && LineShape(l) && LineShape(r) && l.n < BUF_SIZE && Printable(r.buf[l.n])
    && r == l.(buf := l.buf[l.n := r.buf[l.n]], n := l.n + 1)
  }

  // One late character is dropped again.
  lemma DrainDropsOneLateKey(l: Line, r: Line)
    requires LineOk(l) && l.entered && l.want >= 0 && WithLateKey(l, r)
    ensures SameReply(l, r)
  {
    var s := Stripped(r);
    assert forall k :: 0 <= k < l.n ==> s.buf[k] == l.buf[k];
    assert LineOk(s) && Stripped(s) == s && Stripped(l) == l;
    DrainReturnsLine(s);
    DrainReturnsLine(l);
    var m := Min(l.want, l.n);
    assert s.buf[..m] == l.buf[..m];
  }

  // An edit that adds at most one character leaves the line or the line with a late key.
  lemma SmallEdit(l: Line, a: Action, limit: int)
    requires LineShape(l) && !Overruns(l, a, limit) && (a.Type? ==> Printable(a.c))
    requires !a.Erase? && !(a.Submit? && l.reading) && |Added(l, a, limit)| <= 1
    ensures
      var r := Edit(l, a, limit);
      if Added(l, a, limit) == [] then r == l else WithLateKey(l, r)
  {
    var s, r := Added(l, a, limit), Edit(l, a, limit);
    if s == [] {
      assert l.buf[..l.n] + s + l.buf[l.n..] == l.buf;
    } else {
      assert l.buf[..l.n] + s + l.buf[l.n + 1..] == l.buf[l.n := s[0]];
    }
  }

  // One key that reaches a submitted line changes the reply exactly when it erases, submits
  // again or adds more than one character.
  lemma LateKeyExactly(c: Console, code: Byte, t: TerminalId)
    requires ConsoleOk(c) && !c.fault && LineOk(c.lines[t]) && c.lines[t].entered
    requires c.video.visible == t && !Happen(c, Key(code)).fault
    ensures
      var a, l := Meaning(c, code), c.lines[t];
      SameReply(l, Happen(c, Key(code)).lines[t]) <==>
      !a.Erase? && !(a.Submit? && l.reading) && |Added(l, a, c.limit)| <= 1
  {
    hide DrainedBytes, Steps;
    var a, l := Meaning(c, code), c.lines[t];
    if a.Switch? {
    } else if !a.Erase? && !(a.Submit? && l.reading) && |Added(l, a, c.limit)| <= 1 {
      SmallEdit(l, a, c.limit);
      if Added(l, a, c.limit) != [] {
        DrainDropsOneLateKey(l, Edit(l, a, c.limit));
      }
    } else {
      LateEditChangesCount(l, a, c.limit);
    }
  }

  lemma LateEditChangesCount(l: Line, a: Action, limit: int)
    requires LineOk(l) && l.entered && !Overruns(l, a, limit)
    requires a.Erase? || (a.Submit? && l.reading) || |Added(l, a, limit)| > 1
    ensures
      var r := Edit(l, a, limit);
      && (a.Erase? ==> r.n == 0 || (l.n >= 2 && DrainedCount(r) == l.n - 2))
      && (a.Submit? && l.reading ==> r.n >= 1 && DrainedCount(r) == l.n + 1)
      && (a.Pad? ==> r.n >= 1 && DrainedCount(r) == l.n + |Added(l, a, limit)| - 1)
      && DrainedCount(l) == l.n
  {
  }

  // So a backspace after Enter takes the newline and the last character too.
  lemma EraseAfterEnterLosesNewline(c: Console, code: Byte, t: TerminalId)
    requires ConsoleOk(c) && !c.fault && LineOk(c.lines[t]) && c.lines[t].entered && c.lines[t].n >= 2
    requires c.video.visible == t && Meaning(c, code).Erase?
    ensures
      var l, r := c.lines[t], Happen(c, Key(code)).lines[t];
      && r.n >= 1 && DrainedCount(r) == l.n - 2
      && Stripped(r).buf[..l.n - 2] == l.buf[..l.n - 2] && NEWLINE !in l.buf[..l.n - 2]
  {
    hide Steps;
  }

  // ---------------------------------------------------------------------------------------
  // Runs.

  // terminal_read hands over `line`: its length, and its bytes as far as the buffer goes.
  predicate ReplyIs(l: Line, line: seq<Byte>) {
    && LineShape(l) && l.n >= 1 && l.want >= 0 && DrainedCount(l) == |line|
    && var m := Min(l.want, |line|); DrainedBytes(l)[..m] == line[..m]
  }

  // A copy of a C string starts with the bytes that come before any NUL.
  lemma PaddedStarts(s: seq<Byte>, n: nat, m: nat)
    requires m <= n && m <= |s| && forall i :: 0 <= i < m ==> s[i] != NUL
    ensures Strings.Padded(s, n)[..m] == s[..m]
  {
    var t := Strings.Text(s, n);
    assert m <= |t|;
    assert Strings.Padded(s, n)[..m] == t[..m];
  }

  lemma StrippedIsCut(l: Line)
    requires LineShape(l) && l.n >= 1
    ensures var r := Stripped(l); Cut(Typed(l)) == r.buf[..r.n]
  {
  }

  // What is handed over is the text of the line, less one character after its newline.
  lemma DrainReturnsText(l: Line)
    requires LineShape(l) && l.n >= 1 && l.want >= 0 && NUL !in Typed(l)
    ensures ReplyIs(l, Cut(Typed(l)))
  {
    hide Strings.Padded;
    StrippedIsCut(l);
    var r := Stripped(l);
    var m := Min(l.want, r.n);
    forall i | 0 <= i < m ensures r.buf[i] != NUL {
      assert Typed(l)[i] == r.buf[i];
    }
    PaddedStarts(r.buf + [NUL], l.want, m);
    assert (r.buf + [NUL])[..m] == r.buf[..r.n][..m];
  }

  predicate Clean(l: Line) {
    LineShape(l) && NUL !in Typed(l)
  }

  lemma CleanStep(c: Console, h: Happening, t: TerminalId)
    requires ConsoleOk(c) && Clean(c.lines[t]) && !Happen(c, h).fault
    ensures Clean(Happen(c, h).lines[t])
  {
    hide Happen;
    HappenEdits(c, h, t);
    var s, ks := Typed(c.lines[t]), Given(c, h, t);
    assert ks != [] ==> ks[..0] == [] && EditAll(s, ks) == EditText(s, ks[0]);
    if ks != [] && ks[0].Stroke? {
      var a := ks[0].a;
      assert a.Type? ==> Printable(a.c);
    }
  }

  lemma {:induction false} StaysClean(c: Console, hs: seq<Happening>, t: TerminalId)
    requires ConsoleOk(c) && Clean(c.lines[t]) && !Happens(c, hs).fault
    ensures Clean(Happens(c, hs).lines[t])
    decreases |hs|
  {
    hide Happen, Clean;
    if hs != [] {
      var before := hs[..|hs| - 1];
      NoFaultBefore(Happens(c, before), hs[|hs| - 1]);
      StaysClean(c, before, t);
      CleanStep(Happens(c, before), hs[|hs| - 1], t);
    }
  }

  // Every run that stays inside kb_buf, however it goes: what the drain hands over is the fold
  // of all the keys the terminal received, less one character after the newline.
  lemma ReplyIsTheFold(c: Console, hs: seq<Happening>, t: TerminalId)
    requires ConsoleOk(c) && Clean(c.lines[t]) && !Happens(c, hs).fault
    requires EditAll(Typed(c.lines[t]), Received(c, hs, t)) != []
    ensures ReplyIs(Happens(c, hs).lines[t], Cut(EditAll(Typed(c.lines[t]), Received(c, hs, t))))
  {
    hide Happens, Received, EditAll, ReplyIs, Cut;
    LinesAreEdited(c, hs, t);
    StaysClean(c, hs, t);
    DrainReturnsText(Happens(c, hs).lines[t]);
  }

  // The run up to and including the Enter that terminal t's line has been waiting since.
  function ToEnter(c: Console, hs: seq<Happening>, t: TerminalId): (p: seq<Happening>)
    requires ConsoleOk(c)
    ensures p <= hs
    decreases |hs|
  {
    if hs == [] then []
    else
      var before := hs[..|hs| - 1];
      if Happens(c, before).lines[t].entered && Happens(c, hs).lines[t].entered then ToEnter(c, before, t) else hs
  }

  // The line as it was submitted: the fold of the keys up to Enter.
  function SentLine(c: Console, hs: seq<Happening>, t: TerminalId): seq<Byte>
    requires ConsoleOk(c)
  {
    EditAll(Typed(c.lines[t]), Received(c, ToEnter(c, hs, t), t))
  }

  // The text is the line, or the line and one late character.
  predicate AtMostOneLate(line: seq<Byte>, text: seq<Byte>) {
    || text == line
    || (|text| == |line| + 1 && text[..|line|] == line && text[|line|] != NEWLINE)
  }

  lemma CutIsLineExactly(line: seq<Byte>, text: seq<Byte>)
    requires line != [] && line[|line| - 1] == NEWLINE && text != []
    ensures Cut(text) == line <==> AtMostOneLate(line, text)
  {
  }

  // The submitted line is what terminal_read hands over if and only if, with every key that came
  // after Enter applied as well, the line is back to what it was or has one more character.
  // (Here the caller has room for the line; with less room it may not see the difference.)
  lemma LineIsReturnedExactly(c: Console, hs: seq<Happening>, t: TerminalId)
    requires ConsoleOk(c) && Clean(c.lines[t]) && !c.lines[t].entered && !Happens(c, hs).fault
    requires Happens(c, hs).lines[t].entered
    requires EditAll(Typed(c.lines[t]), Received(c, hs, t)) != []
    requires Happens(c, hs).lines[t].want >= |SentLine(c, hs, t)|
    ensures ReplyIs(Happens(c, hs).lines[t], SentLine(c, hs, t)) <==>
            AtMostOneLate(SentLine(c, hs, t), EditAll(Typed(c.lines[t]), Received(c, hs, t)))
  {
    hide Happens, Received, EditAll, ToEnter, AtMostOneLate, ReplyIs, Cut;
    var line, text := SentLine(c, hs, t), EditAll(Typed(c.lines[t]), Received(c, hs, t));
    ReplyIsTheFold(c, hs, t);
    SentEndsInNewline(c, hs, t);
    CutIsLineExactly(line, text);
    ReplyIsUnique(Happens(c, hs).lines[t], Cut(text), line);
  }

  lemma ReplyIsUnique(l: Line, a: seq<Byte>, b: seq<Byte>)
    requires ReplyIs(l, a) && l.want >= |b|
    ensures ReplyIs(l, b) <==> a == b
  {
    if ReplyIs(l, b) {
      assert a[..|a|] == a && b[..|b|] == b;
    }
  }

  // A submitted line ends with its newline.
  lemma SentEndsInNewline(c: Console, hs: seq<Happening>, t: TerminalId)
    requires ConsoleOk(c) && !c.lines[t].entered && !Happens(c, hs).fault && Happens(c, hs).lines[t].entered
    ensures var line := SentLine(c, hs, t); line != [] && line[|line| - 1] == NEWLINE
  {
    hide Happens, Received, EditAll, ToEnter, Happen, Submits;
    var p := ToEnter(c, hs, t);
    FaultFree(c, hs, p);
    LinesAreEdited(c, p, t);
    ToEnterEndsWithEnter(c, hs, t);
    var d := Happens(c, p[..|p| - 1]);
    LastHappens(c, p);
    NoFaultBefore(d, p[|p| - 1]);
    EnterAppends(d, p[|p| - 1], t);
  }

  lemma LastHappens(c: Console, p: seq<Happening>)
    requires ConsoleOk(c) && p != []
    ensures Happens(c, p) == Happen(Happens(c, p[..|p| - 1]), p[|p| - 1])
  {
    hide Happen;
  }

  lemma EnterAppends(c: Console, h: Happening, t: TerminalId)
    requires ConsoleOk(c) && Submits(c, h, t) && c.lines[t].reading && !c.fault && !Happen(c, h).fault
    ensures var s := Typed(Happen(c, h).lines[t]); s != [] && s[|s| - 1] == NEWLINE
  {
    hide Happen;
    HappenEdits(c, h, t);
    var ks := Given(c, h, t);
    assert ks[..0] == [] && EditAll(Typed(c.lines[t]), ks) == EditText(Typed(c.lines[t]), ks[0]);
  }

  lemma {:induction false} FaultFree(c: Console, hs: seq<Happening>, p: seq<Happening>)
    requires ConsoleOk(c) && !Happens(c, hs).fault && p <= hs
    ensures !Happens(c, p).fault
    decreases |hs|
  {
    hide Happen;
    if p == hs {
    } else {
      var before := hs[..|hs| - 1];
      NoFaultBefore(Happens(c, before), hs[|hs| - 1]);
      FaultFree(c, before, p);
    }
  }

  // ToEnter ends with the Enter.
  lemma {:induction false} ToEnterEndsWithEnter(c: Console, hs: seq<Happening>, t: TerminalId)
    requires ConsoleOk(c) && !c.lines[t].entered && Happens(c, hs).lines[t].entered
    ensures
      var p := ToEnter(c, hs, t);
      p != [] &&
      var d := Happens(c, p[..|p| - 1]);
      !d.lines[t].entered && Submits(d, p[|p| - 1], t) && d.lines[t].reading
    decreases |hs|
  {
    hide Happen, Submits;
    var before, h := hs[..|hs| - 1], hs[|hs| - 1];
    if Happens(c, before).lines[t].entered {
      ToEnterEndsWithEnter(c, before, t);
    } else {
      OnlyEnterSubmits(Happens(c, before), h, t);
    }
  }

  lemma OnlyEnterSubmits(c: Console, h: Happening, t: TerminalId)
    requires ConsoleOk(c) && !c.lines[t].entered && Happen(c, h).lines[t].entered
    ensures Submits(c, h, t) && c.lines[t].reading
  {
    hide Steps, Putc;
  }

  // ---------------------------------------------------------------------------------------
  // A condition on the keys one by one that is enough.

  // A key edits terminal t's submitted line other than by its one late character.
  predicate TooLate(c: Console, h: Happening, t: TerminalId)
    requires ConsoleOk(c)
  {
    Late(c, h, t) &&
    var a, l := Meaning(c, h.code), c.lines[t];
    var s := Added(l, a, c.limit);
    a.Erase? || (a.Submit? && l.reading) || |s| > 1 || (s != [] && l.n >= 1 && l.buf[l.n - 1] != NEWLINE)
  }

  predicate Timely(c: Console, hs: seq<Happening>, t: TerminalId)
    requires ConsoleOk(c)
    decreases |hs|
  {
    hs == [] || (Timely(c, hs[..|hs| - 1], t) && !TooLate(Happens(c, hs[..|hs| - 1]), hs[|hs| - 1], t))
  }

  predicate Ended(line: seq<Byte>) {
    line != [] && line[|line| - 1] == NEWLINE && NEWLINE !in line[..|line| - 1]
  }

  lemma KeyEdits(c: Console, code: Byte, t: TerminalId)
    requires ConsoleOk(c) && !c.fault && !Happen(c, Key(code)).fault && c.video.visible == t
    requires !Meaning(c, code).Switch?
    ensures
      var a, l := Meaning(c, code), c.lines[t];
      !Overruns(l, a, c.limit) && Happen(c, Key(code)).lines[t] == Edit(l, a, c.limit)
  {
    hide Steps, Decode, Modify, Edit, Echoed;
  }

  lemma WaitingStep(c: Console, h: Happening, t: TerminalId, line: seq<Byte>)
    requires ConsoleOk(c) && !Happen(c, h).fault && c.lines[t].entered && !TooLate(c, h, t)
    requires Ended(line) && AtMostOneLate(line, Typed(c.lines[t]))
    ensures
      var r := Happen(c, h).lines[t];
      if r.entered then AtMostOneLate(line, Typed(r)) else LineOk(r)
  {
    WhatEnded(line);
    if h.Key? && c.video.visible == t && !c.fault && !Meaning(c, h.code).Switch? {
      hide Happen, Decode, Modify, Ended, AtMostOneLate, Edit, Typed;
      var a, l := Meaning(c, h.code), c.lines[t];
      KeyEdits(c, h.code, t);
      AddedOnTime(c, h, t);
      LateText(l, a, c.limit, line);
      EditKeepsEntered(l, a, c.limit);
    } else {
      hide Steps, Putc, Ended;
      OthersKeepText(c, h, t, line);
    }
  }

  lemma EditKeepsEntered(l: Line, a: Action, limit: int)
    requires LineShape(l) && !Overruns(l, a, limit) && l.entered
    ensures Edit(l, a, limit).entered
  {
  }

  lemma AddedOnTime(c: Console, h: Happening, t: TerminalId)
    requires ConsoleOk(c) && h.Key? && c.video.visible == t && c.lines[t].entered && !TooLate(c, h, t)
    ensures
      var a, l := Meaning(c, h.code), c.lines[t];
      && !a.Erase? && !(a.Submit? && l.reading) && |Added(l, a, c.limit)| <= 1
      && (Added(l, a, c.limit) != [] && l.n >= 1 ==> l.buf[l.n - 1] == NEWLINE)
  {
    hide Decode, Modify;
  }

  // What is not an edit by a key leaves the text, trims it or takes it.
  lemma OthersKeepText(c: Console, h: Happening, t: TerminalId, line: seq<Byte>)
    requires ConsoleOk(c) && !Happen(c, h).fault && c.lines[t].entered
    requires !(h.Key? && c.video.visible == t && !c.fault && !Meaning(c, h.code).Switch?)
    requires line != [] && line[|line| - 1] == NEWLINE && AtMostOneLate(line, Typed(c.lines[t]))
    ensures
      var r := Happen(c, h).lines[t];
      if r.entered then AtMostOneLate(line, Typed(r)) else LineOk(r)
  {
    hide Steps, Putc;
  }

  lemma WhatEnded(line: seq<Byte>)
    requires Ended(line)
    ensures line != [] && line[|line| - 1] == NEWLINE
  {
  }

  lemma LateText(l: Line, a: Action, limit: int, line: seq<Byte>)
    requires LineShape(l) && !Overruns(l, a, limit) && (a.Type? ==> Printable(a.c))
    requires line != [] && line[|line| - 1] == NEWLINE && AtMostOneLate(line, Typed(l))
    requires !a.Erase? && !(a.Submit? && l.reading) && |Added(l, a, limit)| <= 1
    requires Added(l, a, limit) != [] && l.n >= 1 ==> l.buf[l.n - 1] == NEWLINE
    ensures AtMostOneLate(line, Typed(Edit(l, a, limit)))
  {
    SmallEdit(l, a, limit);
    if Added(l, a, limit) != [] {
      assert Typed(l) == line;
    }
  }

  // In every run in which an Enter is followed, before its drain, by at most one character and
  // no erase or second Enter, the line waiting is the one submitted, with at most that
  // character after it.
  lemma {:induction false} SubmittedLineWaits(c: Console, hs: seq<Happening>, t: TerminalId)
    requires ConsoleOk(c) && LineOk(c.lines[t]) && Timely(c, hs, t) && !Happens(c, hs).fault
    ensures
      var l := Happens(c, hs).lines[t];
      var p := Happens(c, ToEnter(c, hs, t));
      && (!l.entered ==> LineOk(l))
      && (l.entered ==> Ended(Typed(p.lines[t])) && AtMostOneLate(Typed(p.lines[t]), Typed(l)))
    decreases |hs|
  {
    hide LineOk, TooLate, AtMostOneLate, Ended, Happen, LineShape, Typed;
    if hs == [] {
      OkIsEnded(c.lines[t]);
    } else {
      var before, h := hs[..|hs| - 1], hs[|hs| - 1];
      var d := Happens(c, before);
      NoFaultBefore(d, h);
      SubmittedLineWaits(c, before, t);
      if d.lines[t].entered {
        WaitingStep(d, h, t, Typed(Happens(c, ToEnter(c, before, t)).lines[t]));
      } else {
        NotLateUnlessEntered(d, h, t);
        HappenKeepsLine(d, h, t);
        OkIsEnded(Happens(c, hs).lines[t]);
      }
    }
  }

  lemma OkIsEnded(l: Line)
    requires LineOk(l)
    ensures l.entered ==> Ended(Typed(l)) && AtMostOneLate(Typed(l), Typed(l))
  {
  }

  lemma NotLateUnlessEntered(c: Console, h: Happening, t: TerminalId)
    requires ConsoleOk(c) && !c.lines[t].entered
    ensures !Late(c, h, t)
  {
  }

  // From the keys to the caller's buffer, in every such run and whatever happens on the other
  // terminals: what terminal_read hands over is the fold of the keys its terminal received up to
  // Enter, newline last and only there, however much of it the caller has room for.
  lemma TypedLineIsReturned(c: Console, hs: seq<Happening>, t: TerminalId)
    requires ConsoleOk(c) && LineOk(c.lines[t]) && Timely(c, hs, t) && !Happens(c, hs).fault
    requires Happens(c, hs).lines[t].entered
    ensures ReplyIs(Happens(c, hs).lines[t], SentLine(c, hs, t)) && Ended(SentLine(c, hs, t))
  {
    hide Happens, Received, EditAll, Timely, ToEnter, ReplyIs, Cut, AtMostOneLate, Typed, LineOk, Clean;
    SubmittedLineWaits(c, hs, t);
    var p := ToEnter(c, hs, t);
    FaultFree(c, hs, p);
    LinesAreEdited(c, p, t);
    LinesAreEdited(c, hs, t);
    OkIsClean(c.lines[t]);
    var line, text := SentLine(c, hs, t), EditAll(Typed(c.lines[t]), Received(c, hs, t));
    LateIsNotEmpty(line, text);
    ReplyIsTheFold(c, hs, t);
    CutIsLineExactly(line, text);
  }

  lemma OkIsClean(l: Line)
    requires LineOk(l)
    ensures Clean(l)
  {
  }

  lemma LateIsNotEmpty(line: seq<Byte>, text: seq<Byte>)
    requires Ended(line) && AtMostOneLate(line, text)
    ensures text != []
  {
  }

  // ---------------------------------------------------------------------------------------
  // After a fault.

  // When the copy to the caller's buffer faults, the line stays submitted, and the next reader
  // of that terminal is handed it at once, without any key.
  lemma FaultedLineIsReadNext(c: Console, n: int)
    requires ConsoleOk(c) && !c.fault && n > 0
    requires var l := c.lines[c.video.scheduled]; LineOk(l) && l.reading && l.entered
    ensures
      var t := c.video.scheduled;
      var d := Happen(Happen(c, ReadFault), ReadBegin(n));
      && !d.fault && d.lines[t].entered && d.lines[t].reading && d.lines[t].want == n
      && ReplyIs(d.lines[t], Typed(c.lines[t]))
  {
    hide DrainedBytes, DrainedCount, ReplyIs;
    var t := c.video.scheduled;
    var l := Happen(Happen(c, ReadFault), ReadBegin(n)).lines[t];
    OkIsClean(c.lines[t]);
    assert Typed(l) == Typed(c.lines[t]);
    DrainReturnsText(l);
  }
}
