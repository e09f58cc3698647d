// Three terminals on one display: one physical screen page, three background pages, a
// redirected page-table entry and one shared cursor (lib.c putc/clear, paging.c
// redirect_vidmem_page/change_terminal_video_page, terminal.c switch_visible_terminal).
module Video {
  import opened Bytes
  import opened Machine
  import opened Screen

  const NUM_PAGES := 4

  type TerminalId = t: int | 0 <= t < MAX_TERMINALS

  datatype Cursor = Cursor(x: int, y: int)

  // `pages` are the physical pages 0xB8..0xBB; `base` is the frame that the page-table entry
  // of virtual page 0xB8 names; `vga` is the position in the VGA cursor registers.
  datatype VideoState = VideoState(
    pages: seq<Page>,
    base: int,
    screen: Cursor,
    vga: int,
    cursors: seq<Cursor>,
    visible: TerminalId,
    scheduled: TerminalId)

  predicate Shape(v: VideoState) {
    && |v.pages| == NUM_PAGES
    && |v.cursors| == MAX_TERMINALS
    && VIDMEM_PAGE <= v.base < VIDMEM_PAGE + NUM_PAGES
  }

  predicate OnScreen(c: Cursor) {
    0 <= c.x < NUM_COLS && 0 <= c.y < NUM_ROWS
  }

  // All the cursors are positions on the screen: enough for every step to be defined.
  predicate Ok(v: VideoState) {
    && Shape(v)
    && OnScreen(v.screen)
    && forall t :: 0 <= t < MAX_TERMINALS ==> OnScreen(v.cursors[t])
  }

  // ---------------------------------------------------------------------------------------
  // The steps.

  function Redirect(v: VideoState, t: TerminalId): VideoState {
    v.(base := if t == v.visible then VIDMEM_PAGE else VIDMEM_PAGE + t + 1)
  }

  // The VGA registers hold a 16-bit position.
  function UpdateCursor(v: VideoState, c: Cursor): VideoState {
    v.(screen := c, vga := (c.y * NUM_COLS + c.x) % 0x10000)
  }

  // The page and cursor that a write to virtual page 0xB8 works on.
  function Target(v: VideoState): Term
    requires Shape(v)
  {
    Term(v.pages[v.base - VIDMEM_PAGE], v.screen.x, v.screen.y)
  }

  function SetTarget(v: VideoState, t: Term): VideoState
    requires Shape(v)
  {
    v.(pages := v.pages[v.base - VIDMEM_PAGE := t.page], screen := Cursor(t.x, t.y))
  }

  predicate Background(v: VideoState, echo: bool) {
    v.visible != v.scheduled && !echo
  }

  // Before the character is drawn: a background process is redirected to its own page.
  function Enter(v: VideoState, bg: bool): (r: VideoState)
    requires Ok(v)
    ensures Ok(r)
  {
    if bg then Redirect(v, v.scheduled).(screen := v.cursors[v.scheduled]) else v
  }

  // After it: the new cursor is saved and the visible terminal's mapping and cursor are back.
  function Leave(v: VideoState, bg: bool, t: Term): (r: VideoState)
    requires Ok(v) && InRange(t)
    ensures Ok(r)
  {
    var done := SetTarget(v, t);
    if bg then
      var back := Redirect(done, v.visible).(cursors := v.cursors[v.scheduled := done.screen]);
      back.(screen := back.cursors[v.visible])
    else UpdateCursor(done.(cursors := done.cursors[v.visible := done.screen]), done.screen)
  }

  function Putc(v: VideoState, c: Byte, echo: bool): (r: VideoState)
    requires Ok(v)
    ensures Ok(r)
  {
    if c == NUL then v
    else
      var bg := Background(v, echo);
      var w := Enter(v, bg);
      if c == BACKSPACE && AtHome(Target(w)) then w
      else Leave(w, bg, Put(Target(w), c))
  }

  function Clear(v: VideoState): (r: VideoState)
    requires Ok(v)
    ensures Ok(r)
  {
    var done := SetTarget(v, Cleared(Target(v)));
    UpdateCursor(done.(cursors := done.cursors[v.visible := Cursor(0, 0)]), Cursor(0, 0))
  }

  // The two 4 KB copies of change_terminal_video_page.
  function CopyPages(v: VideoState, from: TerminalId, to: TerminalId): (r: VideoState)
    requires Shape(v)
    ensures Shape(r)
  {
    var saved := v.(pages := v.pages[from + 1 := v.pages[v.base - VIDMEM_PAGE]]);
    saved.(pages := saved.pages[v.base - VIDMEM_PAGE := saved.pages[to + 1]])
  }

  function SwitchVisible(v: VideoState, t: TerminalId): (r: VideoState)
    requires Ok(v)
    ensures Ok(r)
  {
    if t == v.visible then v
    else
      var copied := CopyPages(v, v.visible, t);
      var saved := copied.(cursors := v.cursors[v.visible := v.screen]);
      UpdateCursor(saved, saved.cursors[t]).(visible := t)
  }

  // The scheduler's only effect on this state.
  function Schedule(v: VideoState, t: TerminalId): VideoState {
    v.(scheduled := t)
  }

  datatype Event =
    | Out(c: Byte)               // putc(c, 0): a process, or the kernel on its behalf
    | Echo(c: Byte)              // putc(c, 1): the keyboard handler
    | ClearScreen
    | Show(t: TerminalId)        // switch_visible_terminal
    | Run(t: TerminalId)         // the scheduler moves on

  function Step(v: VideoState, e: Event): (r: VideoState)
    requires Ok(v)
    ensures Ok(r)
  {
    match e
    case Out(c) => Putc(v, c, false)
    case Echo(c) => Putc(v, c, true)
    case ClearScreen => Clear(v)
    case Show(t) => SwitchVisible(v, t)
    case Run(t) => Schedule(v, t)
  }

  function Steps(v: VideoState, es: seq<Event>): (r: VideoState)
    requires Ok(v)
    ensures Ok(r)
    decreases |es|
  {
    if es == [] then v else Step(Steps(v, es[..|es| - 1]), es[|es| - 1])
  }

  // ---------------------------------------------------------------------------------------
  // What the user believes: three independent terminals.

  datatype Trio = Trio(terms: seq<Term>, visible: TerminalId, scheduled: TerminalId)

  predicate TrioOk(m: Trio) {
    |m.terms| == MAX_TERMINALS && forall t :: 0 <= t < MAX_TERMINALS ==> InRange(m.terms[t])
  }

  function Feed(m: Trio, t: TerminalId, i: Input): (r: Trio)
    requires TrioOk(m)
    ensures TrioOk(r)
  {
    m.(terms := m.terms[t := Apply(m.terms[t], i)])
  }

  function TrioStep(m: Trio, e: Event): (r: Trio)
    requires TrioOk(m)
    ensures TrioOk(r)
  {
    match e
    case Out(c) => Feed(m, m.scheduled, Char(c))
    case Echo(c) => Feed(m, m.visible, Char(c))
    case ClearScreen => Feed(m, m.visible, Wipe)
    case Show(t) => m.(visible := t)
    case Run(t) => m.(scheduled := t)
  }

  function TrioSteps(m: Trio, es: seq<Event>): (r: Trio)
    requires TrioOk(m)
    ensures TrioOk(r)
    decreases |es|
  {
    if es == [] then m else TrioStep(TrioSteps(m, es[..|es| - 1]), es[|es| - 1])
  }

  // The terminal's own screen: the physical page when it is visible, else its background page.
  function View(v: VideoState, t: TerminalId): Term
    requires Shape(v)
  {
    Term(if t == v.visible then v.pages[0] else v.pages[t + 1], v.cursors[t].x, v.cursors[t].y)
  }

  function Abs(v: VideoState): Trio
    requires Shape(v)
  {
    Trio([View(v, 0), View(v, 1), View(v, 2)], v.visible, v.scheduled)
  }

  // Between steps: page 0xB8 is identity-mapped, and the shared cursor and the VGA register
  // are the visible terminal's.
  predicate Settled(v: VideoState) {
    && Ok(v)
    && v.base == VIDMEM_PAGE
    && v.screen == v.cursors[v.visible]
    && v.vga == NUM_COLS * v.screen.y + v.screen.x
  }

  // The one step that goes wrong: a backspace printed by a background process whose cursor is
  // at home leaves putc before the redirection is undone.
  predicate Stuck(m: Trio, e: Event)
    requires TrioOk(m)
  {
    e == Out(BACKSPACE) && m.visible != m.scheduled && AtHome(m.terms[m.scheduled])
  }

  lemma EnterAimsAt(v: VideoState, echo: bool)
    requires Settled(v)
    ensures Target(Enter(v, Background(v, echo))) == View(v, if echo then v.visible else v.scheduled)
  {
  }

  lemma LeaveRefines(v: VideoState, echo: bool, t: Term)
    requires Settled(v) && InRange(t)
    ensures
      var r := Leave(Enter(v, Background(v, echo)), Background(v, echo), t);
      var to := if echo then v.visible else v.scheduled;
      Settled(r) && Abs(r) == Abs(v).(terms := Abs(v).terms[to := t])
  {
  }

  lemma PutcRefines(v: VideoState, c: Byte, echo: bool)
    requires Settled(v)
    requires !(c == BACKSPACE && Background(v, echo) && AtHome(View(v, v.scheduled)))
    ensures Settled(Putc(v, c, echo))
    ensures Abs(Putc(v, c, echo)) == Feed(Abs(v), if echo then v.visible else v.scheduled, Char(c))
  {
    var to := if echo then v.visible else v.scheduled;
    assert !Background(v, echo) ==> Enter(v, false) == v;
    hide Enter, Leave;
    EnterAimsAt(v, echo);
    assert Abs(v).terms[to] == View(v, to);
    LeaveRefines(v, echo, Put(View(v, to), c));
  }

  lemma SwitchRefines(v: VideoState, t: TerminalId)
    requires Settled(v)
    ensures Settled(SwitchVisible(v, t))
    ensures Abs(SwitchVisible(v, t)) == Abs(v).(visible := t)
  {
  }

  // In every state, settled or not, a switch keeps the cursor it finds for the terminal that goes
  // and takes up, with the VGA registers, the one kept for the terminal that comes.
  lemma SwitchMovesCursor(v: VideoState, t: TerminalId)
    requires Ok(v)
    ensures
      var r := SwitchVisible(v, t);
      && r.visible == t && r.base == v.base && r.scheduled == v.scheduled
      && (t == v.visible ==> r == v)
      && (t != v.visible ==>
            && r.cursors == v.cursors[v.visible := v.screen] && r.screen == v.cursors[t]
            && r.vga == 80 * v.cursors[t].y + v.cursors[t].x)
  {
  }

  // One step, both ways: it is the three-terminal step and leaves everything settled exactly
  // when it is not the stuck backspace.
  lemma StepRefines(v: VideoState, e: Event)
    requires Settled(v)
    ensures Settled(Step(v, e)) <==> !Stuck(Abs(v), e)
    ensures !Stuck(Abs(v), e) ==> Abs(Step(v, e)) == TrioStep(Abs(v), e)
  {
    hide Put;
    match e
    case Out(c) => if !Stuck(Abs(v), e) { PutcRefines(v, c, false); }
    case Echo(c) => PutcRefines(v, c, true);
    case ClearScreen =>
    case Show(t) => SwitchRefines(v, t);
    case Run(t) =>
  }

  // No step of the run is a stuck backspace; this looks only at the three-terminal machine.
  predicate NeverStuck(m: Trio, es: seq<Event>)
    requires TrioOk(m)
    decreases |es|
  {
    es == [] ||
    (NeverStuck(m, es[..|es| - 1]) && !Stuck(TrioSteps(m, es[..|es| - 1]), es[|es| - 1]))
  }

  ghost predicate AlwaysSettled(v: VideoState, es: seq<Event>)
    requires Ok(v)
  {
    forall k :: 0 <= k <= |es| ==> Settled(Steps(v, es[..k]))
  }

  lemma AlwaysSettledLast(v: VideoState, es: seq<Event>)
    requires Ok(v) && es != []
    ensures AlwaysSettled(v, es) <==> AlwaysSettled(v, es[..|es| - 1]) && Settled(Steps(v, es))
  {
    hide Steps, Settled, Ok;
    var n := |es| - 1;
    assert es[..|es|] == es;
    assert forall k :: 0 <= k <= n ==> es[..n][..k] == es[..k];
  }

  // Every run: the display is three independent terminals for as long as no background
  // process is stuck, and it stays settled throughout exactly in those runs.
  lemma {:induction false} RunRefines(v: VideoState, es: seq<Event>)
    requires Settled(v)
    ensures AlwaysSettled(v, es) <==> NeverStuck(Abs(v), es)
    ensures NeverStuck(Abs(v), es) ==>
              Settled(Steps(v, es)) && Abs(Steps(v, es)) == TrioSteps(Abs(v), es)
    decreases |es|
  {
    if es == [] {
    } else {
      var n := |es| - 1;
      RunRefines(v, es[..n]);
      AlwaysSettledLast(v, es);
      if NeverStuck(Abs(v), es[..n]) {
        StepRefines(Steps(v, es[..n]), es[n]);
      }
    }
  }

  // ---------------------------------------------------------------------------------------
  // What each terminal was sent, found by following the routing alone.

  function VisibleAfter(t: TerminalId, es: seq<Event>): TerminalId
    decreases |es|
  {
    if es == [] then t
    else if es[|es| - 1].Show? then es[|es| - 1].t
    else VisibleAfter(t, es[..|es| - 1])
  }

  function ScheduledAfter(t: TerminalId, es: seq<Event>): TerminalId
    decreases |es|
  {
    if es == [] then t
    else if es[|es| - 1].Run? then es[|es| - 1].t
    else ScheduledAfter(t, es[..|es| - 1])
  }

  // Process output goes to the scheduled terminal, echo and clearing to the visible one.
  function Delivered(visible: TerminalId, scheduled: TerminalId, e: Event, t: TerminalId): seq<Input> {
    match e
    case Out(c) => if t == scheduled then [Char(c)] else []
    case Echo(c) => if t == visible then [Char(c)] else []
    case ClearScreen => if t == visible then [Wipe] else []
    case Show(_) => []
    case Run(_) => []
  }

  function Sent(visible: TerminalId, scheduled: TerminalId, es: seq<Event>, t: TerminalId): seq<Input>
    decreases |es|
  {
    if es == [] then []
    else
      var before := es[..|es| - 1];
      Sent(visible, scheduled, before, t)
      + Delivered(VisibleAfter(visible, before), ScheduledAfter(scheduled, before), es[|es| - 1], t)
  }

  lemma AtMostOneInput(visible: TerminalId, scheduled: TerminalId, e: Event, t: TerminalId)
    ensures |Delivered(visible, scheduled, e, t)| <= 1
  {
  }

  lemma ReplaySnoc(t: Term, inputs: seq<Input>, i: Input)
    requires InRange(t)
    ensures Replay(t, inputs + [i]) == Apply(Replay(t, inputs), i)
  {
    assert (inputs + [i])[..|inputs|] == inputs;
  }

  lemma StepDelivers(m: Trio, e: Event, t: TerminalId)
    requires TrioOk(m)
    ensures TrioStep(m, e).terms[t] == Replay(m.terms[t], Delivered(m.visible, m.scheduled, e, t))
  {
    var more := Delivered(m.visible, m.scheduled, e, t);
    if more != [] {
      assert more == [] + [more[0]];
      ReplaySnoc(m.terms[t], [], more[0]);
    }
  }

  lemma ReplayAppend(t: Term, a: seq<Input>, b: seq<Input>)
    requires InRange(t) && |b| <= 1
    ensures Replay(t, a + b) == Replay(Replay(t, a), b)
  {
    if b == [] {
      assert a + b == a;
    } else {
      assert b == [b[0]] == [] + [b[0]];
      ReplaySnoc(t, a, b[0]);
      ReplaySnoc(Replay(t, a), [], b[0]);
    }
  }

  // Each terminal is what its own inputs made of it; the others' cannot be told from it.
  lemma {:induction false} TerminalsAreIndependent(m: Trio, es: seq<Event>, t: TerminalId)
    requires TrioOk(m)
    ensures TrioSteps(m, es).visible == VisibleAfter(m.visible, es)
    ensures TrioSteps(m, es).scheduled == ScheduledAfter(m.scheduled, es)
    ensures TrioSteps(m, es).terms[t] == Replay(m.terms[t], Sent(m.visible, m.scheduled, es, t))
    decreases |es|
  {
    hide Put, Apply, Cleared, Delivered;
    if es != [] {
      var before, e := es[..|es| - 1], es[|es| - 1];
      TerminalsAreIndependent(m, before, t);
      StepDelivers(TrioSteps(m, before), e, t);
      AtMostOneInput(VisibleAfter(m.visible, before), ScheduledAfter(m.scheduled, before), e, t);
      ReplayAppend(m.terms[t], Sent(m.visible, m.scheduled, before, t),
                   Delivered(VisibleAfter(m.visible, before), ScheduledAfter(m.scheduled, before), e, t));
    }
  }

  // Every run, end to end: each terminal's screen and cursor are the last-25-rows window of
  // the tape of exactly the bytes addressed to it, however the terminals are interleaved.
  lemma EachTerminalShowsItsOwnTape(v: VideoState, es: seq<Event>, t: TerminalId)
    requires Settled(v) && NeverStuck(Abs(v), es)
    ensures Shows(View(Steps(v, es), t),
                  TapeReplay(TapeOf(View(v, t)), Sent(v.visible, v.scheduled, es, t)))
  {
    RunRefines(v, es);
    TerminalsAreIndependent(Abs(v), es, t);
    assert Abs(v).terms[t] == View(v, t);
    assert Abs(Steps(v, es)).terms[t] == View(Steps(v, es), t);
    EveryRunShowsItsTape(View(v, t), Sent(v.visible, v.scheduled, es, t));
  }

  // The state after init_terminal and the first clear, whatever was in video memory.
  function Boot(pages: seq<Page>): (v: VideoState)
    requires |pages| == NUM_PAGES
    ensures Settled(v) && v.visible == v.scheduled == 0
  {
    var home := Cursor(0, 0);
    Clear(VideoState(pages, VIDMEM_PAGE, home, 0, [home, home, home], 0, 0))
  }

  // The promise fails for this input: terminal 1, in the background and at home, prints a
  // backspace.
  lemma StuckBackspaceExample(pages: seq<Page>)
    requires |pages| == NUM_PAGES
    ensures !Settled(Steps(Boot(pages), [Run(1), Out(BACKSPACE)]))
  {
    var es := [Run(1), Out(BACKSPACE)];
    assert es[..1] == [Run(1)] && es[..1][..0] == [];
    assert Steps(Boot(pages), es[..1]) == Schedule(Boot(pages), 1);
  }

  // What goes wrong: the next key the user types lands on the background terminal's page.
  lemma StuckBackspaceMisdirectsEcho(v: VideoState, c: Byte)
    requires Settled(v) && Stuck(Abs(v), Out(BACKSPACE)) && Printable(c)
    ensures
      var r := Step(Step(v, Out(BACKSPACE)), Echo(c));
      && View(r, v.visible).page == View(v, v.visible).page
      && View(r, v.scheduled).page == Poke(View(v, v.scheduled).page, 0, c)
  {
  }
}
