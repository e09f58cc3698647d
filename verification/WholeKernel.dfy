// The processes and the terminals together: one state of the whole kernel, in which the process
// that runs, the screen it prints to and the line it reads belong to the same terminal.
module WholeKernel {
  import opened Bytes
  import opened Machine
  import opened Screen
  import opened ProcessRuns
  import opened KernelRuns
  import K = Processes
  import U = UserMemory
  import P = Paging
  import FS = FileSystem
  import V = Video
  import KB = Keyboard
  import R = Replies
  import Scheduling

  datatype Whole = Whole(k: K.Kernel, c: KB.Console)

  datatype Event =
    | Does(e: K.Event)                            // the timer, and what the running process does
    | Key(code: Byte)
    | Print(b: Byte)                              // the running process, through putc
    | ReadBegin(n: int)                           // it calls terminal_read
    | ReadPoll
    | ReadFault(junk: seq<Byte>, ctx: K.Ctx)      // the copy of its line faults, and it ends

  predicate EventOk(x: Event) {
    match x
    case Does(e) => K.EventOk(e) && !e.ShowTerminal?
    case ReadFault(junk, _) => |junk| == K.JUNK
    case _ => true
  }

  predicate EventsOk(xs: seq<Event>) {
    forall i :: 0 <= i < |xs| ==> EventOk(xs[i])
  }

  predicate Ok(w: Whole) {
    K.Ok(w.k) && KB.ConsoleOk(w.c)
  }

  // The two parts agree on which terminal runs and which is shown.
  predicate Coupled(w: Whole) {
    && Ok(w)
    && w.c.video.visible == w.k.visible && w.c.video.scheduled == w.k.scheduled
  }

  predicate Waiting(w: Whole)
    requires Ok(w)
  {
    w.c.lines[w.c.video.scheduled].reading
  }

  // What an event is to the processes. One that waits in terminal_read does nothing else.
  function KernelSide(w: Whole, x: Event): (es: seq<K.Event>)
    requires Ok(w) && EventOk(x)
    ensures |es| <= 1 && K.EventsOk(es)
  {
    match x
    case Does(e) => if Waiting(w) && !e.Timer? then [] else [e]
    case Key(code) =>
      var a := KB.Meaning(w.c, code);
      if a.Switch? then [K.ShowTerminal(a.t)] else []
    case ReadFault(junk, ctx) =>
      if Waiting(w) && w.c.lines[w.c.video.scheduled].entered then [K.Exit(K.Exception, junk, ctx)] else []
    case _ => []
  }

  // What it is to the terminals.
  function ConsoleSide(w: Whole, x: Event): (hs: seq<KB.Happening>)
    requires Ok(w)
    ensures |hs| <= 1
  {
    match x
    case Does(e) => if e.Timer? then [KB.Tick((w.c.video.scheduled + 1) % MAX_TERMINALS)] else []
    case Key(code) => [KB.Key(code)]
    case Print(b) => [KB.Print(b)]
    case ReadBegin(n) => [KB.ReadBegin(n)]
    case ReadPoll => [KB.ReadPoll]
    case ReadFault(_, _) => [KB.ReadFault]
  }

  function Step(fs: FS.FileSys, w: Whole, x: Event): (r: Whole)
    requires FS.FsOk(fs) && Ok(w) && EventOk(x)
    ensures Ok(r)
  {
    Whole(K.Run(fs, w.k, KernelSide(w, x)), KB.Happens(w.c, ConsoleSide(w, x)))
  }

  function NextChains(fs: FS.FileSys, w: Whole, st: Chains, x: Event): (r: Chains)
    requires FS.FsOk(fs) && Ok(w) && EventOk(x) && |st| == MAX_TERMINALS
    ensures |r| == MAX_TERMINALS
  {
    RunChains(fs, w.k, st, KernelSide(w, x))
  }

  function Run(fs: FS.FileSys, w: Whole, xs: seq<Event>): (r: Whole)
    requires FS.FsOk(fs) && Ok(w) && EventsOk(xs)
    ensures Ok(r)
    decreases |xs|
  {
    if xs == [] then w else Step(fs, Run(fs, w, xs[..|xs| - 1]), xs[|xs| - 1])
  }

  function ChainsAfter(fs: FS.FileSys, w: Whole, st: Chains, xs: seq<Event>): (r: Chains)
    requires FS.FsOk(fs) && Ok(w) && EventsOk(xs) && |st| == MAX_TERMINALS
    ensures |r| == MAX_TERMINALS
    decreases |xs|
  {
    if xs == [] then st
    else
      var most := xs[..|xs| - 1];
      NextChains(fs, Run(fs, w, most), ChainsAfter(fs, w, st, most), xs[|xs| - 1])
  }

  // ---------------------------------------------------------------------------------------
  // Every step keeps the forest and the agreement of the two parts.

  lemma VisibleStays(fs: FS.FileSys, k: K.Kernel, st: Chains, e: K.Event)
    requires ShellLoads(fs) && Inv(k, st) && K.EventOk(e) && !e.ShowTerminal?
    ensures K.Step(fs, k, e).visible == k.visible
  {
    hide Inv, FS.FsOk, K.Step, K.Ok, K.Ends, K.Call, K.Tick, K.MaskedPcb, P.ScreenPage;
    InvSizes(k, st);
    StepOf(fs, k, e);
    if e.Timer? {
      TickRotates(fs, k, st, e.junk, e.ctx);
      TimerStep(fs, k, e);
    } else if e.Exec? {
      ExecVisible(fs, k, e);
    } else {
      CallVisible(fs, k, e);
      if K.Ends(fs, k, e) {
        U.CallKeepsInv(fs, k, st, e);
        EndKeepsInv(fs, K.Call(fs, k, e).k, st, K.HowOf(e), e.junk, e.ctx);
      }
    }
  }

  lemma TimerStep(fs: FS.FileSys, k: K.Kernel, e: K.Event)
    requires FS.FsOk(fs) && K.Ok(k) && K.EventOk(e) && e.Timer?
    ensures K.Step(fs, k, e) == K.Tick(fs, k, e.junk, e.ctx)
  {
    hide K.Tick, K.Ok, FS.FsOk;
  }

  lemma ExecVisible(fs: FS.FileSys, k: K.Kernel, e: K.Event)
    requires FS.FsOk(fs) && K.Ok(k) && K.EventOk(e) && e.Exec?
    ensures K.Step(fs, k, e).visible == k.visible
  {
    hide K.Program, K.FirstBytes, K.LoadImage, K.ResetFds, K.ArgField, K.Ok, P.SetUserProgPage, FS.FsOk;
  }

  lemma CallVisible(fs: FS.FileSys, k: K.Kernel, e: K.Event)
    requires FS.FsOk(fs) && K.Ok(k) && K.EventOk(e) && !e.ShowTerminal?
    ensures K.Call(fs, k, e).k.visible == k.visible
  {
    hide K.CopyOut, K.PutByte, K.Translated, K.WordMapped, K.Delivered, K.MaskedPcb, FS.Lookup, FS.DirRead;
    hide P.SetUserVideoPage;
  }

  // Only a switch key moves the visible terminal, and only the timer the scheduled one.
  lemma ConsoleMoves(c: KB.Console, h: KB.Happening)
    requires KB.ConsoleOk(c) && !KB.Happen(c, h).fault
    ensures
      var v, r := c.video, KB.Happen(c, h).video;
      && r.scheduled == (if h.Tick? then h.t else v.scheduled)
      && r.visible == if h.Key? && KB.Meaning(c, h.code).Switch? then KB.Meaning(c, h.code).t else v.visible
  {
    hide Put;
    if h.Key? {
      var a := KB.Meaning(c, h.code);
      var l := c.lines[c.video.visible];
      KB.EchoedIsEcho(l, a, c.limit);
      KB.EchoKeepsVisible(c.video, KB.Echoed(l, a, c.limit));
    }
  }

  lemma OneEvent(fs: FS.FileSys, k: K.Kernel, st: Chains, e: K.Event)
    requires FS.FsOk(fs) && K.Ok(k) && K.EventOk(e) && |st| == MAX_TERMINALS
    ensures K.Run(fs, k, [e]) == K.Step(fs, k, e) && RunChains(fs, k, st, [e]) == StepChains(fs, k, st, e)
  {
    hide K.Step, StepChains, FS.FsOk, K.Ok;
    assert [e][..0] == [];
    assert K.Run(fs, k, []) == k && RunChains(fs, k, st, [e][..0]) == st;
  }

  lemma OneHappening(c: KB.Console, h: KB.Happening)
    requires KB.ConsoleOk(c)
    ensures KB.Happens(c, [h]) == KB.Happen(c, h)
  {
    hide KB.Happen;
    assert [h][..0] == [];
  }

  // Together: both parts stay in order and agree.
  ghost predicate Together(w: Whole, st: Chains) {
    Coupled(w) && !w.c.fault && Inv(w.k, st)
  }

  lemma StepKeepsWhole(fs: FS.FileSys, w: Whole, st: Chains, x: Event)
    requires ShellLoads(fs) && Together(w, st) && EventOk(x) && |st| == MAX_TERMINALS && !Step(fs, w, x).c.fault
    ensures Together(Step(fs, w, x), NextChains(fs, w, st, x))
  {
    hide Inv, FS.FsOk, K.Step, KB.Happen, StepChains, K.Ok, KB.ConsoleOk, KB.Meaning;
    var es, hs := KernelSide(w, x), ConsoleSide(w, x);
    if hs != [] {
      OneHappening(w.c, hs[0]);
      ConsoleMoves(w.c, hs[0]);
      assert hs == [hs[0]];
    }
    if es != [] {
      OneEvent(fs, w.k, st, es[0]);
      StepKeepsInv(fs, w.k, st, es[0]);
      assert es == [es[0]];
      if es[0].ShowTerminal? {
        ShowMoves(fs, w.k, es[0]);
      } else {
        VisibleStays(fs, w.k, st, es[0]);
      }
    }
  }

  lemma ShowMoves(fs: FS.FileSys, k: K.Kernel, e: K.Event)
    requires FS.FsOk(fs) && K.Ok(k) && K.EventOk(e) && e.ShowTerminal?
    ensures K.Step(fs, k, e).visible == e.t
  {
  }

  lemma FaultStays(fs: FS.FileSys, w: Whole, x: Event)
    requires FS.FsOk(fs) && Ok(w) && EventOk(x) && !Step(fs, w, x).c.fault
    ensures !w.c.fault
  {
    hide K.Run;
    var hs := ConsoleSide(w, x);
    if hs != [] {
      assert hs == [hs[0]];
      OneHappening(w.c, hs[0]);
    }
  }

  // In every run.
  lemma {:induction false} RunKeepsWhole(fs: FS.FileSys, w: Whole, st: Chains, xs: seq<Event>)
    requires ShellLoads(fs) && Together(w, st) && EventsOk(xs) && |st| == MAX_TERMINALS && !Run(fs, w, xs).c.fault
    ensures Together(Run(fs, w, xs), ChainsAfter(fs, w, st, xs))
    decreases |xs|
  {
    hide Inv, FS.FsOk, Step, NextChains, Ok;
    if xs != [] {
      var most := xs[..|xs| - 1];
      FaultStays(fs, Run(fs, w, most), xs[|xs| - 1]);
      RunKeepsWhole(fs, w, st, most);
      StepKeepsWhole(fs, Run(fs, w, most), ChainsAfter(fs, w, st, most), xs[|xs| - 1]);
    }
  }

  // ---------------------------------------------------------------------------------------
  // Which terminal a process belongs to.

  // The running process is in the chain of the scheduled terminal and of no other.
  lemma OwnChainOnly(k: K.Kernel, st: Chains, t: nat)
    requires Inv(k, st) && t < MAX_TERMINALS
    ensures |st| == MAX_TERMINALS && k.scheduled < MAX_TERMINALS
    ensures Current(k, st) in st[t] <==> t == k.scheduled
  {
    var s := k.scheduled;
    assert At(st, s, |st[s]| - 1);
    if Current(k, st) in st[t] {
      var i :| 0 <= i < |st[t]| && st[t][i] == Current(k, st);
      assert At(st, t, i);
    }
  }

  // What one event sends to terminal t: what a process of its own chain prints, and the echo of
  // the keys pressed while it is shown.
  function InputFor(w: Whole, st: Chains, x: Event, t: V.TerminalId): seq<Input>
    requires Ok(w) && |st| == MAX_TERMINALS
  {
    match x
    case Print(b) => if !Waiting(w) && Current(w.k, st) in st[t] then [Char(b)] else []
    case Key(code) =>
      var a := KB.Meaning(w.c, code);
      if w.c.video.visible == t && !a.Switch? then KB.InputsOf(KB.Echoed(w.c.lines[t], a, w.c.limit)) else []
    case _ => []
  }

  // The running process is not about to print a backspace at the top-left in the background.
  predicate Sticks(w: Whole, x: Event)
    requires Ok(w)
  {
    x.Print? && KB.Sticks(w.c, KB.Print(x.b))
  }

  lemma SentIsInput(w: Whole, st: Chains, x: Event, t: V.TerminalId)
    requires Together(w, st) && ConsoleSide(w, x) != []
    ensures |st| == MAX_TERMINALS
    ensures V.Sent(w.c.video.visible, w.c.video.scheduled, KB.Shown(w.c, ConsoleSide(w, x)[0]), t) ==
            InputFor(w, st, x, t)
  {
    hide Inv, KB.Echoed, KB.InputsOf, V.Sent;
    OwnChainOnly(w.k, st, t);
    var v, s := w.c.video.visible, w.c.video.scheduled;
    var h := ConsoleSide(w, x)[0];
    NothingSent(v, s, t);
    match x
    case Print(b) => KB.SentOne(v, s, V.Out(b), t);
    case Key(code) =>
      var a := KB.Meaning(w.c, code);
      if a.Switch? {
        KB.SentOne(v, s, V.Show(a.t), t);
      } else {
        KB.EchoedIsEcho(w.c.lines[v], a, w.c.limit);
        KB.EchoesGoToVisible(v, s, KB.Echoed(w.c.lines[v], a, w.c.limit), t);
      }
    case Does(e) => KB.SentOne(v, s, V.Run((s + 1) % MAX_TERMINALS), t);
    case _ =>
  }

  lemma NothingSent(v: V.TerminalId, s: V.TerminalId, t: V.TerminalId)
    ensures V.Sent(v, s, [], t) == []
  {
  }

  lemma ScreenStep(fs: FS.FileSys, w: Whole, st: Chains, x: Event, t: V.TerminalId, tp: Tape)
    requires FS.FsOk(fs) && Together(w, st) && EventOk(x) && |st| == MAX_TERMINALS && !Step(fs, w, x).c.fault
    requires V.Settled(w.c.video) && !Sticks(w, x) && Shows(V.View(w.c.video, t), tp) && TapeOk(tp)
    ensures
      var r := Step(fs, w, x).c;
      V.Settled(r.video) && Shows(V.View(r.video, t), TapeReplay(tp, InputFor(w, st, x, t)))
  {
    hide Inv, KB.Happen, K.Run, Shows, TapeReplay, TapeOk, V.Settled, V.View, InputFor, KB.Sticks;
    var hs := ConsoleSide(w, x);
    NoInput(tp);
    if hs != [] {
      assert hs == [hs[0]];
      OneHappening(w.c, hs[0]);
      SentIsInput(w, st, x, t);
      PrintOnly(w, x);
      KB.ScreenFollows(w.c, hs[0], t, tp);
    } else {
      NoneIsNoInput(w, st, x, t);
    }
  }

  lemma NoInput(tp: Tape)
    requires TapeOk(tp)
    ensures TapeReplay(tp, []) == tp
  {
  }

  lemma NoneIsNoInput(w: Whole, st: Chains, x: Event, t: V.TerminalId)
    requires Coupled(w) && |st| == MAX_TERMINALS && ConsoleSide(w, x) == []
    ensures InputFor(w, st, x, t) == []
  {
  }

  lemma PrintOnly(w: Whole, x: Event)
    requires Ok(w) && ConsoleSide(w, x) != [] && !Sticks(w, x)
    ensures !KB.Sticks(w.c, ConsoleSide(w, x)[0])
  {
  }

  predicate NeverSticks(fs: FS.FileSys, w: Whole, xs: seq<Event>)
    requires FS.FsOk(fs) && Ok(w) && EventsOk(xs)
    decreases |xs|
  {
    xs == [] ||
    (NeverSticks(fs, w, xs[..|xs| - 1]) && !Sticks(Run(fs, w, xs[..|xs| - 1]), xs[|xs| - 1]))
  }

  // Terminal t's tape after a run, from the events and the chains alone.
  function TapeAfter(fs: FS.FileSys, w: Whole, st: Chains, xs: seq<Event>, t: V.TerminalId, tp: Tape): (r: Tape)
    requires FS.FsOk(fs) && Ok(w) && EventsOk(xs) && |st| == MAX_TERMINALS && TapeOk(tp)
    ensures TapeOk(r)
    decreases |xs|
  {
    if xs == [] then tp
    else
      var most := xs[..|xs| - 1];
      TapeReplay(TapeAfter(fs, w, st, most, t, tp),
                 InputFor(Run(fs, w, most), ChainsAfter(fs, w, st, most), xs[|xs| - 1], t))
  }

  // In every run of the whole kernel, the screen of each terminal shows what the processes of its
  // own chain printed while they ran, and the keys echoed while it was shown: no other process
  // reaches it, whatever is launched, halted, switched or scheduled.
  lemma {:induction false} ScreenIsItsProcesses(
      fs: FS.FileSys, w: Whole, st: Chains, xs: seq<Event>, t: V.TerminalId, tp: Tape)
    requires ShellLoads(fs) && Together(w, st) && EventsOk(xs) && |st| == MAX_TERMINALS && !Run(fs, w, xs).c.fault
    requires V.Settled(w.c.video) && NeverSticks(fs, w, xs) && TapeOk(tp) && Shows(V.View(w.c.video, t), tp)
    ensures V.Settled(Run(fs, w, xs).c.video)
    ensures Shows(V.View(Run(fs, w, xs).c.video, t), TapeAfter(fs, w, st, xs, t, tp))
    decreases |xs|
  {
    hide Inv, FS.FsOk, Step, NextChains, Ok, Shows, TapeReplay, TapeOk, V.Settled, V.View, InputFor, Sticks;
    if xs != [] {
      var most := xs[..|xs| - 1];
      FaultStays(fs, Run(fs, w, most), xs[|xs| - 1]);
      RunKeepsWhole(fs, w, st, most);
      ScreenIsItsProcesses(fs, w, st, most, t, tp);
      ScreenStep(fs, Run(fs, w, most), ChainsAfter(fs, w, st, most), xs[|xs| - 1], t,
                 TapeAfter(fs, w, st, most, t, tp));
    }
  }

  // ---------------------------------------------------------------------------------------
  // What a process reads.

  function Happenings(fs: FS.FileSys, w: Whole, xs: seq<Event>): seq<KB.Happening>
    requires FS.FsOk(fs) && Ok(w) && EventsOk(xs)
    decreases |xs|
  {
    if xs == [] then []
    else Happenings(fs, w, xs[..|xs| - 1]) + ConsoleSide(Run(fs, w, xs[..|xs| - 1]), xs[|xs| - 1])
  }

  lemma HappensAppend(c: KB.Console, a: seq<KB.Happening>, b: seq<KB.Happening>)
    requires KB.ConsoleOk(c) && |b| <= 1
    ensures KB.Happens(c, a + b) == KB.Happens(KB.Happens(c, a), b)
  {
    hide KB.Happen;
    if b == [] {
      assert a + b == a;
    } else {
      assert b == [b[0]] && (a + b)[..|a|] == a;
      OneHappening(KB.Happens(c, a), b[0]);
    }
  }

  lemma {:induction false} ConsoleRuns(fs: FS.FileSys, w: Whole, xs: seq<Event>)
    requires FS.FsOk(fs) && Ok(w) && EventsOk(xs)
    ensures Run(fs, w, xs).c == KB.Happens(w.c, Happenings(fs, w, xs))
    decreases |xs|
  {
    hide FS.FsOk, KB.Happens, K.Run;
    if xs == [] {
      NoHappenings(w.c);
    } else {
      var most := xs[..|xs| - 1];
      ConsoleRuns(fs, w, most);
      HappensAppend(w.c, Happenings(fs, w, most), ConsoleSide(Run(fs, w, most), xs[|xs| - 1]));
    }
  }

  lemma NoHappenings(c: KB.Console)
    requires KB.ConsoleOk(c)
    ensures KB.Happens(c, []) == c
  {
  }

  // The process that reads is in the chain of terminal t: then what its terminal_read hands over
  // is the fold of the keys that t received, and the drain leaves the other terminals' lines.
  lemma ReplyIsItsTerminals(fs: FS.FileSys, w: Whole, st: Chains, xs: seq<Event>, t: V.TerminalId)
    requires ShellLoads(fs) && Together(w, st) && EventsOk(xs) && |st| == MAX_TERMINALS && !Run(fs, w, xs).c.fault
    requires R.Clean(w.c.lines[t])
    requires Current(Run(fs, w, xs).k, ChainsAfter(fs, w, st, xs)) in ChainsAfter(fs, w, st, xs)[t]
    requires KB.EditAll(KB.Typed(w.c.lines[t]), KB.Received(w.c, Happenings(fs, w, xs), t)) != []
    ensures
      var r := Run(fs, w, xs);
      && r.k.scheduled == t && r.c.video.scheduled == t
      && R.ReplyIs(r.c.lines[t], KB.Cut(KB.EditAll(KB.Typed(w.c.lines[t]), KB.Received(w.c, Happenings(fs, w, xs), t))))
      && forall u: V.TerminalId :: u != t ==> KB.Happen(r.c, KB.ReadPoll).lines[u] == r.c.lines[u]
  {
    hide FS.FsOk, Inv, Run, ChainsAfter, KB.EditAll, KB.Received, KB.Cut, R.ReplyIs, Happenings, R.Clean;
    RunKeepsWhole(fs, w, st, xs);
    OwnChainOnly(Run(fs, w, xs).k, ChainsAfter(fs, w, st, xs), t);
    ConsoleRuns(fs, w, xs);
    R.ReplyIsTheFold(w.c, Happenings(fs, w, xs), t);
  }

  // ---------------------------------------------------------------------------------------
  // The two descriptions of the page-table entries for the screen agree.

  lemma RedirectionAgrees(tables: P.Tables, v: V.VideoState, t: V.TerminalId)
    requires P.Shape(tables) && V.Shape(v) && tables.kernel[VIDMEM_PAGE].base == v.base
    ensures P.RedirectVidmem(tables, t, v.visible).kernel[VIDMEM_PAGE].base == V.Redirect(v, t).base
    ensures V.View(v, t).page == v.pages[P.ScreenPage(t, v.visible) - VIDMEM_PAGE]
  {
  }

  // After a tick the 256 MB window of the process that goes on is the page with its own
  // terminal's screen.
  lemma WindowIsOwnScreen(fs: FS.FileSys, w: Whole, st: Chains, junk: seq<Byte>, ctx: K.Ctx)
    requires ShellLoads(fs) && Together(w, st) && |junk| == K.JUNK
    requires !Step(fs, w, Does(K.Timer(junk, ctx))).c.fault
    ensures
      var r := Step(fs, w, Does(K.Timer(junk, ctx)));
      && VideoOf(r.k.tables).Some?
      && var page := VideoOf(r.k.tables).value;
         && VIDMEM_PAGE <= page < VIDMEM_PAGE + V.NUM_PAGES
         && r.c.video.pages[page - VIDMEM_PAGE] == V.View(r.c.video, r.k.scheduled).page
  {
    hide FS.FsOk, Inv, K.Tick, VideoOf, KB.Happen;
    var e := K.Timer(junk, ctx);
    InvSizes(w.k, st);
    OneEvent(fs, w.k, st, e);
    StepKeepsWhole(fs, w, st, Does(e));
    TickRotates(fs, w.k, st, junk, ctx);
    var r := Step(fs, w, Does(e));
    assert r.k.visible == r.c.video.visible;
  }

  // The whole kernel after boot: any console that shows and runs terminal 2.
  lemma TogetherAfterBoot(fs: FS.FileSys, k: K.Kernel, boot: seq<K.Event>, c: KB.Console)
    requires ShellLoads(fs) && Scheduling.Initial(k) && |boot| == 5 && Scheduling.Timers(boot)
    requires KB.ConsoleOk(c) && !c.fault && c.video.visible == c.video.scheduled == 2
    ensures Together(Whole(K.Run(fs, k, boot), c), [[0], [1], [2]])
  {
    hide Inv, K.Run, FS.FsOk;
    Scheduling.FiveTicksBoot(fs, k, boot);
  }

  // A reader whose line cannot be copied to it ends in the fault: a child leaves its chain, its
  // parent gets 256, and nobody reads the line any more.
  lemma FaultEndsReader(fs: FS.FileSys, w: Whole, st: Chains, junk: seq<Byte>, ctx: K.Ctx)
    requires ShellLoads(fs) && Together(w, st) && |junk| == K.JUNK && |st| == MAX_TERMINALS && |st[w.k.scheduled]| > 1
    requires Waiting(w) && w.c.lines[w.c.video.scheduled].entered && w.c.lines[w.c.video.scheduled].n > 0
    ensures
      var t, p, r := w.k.scheduled, Current(w.k, st), Step(fs, w, ReadFault(junk, ctx));
      && p < K.MAX_PROCESSES && NextChains(fs, w, st, ReadFault(junk, ctx)) == st[t := st[t][..|st[t]| - 1]]
      && r.k.cpu == K.Returned(w.k.pcbs[p].parentCtx, 256) && !r.k.live[p] && !r.c.lines[t].reading
  {
    hide FS.FsOk, Inv, K.Step, K.MaskedPcb, P.ScreenPage;
    var e := K.Exit(K.Exception, junk, ctx);
    InvSizes(w.k, st);
    OneEvent(fs, w.k, st, e);
    OneHappening(w.c, KB.ReadFault);
    EndComesBack(fs, w.k, st, e);
    EndFrees(fs, w.k, st, e);
  }
}
