// Round-robin scheduling over whole runs, and the boot of the three shells (scheduler.c).
module Scheduling {
  import opened Bytes
  import opened Machine
  import opened Processes
  import opened ProcessRuns
  import opened KernelRuns
  import P = Paging
  import FS = FileSystem
  import S = Strings

  function Ticks(es: seq<Event>): nat {
    if es == [] then 0 else Ticks(es[..|es| - 1]) + if es[|es| - 1].Timer? then 1 else 0
  }

  // The context that the scheduler was entered with when terminal t last stopped being the
  // scheduled one, read off the events alone; held[t] if that was before them.
  function LastSaved(held: seq<Ctx>, start: nat, es: seq<Event>, t: nat): Ctx
    requires |held| == MAX_TERMINALS && t < MAX_TERMINALS
  {
    if es == [] then held[t]
    else
      var most, e := es[..|es| - 1], es[|es| - 1];
      if e.Timer? && (start + Ticks(most)) % MAX_TERMINALS == t then e.ctx
      else LastSaved(held, start, most, t)
  }

  lemma StepSchedules(fs: FS.FileSys, k: Kernel, st: Chains, e: Event)
    requires ShellLoads(fs) && Inv(k, st) && EventOk(e)
    ensures Ok(k) && Step(fs, k, e).scheduled == NextScheduled(k, e)
  {
    hide Inv, Step, FS.FsOk;
    InvSizes(k, st);
    StepKeepsInv(fs, k, st, e);
  }

  // Each terminal is scheduled in every third interval between ticks.
  lemma {:induction false} SchedulesRoundRobin(fs: FS.FileSys, k: Kernel, st: Chains, es: seq<Event>)
    requires ShellLoads(fs) && Inv(k, st) && EventsOk(es)
    ensures Run(fs, k, es).scheduled == (k.scheduled + Ticks(es)) % MAX_TERMINALS
    decreases |es|
  {
    hide Inv, Step, StepChains, FS.FsOk;
    InvSizes(k, st);
    if es != [] {
      var most := es[..|es| - 1];
      SchedulesRoundRobin(fs, k, st, most);
      RunKeepsInv(fs, k, st, most);
      StepSchedules(fs, Run(fs, k, most), RunChains(fs, k, st, most), es[|es| - 1]);
    }
  }

  // Every terminal but the scheduled one has this saved context in the record of the process
  // at its head.
  predicate Holding(k: Kernel, st: Chains, held: seq<Ctx>) {
    && Ok(k) && |st| == |held| == MAX_TERMINALS
    && forall t :: 0 <= t < MAX_TERMINALS && t != k.scheduled ==>
         Head(st[t]) < MAX_PROCESSES && k.pcbs[Head(st[t])].currCtx == held[t]
  }

  // A terminal that is not scheduled holds the context it was descheduled with; execute and
  // halt elsewhere cannot change it.
  lemma {:induction false} HoldsItsContext(
      fs: FS.FileSys, k: Kernel, st: Chains, held: seq<Ctx>, es: seq<Event>, t: nat)
    requires ShellLoads(fs) && Inv(k, st) && EventsOk(es) && Holding(k, st, held)
    requires t < MAX_TERMINALS && t != Run(fs, k, es).scheduled
    ensures
      var h := Head(RunChains(fs, k, st, es)[t]);
      h < MAX_PROCESSES && Run(fs, k, es).pcbs[h].currCtx == LastSaved(held, k.scheduled, es, t)
    decreases |es|
  {
    hide Inv, Step, StepChains, FS.FsOk, Launches;
    InvSizes(k, st);
    if es != [] {
      var most, e := es[..|es| - 1], es[|es| - 1];
      var k', st' := Run(fs, k, most), RunChains(fs, k, st, most);
      SchedulesRoundRobin(fs, k, st, most);
      RunKeepsInv(fs, k, st, most);
      StepKeepsInv(fs, k', st', e);
      if e.Timer? && k'.scheduled == t {
        SavesContext(fs, k', st', e);
      } else {
        HoldsItsContext(fs, k, st, held, most, t);
        OtherHeadStays(fs, k', st', e, t);
      }
    }
  }

  lemma SavesContext(fs: FS.FileSys, k: Kernel, st: Chains, e: Event)
    requires FS.FsOk(fs) && Inv(k, st) && EventOk(e) && e.Timer?
    ensures StepChains(fs, k, st, e) == st && Current(k, st) < MAX_PROCESSES
    ensures Step(fs, k, e).pcbs[Current(k, st)].currCtx == e.ctx
  {
    hide Inv, Tick, P.ScreenPage;
    InvSizes(k, st);
    TickRotates(fs, k, st, e.junk, e.ctx);
  }

  lemma OtherHeadStays(fs: FS.FileSys, k: Kernel, st: Chains, e: Event, t: nat)
    requires ShellLoads(fs) && Inv(k, st) && EventOk(e) && t < MAX_TERMINALS && t != k.scheduled
    ensures
      var h := Head(st[t]);
      && StepChains(fs, k, st, e)[t] == st[t] && h < MAX_PROCESSES && Untouched(k, Step(fs, k, e), h)
  {
    hide AllLinked, Covered, Running, Step, Launches, FS.FsOk, Untouched;
    InvSizes(k, st);
    HeadIsLive(k, st, t);
    HeadsDiffer(st, k.scheduled, t);
    StepKeepsInv(fs, k, st, e);
  }

  // The scheduled terminal goes on at a saved context, with its own screen behind the 256 MB
  // window.
  predicate Resumed(r: Kernel, saved: Ctx) {
    Ok(r) && r.cpu == Resume(saved) && VideoOf(r.tables) == Some(P.ScreenPage(r.scheduled, r.visible))
  }

  // From any state of the forest, every tick resumes the next terminal with exactly the context
  // it was last descheduled with, whatever was launched, halted or restarted meanwhile.
  lemma TickResumesSaved(
      fs: FS.FileSys, k: Kernel, st: Chains, held: seq<Ctx>, es: seq<Event>, junk: seq<Byte>, ctx: Ctx)
    requires ShellLoads(fs) && Inv(k, st) && EventsOk(es) && |junk| == JUNK && Holding(k, st, held)
    ensures
      var before := Run(fs, k, es);
      var next := (before.scheduled + 1) % MAX_TERMINALS;
      var r := Tick(fs, before, junk, ctx);
      r.scheduled == next && Resumed(r, LastSaved(held, k.scheduled, es, next))
  {
    hide Inv, FS.FsOk, Tick, P.ScreenPage, LastSaved, Ticks, Run, RunChains;
    InvSizes(k, st);
    var before := Run(fs, k, es);
    RunKeepsInv(fs, k, st, es);
    InvSizes(before, RunChains(fs, k, st, es));
    HoldsItsContext(fs, k, st, held, es, (before.scheduled + 1) % MAX_TERMINALS);
    TickRotates(fs, before, RunChains(fs, k, st, es), junk, ctx);
  }

  // ---------------------------------------------------------------------------------------
  // Boot.

  // As init_terminal and init_paging leave the kernel.
  predicate Initial(k: Kernel) {
    && Ok(k) && k.tables == P.Init()
    && (forall p :: 0 <= p < MAX_PROCESSES ==> !k.live[p])
    && (forall t :: 0 <= t < MAX_TERMINALS ==> k.terms[t] == Term(Null, -1))
    && k.scheduled == k.visible == k.shells == 0 && !k.crashed
  }

  // n shells are up, with fresh descriptors; the scheduler has moved on to the next terminal, or
  // not yet. `held` are the contexts saved by the moves so far.
  ghost predicate Booting(k: Kernel, n: nat, moved: bool, held: seq<Ctx>) {
    && Ok(k) && n <= MAX_TERMINALS && k.shells == n
    && k.scheduled == (if moved then n else n - 1)
    && (forall p :: 0 <= p < MAX_PROCESSES ==> k.live[p] == (p < n))
    && (forall t :: 0 <= t < MAX_TERMINALS ==> k.terms[t] == if t < n then Term(Slot(t), t) else Term(Null, -1))
    && (forall p :: 0 <= p < n ==> k.pcbs[p].pid == k.pcbs[p].ppid == p && FreshTable(k.pcbs[p].fda))
    && |held| == (if moved then n else n - 1) && (forall p :: 0 <= p < |held| ==> k.pcbs[p].currCtx == held[p])
    && P.Base(k.tables, if n == 0 then None else Some(2 + n - 1), VideoOf(k.tables)) && VideoOf(k.tables) == None
    && (n > 0 ==> k.esp0 == KernelStack(n - 1) && k.visible == n - 1)
  }

  lemma BootStarts(fs: FS.FileSys, k: Kernel, n: nat, held: seq<Ctx>, junk: seq<Byte>, ctx: Ctx)
    requires ShellLoads(fs) && Booting(k, n, true, held) && |junk| == JUNK && n < MAX_TERMINALS
    ensures
      var r := Tick(fs, k, junk, ctx);
      Booting(r, n + 1, false, held) && r.cpu.Start? && r.cpu.pid == n
  {
    hide Execute, P.Base, P.SetUserProgPage, KernelStack, VideoOf, ResetFds, FreshTable;
    var k' := k.(shells := k.shells + 1, terms := k.terms[n := Term(Boot(ctx), n)], visible := n);
    LowestFreeIs(k'.live, 0, n);
    BootTickIsExecute(fs, k, n, held, junk, ctx);
    BaseLaunch(fs, k', n, junk, ctx);
    ProgKeepsBase(k.tables, if n == 0 then None else Some(2 + n - 1), n);
  }

  lemma BootTickIsExecute(fs: FS.FileSys, k: Kernel, n: nat, held: seq<Ctx>, junk: seq<Byte>, ctx: Ctx)
    requires FS.FsOk(fs) && Booting(k, n, true, held) && |junk| == JUNK && n < MAX_TERMINALS
    ensures
      Tick(fs, k, junk, ctx) ==
      Execute(fs, k.(shells := k.shells + 1, terms := k.terms[n := Term(Boot(ctx), n)], visible := n),
              SHELL + [NUL], junk, ctx).k
  {
    hide Execute, P.Base, KernelStack, VideoOf;
  }

  lemma BootMoves(fs: FS.FileSys, k: Kernel, n: nat, held: seq<Ctx>, junk: seq<Byte>, ctx: Ctx)
    requires FS.FsOk(fs) && Booting(k, n, false, held) && |junk| == JUNK && 0 < n < MAX_TERMINALS
    ensures Booting(Tick(fs, k, junk, ctx), n, true, held + [ctx]) && Tick(fs, k, junk, ctx).cpu == k.cpu
  {
    hide Execute, P.Base, KernelStack, VideoOf, Dispatch, FreshTable;
  }

  lemma BootStart(k: Kernel)
    requires Initial(k)
    ensures Booting(k, 0, true, [])
  {
    P.RunsKeepBase([]);
  }

  predicate Timers(es: seq<Event>) {
    EventsOk(es) && forall i :: 0 <= i < |es| ==> es[i].Timer?
  }

  // Every second tick of boot moves on, and saves.
  function BootSaved(es: seq<Event>): seq<Ctx>
    requires Timers(es)
    decreases |es|
  {
    if es == [] then []
    else
      var most := es[..|es| - 1];
      BootSaved(most) + if |most| % 2 == 1 then [es[|es| - 1].ctx] else []
  }

  lemma BootStep(fs: FS.FileSys, k: Kernel, e: Event, done: nat, held: seq<Ctx>)
    requires ShellLoads(fs) && done < 5 && EventOk(e) && e.Timer? && Booting(k, (done + 1) / 2, done % 2 == 0, held)
    ensures Ok(k)
    ensures Booting(Step(fs, k, e), (done + 2) / 2, done % 2 == 1, held + if done % 2 == 1 then [e.ctx] else [])
  {
    hide Booting, Tick, FS.FsOk;
    BootingIsOk(k, (done + 1) / 2, done % 2 == 0, held);
    if done % 2 == 0 {
      BootStarts(fs, k, done / 2, held, e.junk, e.ctx);
      assert held + [] == held;
    } else {
      BootMoves(fs, k, (done + 1) / 2, held, e.junk, e.ctx);
    }
  }

  lemma BootingIsOk(k: Kernel, n: nat, moved: bool, held: seq<Ctx>)
    requires Booting(k, n, moved, held)
    ensures Ok(k)
  {
  }

  lemma {:induction false} BootRun(fs: FS.FileSys, k: Kernel, es: seq<Event>)
    requires ShellLoads(fs) && Initial(k) && |es| <= 5 && Timers(es)
    ensures Booting(Run(fs, k, es), (|es| + 1) / 2, |es| % 2 == 0, BootSaved(es))
    decreases |es|
  {
    hide Booting, Step, FS.FsOk, EventOk;
    if es == [] {
      BootStart(k);
    } else {
      var most := es[..|es| - 1];
      BootRun(fs, k, most);
      BootStep(fs, Run(fs, k, most), es[|es| - 1], |most|, BootSaved(most));
    }
  }

  lemma PrefixOfPrefix(es: seq<Event>, i: nat, j: nat)
    requires i <= j <= |es|
    ensures es[..j][..i] == es[..i]
  {
  }

  lemma FiveBootSaved(es: seq<Event>)
    requires Timers(es) && |es| == 5
    ensures BootSaved(es) == [es[1].ctx, es[3].ctx]
  {
    var e4, e3, e2, e1 := es[..4], es[..3], es[..2], es[..1];
    PrefixOfPrefix(es, 3, 4);
    PrefixOfPrefix(es, 2, 3);
    PrefixOfPrefix(es, 1, 2);
    assert e1[..0] == [];
    assert BootSaved(e1) == [];
    assert BootSaved(e2) == BootSaved(e1) + [es[1].ctx] == [es[1].ctx];
    assert BootSaved(e3) == BootSaved(e2) + [] == [es[1].ctx];
    assert BootSaved(e4) == BootSaved(e3) + [es[3].ctx];
    assert BootSaved(es) == BootSaved(e4) + [] == [es[1].ctx, es[3].ctx];
  }

  lemma BootedIsForest(k: Kernel, held: seq<Ctx>)
    requires Booting(k, MAX_TERMINALS, false, held)
    ensures Inv(k, [[0], [1], [2]])
  {
    var st: Chains := [[0], [1], [2]];
    assert forall t, i :: At(st, t, i) ==> i == 0 && st[t][i] == t;
    forall p | 0 <= p < MAX_PROCESSES && k.live[p] ensures exists t, i :: At(st, t, i) && st[t][i] == p {
      assert At(st, p, 0) && st[p][0] == p;
    }
  }

  lemma UnbootedIsNot(k: Kernel, n: nat, moved: bool, held: seq<Ctx>, st: Chains)
    requires Booting(k, n, moved, held) && n < MAX_TERMINALS
    ensures !Inv(k, st)
  {
    assert k.terms[n] == Term(Null, -1);
  }

  // From the initial state exactly five ticks bring up the three shells, as pids 0, 1 and 2.
  lemma FiveTicksBoot(fs: FS.FileSys, k: Kernel, es: seq<Event>)
    requires ShellLoads(fs) && Initial(k) && |es| <= 5 && Timers(es)
    ensures (exists st :: Inv(Run(fs, k, es), st)) <==> |es| == 5
    ensures |es| == 5 ==> Inv(Run(fs, k, es), [[0], [1], [2]])
    ensures |es| == 5 ==> Run(fs, k, es).scheduled == Run(fs, k, es).visible == 2
  {
    hide Inv, Run, FS.FsOk;
    BootRun(fs, k, es);
    var r := Run(fs, k, es);
    if |es| == 5 {
      BootedIsForest(r, BootSaved(es));
    } else {
      forall st ensures !Inv(r, st) {
        UnbootedIsNot(r, (|es| + 1) / 2, |es| % 2 == 0, BootSaved(es), st);
      }
    }
  }

  // Every state after boot, whatever the processes do (except that no read is given a buffer in
  // the kernel's own 4 MB): three chains of processes, and every view of the current one agrees.
  lemma ReachableIsForest(fs: FS.FileSys, k: Kernel, boot: seq<Event>, es: seq<Event>)
    requires ShellLoads(fs) && Initial(k) && |boot| == 5 && Timers(boot) && EventsOk(es)
    ensures
      var up := Run(fs, k, boot);
      Inv(Run(fs, up, es), RunChains(fs, up, [[0], [1], [2]], es))
  {
    hide Inv, Run, RunChains, FS.FsOk;
    FiveTicksBoot(fs, k, boot);
    RunKeepsInv(fs, Run(fs, k, boot), [[0], [1], [2]], es);
  }

  // What boot leaves saved: terminals 0 and 1 were descheduled by the second and fourth ticks.
  // (Terminal 2 is running, so its entry is not looked at.)
  function BootHeld(boot: seq<Event>): (held: seq<Ctx>)
    requires Timers(boot) && |boot| == 5
    ensures |held| == MAX_TERMINALS
  {
    [boot[1].ctx, boot[3].ctx, boot[4].ctx]
  }

  lemma BootIsHolding(fs: FS.FileSys, k: Kernel, boot: seq<Event>)
    requires ShellLoads(fs) && Initial(k) && |boot| == 5 && Timers(boot)
    ensures Holding(Run(fs, k, boot), [[0], [1], [2]], BootHeld(boot))
  {
    hide Run, FS.FsOk, P.Base, VideoOf, KernelStack, FreshTable, BootSaved;
    BootRun(fs, k, boot);
    FiveBootSaved(boot);
  }

  // From the initial state on: every tick after boot resumes the next terminal with exactly the
  // context it was last descheduled with, during boot or since.
  lemma ResumesWhereItStopped(
      fs: FS.FileSys, k: Kernel, boot: seq<Event>, es: seq<Event>, junk: seq<Byte>, ctx: Ctx)
    requires ShellLoads(fs) && Initial(k) && |boot| == 5 && Timers(boot) && EventsOk(es) && |junk| == JUNK
    ensures
      var before := Run(fs, Run(fs, k, boot), es);
      var next := (before.scheduled + 1) % MAX_TERMINALS;
      var r := Tick(fs, before, junk, ctx);
      r.scheduled == next && Resumed(r, LastSaved(BootHeld(boot), 2, es, next))
  {
    hide Inv, FS.FsOk, Run, Tick, Holding, Resumed, LastSaved, BootHeld;
    FiveTicksBoot(fs, k, boot);
    BootIsHolding(fs, k, boot);
    TickResumesSaved(fs, Run(fs, k, boot), [[0], [1], [2]], BootHeld(boot), es, junk, ctx);
  }
}
