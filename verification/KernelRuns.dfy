// Whole runs of the kernel after boot: the invariant at every step, nesting of execute and
// halt, and round-robin scheduling.
module KernelRuns {
  import opened Bytes
  import opened Machine
  import opened Processes
  import opened ProcessRuns
  import opened UserMemory
  import P = Paging
  import FS = FileSystem

  // ---------------------------------------------------------------------------------------
  // The timer.

  lemma TickChanges(fs: FS.FileSys, k: Kernel, p: nat, n: nat, junk: seq<Byte>, ctx: Ctx)
    requires FS.FsOk(fs) && Ok(k) && |junk| == JUNK && p < MAX_PROCESSES && n < MAX_PROCESSES && p != n
    requires k.terms[k.scheduled].pcb == Slot(p) && k.terms[(k.scheduled + 1) % MAX_TERMINALS].pcb == Slot(n)
    requires k.pcbs[n].pid == n
    ensures
      var next := (k.scheduled + 1) % MAX_TERMINALS;
      Tick(fs, k, junk, ctx) ==
        k.(scheduled := next,
           pcbs := k.pcbs[p := k.pcbs[p].(currCtx := ctx)],
           tables := P.SetUserProgPage(P.SetUserVideoPage(k.tables, true, k.visible, next), n, true),
           esp0 := KernelStack(n),
           cpu := Resume(k.pcbs[n].currCtx))
  {
    hide P.SetUserProgPage, P.SetUserVideoPage, KernelStack, Execute;
  }

  lemma HeadsDiffer(st: Chains, t: nat, u: nat)
    requires Distinct(st) && t < |st| && u < |st| && t != u && st[t] != [] && st[u] != []
    ensures Head(st[t]) != Head(st[u])
  {
    assert At(st, t, |st[t]| - 1) && At(st, u, |st[u]| - 1);
  }

  // A tick saves the current context, moves to the next terminal and resumes its process: the
  // TSS, the program page and the 256 MB window are all that terminal's.
  lemma TickRotates(fs: FS.FileSys, k: Kernel, st: Chains, junk: seq<Byte>, ctx: Ctx)
    requires FS.FsOk(fs) && Inv(k, st) && |junk| == JUNK
    ensures
      var p, next := Current(k, st), (k.scheduled + 1) % MAX_TERMINALS;
      var r := Tick(fs, k, junk, ctx);
      && p < MAX_PROCESSES && Head(st[next]) < MAX_PROCESSES && Head(st[next]) != p
      && Inv(r, st) && r.scheduled == next && r.visible == k.visible
      && r.live == k.live && r.terms == k.terms && r.frames == k.frames
      && r.pcbs == k.pcbs[p := k.pcbs[p].(currCtx := ctx)]
      && r.cpu == Resume(k.pcbs[Head(st[next])].currCtx)
      && VideoOf(r.tables) == Some(P.ScreenPage(next, k.visible)) && r.crashed == k.crashed
  {
    hide AllLinked, Distinct, Covered, Tick, KernelStack, MaskedPcb, VideoOf;
    hide P.Base, P.SetUserProgPage, P.SetUserVideoPage, P.ScreenPage;
    var p, next := Current(k, st), (k.scheduled + 1) % MAX_TERMINALS;
    var n := Head(st[next]);
    ViewsAgree(k, st);
    HeadIsLive(k, st, next);
    HeadsDiffer(st, k.scheduled, next);
    TickChanges(fs, k, p, n, junk, ctx);
    VideoKeepsBase(k.tables, Some(2 + p), k.visible, next);
    ProgKeepsBase(P.SetUserVideoPage(k.tables, true, k.visible, next), Some(2 + p), n);
    LinksKeepForest(k, Tick(fs, k, junk, ctx), st);
  }

  // Switching the visible terminal alone does not move the 256 MB window, so the window then
  // shows the scheduled terminal's screen exactly if that terminal's visibility is unchanged.
  lemma WindowAfterSwitch(fs: FS.FileSys, k: Kernel, st: Chains, junk: seq<Byte>, ctx: Ctx, t: nat)
    requires FS.FsOk(fs) && Inv(k, st) && |junk| == JUNK && t < MAX_TERMINALS
    ensures
      var r := Step(fs, Tick(fs, k, junk, ctx), ShowTerminal(t));
      VideoOf(r.tables) == Some(P.ScreenPage(r.scheduled, r.visible)) <==>
      (r.scheduled == k.visible) == (r.scheduled == t)
  {
    hide Tick, Rooted, AllLinked, Distinct, Covered, P.Base;
    TickRotates(fs, k, st, junk, ctx);
  }

  // ---------------------------------------------------------------------------------------
  // Any step.

  function StepChains(fs: FS.FileSys, k: Kernel, st: Chains, e: Event): (r: Chains)
    requires FS.FsOk(fs) && Ok(k) && EventOk(e) && |st| == MAX_TERMINALS
    ensures |r| == MAX_TERMINALS
  {
    var t := k.scheduled;
    match e
    case Exec(command, junk, _) =>
      if Launches(fs, k, command, junk) then st[t := st[t] + [LowestFree(k.live, 0)]] else st
    case _ => if Ends(fs, k, e) && |st[t]| > 1 then st[t := st[t][..|st[t]| - 1]] else st
  }

  function NextScheduled(k: Kernel, e: Event): nat {
    if e.Timer? then (k.scheduled + 1) % MAX_TERMINALS else k.scheduled
  }

  // What execute wrote into a PCB for good.
  predicate SameStart(a: Pcb, b: Pcb) {
    a.pid == b.pid && a.ppid == b.ppid && a.parentCtx == b.parentCtx && a.parent == b.parent && a.arg == b.arg
  }

  predicate BaseExit(fs: FS.FileSys, k: Kernel, st: Chains, e: Event)
    requires FS.FsOk(fs) && Ok(k) && EventOk(e) && k.scheduled < |st|
  {
    Ends(fs, k, e) && |st[k.scheduled]| <= 1
  }

  // A step touches only the current process (or a free slot), and of its record only what is
  // not written for good.
  predicate Confined(k: Kernel, r: Kernel, p: nat, restarts: bool)
    requires Ok(k) && Ok(r)
  {
    && p < MAX_PROCESSES && OthersUntouched(k, r, p)
    && (r.live[p] && !restarts ==> SameStart(k.pcbs[p], r.pcbs[p]))
  }

  ghost predicate Advances(fs: FS.FileSys, k: Kernel, st: Chains, e: Event)
    requires FS.FsOk(fs) && Ok(k) && EventOk(e) && |st| == MAX_TERMINALS
  {
    var r := Step(fs, k, e);
    && Inv(r, StepChains(fs, k, st, e)) && r.scheduled == NextScheduled(k, e)
    && Confined(k, r, Current(k, st), BaseExit(fs, k, st, e))
  }

  lemma ExecAdvances(fs: FS.FileSys, k: Kernel, st: Chains, e: Event)
    requires FS.FsOk(fs) && Inv(k, st) && EventOk(e) && e.Exec?
    ensures Advances(fs, k, st, e)
    ensures Untouched(k, Step(fs, k, e), Current(k, st))
  {
    hide Inv, Launches, Execute, FS.FsOk, MaskedPcb;
    InvSizes(k, st);
    if Launches(fs, k, e.command, e.junk) {
      LaunchedExecutePushes(fs, k, st, e.command, e.junk, e.ctx);
    } else {
      FailedExecuteIsHarmless(fs, k, st, e.command, e.junk, e.ctx);
    }
    assert Untouched(k, Step(fs, k, e), Current(k, st));
  }

  // Which events can end the running process, and what the step then is.
  predicate CanEnd(e: Event) {
    e.Exit? || e.Store? || e.MapVideo? || e.ReadBytes? || e.Args?
  }

  lemma StepOf(fs: FS.FileSys, k: Kernel, e: Event)
    requires FS.FsOk(fs) && Ok(k) && EventOk(e)
    ensures Ends(fs, k, e) ==>
              CanEnd(e) && |e.junk| == JUNK && Step(fs, k, e) == End(fs, Call(fs, k, e).k, HowOf(e), e.junk, e.ctx)
    ensures !Ends(fs, k, e) && OwnCall(e) ==> Step(fs, k, e) == Call(fs, k, e).k
  {
    hide End, Vidmap, Read, GetArgs, UserStore, Open, Close, FS.FsOk, Ok;
  }

  // An end pops the chain, or restarts the base shell.
  lemma EndKeepsInv(fs: FS.FileSys, k: Kernel, st: Chains, how: Ending, junk: seq<Byte>, ctx: Ctx)
    requires ShellLoads(fs) && Inv(k, st) && |junk| == JUNK
    ensures
      var r, t := End(fs, k, how, junk, ctx), k.scheduled;
      && Ok(k) && |st| == MAX_TERMINALS && Current(k, st) < MAX_PROCESSES
      && Inv(r, if |st[t]| > 1 then st[t := st[t][..|st[t]| - 1]] else st) && r.scheduled == t
      && OthersUntouched(k, r, Current(k, st))
      && r.live == (if |st[t]| > 1 then k.live[Current(k, st) := false] else k.live)
      && r.visible == k.visible
      && (|st[t]| == 1 ==> FreshTable(r.pcbs[Current(k, st)].fda))
  {
    hide Inv, Halt, FS.FsOk, MaskedPcb, P.ScreenPage, Ok;
    InvSizes(k, st);
    var raised := Raise(k, how);
    RaiseKeepsInv(k, st, how);
    if |st[k.scheduled]| > 1 {
      ExitReturns(fs, raised, st, CodeOf(how), junk, ctx);
    } else {
      BaseFacts(k, st);
      BaseExitRestarts(fs, raised, st, CodeOf(how), junk, ctx);
    }
    RaisedUntouched(k, how, End(fs, k, how, junk, ctx), Current(k, st));
  }

  // The process ended after what it had done by then.
  lemma EndAdvances(fs: FS.FileSys, k: Kernel, st: Chains, e: Event)
    requires ShellLoads(fs) && Inv(k, st) && EventOk(e) && Ends(fs, k, e)
    ensures Advances(fs, k, st, e)
  {
    hide Inv, End, FS.FsOk, MaskedPcb, Ends, Step, Call, Ok, Untouched, OthersUntouched;
    InvSizes(k, st);
    StepOf(fs, k, e);
    CallKeepsInv(fs, k, st, e);
    EndKeepsInv(fs, Call(fs, k, e).k, st, HowOf(e), e.junk, e.ctx);
    OthersBoth(k, Call(fs, k, e).k, Step(fs, k, e), Current(k, st));
  }

  lemma OthersBoth(k: Kernel, m: Kernel, r: Kernel, p: nat)
    requires Ok(k) && Ok(m) && Ok(r) && OthersUntouched(k, m, p) && OthersUntouched(m, r, p) && m.live == k.live
    ensures OthersUntouched(k, r, p)
  {
    forall q | 0 <= q < MAX_PROCESSES && k.live[q] && q != p ensures Untouched(k, r, q) {
      assert Untouched(k, m, q) && Untouched(m, r, q);
    }
  }

  // The flag is not part of what the invariant is about.
  lemma RaiseKeepsInv(k: Kernel, st: Chains, how: Ending)
    requires Inv(k, st)
    ensures Inv(Raise(k, how), st) && Ok(Raise(k, how))
  {
    hide AllLinked, Distinct, Covered, Rooted, P.Base;
    LinksKeepForest(k, Raise(k, how), st);
  }

  lemma RaisedUntouched(k: Kernel, how: Ending, r: Kernel, p: nat)
    requires Ok(k) && Ok(r) && Ok(Raise(k, how)) && OthersUntouched(Raise(k, how), r, p)
    ensures OthersUntouched(k, r, p)
  {
    forall q | 0 <= q < MAX_PROCESSES && k.live[q] && q != p ensures Untouched(k, r, q) {
      assert Untouched(Raise(k, how), r, q);
    }
  }

  lemma TimerAdvances(fs: FS.FileSys, k: Kernel, st: Chains, e: Event)
    requires FS.FsOk(fs) && Inv(k, st) && EventOk(e) && e.Timer?
    ensures Advances(fs, k, st, e)
  {
    hide Inv, Tick, FS.FsOk, MaskedPcb, P.ScreenPage;
    InvSizes(k, st);
    TickRotates(fs, k, st, e.junk, e.ctx);
  }

  lemma StepKeepsInv(fs: FS.FileSys, k: Kernel, st: Chains, e: Event)
    requires ShellLoads(fs) && Inv(k, st) && EventOk(e)
    ensures Advances(fs, k, st, e)
  {
    hide Inv, FS.FsOk, Step, Call, Ok;
    InvSizes(k, st);
    if e.Exec? {
      ExecAdvances(fs, k, st, e);
    } else if e.Timer? {
      TimerAdvances(fs, k, st, e);
    } else if Ends(fs, k, e) {
      EndAdvances(fs, k, st, e);
    } else {
      StepOf(fs, k, e);
      CallKeepsInv(fs, k, st, e);
    }
  }

  lemma InvSizes(k: Kernel, st: Chains)
    requires Inv(k, st)
    ensures Ok(k) && |st| == MAX_TERMINALS && st[k.scheduled] != []
    ensures Current(k, st) < MAX_PROCESSES && k.live[Current(k, st)] && k.scheduled < MAX_TERMINALS
  {
    HeadIsLive(k, st, k.scheduled);
  }

  // ---------------------------------------------------------------------------------------
  // Any run.

  function RunChains(fs: FS.FileSys, k: Kernel, st: Chains, es: seq<Event>): (r: Chains)
    requires FS.FsOk(fs) && Ok(k) && EventsOk(es) && |st| == MAX_TERMINALS
    ensures |r| == MAX_TERMINALS
    decreases |es|
  {
    if es == [] then st
    else
      var most := es[..|es| - 1];
      StepChains(fs, Run(fs, k, most), RunChains(fs, k, st, most), es[|es| - 1])
  }

  // The forest and the agreement of every view of the current process, in every run.
  lemma {:induction false} RunKeepsInv(fs: FS.FileSys, k: Kernel, st: Chains, es: seq<Event>)
    requires ShellLoads(fs) && Inv(k, st) && EventsOk(es)
    ensures Inv(Run(fs, k, es), RunChains(fs, k, st, es))
    decreases |es|
  {
    hide Inv, Step, StepChains, FS.FsOk;
    InvSizes(k, st);
    if es != [] {
      var most := es[..|es| - 1];
      RunKeepsInv(fs, k, st, most);
      StepKeepsInv(fs, Run(fs, k, most), RunChains(fs, k, st, most), es[|es| - 1]);
    }
  }

  // In every run, user mode reaches the current process's own frame at 128 MB and at most one
  // screen page at 256 MB: no other process's frame and nothing of the kernel's.
  lemma UserReachesOwnFrame(fs: FS.FileSys, k: Kernel, st: Chains, es: seq<Event>, va: nat)
    requires ShellLoads(fs) && Inv(k, st) && EventsOk(es) && va < P.ADDRESS_SPACE
    ensures
      var r := Run(fs, k, es);
      var p := Current(r, RunChains(fs, k, st, es));
      && p < MAX_PROCESSES && r.live[p]
      && P.Walk(r.tables, va, true) == P.Windows(Some(2 + p), VideoOf(r.tables), va)
      && (forall pa :: P.Walk(r.tables, va, true) == Some(pa) ==>
            pa / FOUR_MB == 2 + p || VIDMEM_PAGE <= pa / FOUR_KB <= VIDMEM_PAGE + MAX_TERMINALS)
  {
    hide AllLinked, Distinct, Covered, Rooted, P.Base, P.Walk, Run, RunChains, FS.FsOk, KernelStack, VideoOf;
    RunKeepsInv(fs, k, st, es);
    var r := Run(fs, k, es);
    var st' := RunChains(fs, k, st, es);
    InvSizes(r, st');
    P.BaseReaches(r.tables, Some(2 + Current(r, st')), VideoOf(r.tables), va);
  }

  // ---------------------------------------------------------------------------------------
  // execute and halt nest like calls.

  // The process that called execute waits, as it was, for its child pid.
  ghost predicate Waits(k0: Kernel, st0: Chains, pid: nat, ctx: Ctx, k: Kernel, st: Chains)
    requires Ok(k0) && Ok(k) && |st0| == |st| == MAX_TERMINALS
  {
    var t := k0.scheduled;
    var d := |st0[t]|;
    && pid < MAX_PROCESSES
    && |st[t]| > d && st[t][..d] == st0[t] && st[t][d] == pid && k.pcbs[pid].parentCtx == ctx
    && (forall i :: 0 <= i < d ==> st0[t][i] < MAX_PROCESSES && Untouched(k0, k, st0[t][i]))
  }

  // Terminal t's chain stays longer than d before each of the events.
  predicate Deeper(fs: FS.FileSys, k: Kernel, st: Chains, es: seq<Event>, t: nat, d: nat)
    requires FS.FsOk(fs) && Ok(k) && EventsOk(es) && |st| == MAX_TERMINALS && t < MAX_TERMINALS
    decreases |es|
  {
    es == [] || (var most := es[..|es| - 1]; Deeper(fs, k, st, most, t, d) && |RunChains(fs, k, st, most)[t]| > d)
  }

  // A process below the top of its chain, or on another terminal, is not the current one.
  lemma NotCurrent(k: Kernel, st: Chains, t: nat, i: nat)
    requires Forest(k, st) && At(st, t, i) && (t != k.scheduled || i < |st[t]| - 1)
    ensures st[t][i] < MAX_PROCESSES && k.live[st[t][i]] && st[t][i] != Current(k, st)
  {
    assert Linked(k, st, t, i);
    assert At(st, k.scheduled, |st[k.scheduled]| - 1);
  }

  lemma StillWaits(fs: FS.FileSys, k0: Kernel, st0: Chains, pid: nat, ctx: Ctx, k: Kernel, st: Chains, e: Event)
    requires ShellLoads(fs) && Ok(k0) && |st0| == MAX_TERMINALS && Inv(k, st) && EventOk(e)
    requires Waits(k0, st0, pid, ctx, k, st) && st0[k0.scheduled] != []
    requires |StepChains(fs, k, st, e)[k0.scheduled]| > |st0[k0.scheduled]|
    ensures Waits(k0, st0, pid, ctx, Step(fs, k, e), StepChains(fs, k, st, e))
  {
    hide AllLinked, Distinct, Covered, Rooted, Running, Ok, Untouched, Step, Launches, FS.FsOk;
    InvSizes(k, st);
    Sizes(k0);
    var t := k0.scheduled;
    var d := |st0[t]|;
    var r := Step(fs, k, e);
    StepKeepsInv(fs, k, st, e);
    ChildKeepsCtx(fs, k, st, e, t, d);
    forall i | 0 <= i < d ensures Untouched(k0, r, st0[t][i]) {
      assert st[t][..d][i] == st[t][i];
      NotCurrent(k, st, t, i);
      UntouchedBoth(k0, k, r, st0[t][i]);
    }
  }

  // While the i-th process of a chain stays in it, its return context stays (unless it is a
  // base shell).
  lemma ChildKeepsCtx(fs: FS.FileSys, k: Kernel, st: Chains, e: Event, t: nat, i: nat)
    requires ShellLoads(fs) && Inv(k, st) && EventOk(e) && t < MAX_TERMINALS && 0 < i < |st[t]|
    requires i < |StepChains(fs, k, st, e)[t]|
    ensures
      var p := st[t][i];
      && p < MAX_PROCESSES && StepChains(fs, k, st, e)[t][..i + 1] == st[t][..i + 1]
      && Step(fs, k, e).pcbs[p].parentCtx == k.pcbs[p].parentCtx
  {
    hide Distinct, Covered, Rooted, Running, Step, Launches, FS.FsOk;
    InvSizes(k, st);
    var p := st[t][i];
    var r := Step(fs, k, e);
    StepKeepsInv(fs, k, st, e);
    if t != k.scheduled || i < |st[t]| - 1 {
      NotCurrent(k, st, t, i);
      assert Untouched(k, r, p);
    } else {
      var st' := StepChains(fs, k, st, e);
      assert At(st', t, i) && Linked(r, st', t, i);
      assert p == Current(k, st);
    }
  }

  lemma {:induction false} WaitsThroughout(
      fs: FS.FileSys, k0: Kernel, st0: Chains, pid: nat, ctx: Ctx, k: Kernel, st: Chains, es: seq<Event>)
    requires ShellLoads(fs) && Ok(k0) && |st0| == MAX_TERMINALS && st0[k0.scheduled] != []
    requires Inv(k, st) && EventsOk(es) && Waits(k0, st0, pid, ctx, k, st)
    requires Deeper(fs, k, st, es, k0.scheduled, |st0[k0.scheduled]|)
    requires |RunChains(fs, k, st, es)[k0.scheduled]| > |st0[k0.scheduled]|
    ensures Waits(k0, st0, pid, ctx, Run(fs, k, es), RunChains(fs, k, st, es))
    decreases |es|
  {
    hide Rooted, AllLinked, Distinct, Covered, Running, Waits, Step, StepChains, FS.FsOk, Ok;
    InvSizes(k, st);
    if es != [] {
      var most := es[..|es| - 1];
      Sizes(k0);
      WaitsThroughout(fs, k0, st0, pid, ctx, k, st, most);
      RunKeepsInv(fs, k, st, most);
      StillWaits(fs, k0, st0, pid, ctx, Run(fs, k, most), RunChains(fs, k, st, most), es[|es| - 1]);
    }
  }

  // ---------------------------------------------------------------------------------------
  // The exception flag.

  // An exception of a base shell has set the flag, which the restart does not clear, and no
  // child has ended since. This looks at which events end a process and at the lengths of the
  // chains.
  predicate StaleCrash(fs: FS.FileSys, k: Kernel, st: Chains, es: seq<Event>)
    requires FS.FsOk(fs) && Ok(k) && EventsOk(es) && |st| == MAX_TERMINALS
    decreases |es|
  {
    if es == [] then k.crashed
    else
      var most, e := es[..|es| - 1], es[|es| - 1];
      if !Ends(fs, Run(fs, k, most), e) then StaleCrash(fs, k, st, most)
      else
        && BaseExit(fs, Run(fs, k, most), RunChains(fs, k, st, most), e)
        && (StaleCrash(fs, k, st, most) || HowOf(e).Exception?)
  }

  lemma FlagStep(fs: FS.FileSys, k: Kernel, st: Chains, e: Event)
    requires ShellLoads(fs) && Inv(k, st) && EventOk(e)
    ensures Ok(k) && |st| == MAX_TERMINALS
    ensures Step(fs, k, e).crashed ==
            if !Ends(fs, k, e) then k.crashed else BaseExit(fs, k, st, e) && (k.crashed || HowOf(e).Exception?)
  {
    hide Inv, Launches, Tick, Execute, Halt, Call, Ends, FS.FsOk, P.ScreenPage, MaskedPcb, Ok, Step;
    InvSizes(k, st);
    StepOf(fs, k, e);
    if Ends(fs, k, e) {
      FlagAtEnd(fs, k, st, e);
    } else if OwnCall(e) {
      CallKeepsInv(fs, k, st, e);
    } else {
      FlagElsewhere(fs, k, st, e);
    }
  }

  lemma FlagAtEnd(fs: FS.FileSys, k: Kernel, st: Chains, e: Event)
    requires ShellLoads(fs) && Inv(k, st) && EventOk(e) && Ends(fs, k, e)
    ensures Ok(k) && |st| == MAX_TERMINALS
    ensures Step(fs, k, e).crashed == (BaseExit(fs, k, st, e) && (k.crashed || HowOf(e).Exception?))
  {
    hide Inv, Halt, FS.FsOk, MaskedPcb, P.ScreenPage, Ends, Step, Call, Ok;
    InvSizes(k, st);
    StepOf(fs, k, e);
    CallKeepsInv(fs, k, st, e);
    var m := Call(fs, k, e).k;
    RaiseKeepsInv(m, st, HowOf(e));
    if |st[k.scheduled]| > 1 {
      ExitReturns(fs, Raise(m, HowOf(e)), st, CodeOf(HowOf(e)), e.junk, e.ctx);
    } else {
      BaseExitRestarts(fs, Raise(m, HowOf(e)), st, CodeOf(HowOf(e)), e.junk, e.ctx);
    }
  }

  lemma FlagElsewhere(fs: FS.FileSys, k: Kernel, st: Chains, e: Event)
    requires FS.FsOk(fs) && Inv(k, st) && EventOk(e) && (e.Timer? || e.Exec?)
    ensures Ok(k) && Step(fs, k, e).crashed == k.crashed && !Ends(fs, k, e)
  {
    hide Inv, Launches, Tick, Execute, FS.FsOk, P.ScreenPage, MaskedPcb, Ok;
    InvSizes(k, st);
    match e
    case Timer(junk, ctx) => TickRotates(fs, k, st, junk, ctx);
    case Exec(command, junk, ctx) =>
      if Launches(fs, k, command, junk) {
        LaunchedExecutePushes(fs, k, st, command, junk, ctx);
      } else {
        FailedExecuteIsHarmless(fs, k, st, command, junk, ctx);
      }
    case _ =>
  }

  lemma {:induction false} FlagIsStaleCrash(fs: FS.FileSys, k: Kernel, st: Chains, es: seq<Event>)
    requires ShellLoads(fs) && Inv(k, st) && EventsOk(es)
    ensures Run(fs, k, es).crashed == StaleCrash(fs, k, st, es)
    decreases |es|
  {
    hide Inv, Step, StepChains, FS.FsOk;
    InvSizes(k, st);
    if es != [] {
      var most := es[..|es| - 1];
      FlagIsStaleCrash(fs, k, st, most);
      RunKeepsInv(fs, k, st, most);
      FlagStep(fs, Run(fs, k, most), RunChains(fs, k, st, most), es[|es| - 1]);
    }
  }

  // What execute returns when the run es, begun by its child, has ended the child.
  function ReturnedStatus(fs: FS.FileSys, k: Kernel, st: Chains, es: seq<Event>): int
    requires FS.FsOk(fs) && Ok(k) && EventsOk(es) && |st| == MAX_TERMINALS
    requires es != []
  {
    var how := HowOf(es[|es| - 1]);
    if how.Exception? || StaleCrash(fs, k, st, es[..|es| - 1]) then 256 else how.code
  }

  // ---------------------------------------------------------------------------------------

  // The state a process called execute in, seen again when the call comes back.
  predicate CameBack(k: Kernel, r: Kernel, p: nat, ctx: Ctx, status: int)
    requires Ok(k) && Ok(r)
  {
    && p < MAX_PROCESSES && Untouched(k, r, p)
    && r.cpu == Returned(ctx, status) && r.scheduled == k.scheduled
    && r.terms[k.scheduled] == k.terms[k.scheduled] && r.esp0 == k.esp0
    && r.tables.dir[P.USER_PROG_INDEX] == k.tables.dir[P.USER_PROG_INDEX]
    && (k.pcbs[p].vidmap ==> VideoOf(r.tables) == Some(P.ScreenPage(r.scheduled, r.visible)))
  }

  lemma LastExitComesBack(fs: FS.FileSys, k0: Kernel, st0: Chains, pid: nat, ctx: Ctx, k: Kernel, st: Chains, e: Event)
    requires ShellLoads(fs) && Inv(k0, st0) && Inv(k, st) && EventOk(e)
    requires Waits(k0, st0, pid, ctx, k, st)
    requires |StepChains(fs, k, st, e)[k0.scheduled]| == |st0[k0.scheduled]|
    ensures StepChains(fs, k, st, e)[k0.scheduled] == st0[k0.scheduled]
    ensures Ends(fs, k, e) && CameBack(k0, Step(fs, k, e), Current(k0, st0), ctx,
                                       if HowOf(e).Exception? || k.crashed then CRASH_STATUS else HowOf(e).code)
  {
    hide AllLinked, Distinct, Covered, Launches, FS.FsOk, Halt, P.Base, Untouched, VideoOf, P.ScreenPage, KernelStack;
    hide Call, Step;
    var t := k0.scheduled;
    var d := |st0[t]|;
    assert t == k.scheduled && Ends(fs, k, e) && |st[t]| == d + 1;
    var r := Step(fs, k, e);
    var parent := st0[t][d - 1];
    assert parent == st[t][..d][d - 1] == st[t][d - 1] && Current(k, st) == pid;
    EndComesBack(fs, k, st, e);
    assert Untouched(k, r, parent);
    SameVidmap(k0, k, parent);
    UntouchedBoth(k0, k, r, parent);
    ViewsAgree(k0, st0);
    ViewsAgree(r, StepChains(fs, k, st, e));
  }

  // What a process's end gives its parent.
  lemma EndComesBack(fs: FS.FileSys, k: Kernel, st: Chains, e: Event)
    requires ShellLoads(fs) && Inv(k, st) && EventOk(e) && Ends(fs, k, e) && |st[k.scheduled]| > 1
    ensures
      var r, p := Step(fs, k, e), Current(k, st);
      var t := k.scheduled;
      var parent := st[t][|st[t]| - 2];
      && p < MAX_PROCESSES && parent < MAX_PROCESSES && Ok(k)
      && Inv(r, StepChains(fs, k, st, e)) && r.scheduled == t
      && r.cpu == Returned(k.pcbs[p].parentCtx,
                           if HowOf(e).Exception? || k.crashed then CRASH_STATUS else HowOf(e).code)
      && (k.pcbs[parent].vidmap ==> VideoOf(r.tables) == Some(P.ScreenPage(t, r.visible)))
      && OthersUntouched(k, r, p) && k.live[parent] && parent != p
  {
    hide Inv, Halt, FS.FsOk, MaskedPcb, P.ScreenPage, Ends, Step, Call, Ok, VideoOf;
    InvSizes(k, st);
    StepOf(fs, k, e);
    EndAdvances(fs, k, st, e);
    CallKeepsInv(fs, k, st, e);
    var m := Call(fs, k, e).k;
    RaiseKeepsInv(m, st, HowOf(e));
    ExitReturns(fs, Raise(m, HowOf(e)), st, CodeOf(HowOf(e)), e.junk, e.ctx);
  }

  // vidmap at 132 MB, where it is taken and no byte of the word fits: the process ends there,
  // and its parent's execute returns 256.
  lemma VidmapAtTheEnd(fs: FS.FileSys, k: Kernel, st: Chains, junk: seq<Byte>, ctx: Ctx)
    requires ShellLoads(fs) && Inv(k, st) && |junk| == JUNK
    ensures
      var e := MapVideo(0x840_0000, junk, ctx);
      var r, p := Step(fs, k, e), Current(k, st);
      && Ok(k) && p < MAX_PROCESSES && |st| == MAX_TERMINALS && Ends(fs, k, e)
      && (|st[k.scheduled]| > 1 ==> r.cpu == Returned(k.pcbs[p].parentCtx, 256) && !r.live[p])
      && (|st[k.scheduled]| == 1 ==> r.live[p] && r.crashed)
  {
    hide Inv, FS.FsOk, Step, Vidmap, MaskedPcb, P.ScreenPage, Ok;
    var e := MapVideo(0x840_0000, junk, ctx);
    InvSizes(k, st);
    VidmapFitsExactly(k, st, e.pointer);
    StepKeepsInv(fs, k, st, e);
    FlagStep(fs, k, st, e);
    if |st[k.scheduled]| > 1 {
      EndComesBack(fs, k, st, e);
      EndFrees(fs, k, st, e);
    } else {
      InvSizes(Step(fs, k, e), st);
    }
  }

  lemma EndFrees(fs: FS.FileSys, k: Kernel, st: Chains, e: Event)
    requires ShellLoads(fs) && Inv(k, st) && EventOk(e) && Ends(fs, k, e) && |st[k.scheduled]| > 1
    ensures Ok(k) && Current(k, st) < MAX_PROCESSES && !Step(fs, k, e).live[Current(k, st)]
  {
    hide Inv, FS.FsOk, End, Ends, Step, Call, MaskedPcb, Ok;
    InvSizes(k, st);
    StepOf(fs, k, e);
    CallKeepsInv(fs, k, st, e);
    EndKeepsInv(fs, Call(fs, k, e).k, st, HowOf(e), e.junk, e.ctx);
  }

  lemma SameVidmap(k: Kernel, r: Kernel, p: nat)
    requires Ok(k) && Ok(r) && p < MAX_PROCESSES && Untouched(k, r, p)
    ensures r.pcbs[p].vidmap == k.pcbs[p].vidmap
  {
  }

  // Take any run that begins with a successful execute and ends when the caller's chain is
  // first as long as before, whatever the child, its descendants and the other terminals did
  // in between: the caller resumes on the stack it saved, with the record, descriptors, frame,
  // TSS and mapping it had, and execute returns the status the child halted with, or 256.
  lemma ExecuteReturns(
      fs: FS.FileSys, k: Kernel, st: Chains, command: seq<Byte>, junk: seq<Byte>, ctx: Ctx, es: seq<Event>)
    requires ShellLoads(fs) && Inv(k, st) && |junk| == JUNK && EventsOk(es)
    requires Launches(fs, k, command, junk)
    requires
      var k1 := Execute(fs, k, command, junk, ctx).k;
      var st1 := st[k.scheduled := st[k.scheduled] + [LowestFree(k.live, 0)]];
      && Deeper(fs, k1, st1, es, k.scheduled, |st[k.scheduled]|)
      && |RunChains(fs, k1, st1, es)[k.scheduled]| == |st[k.scheduled]|
    ensures
      var k1 := Execute(fs, k, command, junk, ctx).k;
      var st1 := st[k.scheduled := st[k.scheduled] + [LowestFree(k.live, 0)]];
      && es != [] && Ends(fs, Run(fs, k1, es[..|es| - 1]), es[|es| - 1])
      && CameBack(k, Run(fs, k1, es), Current(k, st), ctx, ReturnedStatus(fs, k1, st1, es))
      && Inv(Run(fs, k1, es), RunChains(fs, k1, st1, es))
      && RunChains(fs, k1, st1, es)[k.scheduled] == st[k.scheduled]
  {
    hide Rooted, AllLinked, Distinct, Covered, Running, Waits, Step, StepChains, FS.FsOk, Launches, Execute, CameBack;
    hide StaleCrash;
    InvSizes(k, st);
    var t := k.scheduled;
    var pid := LowestFree(k.live, 0);
    var k1 := Execute(fs, k, command, junk, ctx).k;
    var st1 := st[t := st[t] + [pid]];
    LaunchedExecutePushes(fs, k, st, command, junk, ctx);
    StartsToWait(k, st, pid, ctx, k1, st1);
    RunKeepsInv(fs, k1, st1, es);
    var most := es[..|es| - 1];
    WaitsThroughout(fs, k, st, pid, ctx, k1, st1, most);
    RunKeepsInv(fs, k1, st1, most);
    FlagIsStaleCrash(fs, k1, st1, most);
    LastExitComesBack(fs, k, st, pid, ctx, Run(fs, k1, most), RunChains(fs, k1, st1, most), es[|es| - 1]);
  }

  lemma StartsToWait(k: Kernel, st: Chains, pid: nat, ctx: Ctx, k1: Kernel, st1: Chains)
    requires Inv(k, st) && Ok(k1) && pid < MAX_PROCESSES && st1 == st[k.scheduled := st[k.scheduled] + [pid]]
    requires k1.pcbs[pid].parentCtx == ctx
    requires forall q :: 0 <= q < MAX_PROCESSES && k.live[q] ==> Untouched(k, k1, q)
    ensures Waits(k, st, pid, ctx, k1, st1)
  {
    hide Distinct, Covered, Running, Untouched;
    var t := k.scheduled;
    forall i | 0 <= i < |st[t]| ensures st[t][i] < MAX_PROCESSES && k.live[st[t][i]] {
      assert At(st, t, i) && Linked(k, st, t, i);
    }
  }

  // The shortest such run: a child that halts at once undoes the execute that started it.
  lemma HaltUndoesExecute(
      fs: FS.FileSys, k: Kernel, st: Chains, command: seq<Byte>, junk: seq<Byte>, ctx: Ctx, exit: Event)
    requires ShellLoads(fs) && Inv(k, st) && |junk| == JUNK && EventOk(exit) && exit.Exit?
    requires Launches(fs, k, command, junk)
    ensures CameBack(k, Step(fs, Execute(fs, k, command, junk, ctx).k, exit), Current(k, st), ctx,
                     if exit.how.Exception? || k.crashed then CRASH_STATUS else exit.how.code)
  {
    hide Rooted, AllLinked, Distinct, Covered, Running, Step, FS.FsOk, Launches, Execute, CameBack;
    InvSizes(k, st);
    var t := k.scheduled;
    var k1 := Execute(fs, k, command, junk, ctx).k;
    var st1 := st[t := st[t] + [LowestFree(k.live, 0)]];
    LaunchedExecutePushes(fs, k, st, command, junk, ctx);
    assert [exit][..0] == [];
    assert Run(fs, k1, [exit]) == Step(fs, k1, exit);
    assert RunChains(fs, k1, st1, [exit]) == StepChains(fs, k1, st1, exit);
    assert StaleCrash(fs, k1, st1, []) == k.crashed;
    ExecuteReturns(fs, k, st, command, junk, ctx, [exit]);
  }

  // So 256 does not mean that the child caused an exception: after a base shell did, the next
  // child to end anywhere returns 256, whatever it halts with.
  lemma StaleExceptionExample(
      fs: FS.FileSys, k: Kernel, st: Chains, command: seq<Byte>, junk: seq<Byte>, ctx: Ctx, code: Byte)
    requires ShellLoads(fs) && Inv(k, st) && |st[k.scheduled]| == 1 && |junk| == JUNK
    requires Launches(fs, Step(fs, k, Exit(Exception, junk, ctx)), command, junk)
    ensures
      var crashed := Step(fs, k, Exit(Exception, junk, ctx));
      var child := Execute(fs, crashed, command, junk, ctx).k;
      Step(fs, child, Exit(Status(code), junk, ctx)).cpu == Returned(ctx, 256)
  {
    hide Rooted, AllLinked, Distinct, Covered, Running, Step, FS.FsOk, Launches, Execute;
    InvSizes(k, st);
    var crash, crashed := Exit(Exception, junk, ctx), Step(fs, k, Exit(Exception, junk, ctx));
    StepKeepsInv(fs, k, st, crash);
    FlagStep(fs, k, st, crash);
    HaltUndoesExecute(fs, crashed, StepChains(fs, k, st, crash), command, junk, ctx, Exit(Status(code), junk, ctx));
  }
}
