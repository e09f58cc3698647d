// What holds of the processes in every run once the three shells are up: they form one parent
// chain per terminal, and every way the kernel names the current process agrees.
module ProcessRuns {
  import opened Bytes
  import opened Machine
  import opened Processes
  import P = Paging
  import FS = FileSystem
  import C = Command
  import S = Strings

  // One chain of pids per terminal, base shell first, running process last.
  type Chains = seq<seq<nat>>

  predicate At(st: Chains, t: int, i: int) {
    0 <= t < |st| && 0 <= i < |st[t]|
  }

  function Head(chain: seq<nat>): nat {
    if chain == [] then 0 else chain[|chain| - 1]
  }

  // The PCB of the i-th process of terminal t's chain.
  predicate Linked(k: Kernel, st: Chains, t: int, i: int)
    requires Ok(k) && At(st, t, i)
  {
    var p := st[t][i];
    && p < MAX_PROCESSES && k.live[p]
    && k.pcbs[p].pid == p
    && k.pcbs[p].ppid == (if i == 0 then p else st[t][i - 1])
    && (i > 0 ==> k.pcbs[p].parent == Slot(st[t][i - 1]))
  }

  // Each chain starts at its terminal's base shell, and the terminal names its last process.
  ghost predicate Rooted(k: Kernel, st: Chains) {
    && Ok(k) && |st| == MAX_TERMINALS
    && forall t :: 0 <= t < MAX_TERMINALS ==>
         st[t] != [] && st[t][0] == t && k.terms[t] == Term(Slot(Head(st[t])), Head(st[t]))
  }

  ghost predicate AllLinked(k: Kernel, st: Chains)
    requires Ok(k)
  {
    forall t, i :: At(st, t, i) ==> Linked(k, st, t, i)
  }

  ghost predicate Distinct(st: Chains) {
    forall t, i, u, j :: At(st, t, i) && At(st, u, j) && st[t][i] == st[u][j] ==> t == u && i == j
  }

  ghost predicate Covered(k: Kernel, st: Chains)
    requires Ok(k)
  {
    forall p :: 0 <= p < MAX_PROCESSES && k.live[p] ==> exists t, i :: At(st, t, i) && st[t][i] == p
  }

  // The process forest: three chains rooted at the base shells 0, 1 and 2, which share no
  // process and together hold exactly the live ones.
  ghost predicate Forest(k: Kernel, st: Chains) {
    Rooted(k, st) && AllLinked(k, st) && Distinct(st) && Covered(k, st)
  }

  function Current(k: Kernel, st: Chains): nat
    requires k.scheduled < |st|
  {
    Head(st[k.scheduled])
  }

  function VideoOf(t: P.Tables): Option<nat>
    requires P.Shape(t)
  {
    if t.dir[P.USER_VIDEO_INDEX].present then Some(t.video[0].base) else None
  }

  // The 256 MB window, when it is open, shows one of the screen pages.
  predicate OnScreen(page: Option<nat>) {
    page.Some? ==> VIDMEM_PAGE <= page.value <= VIDMEM_PAGE + MAX_TERMINALS
  }

  // The TSS and the page directory are the current process's.
  ghost predicate Running(k: Kernel, st: Chains) {
    && Ok(k) && |st| == MAX_TERMINALS
    && k.esp0 == KernelStack(Current(k, st))
    && P.Base(k.tables, Some(2 + Current(k, st)), VideoOf(k.tables)) && OnScreen(VideoOf(k.tables))
  }

  ghost predicate Inv(k: Kernel, st: Chains) {
    Forest(k, st) && Running(k, st)
  }

  // The shell is on the file system and is an executable.
  predicate ShellLoads(fs: FS.FileSys) {
    FS.FsOk(fs) &&
    var d := FS.Lookup(fs, SHELL + [NUL]);
    d.Some? && FS.DataRead(fs, d.value.inode, 0, 4) == ELF_MAGIC
  }

  // ---------------------------------------------------------------------------------------
  // Everything that names the current process agrees.

  lemma ViewsAgree(k: Kernel, st: Chains)
    requires Inv(k, st)
    ensures
      var p := Current(k, st);
      && p < MAX_PROCESSES
      && k.terms[k.scheduled].pcb == Slot(p)
      && MaskedPcb(k) == Slot(p)
      && k.terms[k.scheduled].lastPid == p
      && k.tables.dir[P.USER_PROG_INDEX] == P.Large(true, true, 2 + p)
      && k.pcbs[p].pid == p
  {
    var t := k.scheduled;
    assert At(st, t, |st[t]| - 1) && Linked(k, st, t, |st[t]| - 1);
    StackFindsPcb(Current(k, st));
  }

  // pid <= 2 means base shell, exactly.
  lemma BaseShellsExactly(k: Kernel, st: Chains, t: nat, i: nat)
    requires Forest(k, st) && At(st, t, i)
    ensures st[t][i] <= 2 <==> i == 0
    ensures k.pcbs[st[t][i]].ppid == k.pcbs[st[t][i]].pid <==> i == 0
  {
    assert Linked(k, st, t, i);
    var p := st[t][i];
    assert p <= 2 ==> At(st, p, 0) && st[p][0] == p;
    assert i > 0 ==> At(st, t, i - 1);
  }

  // ---------------------------------------------------------------------------------------
  // Steps that leave the links alone.

  predicate SameLinks(k: Kernel, r: Kernel) {
    && Ok(k) && Ok(r)
    && r.live == k.live && r.terms == k.terms
    && forall p :: 0 <= p < MAX_PROCESSES && k.live[p] ==>
         && r.pcbs[p].pid == k.pcbs[p].pid && r.pcbs[p].ppid == k.pcbs[p].ppid
         && (k.pcbs[p].ppid != k.pcbs[p].pid ==> r.pcbs[p].parent == k.pcbs[p].parent)
  }

  lemma LinksKeepForest(k: Kernel, r: Kernel, st: Chains)
    requires Forest(k, st) && SameLinks(k, r)
    ensures Forest(r, st)
  {
    forall t, i | At(st, t, i) ensures Linked(r, st, t, i) {
      assert Linked(k, st, t, i);
      BaseShellsExactly(k, st, t, i);
    }
  }

  // What process q owns: its slot, its PCB and its frame.
  predicate Untouched(k: Kernel, r: Kernel, q: nat)
    requires Ok(k) && Ok(r) && q < MAX_PROCESSES
  {
    r.live[q] == k.live[q] && r.pcbs[q] == k.pcbs[q] && r.frames[q] == k.frames[q]
  }

  lemma UntouchedBoth(k: Kernel, m: Kernel, r: Kernel, q: nat)
    requires Ok(k) && Ok(m) && Ok(r) && q < MAX_PROCESSES && Untouched(k, m, q) && Untouched(m, r, q)
    ensures Untouched(k, r, q)
  {
  }

  predicate OthersUntouched(k: Kernel, r: Kernel, p: nat)
    requires Ok(k) && Ok(r)
  {
    forall q :: 0 <= q < MAX_PROCESSES && k.live[q] && q != p ==> Untouched(k, r, q)
  }

  lemma HeadIsLive(k: Kernel, st: Chains, t: nat)
    requires Forest(k, st) && t < MAX_TERMINALS
    ensures Head(st[t]) < MAX_PROCESSES && k.live[Head(st[t])] && k.pcbs[Head(st[t])].pid == Head(st[t])
  {
    assert At(st, t, |st[t]| - 1) && Linked(k, st, t, |st[t]| - 1);
  }

  // ---------------------------------------------------------------------------------------
  // The mapping functions, seen from the invariant.

  lemma ProgKeepsBase(t: P.Tables, prog: Option<nat>, pid: nat)
    requires P.Shape(t) && P.Base(t, prog, VideoOf(t)) && pid < MAX_PROCESSES
    ensures VideoOf(P.SetUserProgPage(t, pid, true)) == VideoOf(t)
    ensures P.Base(P.SetUserProgPage(t, pid, true), Some(2 + pid), VideoOf(t))
  {
  }

  lemma VideoKeepsBase(t: P.Tables, prog: Option<nat>, visible: nat, scheduled: nat)
    requires P.Shape(t) && P.Base(t, prog, VideoOf(t)) && visible < 3 && scheduled < 3
    ensures
      var r := P.SetUserVideoPage(t, true, visible, scheduled);
      P.Base(r, prog, VideoOf(r)) && VideoOf(r) == Some(P.ScreenPage(scheduled, visible)) && OnScreen(VideoOf(r))
  {
  }

  // Mapping another process and mapping back restores the tables exactly.
  lemma RollbackRestores(t: P.Tables, p: nat, pid: nat)
    requires P.Shape(t) && P.Base(t, Some(2 + p), VideoOf(t)) && p < MAX_PROCESSES && pid < MAX_PROCESSES
    ensures
      P.SetUserProgPage(P.SetUserProgPage(P.SetUserProgPage(t, pid, true), pid, false), p, true) == t
  {
    assert t.dir[P.USER_PROG_INDEX] == P.Large(true, true, 2 + p);
    var dir := t.dir;
    assert dir[P.USER_PROG_INDEX := dir[P.USER_PROG_INDEX]] == dir;
  }

  // ---------------------------------------------------------------------------------------
  // execute.

  lemma BasesAreLive(k: Kernel, st: Chains)
    requires Forest(k, st)
    ensures k.live[0] && k.live[1] && k.live[2]
  {
    assert At(st, 0, 0) && At(st, 1, 0) && At(st, 2, 0);
    assert Linked(k, st, 0, 0) && Linked(k, st, 1, 0) && Linked(k, st, 2, 0);
  }

  lemma FreePidIsNotABase(k: Kernel, st: Chains)
    requires Forest(k, st)
    ensures LowestFree(k.live, 0) >= MAX_TERMINALS
    ensures LowestFree(k.live, 0) < MAX_PROCESSES ==>
              forall t, i :: At(st, t, i) ==> st[t][i] != LowestFree(k.live, 0)
  {
    hide Distinct, Covered;
    BasesAreLive(k, st);
    forall t, i | At(st, t, i) ensures k.live[st[t][i]] {
      assert Linked(k, st, t, i);
    }
  }

  // When execute launches: there is a free pid, the file exists, and it starts with the ELF
  // magic number.
  predicate Launches(fs: FS.FileSys, k: Kernel, command: seq<Byte>, junk: seq<Byte>)
    requires FS.FsOk(fs) && Ok(k) && |junk| == JUNK
  {
    && LowestFree(k.live, 0) < MAX_PROCESSES
    && Program(fs, command).Some?
    && FirstBytes(fs, Program(fs, command).value.inode, junk) == ELF_MAGIC
  }

  lemma FailedExecuteChanges(fs: FS.FileSys, k: Kernel, p: nat, command: seq<Byte>, junk: seq<Byte>, ctx: Ctx)
    requires FS.FsOk(fs) && Ok(k) && |junk| == JUNK && !Launches(fs, k, command, junk)
    requires k.terms[k.scheduled].lastPid == p < MAX_PROCESSES && P.Base(k.tables, Some(2 + p), VideoOf(k.tables))
    ensures
      var r := Execute(fs, k, command, junk, ctx);
      && !r.launched
      && r.k == k.(pcbs := r.k.pcbs, frames := r.k.frames)
      && forall q :: 0 <= q < MAX_PROCESSES && k.live[q] ==> Untouched(k, r.k, q)
  {
    var pid := LowestFree(k.live, 0);
    if pid < MAX_PROCESSES {
      RollbackRestores(k.tables, p, pid);
      hide P.SetUserProgPage, P.Base, ResetFds, ArgField, LoadImage, FirstBytes;
    }
  }

  // A failed execute has no effect on the process table, the terminals, the TSS, the tables or
  // anything a live process owns.
  lemma FailedExecuteIsHarmless(fs: FS.FileSys, k: Kernel, st: Chains, command: seq<Byte>, junk: seq<Byte>, ctx: Ctx)
    requires FS.FsOk(fs) && Inv(k, st) && |junk| == JUNK
    requires !Launches(fs, k, command, junk)
    ensures
      var r := Execute(fs, k, command, junk, ctx);
      && !r.launched && Inv(r.k, st)
      && r.k == k.(pcbs := r.k.pcbs, frames := r.k.frames)
      && forall q :: 0 <= q < MAX_PROCESSES && k.live[q] ==> Untouched(k, r.k, q)
  {
    ViewsAgree(k, st);
    hide AllLinked, Distinct, Covered, Rooted, Launches, Execute;
    FailedExecuteChanges(fs, k, Current(k, st), command, junk, ctx);
    LinksKeepForest(k, Execute(fs, k, command, junk, ctx).k, st);
  }

  lemma PushKeepsForest(k: Kernel, r: Kernel, st: Chains, pid: nat)
    requires Forest(k, st) && Ok(r) && pid < MAX_PROCESSES && !k.live[pid]
    requires r.scheduled == k.scheduled && r.live == k.live[pid := true]
    requires r.terms == k.terms[k.scheduled := Term(Slot(pid), pid)]
    requires forall q :: 0 <= q < MAX_PROCESSES && q != pid ==> r.pcbs[q] == k.pcbs[q]
    requires
      var h := Head(st[k.scheduled]);
      r.pcbs[pid].pid == pid && r.pcbs[pid].ppid == h && r.pcbs[pid].parent == Slot(h)
    ensures Forest(r, st[k.scheduled := st[k.scheduled] + [pid]])
  {
    var t := k.scheduled;
    var st' := st[t := st[t] + [pid]];
    forall u, i | At(st, u, i) ensures st[u][i] != pid {
      assert Linked(k, st, u, i);
    }
    PushStaysDistinct(st, t, pid);
    hide Distinct;
    forall u, i | At(st', u, i) ensures Linked(r, st', u, i) {
      if At(st, u, i) {
        assert Linked(k, st, u, i);
      }
    }
    forall p | 0 <= p < MAX_PROCESSES && r.live[p] ensures exists u, i :: At(st', u, i) && st'[u][i] == p {
      if p == pid {
        assert At(st', t, |st[t]|);
      } else {
        var u, i :| At(st, u, i) && st[u][i] == p;
        assert At(st', u, i);
      }
    }
  }

  lemma PushStaysDistinct(st: Chains, t: nat, pid: nat)
    requires Distinct(st) && t < |st| && forall u, i :: At(st, u, i) ==> st[u][i] != pid
    ensures Distinct(st[t := st[t] + [pid]])
  {
    var st' := st[t := st[t] + [pid]];
    assert forall u, i :: At(st', u, i) ==>
      if At(st, u, i) then st'[u][i] == st[u][i] else u == t && i == |st[t]| && st'[u][i] == pid;
  }

  // A new process's descriptors: the terminal's two, and the rest closed.
  predicate FreshTable(f: seq<Fd>) {
    && |f| == NUM_FDS && f[0] == Fd(StdinOps, 0, 0, true) && f[1] == Fd(StdoutOps, 0, 0, true)
    && forall i :: 2 <= i < NUM_FDS ==> !f[i].open
  }

  lemma ResetIsFresh(f: seq<Fd>)
    requires |f| == NUM_FDS
    ensures FreshTable(ResetFds(f))
  {
  }

  lemma LaunchedExecutePushes(fs: FS.FileSys, k: Kernel, st: Chains, command: seq<Byte>, junk: seq<Byte>, ctx: Ctx)
    requires FS.FsOk(fs) && Inv(k, st) && |junk| == JUNK
    requires Launches(fs, k, command, junk)
    ensures
      var r := Execute(fs, k, command, junk, ctx);
      var pid := LowestFree(k.live, 0);
      && r.launched && MAX_TERMINALS <= pid < MAX_PROCESSES && !k.live[pid]
      && Inv(r.k, st[k.scheduled := st[k.scheduled] + [pid]]) && r.k.live == k.live[pid := true]
      && r.k.scheduled == k.scheduled && r.k.crashed == k.crashed
      && r.k.cpu == Start(pid, EntryBytes(fs, Program(fs, command).value.inode, junk))
      && r.k.pcbs[pid].parentCtx == ctx && FreshTable(r.k.pcbs[pid].fda)
      && r.k.pcbs[pid].arg == ArgField(command)
      && (forall q :: 0 <= q < MAX_PROCESSES && k.live[q] ==> Untouched(k, r.k, q))
  {
    hide Distinct, Covered, AllLinked, Rooted, MaskedPcb, KernelStack, VideoOf, ResetFds, ArgField, LoadImage, Program;
    hide FirstBytes, P.Base, P.SetUserProgPage;
    ViewsAgree(k, st);
    FreePidIsNotABase(k, st);
    var pid := LowestFree(k.live, 0);
    ResetIsFresh(k.pcbs[pid].fda);
    var r := Execute(fs, k, command, junk, ctx).k;
    PushKeepsForest(k, r, st, pid);
    ProgKeepsBase(k.tables, Some(2 + Current(k, st)), pid);
  }

  // ---------------------------------------------------------------------------------------
  // halt.

  // Descriptors 2..7 closed, and their operations the ones that always fail if they were open.
  function ClosedFds(f: seq<Fd>, from: nat): (r: seq<Fd>)
    requires |f| == NUM_FDS && 2 <= from <= NUM_FDS
    ensures |r| == NUM_FDS
  {
    seq(NUM_FDS, i requires 0 <= i < NUM_FDS =>
      if i >= from && f[i].open then f[i].(open := false, ops := BadOps) else f[i])
  }

  // The closing loop does this because the masked PCB is the halting one.
  lemma {:induction false} CloseAllCloses(k: Kernel, p: nat, i: nat)
    requires Ok(k) && p < MAX_PROCESSES && 2 <= i <= NUM_FDS && MaskedPcb(k) == Slot(p)
    ensures CloseAll(k, p, i) == k.(pcbs := k.pcbs[p := k.pcbs[p].(fda := ClosedFds(k.pcbs[p].fda, i))])
    decreases NUM_FDS - i
  {
    if i == NUM_FDS {
      assert ClosedFds(k.pcbs[p].fda, i) == k.pcbs[p].fda;
    } else {
      var f := k.pcbs[p].fda;
      if !f[i].open {
        CloseAllCloses(k, p, i + 1);
        assert ClosedFds(f, i + 1) == ClosedFds(f, i);
      } else {
        var closed := Close(k, i);
        var next := SetFd(closed, p, i, closed.pcbs[p].fda[i].(ops := BadOps));
        CloseAllCloses(next, p, i + 1);
        assert next.pcbs[p].fda == f[i := f[i].(open := false, ops := BadOps)];
        assert ClosedFds(next.pcbs[p].fda, i + 1) == ClosedFds(f, i);
      }
    }
  }

  lemma PopKeepsForest(k: Kernel, r: Kernel, st: Chains)
    requires Forest(k, st) && Ok(r) && |st[k.scheduled]| > 1
    requires
      var t, p := k.scheduled, Head(st[k.scheduled]);
      var below := st[t][|st[t]| - 2];
      && r.scheduled == t && p < MAX_PROCESSES && r.live == k.live[p := false]
      && r.terms == k.terms[t := Term(Slot(below), below)]
      && forall q :: 0 <= q < MAX_PROCESSES && q != p ==> r.pcbs[q] == k.pcbs[q]
    ensures Forest(r, st[k.scheduled := st[k.scheduled][..|st[k.scheduled]| - 1]])
  {
    var t := k.scheduled;
    var st' := st[t := st[t][..|st[t]| - 1]];
    PopStaysDistinct(st, t);
    PopStaysCovered(k, st, t);
    PopStaysLinked(k, r, st);
    assert Rooted(r, st');
    hide Distinct, AllLinked, Rooted;
    assert forall q :: 0 <= q < MAX_PROCESSES && r.live[q] ==> k.live[q] && q != Head(st[t]);
  }

  lemma PopStaysLinked(k: Kernel, r: Kernel, st: Chains)
    requires Ok(k) && Ok(r) && k.scheduled < |st| && st[k.scheduled] != [] && Head(st[k.scheduled]) < MAX_PROCESSES
    requires AllLinked(k, st) && Distinct(st)
    requires r.live == k.live[Head(st[k.scheduled]) := false]
    requires forall q :: 0 <= q < MAX_PROCESSES && q != Head(st[k.scheduled]) ==> r.pcbs[q] == k.pcbs[q]
    ensures AllLinked(r, st[k.scheduled := st[k.scheduled][..|st[k.scheduled]| - 1]])
  {
    var t := k.scheduled;
    var st' := st[t := st[t][..|st[t]| - 1]];
    PopStaysDistinct(st, t);
    hide Distinct;
    forall u, i | At(st', u, i) ensures Linked(r, st', u, i) {
      assert At(st, u, i) && Linked(k, st, u, i);
    }
  }

  lemma PopStaysCovered(k: Kernel, st: Chains, t: nat)
    requires Ok(k) && Covered(k, st) && t < |st| && st[t] != []
    ensures
      var last := |st[t]| - 1;
      var st' := st[t := st[t][..last]];
      forall q :: 0 <= q < MAX_PROCESSES && k.live[q] && q != st[t][last] ==>
        exists u, i :: At(st', u, i) && st'[u][i] == q
  {
    var last := |st[t]| - 1;
    var st' := st[t := st[t][..last]];
    forall q | 0 <= q < MAX_PROCESSES && k.live[q] && q != st[t][last]
      ensures exists u, i :: At(st', u, i) && st'[u][i] == q
    {
      var u, i :| At(st, u, i) && st[u][i] == q;
      assert At(st', u, i);
    }
  }

  lemma PopStaysDistinct(st: Chains, t: nat)
    requires Distinct(st) && t < |st| && st[t] != []
    ensures
      var last := |st[t]| - 1;
      var st' := st[t := st[t][..last]];
      && Distinct(st')
      && forall u, i :: At(st', u, i) ==> At(st, u, i) && st'[u][i] == st[u][i] && st[u][i] != st[t][last]
  {
    var last := |st[t]| - 1;
    var st' := st[t := st[t][..last]];
    assert At(st, t, last);
    assert forall u, i :: At(st', u, i) ==> At(st, u, i) && st'[u][i] == st[u][i];
  }

  // A child's exit: its PID is free, its descriptors are closed, its terminal is headed by the
  // parent again, and the processor resumes on the stack the parent's execute saved.
  ghost predicate Popped(k: Kernel, st: Chains, status: Byte, r: Kernel) {
    && Ok(k) && Ok(r) && |st| == MAX_TERMINALS && |st[k.scheduled]| > 1
    && var t, p := k.scheduled, Current(k, st);
       var parent := st[t][|st[t]| - 2];
       && p < MAX_PROCESSES && parent < MAX_PROCESSES && k.live[parent] && parent != p
       && Inv(r, st[t := st[t][..|st[t]| - 1]])
       && r.scheduled == t && r.visible == k.visible && r.live == k.live[p := false]
       && r.cpu == Returned(k.pcbs[p].parentCtx, if k.crashed then CRASH_STATUS else status) && !r.crashed
       && r.pcbs[p].fda == ClosedFds(k.pcbs[p].fda, 2)
       && (k.pcbs[parent].vidmap ==> VideoOf(r.tables) == Some(P.ScreenPage(t, k.visible)))
       && OthersUntouched(k, r, p)
  }

  lemma ExitReturns(fs: FS.FileSys, k: Kernel, st: Chains, status: Byte, junk: seq<Byte>, ctx: Ctx)
    requires FS.FsOk(fs) && Inv(k, st) && |junk| == JUNK && |st[k.scheduled]| > 1
    ensures Popped(k, st, status, Halt(fs, k, status, junk, ctx))
  {
    hide Distinct, Covered, AllLinked, Rooted, CloseAll, ClosedFds, MaskedPcb, Execute, KernelStack, VideoOf;
    hide P.Base, P.SetUserProgPage, P.SetUserVideoPage;
    var t, p := k.scheduled, Current(k, st);
    var parent := st[t][|st[t]| - 2];
    ViewsAgree(k, st);
    ParentFacts(k, st);
    CloseAllCloses(k, p, 2);
    var r := Halt(fs, k, status, junk, ctx);
    PopKeepsForest(k, r, st);
    ProgKeepsBase(k.tables, Some(2 + p), parent);
    var mapped := P.SetUserProgPage(k.tables, parent, true);
    VideoKeepsBase(mapped, Some(2 + parent), k.visible, k.scheduled);
  }

  lemma ParentFacts(k: Kernel, st: Chains)
    requires Forest(k, st) && |st[k.scheduled]| > 1
    ensures
      var t, p := k.scheduled, Current(k, st);
      var parent := st[t][|st[t]| - 2];
      && p < MAX_PROCESSES && parent < MAX_PROCESSES && k.live[parent] && parent != p
      && k.pcbs[p].pid == p && k.pcbs[p].ppid == parent && k.pcbs[p].parent == Slot(parent)
  {
    var t := k.scheduled;
    var last := |st[t]| - 1;
    BaseShellsExactly(k, st, t, last);
    assert At(st, t, last) && At(st, t, last - 1) && Linked(k, st, t, last) && Linked(k, st, t, last - 1);
  }

  lemma {:induction false} LowestFreeIs(live: seq<bool>, from: nat, p: nat)
    requires from <= p < |live| && !live[p] && forall q :: from <= q < p ==> live[q]
    ensures LowestFree(live, from) == p
    decreases p - from
  {
    if from < p {
      LowestFreeIs(live, from + 1, p);
    }
  }

  // The command "shell" names the program shell.
  lemma ShellCommand(fs: FS.FileSys)
    ensures Program(fs, SHELL + [NUL]) == FS.Lookup(fs, SHELL + [NUL])
  {
    var command := SHELL + [NUL];
    assert forall i :: 0 <= i < 5 ==> command[i] != NUL && command[i] != SPACE;
    assert command[5] == NUL;
    assert S.StrLen(command) == 5;
    assert CommandText(command) == SHELL;
    C.SkipIsExact(SHELL, 0, 0);
    C.WordIsExact(SHELL, 0, 5);
    assert C.NameOf(SHELL) == SHELL;
  }

  lemma ShellBytes(fs: FS.FileSys, junk: seq<Byte>)
    requires ShellLoads(fs) && |junk| == JUNK
    ensures
      var d := Program(fs, SHELL + [NUL]);
      d.Some? && FirstBytes(fs, d.value.inode, junk) == ELF_MAGIC
  {
    ShellCommand(fs);
    var got := FS.DataRead(fs, Program(fs, SHELL + [NUL]).value.inode, 0, 4);
    assert got + junk[..4][|got|..] == got;
  }

  // execute("shell") when the lowest free pid is a base pid t: what it changes.
  lemma BaseLaunch(fs: FS.FileSys, k: Kernel, t: nat, junk: seq<Byte>, ctx: Ctx)
    requires ShellLoads(fs) && Ok(k) && |junk| == JUNK && t < MAX_TERMINALS && LowestFree(k.live, 0) == t
    ensures
      var r := Execute(fs, k, SHELL + [NUL], junk, ctx);
      var pcb := r.k.pcbs[t];
      && r.launched
      && r.k == k.(live := k.live[t := true], pcbs := k.pcbs[t := pcb], frames := r.k.frames,
                   terms := k.terms[k.scheduled := Term(Slot(t), t)], esp0 := KernelStack(t), cpu := r.k.cpu,
                   tables := P.SetUserProgPage(k.tables, t, true))
      && r.k.cpu.Start? && r.k.cpu.pid == t
      && pcb.pid == pcb.ppid == t && pcb.currCtx == CurrCtxOf(k, k.terms[k.scheduled].pcb)
      && FreshTable(pcb.fda)
      && forall q :: 0 <= q < MAX_PROCESSES && q != t ==> Untouched(k, r.k, q)
  {
    ShellBytes(fs, junk);
    ResetIsFresh(k.pcbs[t].fda);
    hide Program, FirstBytes, ArgField, ResetFds, LoadImage, P.SetUserProgPage, CurrCtxOf;
  }

  // halt in a base shell is: free the slot, then execute("shell").
  lemma BaseHaltIsExecute(fs: FS.FileSys, k: Kernel, t: nat, status: Byte, junk: seq<Byte>, ctx: Ctx)
    requires FS.FsOk(fs) && Ok(k) && |junk| == JUNK && t == k.scheduled && k.terms[t] == Term(Slot(t), t)
    requires
      var freed := Release(CloseAll(k, t, 2), t);
      freed.pcbs[t].pid == freed.pcbs[t].ppid && Execute(fs, freed, SHELL + [NUL], junk, ctx).launched
    ensures Halt(fs, k, status, junk, ctx) == Execute(fs, Release(CloseAll(k, t, 2), t), SHELL + [NUL], junk, ctx).k
  {
    hide Execute, CloseAll, Release, Return, Ok;
  }

  lemma BaseExitChanges(fs: FS.FileSys, k: Kernel, t: nat, status: Byte, junk: seq<Byte>, ctx: Ctx)
    requires ShellLoads(fs) && Ok(k) && |junk| == JUNK && t == k.scheduled
    requires k.terms[t] == Term(Slot(t), t) && MaskedPcb(k) == Slot(t) && k.pcbs[t].pid == k.pcbs[t].ppid == t
    requires k.live[0] && k.live[1] && k.live[2]
    ensures
      var r := Halt(fs, k, status, junk, ctx);
      var pcb := r.pcbs[t];
      && r == k.(pcbs := k.pcbs[t := pcb], frames := r.frames, esp0 := KernelStack(t), cpu := r.cpu,
                 tables := P.SetUserProgPage(k.tables, t, true))
      && r.cpu.Start? && r.cpu.pid == t && pcb.pid == pcb.ppid == t
      && FreshTable(pcb.fda)
      && forall q :: 0 <= q < MAX_PROCESSES && q != t ==> Untouched(k, r, q)
  {
    hide Ok, Untouched, CloseAll, P.SetUserProgPage, Execute, KernelStack, MaskedPcb, Release, Halt, P.Shape;
    Sizes(k);
    assert t == 0 || t == 1 || t == 2;
    BaseReleased(k, t);
    var freed := Release(CloseAll(k, t, 2), t);
    LowestFreeIs(freed.live, 0, t);
    BaseLaunch(fs, freed, t, junk, ctx);
    BaseHaltIsExecute(fs, k, t, status, junk, ctx);
    var r := Halt(fs, k, status, junk, ctx);
    Sizes(r);
    assert freed.pcbs[t := r.pcbs[t]] == k.pcbs[t := r.pcbs[t]];
    forall q | 0 <= q < MAX_PROCESSES && q != t ensures Untouched(k, r, q) {
      assert Untouched(freed, r, q);
      UntouchedBoth(k, freed, r, q);
    }
  }

  lemma Sizes(k: Kernel)
    requires Ok(k)
    ensures |k.live| == |k.pcbs| == |k.frames| == MAX_PROCESSES && |k.terms| == MAX_TERMINALS
    ensures k.scheduled < MAX_TERMINALS && k.visible < MAX_TERMINALS && P.Shape(k.tables)
  {
  }

  lemma BaseReleased(k: Kernel, t: nat)
    requires Ok(k) && t == k.scheduled && k.terms[t] == Term(Slot(t), t)
    requires MaskedPcb(k) == Slot(t) && k.pcbs[t].pid == k.pcbs[t].ppid == t && k.live[t]
    ensures
      var freed := Release(CloseAll(k, t, 2), t);
      && freed == k.(live := k.live[t := false], pcbs := k.pcbs[t := freed.pcbs[t]])
      && (forall q :: 0 <= q < MAX_PROCESSES && q != t ==> Untouched(k, freed, q))
      && freed.pcbs[t].pid == freed.pcbs[t].ppid == t
      && freed.live[t := true] == k.live && k.terms[t := Term(Slot(t), t)] == k.terms
  {
    CloseAllCloses(k, t, 2);
    hide CloseAll, ClosedFds;
  }

  // A base shell's exit starts a new shell in the same place: the lowest free pid is its own.
  lemma BaseExitRestarts(fs: FS.FileSys, k: Kernel, st: Chains, status: Byte, junk: seq<Byte>, ctx: Ctx)
    requires ShellLoads(fs) && Inv(k, st) && |junk| == JUNK && |st[k.scheduled]| == 1
    ensures
      var t := k.scheduled;
      var r := Halt(fs, k, status, junk, ctx);
      && Inv(r, st) && r.scheduled == t && r.visible == k.visible
      && r.live == k.live && r.terms == k.terms
      && r.crashed == k.crashed && r.cpu.Start? && r.cpu.pid == t && r.pcbs[t].pid == r.pcbs[t].ppid == t
      && FreshTable(r.pcbs[t].fda)
      && OthersUntouched(k, r, t)
  {
    hide AllLinked, Distinct, Covered, Rooted, Ok, Untouched, SameLinks, MaskedPcb, KernelStack, VideoOf;
    hide P.Base, P.SetUserProgPage, Halt;
    var t := k.scheduled;
    Sizes(k);
    BaseFacts(k, st);
    BaseExitChanges(fs, k, t, status, junk, ctx);
    ProgKeepsBase(k.tables, Some(2 + t), t);
    var r := Halt(fs, k, status, junk, ctx);
    Sizes(r);
    RestartKeepsLinks(k, r, t);
    LinksKeepForest(k, r, st);
  }

  lemma RestartKeepsLinks(k: Kernel, r: Kernel, t: nat)
    requires Ok(k) && Ok(r) && t < MAX_TERMINALS && k.pcbs[t].pid == k.pcbs[t].ppid == t
    requires r.live == k.live && r.terms == k.terms && r.pcbs == k.pcbs[t := r.pcbs[t]]
    requires r.pcbs[t].pid == r.pcbs[t].ppid == t
    ensures SameLinks(k, r)
  {
  }

  lemma BaseFacts(k: Kernel, st: Chains)
    requires Inv(k, st) && |st[k.scheduled]| == 1
    ensures
      var t := k.scheduled;
      && Current(k, st) == t && k.terms[t] == Term(Slot(t), t) && MaskedPcb(k) == Slot(t)
      && k.pcbs[t].pid == k.pcbs[t].ppid == t
      && k.live[0] && k.live[1] && k.live[2]
  {
    ViewsAgree(k, st);
    assert Current(k, st) == k.scheduled;
    BaseShellsExactly(k, st, k.scheduled, 0);
    BasesAreLive(k, st);
  }
}
