// What execute starts (system_calls.c execute): which commands launch, that the program's file
// is in the new process's memory, and where it begins. Offsets are those of the ELF header and
// of the fixed place of programs, 0x48000 into the 4 MB at 128 MB.
module Programs {
  import opened Bytes
  import opened Machine
  import opened Processes
  import opened ProcessRuns
  import opened UserMemory
  import opened KernelRuns
  import opened Scheduling
  import P = Paging
  import FS = FileSystem
  import C = Command
  import S = Strings

  // What a read of a file can deliver: its contents and the byte after them.
  function FileOf(fs: FS.FileSys, inode: nat): seq<Byte>
    requires FS.FsOk(fs)
  {
    if inode < |fs.inodes| && fs.inodes[inode].size > 0 then
      FS.Contents(fs, fs.inodes[inode]) + [FS.PastEnd(fs, fs.inodes[inode])]
    else []
  }

  lemma FileReads(fs: FS.FileSys, inode: nat, offset: nat, length: nat)
    requires FS.FsOk(fs)
    ensures
      var file := FileOf(fs, inode);
      FS.DataRead(fs, inode, offset, length) ==
        if offset + 1 < |file| then file[offset..Min(offset + length, |file|)] else []
  {
    hide FS.DataRead, FS.Contents, FS.PastEnd, FS.FsOk, FS.InodeOk;
    FS.DataReadIsTheFile(fs, inode, offset, length);
  }

  // The command names entry j of the directory.
  predicate Names(fs: FS.FileSys, command: seq<Byte>, j: nat) {
    var name := C.NameOf(CommandText(command)) + [NUL];
    FS.IsFirst(fs, name, j) && S.StrLen(name) <= 32
  }

  // The file starts with 0x7F E L F; where it is shorter, what the stack held counts.
  predicate StartsWithElf(file: seq<Byte>, junk: seq<Byte>)
    requires |junk| == JUNK
  {
    forall i :: 0 <= i < 4 ==> (if i < |file| then file[i] else junk[i]) == [0x7f, 0x45, 0x4c, 0x46][i]
  }

  lemma FirstFour(fs: FS.FileSys, inode: nat, junk: seq<Byte>)
    requires FS.FsOk(fs) && |junk| == JUNK
    ensures FirstBytes(fs, inode, junk) == ELF_MAGIC <==> StartsWithElf(FileOf(fs, inode), junk)
  {
    hide FS.DataRead, FileOf, FS.FsOk;
    FileReads(fs, inode, 0, 4);
    var file, b := FileOf(fs, inode), FirstBytes(fs, inode, junk);
    FileIsNotOneByte(fs, inode);
    assert forall i :: 0 <= i < 4 ==> b[i] == if i < |file| then file[i] else junk[i];
    if StartsWithElf(file, junk) {
      assert forall i :: 0 <= i < 4 ==> b[i] == ELF_MAGIC[i];
    }
  }

  lemma FileIsNotOneByte(fs: FS.FileSys, inode: nat)
    requires FS.FsOk(fs)
    ensures |FileOf(fs, inode)| != 1
  {
  }

  // When the command names a file, execute launches if and only if there is a free pid and the
  // file starts with the magic number.
  lemma LaunchesExactly(fs: FS.FileSys, k: Kernel, command: seq<Byte>, junk: seq<Byte>, j: nat)
    requires FS.FsOk(fs) && Ok(k) && |junk| == JUNK && Names(fs, command, j)
    ensures Launches(fs, k, command, junk) <==>
            (exists q :: 0 <= q < MAX_PROCESSES && !k.live[q]) && StartsWithElf(FileOf(fs, fs.dentries[j].inode), junk)
  {
    hide FS.FsOk, FirstBytes, FileOf, StartsWithElf, FS.Named, FS.Lookup, Ok, C.NameOf, CommandText, S.StrLen;
    Sizes(k);
    var pid := LowestFree(k.live, 0);
    assert (exists q :: 0 <= q < MAX_PROCESSES && !k.live[q]) <==> pid < MAX_PROCESSES;
    FS.LookupFinds(fs, C.NameOf(CommandText(command)) + [NUL], j);
    FirstFour(fs, fs.dentries[j].inode, junk);
  }

  // When it names none, execute fails.
  lemma NoFileNoLaunch(fs: FS.FileSys, k: Kernel, command: seq<Byte>, junk: seq<Byte>)
    requires FS.FsOk(fs) && Ok(k) && |junk| == JUNK
    requires
      var name := C.NameOf(CommandText(command)) + [NUL];
      S.StrLen(name) > 32 || forall j :: 0 <= j < |fs.dentries| ==> !FS.Named(fs.dentries[j], name)
    ensures !Launches(fs, k, command, junk)
  {
    hide FS.FsOk, FirstBytes, FS.Named, FS.Lookup, C.NameOf, CommandText, S.StrLen;
    FS.LookupFailsExactly(fs, C.NameOf(CommandText(command)) + [NUL]);
  }

  // A frame with the program in it: at most 100000 bytes of the file at 0x48000, and the rest as
  // it was.
  predicate ProgramIn(file: seq<Byte>, before: seq<Byte>, after: seq<Byte>) {
    && |before| == |after| == 0x40_0000
    && forall i :: 0 <= i < 0x40_0000 ==>
         after[i] == if 0x4_8000 <= i < 0x4_8000 + Min(100000, |file|) then file[i - 0x4_8000] else before[i]
  }

  // The address of the first instruction is in bytes 24 to 27.
  predicate BeginsAt(file: seq<Byte>, junk: seq<Byte>, entry: seq<Byte>)
    requires |junk| == JUNK
  {
    |entry| == 4 && forall i :: 0 <= i < 4 ==>
      entry[i] == if 25 < |file| && 24 + i < |file| then file[24 + i] else junk[4 + i]
  }

  // From k to r, process pid's memory got the program, and no other process's changed; it begins
  // without a video window.
  predicate Started(fs: FS.FileSys, inode: nat, k: Kernel, r: Kernel, pid: nat, junk: seq<Byte>)
    requires FS.FsOk(fs) && Ok(k) && Ok(r) && |junk| == JUNK && pid < MAX_PROCESSES
  {
    && ProgramIn(FileOf(fs, inode), k.frames[pid], r.frames[pid])
    && (forall q :: 0 <= q < MAX_PROCESSES && q != pid ==> r.frames[q] == k.frames[q])
    && r.cpu.Start? && r.cpu.pid == pid && BeginsAt(FileOf(fs, inode), junk, r.cpu.entry)
    && !r.pcbs[pid].vidmap
  }

  lemma ImageIsProgram(fs: FS.FileSys, inode: nat, frame: seq<Byte>)
    requires FS.FsOk(fs) && |frame| == FRAME_SIZE
    ensures ProgramIn(FileOf(fs, inode), frame, LoadImage(frame, FS.DataRead(fs, inode, 0, MAX_IMAGE)))
  {
    hide FS.DataRead, FileOf, FS.FsOk;
    FileReads(fs, inode, 0, MAX_IMAGE);
    FileIsNotOneByte(fs, inode);
  }

  lemma EntryIsHeader(fs: FS.FileSys, inode: nat, junk: seq<Byte>)
    requires FS.FsOk(fs) && |junk| == JUNK
    ensures BeginsAt(FileOf(fs, inode), junk, EntryBytes(fs, inode, junk))
  {
    hide FS.DataRead, FileOf, FS.FsOk;
    FileReads(fs, inode, 24, 4);
    var got, file := FS.DataRead(fs, inode, ENTRY_OFFSET, 4), FileOf(fs, inode);
    assert forall i :: 0 <= i < |got| ==> got[i] == file[24 + i];
  }

  lemma LaunchedExecute(fs: FS.FileSys, k: Kernel, command: seq<Byte>, junk: seq<Byte>, ctx: Ctx)
    requires FS.FsOk(fs) && Ok(k) && |junk| == JUNK && Launches(fs, k, command, junk)
    ensures
      var inode, pid := Program(fs, command).value.inode, LowestFree(k.live, 0);
      Started(fs, inode, k, Execute(fs, k, command, junk, ctx).k, pid, junk)
  {
    hide Program, FirstBytes, EntryBytes, FileOf, FS.DataRead, FS.FsOk, LoadImage, ProgramIn, BeginsAt, ResetFds;
    hide ArgField, P.SetUserProgPage;
    var inode, pid := Program(fs, command).value.inode, LowestFree(k.live, 0);
    FrameSizes(k);
    ImageIsProgram(fs, inode, k.frames[pid]);
    EntryIsHeader(fs, inode, junk);
  }

  // A successful execute: the named file's bytes are in the new process's memory, which nothing
  // else changed, it starts at the address in the file's header, and its own addresses from
  // 128 MB on lead there.
  lemma ProgramIsLoaded(
      fs: FS.FileSys, k: Kernel, st: Chains, command: seq<Byte>, junk: seq<Byte>, ctx: Ctx, j: nat, va: nat)
    requires FS.FsOk(fs) && Inv(k, st) && |junk| == JUNK && Launches(fs, k, command, junk)
    requires Names(fs, command, j) && 0x800_0000 <= va < 0x840_0000
    ensures
      var pid, r := LowestFree(k.live, 0), Execute(fs, k, command, junk, ctx).k;
      && pid < MAX_PROCESSES && Started(fs, fs.dentries[j].inode, k, r, pid, junk)
      && Translated(r.tables, va, true) == Some((2 + pid) * FOUR_MB + (va - 0x800_0000))
  {
    hide FS.FsOk, Inv, Launches, Started, FS.Named, FS.Lookup, C.NameOf, CommandText, S.StrLen, P.Walk, P.Base;
    hide Execute, FreshTable, VideoOf;
    InvSizes(k, st);
    FS.LookupFinds(fs, C.NameOf(CommandText(command)) + [NUL], j);
    LaunchedExecutePushes(fs, k, st, command, junk, ctx);
    LaunchedExecute(fs, k, command, junk, ctx);
    var pid, r := LowestFree(k.live, 0), Execute(fs, k, command, junk, ctx).k;
    var st' := st[k.scheduled := st[k.scheduled] + [pid]];
    assert Current(r, st') == pid;
    RunningBase(r, st');
    P.BaseReaches(r.tables, Some(2 + pid), VideoOf(r.tables), va);
  }

  lemma RunningBase(k: Kernel, st: Chains)
    requires Inv(k, st)
    ensures P.Shape(k.tables) && P.Base(k.tables, Some(2 + Current(k, st)), VideoOf(k.tables))
  {
  }

  // ---------------------------------------------------------------------------------------
  // The base shells: at boot, and when one is started again.

  // Entry j is the file "shell".
  predicate IsShell(fs: FS.FileSys, j: nat) {
    FS.IsFirst(fs, [115, 104, 101, 108, 108, NUL], j)
  }

  lemma ShellIsFound(fs: FS.FileSys, j: nat)
    requires IsShell(fs, j)
    ensures Program(fs, SHELL + [NUL]).Some? && Program(fs, SHELL + [NUL]).value.inode == fs.dentries[j].inode
  {
    hide FS.Named, FS.Lookup, CommandText, C.NameOf;
    ShellCommand(fs);
    var name: seq<Byte> := [115, 104, 101, 108, 108, NUL];
    assert SHELL + [NUL] == name && S.StrLen(name) <= 32 by { assert name[5] == NUL; }
    FS.LookupFinds(fs, name, j);
  }

  lemma ShellExecute(fs: FS.FileSys, k: Kernel, junk: seq<Byte>, ctx: Ctx, j: nat)
    requires ShellLoads(fs) && IsShell(fs, j) && Ok(k) && |junk| == JUNK && LowestFree(k.live, 0) < MAX_PROCESSES
    ensures
      var r, pid := Execute(fs, k, SHELL + [NUL], junk, ctx).k, LowestFree(k.live, 0);
      Started(fs, fs.dentries[j].inode, k, r, pid, junk)
  {
    hide Program, FirstBytes, Execute, Started, FS.IsFirst;
    ShellIsFound(fs, j);
    ShellBytes(fs, junk);
    LaunchedExecute(fs, k, SHELL + [NUL], junk, ctx);
  }

  // The frame has the program at its place.
  predicate HasProgram(file: seq<Byte>, frame: seq<Byte>) {
    |frame| == 0x40_0000 &&
    forall i :: 0x4_8000 <= i < 0x4_8000 + Min(100000, |file|) ==> frame[i] == file[i - 0x4_8000]
  }

  lemma BootStartLoads(fs: FS.FileSys, k: Kernel, n: nat, held: seq<Ctx>, junk: seq<Byte>, ctx: Ctx, j: nat)
    requires ShellLoads(fs) && IsShell(fs, j) && Booting(k, n, true, held) && |junk| == JUNK && n < MAX_TERMINALS
    ensures Started(fs, ShellInode(fs, j), k, Tick(fs, k, junk, ctx), n, junk)
  {
    hide Execute, P.Base, KernelStack, VideoOf, FreshTable, Started, FS.FsOk, IsShell, Tick;
    BootTickIsExecute(fs, k, n, held, junk, ctx);
    var k' := k.(shells := k.shells + 1, terms := k.terms[n := Term(Boot(ctx), n)], visible := n);
    LowestFreeIs(k'.live, 0, n);
    ShellExecute(fs, k', junk, ctx, j);
    StartedFrom(fs, ShellInode(fs, j), k', k, Execute(fs, k', SHELL + [NUL], junk, ctx).k, n, junk);
  }

  lemma BootMoveKeeps(fs: FS.FileSys, k: Kernel, n: nat, held: seq<Ctx>, junk: seq<Byte>, ctx: Ctx)
    requires FS.FsOk(fs) && Booting(k, n, false, held) && |junk| == JUNK && 0 < n < MAX_TERMINALS
    ensures Tick(fs, k, junk, ctx).frames == k.frames
  {
    hide Execute, P.Base, KernelStack, VideoOf, P.SetUserProgPage, P.SetUserVideoPage, FreshTable;
  }

  function ShellInode(fs: FS.FileSys, j: nat): nat
    requires IsShell(fs, j)
  {
    fs.dentries[j].inode
  }

  lemma BootTick(fs: FS.FileSys, k: Kernel, e: Event, done: nat, held: seq<Ctx>, j: nat)
    requires ShellLoads(fs) && IsShell(fs, j) && done < 5 && EventOk(e) && e.Timer?
    requires Booting(k, (done + 1) / 2, done % 2 == 0, held)
    ensures Ok(k)
    ensures
      var r := Step(fs, k, e);
      if done % 2 == 0 then Started(fs, ShellInode(fs, j), k, r, done / 2, e.junk) else r.frames == k.frames
  {
    hide Booting, Tick, FS.FsOk, Started, IsShell, Ok;
    BootingIsOk(k, (done + 1) / 2, done % 2 == 0, held);
    if done % 2 == 0 {
      BootStartLoads(fs, k, done / 2, held, e.junk, e.ctx, j);
    } else {
      BootMoveKeeps(fs, k, (done + 1) / 2, held, e.junk, e.ctx);
    }
  }

  lemma StartedFrom(fs: FS.FileSys, inode: nat, k': Kernel, k: Kernel, r: Kernel, pid: nat, junk: seq<Byte>)
    requires FS.FsOk(fs) && Ok(k') && Ok(k) && Ok(r) && |junk| == JUNK && pid < MAX_PROCESSES
    requires Started(fs, inode, k', r, pid, junk) && k'.frames == k.frames
    ensures Started(fs, inode, k, r, pid, junk)
  {
  }

  // After n ticks of boot, every shell that is up has the file in its memory.
  lemma {:induction false} BootLoadsShells(fs: FS.FileSys, k: Kernel, es: seq<Event>, j: nat, p: nat)
    requires ShellLoads(fs) && IsShell(fs, j) && Initial(k) && |es| <= 5 && Timers(es) && p < (|es| + 1) / 2
    ensures p < MAX_TERMINALS && HasProgram(FileOf(fs, ShellInode(fs, j)), Run(fs, k, es).frames[p])
    decreases |es|
  {
    hide Booting, Step, FS.FsOk, EventOk, IsShell, FileOf, HasProgram, ProgramIn, BeginsAt, Ok;
    var most, e := es[..|es| - 1], es[|es| - 1];
    var k' := Run(fs, k, most);
    Sizes(k');
    Sizes(Step(fs, k', e));
    BootRun(fs, k, most);
    BootTick(fs, k', e, |most|, BootSaved(most), j);
    if p < (|most| + 1) / 2 {
      BootLoadsShells(fs, k, most, j, p);
    } else {
      ProgramStays(FileOf(fs, ShellInode(fs, j)), k'.frames[p], Step(fs, k', e).frames[p]);
    }
  }

  lemma ProgramStays(file: seq<Byte>, before: seq<Byte>, after: seq<Byte>)
    requires ProgramIn(file, before, after)
    ensures HasProgram(file, after)
  {
  }

  // A base shell that ends is replaced by a shell freshly read from the file, in the same frame.
  lemma RestartLoadsShell(fs: FS.FileSys, k: Kernel, st: Chains, how: Ending, junk: seq<Byte>, ctx: Ctx, j: nat)
    requires ShellLoads(fs) && IsShell(fs, j) && Inv(k, st) && |junk| == JUNK && |st[k.scheduled]| == 1
    ensures
      var t := k.scheduled;
      t < MAX_TERMINALS && Started(fs, fs.dentries[j].inode, k, End(fs, k, how, junk, ctx), t, junk)
  {
    hide AllLinked, Distinct, Covered, Rooted, Ok, CloseAll, Release, Execute, Halt, MaskedPcb, P.Base, Started;
    hide IsShell, FS.FsOk;
    var t := k.scheduled;
    var raised := Raise(k, how);
    RaiseKeepsInv(k, st, how);
    InvSizes(k, st);
    Sizes(raised);
    BaseFacts(raised, st);
    BaseReleased(raised, t);
    var freed := Release(CloseAll(raised, t, 2), t);
    assert t == 0 || t == 1 || t == 2;
    LowestFreeIs(freed.live, 0, t);
    BaseLaunch(fs, freed, t, junk, ctx);
    BaseHaltIsExecute(fs, raised, t, CodeOf(how), junk, ctx);
    ShellExecute(fs, freed, junk, ctx, j);
    StartedFrom(fs, ShellInode(fs, j), freed, k, End(fs, k, how, junk, ctx), t, junk);
  }
}
