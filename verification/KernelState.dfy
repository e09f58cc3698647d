// The kernel's globals in memory, and the handlers that update them in place (system_calls.c,
// scheduler.c). Each is proved to do what its step in Processes does.
module KernelDriver {
  import opened Bytes
  import opened Machine
  import K = Processes
  import P = Paging
  import FS = FileSystem
  import C = Command
  import S = Strings
  import R = ProcessRuns
  import Scheduling

  const MEMORY_SIZE := K.MAX_PROCESSES * K.FRAME_SIZE

  // The six 4 MB user frames, in physical order.
  function Frames(m: seq<Byte>): (f: seq<seq<Byte>>)
    requires |m| == MEMORY_SIZE
    ensures |f| == K.MAX_PROCESSES
  {
    seq(K.MAX_PROCESSES, p requires 0 <= p < K.MAX_PROCESSES => m[p * K.FRAME_SIZE..(p + 1) * K.FRAME_SIZE])
  }

  // An image copied into frame p of memory is in that frame and nowhere else.
  lemma ImageLands(m: seq<Byte>, r: seq<Byte>, p: nat, image: seq<Byte>)
    requires |m| == |r| == MEMORY_SIZE && p < K.MAX_PROCESSES && |image| <= K.MAX_IMAGE
    requires
      var at := p * K.FRAME_SIZE + K.IMAGE_OFFSET;
      r[at..at + |image|] == image && r[..at] == m[..at] && r[at + |image|..] == m[at + |image|..]
    ensures Frames(r) == Frames(m)[p := K.LoadImage(Frames(m)[p], image)]
  {
    var at := p * K.FRAME_SIZE + K.IMAGE_OFFSET;
    SplicePoints(m, r, at, image);
    forall q | 0 <= q < K.MAX_PROCESSES && q != p ensures Frames(r)[q] == Frames(m)[q] {
      assert forall k :: 0 <= k < K.FRAME_SIZE ==>
                           Frames(r)[q][k] == r[q * K.FRAME_SIZE + k] == m[q * K.FRAME_SIZE + k];
    }
    var frame := K.LoadImage(Frames(m)[p], image);
    forall k | 0 <= k < K.FRAME_SIZE ensures Frames(r)[p][k] == frame[k] {
      assert Frames(r)[p][k] == r[p * K.FRAME_SIZE + k];
    }
    assert Frames(r)[p] == frame;
  }

  lemma SplicePoints(m: seq<Byte>, r: seq<Byte>, at: nat, image: seq<Byte>)
    requires |m| == |r| && at + |image| <= |m|
    requires r[at..at + |image|] == image && r[..at] == m[..at] && r[at + |image|..] == m[at + |image|..]
    ensures forall i :: 0 <= i < |r| ==> r[i] == if at <= i < at + |image| then image[i - at] else m[i]
  {
    forall i | 0 <= i < |r| ensures r[i] == if at <= i < at + |image| then image[i - at] else m[i] {
      if i < at {
        assert r[..at][i] == m[..at][i];
      } else if i < at + |image| {
        assert r[at..at + |image|][i - at] == r[i];
      } else {
        var past := at + |image|;
        assert r[past..][i - past] == m[past..][i - past];
      }
    }
  }

  lemma StoreLands(m: seq<Byte>, p: nat, offset: nat, b: Byte)
    requires |m| == MEMORY_SIZE && p < K.MAX_PROCESSES && offset < K.FRAME_SIZE
    ensures
      var frame: seq<Byte> := Frames(m)[p];
      Frames(m[p * K.FRAME_SIZE + offset := b]) == Frames(m)[p := frame[offset := b]]
  {
  }

  class KernelState {
    const processes: array<bool>
    const pcbs: array<K.Pcb>
    const terminals: array<K.Term>
    const memory: array<Byte>
    const paging: P.PageTables
    var scheduled: nat
    var visible: nat
    var shellCount: nat
    var esp0: int
    var exceptionFlag: bool
    var cpu: K.Cpu

    ghost predicate Valid()
      reads this, processes, pcbs, terminals, memory, paging, paging.directory, paging.kernelTable, paging.videoTable
    {
      && processes.Length == pcbs.Length == K.MAX_PROCESSES && terminals.Length == MAX_TERMINALS
      && memory.Length == MEMORY_SIZE && paging.Valid()
      && K.Ok(State())
    }

    ghost function State(): K.Kernel
      requires memory.Length == MEMORY_SIZE && paging.Valid()
      reads this, processes, pcbs, terminals, memory, paging, paging.directory, paging.kernelTable, paging.videoTable
    {
      K.Kernel(processes[..], pcbs[..], terminals[..], scheduled, visible, shellCount, esp0,
               paging.State(), Frames(memory[..]), exceptionFlag, cpu)
    }

    // init_terminal, with the tables as init_paging leaves them and nothing assumed of memory.
    constructor (pcbArea: array<K.Pcb>, userMemory: array<Byte>, tables: P.PageTables)
      requires pcbArea.Length == K.MAX_PROCESSES && userMemory.Length == MEMORY_SIZE
      requires forall p :: 0 <= p < K.MAX_PROCESSES ==> |pcbArea[p].fda| == K.NUM_FDS && |pcbArea[p].arg| == C.MAX_ARGS
      requires tables.Valid() && tables.State() == P.Init()
      ensures Valid() && Scheduling.Initial(State())
      ensures pcbs == pcbArea && memory == userMemory && paging == tables
    {
      processes, pcbs, memory, paging := new bool[K.MAX_PROCESSES](_ => false), pcbArea, userMemory, tables;
      terminals := new K.Term[MAX_TERMINALS](_ => K.Term(K.Null, -1));
      shellCount, scheduled, visible := 0, 0, 0;
      esp0, exceptionFlag, cpu := 0, false, K.Resume(K.NO_CTX);
    }

    // execute's search for a free process id.
    method FindFreePid() returns (pid: nat)
      requires Valid()
      ensures pid == K.LowestFree(processes[..], 0)
    {
      pid := 0;
      while pid < K.MAX_PROCESSES
        invariant pid <= K.MAX_PROCESSES && K.LowestFree(processes[..], 0) == K.LowestFree(processes[..], pid)
      {
        if !processes[pid] {
          return;
        }
        pid := pid + 1;
      }
    }

    method SetUpSlot(pid: nat, command: seq<Byte>, arg: seq<Byte>)
      requires Valid() && pid < K.MAX_PROCESSES && arg == K.ArgField(command)
      modifies pcbs
      ensures Valid() && State() == K.Prepare(old(State()), pid, command)
    {
      hide Frames;
      ghost var before := pcbs[pid];
      var i := 0;
      while i < K.NUM_FDS
        invariant 0 <= i <= K.NUM_FDS && |pcbs[pid].fda| == K.NUM_FDS
        invariant pcbs[..] == old(pcbs[..])[pid := pcbs[pid]] && pcbs[pid] == before.(fda := pcbs[pid].fda)
        invariant forall j :: 0 <= j < K.NUM_FDS ==>
                    pcbs[pid].fda[j] == if j < i then K.Fd(before.fda[j].ops, 0, 0, j < 2) else before.fda[j]
      {
        pcbs[pid] := pcbs[pid].(fda := pcbs[pid].fda[i := pcbs[pid].fda[i].(inode := 0, pos := 0, open := i < 2)]);
        i := i + 1;
      }
      var fda := pcbs[pid].fda;
      pcbs[pid] := pcbs[pid].(fda := fda[0 := fda[0].(ops := K.StdinOps)][1 := fda[1].(ops := K.StdoutOps)]);
      pcbs[pid] := pcbs[pid].(arg := arg);
      assert pcbs[pid].fda == K.ResetFds(before.fda);
    }

    // read_data into the new program's image, through the mapping just made.
    method LoadProgram(fs: FS.FileSys, pid: nat, inode: nat)
      requires FS.FsOk(fs) && Valid() && pid < K.MAX_PROCESSES
      modifies memory, paging, paging.directory
      ensures Valid() && State() == K.Load(fs, old(State()), pid, inode)
    {
      hide Frames, K.LoadImage, FS.DataRead, FS.FsOk, P.SetUserProgPage;
      ProgEntry(paging.State(), pid);
      paging.SetUserProg(pid, true);
      ghost var m := memory[..];
      var frame := paging.directory[P.USER_PROG_INDEX].base - 2;
      var n := FS.ReadData(fs, inode, 0, memory, frame * K.FRAME_SIZE + K.IMAGE_OFFSET, K.MAX_IMAGE);
      ImageLands(m, memory[..], pid, FS.DataRead(fs, inode, 0, K.MAX_IMAGE));
    }

    lemma ProgEntry(t: P.Tables, pid: nat)
      requires P.Shape(t) && pid < K.MAX_PROCESSES
      ensures P.SetUserProgPage(t, pid, true).dir[P.USER_PROG_INDEX] == P.Large(true, true, 2 + pid)
    {
    }

    // Four bytes of a file, in a buffer that holds stack garbage before.
    method ReadFour(fs: FS.FileSys, inode: nat, offset: nat, junk: seq<Byte>) returns (bytes: seq<Byte>)
      requires FS.FsOk(fs) && |junk| == 4
      ensures bytes == K.FourBytes(fs, inode, offset, junk)
    {
      var buf := new Byte[4](i requires 0 <= i < 4 => junk[i]);
      assert buf[..] == junk;
      var n := FS.ReadData(fs, inode, offset, buf, 0, 4);
      bytes := buf[..];
      assert buf[..] == buf[..n] + buf[n..];
    }

    method UndoLoad(pid: nat)
      requires Valid()
      modifies paging, paging.directory
      ensures Valid() && State() == K.Rollback(old(State()), pid)
    {
      paging.SetUserProg(pid, false);
      paging.SetUserProg(terminals[scheduled].lastPid, true);
    }

    method Launch(pid: nat, ctx: K.Ctx, entry: seq<Byte>)
      requires Valid() && pid < K.MAX_PROCESSES
      modifies this`esp0, this`cpu, processes, pcbs, terminals
      ensures Valid() && State() == K.Launch(old(State()), pid, ctx, entry)
    {
      hide Frames, K.Masked;
      pcbs[pid] := pcbs[pid].(ppid := if pid <= 2 then pid else terminals[scheduled].lastPid, pid := pid);
      processes[pid] := true;
      terminals[scheduled] := terminals[scheduled].(lastPid := pid);
      esp0 := K.EIGHT_MB - pid * K.EIGHT_KB - 4;
      var saved := if pid <= 2 then SavedCtx(terminals[scheduled].pcb) else K.NO_CTX;
      pcbs[pid] := pcbs[pid].(vidmap := false, currCtx := saved, parentCtx := ctx, parent := terminals[scheduled].pcb);
      terminals[scheduled] := terminals[scheduled].(pcb := K.Slot(pid));
      cpu := K.Start(pid, entry);
      ghost var r := K.Launch(old(State()), pid, ctx, entry);
      assert pcbs[..] == r.pcbs && terminals[..] == r.terms;
      assert State() == r;
    }

    function SavedCtx(p: K.PcbPtr): K.Ctx
      reads this, pcbs
    {
      match p
      case Null => K.NO_CTX
      case Boot(ctx) => ctx
      case Slot(pid) => if pid < pcbs.Length then pcbs[pid].currCtx else K.NO_CTX
    }

    method Execute(fs: FS.FileSys, command: seq<Byte>, junk: seq<Byte>, ctx: K.Ctx) returns (launched: bool)
      requires FS.FsOk(fs) && Valid() && NUL in command && |junk| == K.JUNK
      modifies this`esp0, this`cpu, processes, pcbs, terminals, memory, paging, paging.directory
      ensures Valid()
      ensures K.Outcome(State(), launched) == K.Execute(fs, old(State()), command, junk, ctx)
    {
      hide K.Prepare, K.Load, K.Rollback, K.Launch, K.Ok, K.FourBytes, FS.Lookup, C.NameOf;
      var pid := FindFreePid();
      if pid == K.MAX_PROCESSES {
        return false;
      }
      var name, arg := C.Parse(command);
      SetUpSlot(pid, command, arg);
      var d := FS.ReadDentryByName(fs, name);
      if d.None? {
        return false;
      }
      LoadProgram(fs, pid, d.value.inode);
      var magic := ReadFour(fs, d.value.inode, 0, junk[..4]);
      if magic != K.ELF_MAGIC {
        UndoLoad(pid);
        return false;
      }
      var entry := ReadFour(fs, d.value.inode, K.ENTRY_OFFSET, junk[4..]);
      Launch(pid, ctx, entry);
      launched := true;
    }

    // The PCB found by masking the TSS stack pointer.
    method CurrentPcb() returns (p: K.PcbPtr)
      requires Valid()
      ensures p == K.MaskedPcb(State())
    {
      p := K.SlotAt(K.Masked(esp0));
    }

    // The value is the file type's: 0 for a file, a directory or the clock, -1 for the rest.
    method Close(fd: int) returns (r: int)
      requires Valid()
      modifies pcbs
      ensures Valid() && State() == K.Close(old(State()), fd)
      ensures
        var at := old(K.MaskedPcb(State()));
        r == 0 <==> at.Slot? && 2 <= fd <= 7 && old(pcbs[..])[at.pid].fda[fd].open &&
                    old(pcbs[..])[at.pid].fda[fd].ops in {K.RtcOps, K.DirOps, K.FileOps}
      ensures r == 0 || r == -1
    {
      hide K.Masked;
      r := -1;
      var at := CurrentPcb();
      if at.Slot? {
        var p := at.pid;
        var fda := pcbs[p].fda;
        if fd < 2 || fd > 7 || !fda[fd].open {
          return;
        }
        pcbs[p] := pcbs[p].(fda := fda[fd := fda[fd].(open := false)]);
        assert State() == K.Close(old(State()), fd);
        r := if fda[fd].ops in {K.RtcOps, K.DirOps, K.FileOps} then 0 else -1;
      }
    }

    // open: the search loop over descriptors 2..7.
    method Open(fs: FS.FileSys, name: seq<Byte>) returns (fd: int)
      requires FS.FsOk(fs) && Valid() && NUL in name
      modifies pcbs
      ensures Valid() && K.Opened(State(), fd) == K.Open(fs, old(State()), name)
    {
      hide K.Masked, FS.Lookup, FS.FsOk;
      fd := -1;
      var at := CurrentPcb();
      if at.Slot? {
        var p := at.pid;
        var d := FS.ReadDentryByName(fs, name);
        if d.None? {
          return;
        }
        var i := FreeFd(pcbs[p].fda);
        if i == K.NUM_FDS {
          return;
        }
        var fda := pcbs[p].fda;
        var entry := fda[i].(pos := 0, open := true);
        if d.value.ftype == 0 {
          entry := entry.(ops := K.RtcOps);
        } else if d.value.ftype == 1 {
          entry := entry.(ops := K.DirOps);
        } else if d.value.ftype == 2 {
          entry := entry.(ops := K.FileOps, inode := d.value.inode);
        }
        pcbs[p] := pcbs[p].(fda := fda[i := entry]);
        fd := i;
        assert State() == K.Open(fs, old(State()), name).k;
      }
    }

    method FreeFd(fda: seq<K.Fd>) returns (i: nat)
      requires |fda| == K.NUM_FDS
      ensures i == K.LeastFreeFd(fda, 2)
    {
      i := 2;
      while i < K.NUM_FDS && fda[i].open
        invariant 2 <= i <= K.NUM_FDS && K.LeastFreeFd(fda, 2) == K.LeastFreeFd(fda, i)
      {
        i := i + 1;
      }
    }

    // A byte stored through the page tables.
    method StoreByte(va: nat, b: Byte, user: bool) returns (faulted: bool)
      requires Valid()
      modifies memory
      ensures Valid()
      ensures
        match K.Translated(old(State()).tables, va, user)
        case None => faulted && State() == old(State())
        case Some(pa) => !faulted && State() == K.PutByte(old(State()), pa, b)
    {
      hide P.Walk;
      if va >= P.ADDRESS_SPACE {
        return true;
      }
      var pa := paging.Translate(va, user);
      if pa.None? {
        return true;
      }
      faulted := false;
      var f := pa.value / FOUR_MB - 2;
      if 0 <= f < K.MAX_PROCESSES {
        var offset := pa.value % FOUR_MB;
        StoreLands(memory[..], f, offset, b);
        memory[f * K.FRAME_SIZE + offset] := b;
        assert memory[..] == old(memory[..])[f * K.FRAME_SIZE + offset := b];
        assert State() == K.PutByte(old(State()), pa.value, b);
      }
    }

    // One byte of a copy to the user's buffer.
    method CopyByte(to: nat, ghost bytes: seq<Byte>, i: nat, b: Byte) returns (faulted: bool)
      requires Valid() && i < |bytes| && b == bytes[i]
      modifies memory
      ensures Valid()
      ensures
        if faulted then K.Called(State(), true) == K.CopyOut(old(State()), to, bytes, i)
        else K.CopyOut(State(), to, bytes, i + 1) == K.CopyOut(old(State()), to, bytes, i)
    {
      hide Frames, K.Ok, K.Translated, K.PutByte;
      faulted := StoreByte(to + i, b, false);
    }

    // read_data into the caller's memory.
    method ReadFile(fs: FS.FileSys, inode: nat, offset: nat, to: nat, length: nat) returns (count: nat, faulted: bool)
      requires FS.FsOk(fs) && Valid()
      modifies memory
      ensures Valid()
      ensures K.Called(State(), faulted) == K.CopyOut(old(State()), to, FS.DataRead(fs, inode, offset, length), 0)
      ensures !faulted ==> count == |FS.DataRead(fs, inode, offset, length)|
    {
      hide Frames, K.Ok, K.CopyOut, FS.InodeOk, FS.Flat, FS.ByteAt, FS.Listed;
      ghost var k := State();
      ghost var bytes := FS.DataRead(fs, inode, offset, length);
      count, faulted := 0, false;
      if inode >= |fs.inodes| || offset >= fs.inodes[inode].size {
        NothingCopied(k, to);
        return;
      }
      var node := fs.inodes[inode];
      var off := offset;
      while count < length
        invariant count <= |bytes| && off == offset + count && Valid()
        invariant K.CopyOut(State(), to, bytes, count) == K.CopyOut(k, to, bytes, 0)
      {
        if off > node.size {
          break;
        }
        FS.FlatAt(fs, node, off);
        var b := FS.FetchByte(fs, node, off);
        faulted := CopyByte(to, bytes, count, b);
        if faulted {
          return;
        }
        off := off + 1;
        count := count + 1;
      }
      AllCopied(State(), to, bytes);
    }

    lemma NothingCopied(k: K.Kernel, to: nat)
      requires K.Ok(k)
      ensures K.CopyOut(k, to, [], 0) == K.Called(k, false)
    {
    }

    lemma AllCopied(k: K.Kernel, to: nat, bytes: seq<Byte>)
      requires K.Ok(k)
      ensures K.CopyOut(k, to, bytes, |bytes|) == K.Called(k, false)
    {
    }

    // memcpy to the caller's memory.
    method CopyBytes(to: nat, bytes: seq<Byte>) returns (faulted: bool)
      requires Valid()
      modifies memory
      ensures Valid() && K.Called(State(), faulted) == K.CopyOut(old(State()), to, bytes, 0)
    {
      hide Frames, K.Ok, K.CopyOut;
      faulted := false;
      var i := 0;
      while i < |bytes|
        invariant 0 <= i <= |bytes| && Valid()
        invariant K.CopyOut(State(), to, bytes, i) == K.CopyOut(old(State()), to, bytes, 0)
      {
        faulted := CopyByte(to, bytes, i, bytes[i]);
        if faulted {
          return;
        }
        i := i + 1;
      }
      AllCopied(State(), to, bytes);
    }

    method ReadDir(fs: FS.FileSys, p: nat, fd: nat, to: nat, n: nat) returns (count: nat, faulted: bool)
      requires FS.FsOk(fs) && Valid() && p < K.MAX_PROCESSES && fd < K.NUM_FDS
      modifies pcbs, memory
      ensures Valid() && |old(pcbs[p]).fda| == K.NUM_FDS
      ensures
        var f := old(pcbs[p]).fda[fd];
        var r := FS.DirRead(fs, f.pos);
        var moved := K.SetFd(old(State()), p, fd, f.(pos := r.0));
        && (r.1.None? ==> !faulted && count == 0 && State() == moved)
        && (r.1.Some? ==> K.Called(State(), faulted) == K.CopyOut(moved, to, r.1.value, 0) && (!faulted ==> count == n))
    {
      hide K.CopyOut, K.Masked, Frames;
      var fda := pcbs[p].fda;
      var position := fda[fd].pos;
      var d := FS.ReadDentryByIndex(fs, position);
      count, faulted := 0, false;
      if position >= FS.MAX_DENTRY || d.None? {
        assert fda[fd := fda[fd]] == fda;
        assert pcbs[..][p := pcbs[p]] == pcbs[..];
        return;
      }
      pcbs[p] := pcbs[p].(fda := fda[fd := fda[fd].(pos := position + 1)]);
      assert State() == K.SetFd(old(State()), p, fd, fda[fd].(pos := position + 1));
      faulted := CopyBytes(to, d.value.name);
      count := n;
    }

    // read up to its return or its fault, on a regular file or the directory. (The terminal's and
    // the clock's drivers have their own modules.)
    method ReadCall(fs: FS.FileSys, fd: int, to: nat, n: nat) returns (count: int, faulted: bool)
      requires FS.FsOk(fs) && Valid()
      modifies pcbs, memory
      ensures Valid() && K.Called(State(), faulted) == K.Read(fs, old(State()), fd, to, n)
      ensures
        var at := old(K.MaskedPcb(State()));
        if at.Slot? && 0 <= fd <= 7 && old(pcbs[..])[at.pid].fda[fd].open && to != 0 then
          var f := old(pcbs[..])[at.pid].fda[fd];
          !faulted && !f.ops.StdinOps? && !f.ops.RtcOps? ==> count == K.Delivered(fs, f, n).0
        else count == -1
    {
      hide K.Masked, FS.DataRead, FS.Advance, FS.FsOk, FS.DirRead, Frames, K.CopyOut;
      count, faulted := -1, false;
      var at := CurrentPcb();
      if at.Slot? {
        var p := at.pid;
        var fda := pcbs[p].fda;
        if fd < 0 || fd > 7 || !fda[fd].open || to == 0 {
          return;
        }
        if fda[fd].ops.FileOps? {
          pcbs[p] := pcbs[p].(fda := fda[fd := fda[fd].(pos := FS.Advance(fda[fd].pos, n))]);
          assert State() == K.ReadFd(fs, old(State()), fd, n);
          count, faulted := ReadFile(fs, fda[fd].inode, fda[fd].pos, to, n);
        } else if fda[fd].ops.DirOps? {
          count, faulted := ReadDir(fs, p, fd, to, n);
          NothingCopied(K.ReadFd(fs, old(State()), fd, n), to);
        } else {
          NothingCopied(State(), to);
        }
      }
    }

    // read, with the exit that a fault in it causes.
    method Read(fs: FS.FileSys, fd: int, to: nat, n: nat, junk: seq<Byte>, ctx: K.Ctx)
      returns (count: int, faulted: bool)
      requires FS.FsOk(fs) && Valid() && K.EventOk(K.ReadBytes(fd, to, n, junk, ctx))
      modifies this`esp0, this`exceptionFlag, this`cpu, processes, pcbs, terminals, memory
      modifies paging, paging.directory, paging.videoTable
      ensures Valid() && State() == K.Step(fs, old(State()), K.ReadBytes(fd, to, n, junk, ctx))
      ensures faulted == K.Ends(fs, old(State()), K.ReadBytes(fd, to, n, junk, ctx))
      ensures
        var at := old(K.MaskedPcb(State()));
        if at.Slot? && 0 <= fd <= 7 && old(pcbs[..])[at.pid].fda[fd].open && to != 0 then
          var f := old(pcbs[..])[at.pid].fda[fd];
          !faulted && !f.ops.StdinOps? && !f.ops.RtcOps? ==> count == K.Delivered(fs, f, n).0
        else count == -1
    {
      hide K.MaskedPcb, K.Read, K.Halt, K.Delivered, K.Ok, FS.FsOk;
      count, faulted := ReadCall(fs, fd, to, n);
      if faulted {
        HaltWrapper(fs, junk, ctx);
      }
    }

    method GetArgsCall(to: nat, n: int, beyond: seq<Byte>) returns (r: int, faulted: bool)
      requires Valid()
      modifies memory
      ensures Valid() && K.Called(State(), faulted) == K.GetArgs(old(State()), to, n, beyond)
      ensures
        var at := old(K.MaskedPcb(State()));
        r == 0 <==> at.Slot? && to != 0 && n >= C.MAX_ARGS && old(pcbs[..])[at.pid].arg[0] != NUL
      ensures r == -1 || r == 0
    {
      hide K.Masked, Frames, K.CopyOut;
      r, faulted := -1, false;
      var at := CurrentPcb();
      if at.Slot? {
        var arg := pcbs[at.pid].arg;
        if to == 0 || n < C.MAX_ARGS || arg[0] == NUL {
          return;
        }
        faulted := CopyBytes(to, arg + beyond);
        r := 0;
      }
    }

    // getargs, with the exit that a fault in it causes.
    method GetArgs(fs: FS.FileSys, to: nat, n: int, beyond: seq<Byte>, junk: seq<Byte>, ctx: K.Ctx)
      returns (r: int, faulted: bool)
      requires FS.FsOk(fs) && Valid() && K.EventOk(K.Args(to, n, beyond, junk, ctx))
      modifies this`esp0, this`exceptionFlag, this`cpu, processes, pcbs, terminals, memory
      modifies paging, paging.directory, paging.videoTable
      ensures Valid() && State() == K.Step(fs, old(State()), K.Args(to, n, beyond, junk, ctx))
      ensures faulted == K.Ends(fs, old(State()), K.Args(to, n, beyond, junk, ctx))
      ensures
        var at := old(K.MaskedPcb(State()));
        r == if at.Slot? && to != 0 && n >= C.MAX_ARGS && old(pcbs[..])[at.pid].arg[0] != NUL then 0 else -1
    {
      hide K.MaskedPcb, K.GetArgs, K.Halt, K.Ok, FS.FsOk;
      r, faulted := GetArgsCall(to, n, beyond);
      if faulted {
        HaltWrapper(fs, junk, ctx);
      }
    }

    // A user program's store, with the exit that a fault in it causes.
    method UserStore(fs: FS.FileSys, va: nat, b: Byte, junk: seq<Byte>, ctx: K.Ctx) returns (faulted: bool)
      requires FS.FsOk(fs) && Valid() && |junk| == K.JUNK
      modifies this`esp0, this`exceptionFlag, this`cpu, processes, pcbs, terminals, memory
      modifies paging, paging.directory, paging.videoTable
      ensures Valid() && State() == K.Step(fs, old(State()), K.Store(va, b, junk, ctx))
      ensures faulted == K.Ends(fs, old(State()), K.Store(va, b, junk, ctx))
    {
      hide K.Translated, K.Halt, K.Ok, K.PutByte, FS.FsOk;
      faulted := StoreByte(va, b, true);
      if faulted {
        HaltWrapper(fs, junk, ctx);
      }
    }

    // The four-byte store of the window's address.
    method StoreWindow(pointer: nat) returns (faulted: bool)
      requires Valid()
      modifies memory
      ensures Valid()
      ensures
        K.Called(State(), faulted) ==
        if K.WordMapped(old(State()).tables, pointer) then K.CopyOut(old(State()), pointer, K.WINDOW_ADDRESS, 0)
        else K.Called(old(State()), true)
    {
      hide Frames, K.Ok, K.CopyOut, P.Walk;
      var i := 0;
      while i < 4
        invariant 0 <= i <= 4 && Valid() && State() == old(State())
        invariant forall va :: pointer <= va < pointer + i ==> K.Translated(State().tables, va, false).Some?
      {
        if pointer + i >= P.ADDRESS_SPACE {
          assert K.Translated(State().tables, pointer + i, false).None?;
          return true;
        }
        var pa := paging.Translate(pointer + i, false);
        if pa.None? {
          assert K.Translated(State().tables, pointer + i, false).None?;
          return true;
        }
        i := i + 1;
      }
      faulted := CopyBytes(pointer, K.WINDOW_ADDRESS);
    }

    // vidmap up to its return or its fault.
    method VidmapCall(pointer: nat) returns (r: int, faulted: bool)
      requires Valid()
      modifies pcbs, memory, paging, paging.directory, paging.videoTable
      ensures Valid() && K.Called(State(), faulted) == K.Vidmap(old(State()), pointer)
      ensures r == -1 <==> pointer < P.USER_BASE || pointer > P.USER_BASE + FOUR_MB
      ensures r == -1 || r == 0
    {
      hide K.OpenWindow, K.CopyOut, K.WordMapped, K.Ok, Frames;
      r, faulted := -1, false;
      if pointer > P.USER_BASE + FOUR_MB || pointer < P.USER_BASE {
        return;
      }
      OpenWindow();
      faulted := StoreWindow(pointer);
      r := 0;
    }

    // vidmap, with the exit that a fault in it causes: then it does not return.
    method Vidmap(fs: FS.FileSys, pointer: nat, junk: seq<Byte>, ctx: K.Ctx) returns (r: int, faulted: bool)
      requires FS.FsOk(fs) && Valid() && |junk| == K.JUNK
      modifies this`esp0, this`exceptionFlag, this`cpu, processes, pcbs, terminals, memory
      modifies paging, paging.directory, paging.videoTable
      ensures Valid() && State() == K.Step(fs, old(State()), K.MapVideo(pointer, junk, ctx))
      ensures faulted == K.Ends(fs, old(State()), K.MapVideo(pointer, junk, ctx))
      ensures !faulted ==> r == if pointer < P.USER_BASE || pointer > P.USER_BASE + FOUR_MB then -1 else 0
    {
      hide K.Vidmap, K.Halt, K.Ok, FS.FsOk;
      r, faulted := VidmapCall(pointer);
      if faulted {
        HaltWrapper(fs, junk, ctx);
      }
    }

    method OpenWindow()
      requires Valid()
      modifies pcbs, paging, paging.directory, paging.videoTable
      ensures Valid() && State() == K.OpenWindow(old(State()))
    {
      hide K.Masked, P.SetUserVideoPage;
      var at := CurrentPcb();
      if at.Slot? {
        pcbs[at.pid] := pcbs[at.pid].(vidmap := true);
        paging.SetUserVideo(true, visible, scheduled);
        assert State() == K.OpenWindow(old(State()));
      }
    }

    // halt's closing loop.
    method CloseDescriptors(p: nat)
      requires Valid() && p < K.MAX_PROCESSES
      modifies pcbs
      ensures Valid() && State() == K.CloseAll(old(State()), p, 2)
    {
      hide K.Close, K.Ok;
      var i := 2;
      while i < K.NUM_FDS
        invariant 2 <= i <= K.NUM_FDS && Valid()
        invariant K.CloseAll(State(), p, i) == K.CloseAll(old(State()), p, 2)
      {
        OkFds(State(), p);
        if pcbs[p].fda[i].open {
          var _ := Close(i);
          OkFds(State(), p);
          ghost var closed := State();
          var fda := pcbs[p].fda;
          pcbs[p] := pcbs[p].(fda := fda[i := fda[i].(ops := K.BadOps)]);
          assert State() == K.SetFd(closed, p, i, fda[i].(ops := K.BadOps));
        }
        i := i + 1;
      }
    }

    lemma OkFds(k: K.Kernel, p: nat)
      requires K.Ok(k) && p < K.MAX_PROCESSES
      ensures |k.pcbs| == K.MAX_PROCESSES && |k.pcbs[p].fda| == K.NUM_FDS
    {
    }

    method Release(p: nat)
      requires Valid() && p < K.MAX_PROCESSES
      modifies processes, terminals
      ensures Valid() && State() == K.Release(old(State()), p)
    {
      if 0 <= pcbs[p].pid < K.MAX_PROCESSES {
        processes[pcbs[p].pid] := false;
      }
      terminals[scheduled] := terminals[scheduled].(lastPid := pcbs[p].ppid);
      assert State() == K.Release(old(State()), p);
    }

    method ReturnToParent(p: nat, status: Byte)
      requires Valid() && p < K.MAX_PROCESSES
      requires pcbs[p].parent.Slot? ==> pcbs[p].parent.pid < K.MAX_PROCESSES
      modifies this`esp0, this`exceptionFlag, this`cpu, terminals, paging, paging.directory, paging.videoTable
      ensures Valid() && State() == K.Return(old(State()), p, status)
    {
      hide Frames, K.Masked, P.SetUserProgPage, P.SetUserVideoPage;
      paging.SetUserProg(pcbs[p].ppid, true);
      esp0 := K.EIGHT_MB - pcbs[p].ppid * K.EIGHT_KB - 4;
      var parent := pcbs[p].parent;
      if parent.Slot? && pcbs[parent.pid].vidmap {
        paging.SetUserVideo(true, visible, scheduled);
      }
      terminals[scheduled] := terminals[scheduled].(pcb := parent);
      var realStatus: int := status;
      if exceptionFlag {
        exceptionFlag := false;
        realStatus := K.CRASH_STATUS;
      }
      cpu := K.Returned(pcbs[p].parentCtx, realStatus);
      assert State() == K.Return(old(State()), p, status);
    }

    method Halt(fs: FS.FileSys, status: Byte, junk: seq<Byte>, ctx: K.Ctx)
      requires FS.FsOk(fs) && Valid() && |junk| == K.JUNK
      modifies this`esp0, this`exceptionFlag, this`cpu, processes, pcbs, terminals, memory
      modifies paging, paging.directory, paging.videoTable
      ensures Valid() && State() == K.Halt(fs, old(State()), status, junk, ctx)
    {
      hide K.CloseAll, K.Release, K.Return, K.Execute;
      var at := terminals[scheduled].pcb;
      if at.Slot? {
        var p := at.pid;
        CloseDescriptors(p);
        Release(p);
        if pcbs[p].ppid == pcbs[p].pid {
          var launched := Execute(fs, K.SHELL + [NUL], junk, ctx);
          if launched {
            return;
          }
        }
        if pcbs[p].parent.Slot? && pcbs[p].parent.pid >= K.MAX_PROCESSES {
          return;
        }
        ReturnToParent(p, status);
      }
    }

    // The way out of an exception.
    method HaltWrapper(fs: FS.FileSys, junk: seq<Byte>, ctx: K.Ctx)
      requires FS.FsOk(fs) && Valid() && |junk| == K.JUNK
      modifies this`esp0, this`exceptionFlag, this`cpu, processes, pcbs, terminals, memory
      modifies paging, paging.directory, paging.videoTable
      ensures Valid() && State() == K.Step(fs, old(State()), K.Exit(K.Exception, junk, ctx))
    {
      hide K.Halt;
      exceptionFlag := true;
      Halt(fs, 255, junk, ctx);
    }

    method Scheduler(fs: FS.FileSys, junk: seq<Byte>, ctx: K.Ctx)
      requires FS.FsOk(fs) && Valid() && |junk| == K.JUNK
      modifies this, processes, pcbs, terminals, memory, paging, paging.directory, paging.videoTable
      ensures Valid() && State() == K.Tick(fs, old(State()), junk, ctx)
    {
      hide K.Execute, K.SaveCtx, K.Dispatch;
      if terminals[scheduled].pcb.Null? && shellCount < 3 {
        shellCount := shellCount + 1;
        terminals[scheduled] := K.Term(K.Boot(ctx), scheduled);
        visible := scheduled;
        var launched := Execute(fs, K.SHELL + [NUL], junk, ctx);
      } else {
        SaveContext(ctx);
        scheduled := (scheduled + 1) % MAX_TERMINALS;
        if !terminals[scheduled].pcb.Null? {
          Dispatch();
        }
      }
    }

    method SaveContext(ctx: K.Ctx)
      requires Valid()
      modifies pcbs, terminals
      ensures Valid() && State() == K.SaveCtx(old(State()), ctx)
    {
      var at := terminals[scheduled].pcb;
      if at.Slot? {
        pcbs[at.pid] := pcbs[at.pid].(currCtx := ctx);
      } else if at.Boot? {
        terminals[scheduled] := terminals[scheduled].(pcb := K.Boot(ctx));
      }
      assert State() == K.SaveCtx(old(State()), ctx);
    }

    method Dispatch()
      requires Valid()
      modifies this`esp0, this`cpu, paging, paging.directory, paging.videoTable
      ensures Valid() && State() == K.Dispatch(old(State()))
    {
      hide P.SetUserProgPage, P.SetUserVideoPage;
      var at := terminals[scheduled].pcb;
      if at.Slot? {
        paging.SetUserVideo(true, visible, scheduled);
        paging.SetUserProg(pcbs[at.pid].pid, true);
        esp0 := K.EIGHT_MB - pcbs[at.pid].pid * K.EIGHT_KB - 4;
        cpu := K.Resume(pcbs[at.pid].currCtx);
        assert State() == K.Dispatch(old(State()));
      }
    }
  }
}
