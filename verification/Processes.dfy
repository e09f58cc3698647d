// Processes, scheduling and their mappings (system_calls.c execute/halt, scheduler.c
// scheduler, terminal.c init_terminal), as steps of the kernel's state.
module Processes {
  import opened Bytes
  import opened Machine
  import P = Paging
  import FS = FileSystem
  import C = Command
  import S = Strings

  const MAX_PROCESSES := 6
  const EIGHT_MB := 0x80_0000
  const EIGHT_KB := 0x2000
  const FRAME_SIZE := FOUR_MB
  const IMAGE_OFFSET := 0x4_8000     // PROG_IMG_ADDR - 128 MB
  const MAX_IMAGE := 100000
  const NUM_FDS := 8
  const ENTRY_OFFSET := 24
  const CRASH_STATUS := 256
  const JUNK := 8                    // stack bytes of execute's two small buffers
  const ELF_MAGIC: seq<Byte> := [0x7f, 0x45, 0x4c, 0x46]
  const SHELL: seq<Byte> := [115, 104, 101, 108, 108]

  // A saved stack: what scheduler and execute put into curr_esp/curr_ebp and
  // parent_esp/parent_ebp.
  datatype Ctx = Ctx(esp: int, ebp: int)
  const NO_CTX := Ctx(0, 0)

  datatype Ops = BadOps | StdinOps | StdoutOps | RtcOps | DirOps | FileOps
  datatype Fd = Fd(ops: Ops, inode: nat, pos: nat, open: bool)

  // A pcb_t*: none, the scheduler's temporary one during boot, or the fixed area of a pid.
  datatype PcbPtr = Null | Boot(ctx: Ctx) | Slot(pid: nat)

  datatype Pcb = Pcb(
    fda: seq<Fd>,
    pid: int,
    ppid: int,
    parentCtx: Ctx,
    currCtx: Ctx,
    vidmap: bool,
    arg: seq<Byte>,
    parent: PcbPtr)

  datatype Term = Term(pcb: PcbPtr, lastPid: int)

  // Where the processor goes on: at a program's first instruction, whose address is the four
  // bytes `entry`; on a saved stack; or on the stack of an execute that returns a status.
  datatype Cpu = Start(pid: nat, entry: seq<Byte>) | Resume(ctx: Ctx) | Returned(ctx: Ctx, status: int)

  datatype Kernel = Kernel(
    live: seq<bool>,             // processes[]
    pcbs: seq<Pcb>,
    terms: seq<Term>,
    scheduled: nat,
    visible: nat,
    shells: nat,                 // shell_count
    esp0: int,                   // tss.esp0
    tables: P.Tables,
    frames: seq<seq<Byte>>,      // physical 4 MB frames 2..7
    crashed: bool,               // exception_flag
    cpu: Cpu)

  predicate Ok(k: Kernel) {
    && |k.live| == |k.pcbs| == |k.frames| == MAX_PROCESSES
    && |k.terms| == MAX_TERMINALS && k.scheduled < MAX_TERMINALS && k.visible < MAX_TERMINALS
    && P.Shape(k.tables)
    && (forall p :: 0 <= p < MAX_PROCESSES ==>
          |k.frames[p]| == FRAME_SIZE && |k.pcbs[p].fda| == NUM_FDS && |k.pcbs[p].arg| == C.MAX_ARGS)
    && (forall t :: 0 <= t < MAX_TERMINALS && k.terms[t].pcb.Slot? ==> k.terms[t].pcb.pid < MAX_PROCESSES)
  }

  // ---------------------------------------------------------------------------------------
  // Addresses: each PCB sits at the bottom of its process's 8 KB kernel stack, so masking the
  // stack pointer finds it.

  function KernelStack(pid: int): int {
    EIGHT_MB - pid * EIGHT_KB - 4
  }

  function PcbAddress(pid: int): int {
    EIGHT_MB - (pid + 1) * EIGHT_KB
  }

  // x & 0xFFFFE000: the low 13 bits cleared.
  function Masked(x: int): int {
    x - x % EIGHT_KB
  }

  function SlotAt(address: int): PcbPtr {
    var below := EIGHT_MB - address;
    if below % EIGHT_KB == 0 && 1 <= below / EIGHT_KB <= MAX_PROCESSES then Slot(below / EIGHT_KB - 1) else Null
  }

  // The PCB that read, write, open, close and vidmap work on.
  function MaskedPcb(k: Kernel): PcbPtr {
    SlotAt(Masked(k.esp0))
  }

  lemma StackFindsPcb(pid: nat)
    requires pid < MAX_PROCESSES
    ensures Masked(KernelStack(pid)) == PcbAddress(pid) && KernelStack(pid) == PcbAddress(pid) + 0x1FFC
    ensures SlotAt(PcbAddress(pid)) == Slot(pid)
  {
    assert PcbAddress(pid) == (1024 - pid - 1) * EIGHT_KB;
  }

  // The 8 KB areas of different processes do not meet, and all end at or below 8 MB.
  lemma StacksAreDisjoint(p: nat, q: nat)
    requires p < q < MAX_PROCESSES
    ensures KernelStack(q) < PcbAddress(p) < KernelStack(p) < EIGHT_MB
    ensures PcbAddress(q) + EIGHT_KB <= PcbAddress(p)
  {
  }

  // ---------------------------------------------------------------------------------------
  // execute.

  function LowestFree(live: seq<bool>, from: nat): (p: nat)
    requires from <= |live|
    ensures from <= p <= |live| && (p < |live| ==> !live[p])
    ensures forall q :: from <= q < p ==> live[q]
    decreases |live| - from
  {
    if from < |live| && live[from] then LowestFree(live, from + 1) else from
  }

  // The descriptor setup of execute; entries 2..7 keep their old operations, closed.
  function ResetFds(old_: seq<Fd>): (f: seq<Fd>)
    requires |old_| == NUM_FDS
    ensures |f| == NUM_FDS
  {
    seq(NUM_FDS, i requires 0 <= i < NUM_FDS =>
      Fd(if i == 0 then StdinOps else if i == 1 then StdoutOps else old_[i].ops, 0, 0, i < 2))
  }

  function CommandText(command: seq<Byte>): seq<Byte> {
    command[..S.StrLen(command)]
  }

  function ArgField(command: seq<Byte>): (a: seq<Byte>)
    ensures |a| == C.MAX_ARGS
  {
    var arg := C.ArgOf(CommandText(command));
    arg + Fill(C.MAX_ARGS - |arg|, NUL)
  }

  function Program(fs: FS.FileSys, command: seq<Byte>): Option<FS.Dentry> {
    FS.Lookup(fs, C.NameOf(CommandText(command)) + [NUL])
  }

  // Four bytes of the file, read into a buffer on the stack; after a short read the rest is
  // what the stack held.
  function FourBytes(fs: FS.FileSys, inode: nat, offset: nat, junk: seq<Byte>): seq<Byte>
    requires FS.FsOk(fs) && |junk| == 4
  {
    var got := FS.DataRead(fs, inode, offset, 4);
    got + junk[|got|..]
  }

  // The bytes the ELF check looks at, and the address of the first instruction.
  function FirstBytes(fs: FS.FileSys, inode: nat, junk: seq<Byte>): seq<Byte>
    requires FS.FsOk(fs) && |junk| == JUNK
  {
    FourBytes(fs, inode, 0, junk[..4])
  }

  function EntryBytes(fs: FS.FileSys, inode: nat, junk: seq<Byte>): seq<Byte>
    requires FS.FsOk(fs) && |junk| == JUNK
  {
    FourBytes(fs, inode, ENTRY_OFFSET, junk[4..])
  }

  // `bytes` in place of what was at `at`.
  function Spliced(frame: seq<Byte>, at: nat, bytes: seq<Byte>): (r: seq<Byte>)
    requires at + |bytes| <= |frame|
    ensures |r| == |frame|
  {
    frame[..at] + bytes + frame[at + |bytes|..]
  }

  function LoadImage(frame: seq<Byte>, image: seq<Byte>): (r: seq<Byte>)
    requires |frame| == FRAME_SIZE && |image| <= MAX_IMAGE
    ensures |r| == FRAME_SIZE
  {
    Spliced(frame, IMAGE_OFFSET, image)
  }

  // The slot's descriptors and argument are written before the file is looked up.
  function Prepare(k: Kernel, pid: nat, command: seq<Byte>): (r: Kernel)
    requires Ok(k) && pid < MAX_PROCESSES
    ensures Ok(r)
  {
    k.(pcbs := k.pcbs[pid := k.pcbs[pid].(fda := ResetFds(k.pcbs[pid].fda), arg := ArgField(command))])
  }

  // Map the new frame and read the program into it.
  function Load(fs: FS.FileSys, k: Kernel, pid: nat, inode: nat): (r: Kernel)
    requires FS.FsOk(fs) && Ok(k) && pid < MAX_PROCESSES
    ensures Ok(r)
  {
    k.(tables := P.SetUserProgPage(k.tables, pid, true),
       frames := k.frames[pid := LoadImage(k.frames[pid], FS.DataRead(fs, inode, 0, MAX_IMAGE))])
  }

  // Not an executable: unmap, and map the caller's frame again.
  function Rollback(k: Kernel, pid: nat): (r: Kernel)
    requires Ok(k)
    ensures Ok(r)
  {
    k.(tables := P.SetUserProgPage(P.SetUserProgPage(k.tables, pid, false), k.terms[k.scheduled].lastPid, true))
  }

  function CurrCtxOf(k: Kernel, p: PcbPtr): Ctx {
    match p
    case Null => NO_CTX
    case Boot(ctx) => ctx
    case Slot(pid) => if pid < |k.pcbs| then k.pcbs[pid].currCtx else NO_CTX
  }

  // From here on execute does not return to its caller.
  function Launch(k: Kernel, pid: nat, ctx: Ctx, entry: seq<Byte>): (r: Kernel)
    requires Ok(k) && pid < MAX_PROCESSES
    ensures Ok(r)
  {
    var term := k.terms[k.scheduled];
    var base := pid <= 2;
    var pcb := k.pcbs[pid].(
      pid := pid,
      ppid := if base then pid else term.lastPid,
      vidmap := false,
      currCtx := if base then CurrCtxOf(k, term.pcb) else NO_CTX,
      parentCtx := ctx,
      parent := term.pcb);
    k.(live := k.live[pid := true],
       pcbs := k.pcbs[pid := pcb],
       terms := k.terms[k.scheduled := Term(Slot(pid), pid)],
       esp0 := KernelStack(pid),
       cpu := Start(pid, entry))
  }

  datatype Outcome = Outcome(k: Kernel, launched: bool)

  function Execute(fs: FS.FileSys, k: Kernel, command: seq<Byte>, junk: seq<Byte>, ctx: Ctx): (r: Outcome)
    requires FS.FsOk(fs) && Ok(k) && |junk| == JUNK
    ensures Ok(r.k)
  {
    var pid := LowestFree(k.live, 0);
    if pid == MAX_PROCESSES then Outcome(k, false)
    else
      var prepared := Prepare(k, pid, command);
      match Program(fs, command)
      case None => Outcome(prepared, false)
      case Some(d) =>
        var loaded := Load(fs, prepared, pid, d.inode);
        if FirstBytes(fs, d.inode, junk) != ELF_MAGIC then Outcome(Rollback(loaded, pid), false)
        else Outcome(Launch(loaded, pid, ctx, EntryBytes(fs, d.inode, junk)), true)
  }

  // ---------------------------------------------------------------------------------------
  // The system calls that change a process's own record.

  function SetFd(k: Kernel, p: nat, i: nat, fd: Fd): (r: Kernel)
    requires Ok(k) && p < MAX_PROCESSES && i < NUM_FDS
    ensures Ok(r)
  {
    k.(pcbs := k.pcbs[p := k.pcbs[p].(fda := k.pcbs[p].fda[i := fd])])
  }

  function Close(k: Kernel, fd: int): (r: Kernel)
    requires Ok(k)
    ensures Ok(r)
  {
    match MaskedPcb(k)
    case Slot(p) =>
      if fd < 2 || fd > 7 || !k.pcbs[p].fda[fd].open then k
      else SetFd(k, p, fd, k.pcbs[p].fda[fd].(open := false))
    case _ => k
  }

  function LeastFreeFd(f: seq<Fd>, from: nat): (i: nat)
    requires |f| == NUM_FDS && 2 <= from <= NUM_FDS
    ensures from <= i <= NUM_FDS && (i < NUM_FDS ==> !f[i].open)
    ensures forall j :: from <= j < i ==> f[j].open
    decreases NUM_FDS - from
  {
    if from < NUM_FDS && f[from].open then LeastFreeFd(f, from + 1) else from
  }

  function OpenedFd(fd: Fd, d: FS.Dentry): Fd {
    var started := fd.(pos := 0, open := true);
    if d.ftype == 0 then started.(ops := RtcOps)
    else if d.ftype == 1 then started.(ops := DirOps)
    else if d.ftype == 2 then started.(ops := FileOps, inode := d.inode)
    else started
  }

  // The kernel and the descriptor returned, or -1.
  datatype Opened = Opened(k: Kernel, fd: int)

  function Open(fs: FS.FileSys, k: Kernel, name: seq<Byte>): (r: Opened)
    requires Ok(k)
    ensures Ok(r.k)
  {
    match MaskedPcb(k)
    case Slot(p) =>
      (match FS.Lookup(fs, name)
       case None => Opened(k, -1)
       case Some(d) =>
         var i := LeastFreeFd(k.pcbs[p].fda, 2);
         if i == NUM_FDS then Opened(k, -1)
         else Opened(SetFd(k, p, i, OpenedFd(k.pcbs[p].fda[i], d)), i))
    case _ => Opened(k, -1)
  }

  // read on a regular file or the directory moves the position.
  function ReadFd(fs: FS.FileSys, k: Kernel, fd: int, n: nat): (r: Kernel)
    requires Ok(k)
    ensures Ok(r)
  {
    match MaskedPcb(k)
    case Slot(p) =>
      if fd < 0 || fd > 7 || !k.pcbs[p].fda[fd].open then k
      else
        var f := k.pcbs[p].fda[fd];
        if f.ops.FileOps? then SetFd(k, p, fd, f.(pos := FS.Advance(f.pos, n)))
        else if f.ops.DirOps? then SetFd(k, p, fd, f.(pos := FS.DirRead(fs, f.pos).0))
        else k
    case _ => k
  }

  // What that read returns and copies to the caller's buffer.
  function Delivered(fs: FS.FileSys, f: Fd, n: nat): (int, seq<Byte>)
    requires FS.FsOk(fs)
  {
    if f.ops.FileOps? then
      var bytes := FS.DataRead(fs, f.inode, f.pos, n);
      (|bytes|, bytes)
    else if f.ops.DirOps? then
      match FS.DirRead(fs, f.pos).1
      case None => (0, [])
      case Some(name) => (n, name)
    else (-1, [])
  }

  // ---------------------------------------------------------------------------------------
  // Stores, which go through the page tables and may fault. Of physical memory only the user
  // frames are part of this state.

  datatype Called = Called(k: Kernel, faults: bool)

  function Translated(t: P.Tables, va: nat, user: bool): Option<nat>
    requires P.Shape(t)
  {
    if va < P.ADDRESS_SPACE then P.Walk(t, va, user) else None
  }

  function PutByte(k: Kernel, pa: nat, b: Byte): (r: Kernel)
    requires Ok(k)
    ensures Ok(r) && r == k.(frames := r.frames)
  {
    var f := pa / FOUR_MB - 2;
    if 0 <= f < MAX_PROCESSES then
      var frame: seq<Byte> := k.frames[f];
      k.(frames := k.frames[f := frame[pa % FOUR_MB := b]])
    else k
  }

  // A user program stores a byte.
  function UserStore(k: Kernel, va: nat, b: Byte): (r: Called)
    requires Ok(k)
    ensures Ok(r.k)
  {
    match Translated(k.tables, va, true)
    case None => Called(k, true)
    case Some(pa) => Called(PutByte(k, pa, b), false)
  }

  // The kernel copies bytes[i..] to the user's buffer, upward from to + i. The first byte that
  // has no place ends it.
  function CopyOut(k: Kernel, to: nat, bytes: seq<Byte>, i: nat): (r: Called)
    requires Ok(k) && i <= |bytes|
    ensures Ok(r.k) && r.k == k.(frames := r.k.frames)
    decreases |bytes| - i
  {
    if i == |bytes| then Called(k, false)
    else
      match Translated(k.tables, to + i, false)
      case None => Called(k, true)
      case Some(pa) => CopyOut(PutByte(k, pa, bytes[i]), to, bytes, i + 1)
  }

  // read: the position moves, then the bytes are copied. A null buffer is refused before that.
  function Read(fs: FS.FileSys, k: Kernel, fd: int, to: nat, n: nat): (r: Called)
    requires FS.FsOk(fs) && Ok(k)
    ensures Ok(r.k)
  {
    match MaskedPcb(k)
    case Slot(p) =>
      if fd < 0 || fd > 7 || !k.pcbs[p].fda[fd].open || to == 0 then Called(k, false)
      else CopyOut(ReadFd(fs, k, fd, n), to, Delivered(fs, k.pcbs[p].fda[fd], n).1, 0)
    case _ => Called(k, false)
  }

  // getargs: the argument field, and if more than its length is asked for also `beyond`, which is
  // what the PCB's memory holds after it.
  function GetArgs(k: Kernel, to: nat, n: int, beyond: seq<Byte>): (r: Called)
    requires Ok(k)
    ensures Ok(r.k)
  {
    match MaskedPcb(k)
    case Slot(p) =>
      if to == 0 || n < C.MAX_ARGS || k.pcbs[p].arg[0] == NUL then Called(k, false)
      else CopyOut(k, to, k.pcbs[p].arg + beyond, 0)
    case _ => Called(k, false)
  }

  // vidmap marks the process and opens the window at 256 MB.
  function OpenWindow(k: Kernel): (r: Kernel)
    requires Ok(k)
    ensures Ok(r)
  {
    match MaskedPcb(k)
    case Slot(p) =>
      k.(pcbs := k.pcbs[p := k.pcbs[p].(vidmap := true)],
         tables := P.SetUserVideoPage(k.tables, true, k.visible, k.scheduled))
    case _ => k
  }

  // 256 MB, least significant byte first.
  const WINDOW_ADDRESS: seq<Byte> := [0, 0, 0, 16]

  // All four bytes at `pointer` can be stored to.
  predicate WordMapped(t: P.Tables, pointer: nat)
    requires P.Shape(t)
  {
    forall va :: pointer <= va < pointer + 4 ==> Translated(t, va, false).Some?
  }

  // The address goes to *pointer, which may be anything from 128 MB to 132 MB inclusive. It is
  // one four-byte store, which stores nothing if part of it has no place.
  function Vidmap(k: Kernel, pointer: nat): (r: Called)
    requires Ok(k)
    ensures Ok(r.k)
  {
    if pointer > P.USER_BASE + FOUR_MB || pointer < P.USER_BASE then Called(k, false)
    else
      var marked := OpenWindow(k);
      if WordMapped(marked.tables, pointer) then CopyOut(marked, pointer, WINDOW_ADDRESS, 0) else Called(marked, true)
  }

  // ---------------------------------------------------------------------------------------
  // halt.

  // The closing loop: close() works on the masked PCB, the rest on the halting one.
  function CloseAll(k: Kernel, p: nat, i: nat): (r: Kernel)
    requires Ok(k) && p < MAX_PROCESSES && 2 <= i <= NUM_FDS
    ensures Ok(r)
    decreases NUM_FDS - i
  {
    if i == NUM_FDS then k
    else if !k.pcbs[p].fda[i].open then CloseAll(k, p, i + 1)
    else
      var closed := Close(k, i);
      CloseAll(SetFd(closed, p, i, closed.pcbs[p].fda[i].(ops := BadOps)), p, i + 1)
  }

  function Release(k: Kernel, p: nat): (r: Kernel)
    requires Ok(k) && p < MAX_PROCESSES
    ensures Ok(r)
  {
    var pcb := k.pcbs[p];
    k.(live := if 0 <= pcb.pid < MAX_PROCESSES then k.live[pcb.pid := false] else k.live,
       terms := k.terms[k.scheduled := k.terms[k.scheduled].(lastPid := pcb.ppid)])
  }

  // Back to the parent, whose execute returns the status, or 256 if the exception flag is set.
  function Return(k: Kernel, p: nat, status: Byte): (r: Kernel)
    requires Ok(k) && p < MAX_PROCESSES
    requires k.pcbs[p].parent.Slot? ==> k.pcbs[p].parent.pid < MAX_PROCESSES
    ensures Ok(r)
  {
    var pcb := k.pcbs[p];
    var mapped := P.SetUserProgPage(k.tables, pcb.ppid, true);
    var watches := pcb.parent.Slot? && k.pcbs[pcb.parent.pid].vidmap;
    k.(tables := if watches then P.SetUserVideoPage(mapped, true, k.visible, k.scheduled) else mapped,
       esp0 := KernelStack(pcb.ppid),
       terms := k.terms[k.scheduled := k.terms[k.scheduled].(pcb := pcb.parent)],
       crashed := false,
       cpu := Returned(pcb.parentCtx, if k.crashed then CRASH_STATUS else status))
  }

  function Halt(fs: FS.FileSys, k: Kernel, status: Byte, junk: seq<Byte>, ctx: Ctx): (r: Kernel)
    requires FS.FsOk(fs) && Ok(k) && |junk| == JUNK
    ensures Ok(r)
  {
    match k.terms[k.scheduled].pcb
    case Slot(p) =>
      var freed := Release(CloseAll(k, p, 2), p);
      var pcb := freed.pcbs[p];
      var restart := Execute(fs, freed, SHELL + [NUL], junk, ctx);
      if pcb.ppid == pcb.pid && restart.launched then restart.k
      else
        var going := if pcb.ppid == pcb.pid then restart.k else freed;
        if going.pcbs[p].parent.Slot? && going.pcbs[p].parent.pid >= MAX_PROCESSES then going
        else Return(going, p, status)
    case _ => k
  }

  // How a process ends: it calls halt, or it causes an exception, whose handler sets the flag
  // and calls halt(255).
  datatype Ending = Status(code: Byte) | Exception

  function Raise(k: Kernel, how: Ending): Kernel {
    if how.Exception? then k.(crashed := true) else k
  }

  function CodeOf(how: Ending): Byte {
    if how.Exception? then 255 else how.code
  }

  // ---------------------------------------------------------------------------------------
  // The scheduler.

  function SaveCtx(k: Kernel, ctx: Ctx): (r: Kernel)
    requires Ok(k)
    ensures Ok(r)
  {
    match k.terms[k.scheduled].pcb
    case Slot(p) => k.(pcbs := k.pcbs[p := k.pcbs[p].(currCtx := ctx)])
    case Boot(_) => k.(terms := k.terms[k.scheduled := k.terms[k.scheduled].(pcb := Boot(ctx))])
    case Null => k
  }

  // Switch to the process at the head of the scheduled terminal.
  function Dispatch(k: Kernel): (r: Kernel)
    requires Ok(k)
    ensures Ok(r)
  {
    match k.terms[k.scheduled].pcb
    case Slot(p) =>
      k.(tables := P.SetUserProgPage(P.SetUserVideoPage(k.tables, true, k.visible, k.scheduled), k.pcbs[p].pid, true),
         esp0 := KernelStack(k.pcbs[p].pid),
         cpu := Resume(k.pcbs[p].currCtx))
    case _ => k
  }

  function Tick(fs: FS.FileSys, k: Kernel, junk: seq<Byte>, ctx: Ctx): (r: Kernel)
    requires FS.FsOk(fs) && Ok(k) && |junk| == JUNK
    ensures Ok(r)
  {
    var t := k.scheduled;
    if k.terms[t].pcb.Null? && k.shells < 3 then
      Execute(fs, k.(shells := k.shells + 1, terms := k.terms[t := Term(Boot(ctx), t)], visible := t),
              SHELL + [NUL], junk, ctx).k
    else
      var next := SaveCtx(k, ctx).(scheduled := (t + 1) % MAX_TERMINALS);
      if next.terms[next.scheduled].pcb.Null? then next else Dispatch(next)
  }

  // ---------------------------------------------------------------------------------------
  // Runs.

  // The last two fields of an event are what execute and a saved stack need when the event
  // starts a program or, by a fault, ends one.
  datatype Event =
    | Timer(junk: seq<Byte>, ctx: Ctx)
    | Exec(command: seq<Byte>, junk: seq<Byte>, ctx: Ctx)
    | Exit(how: Ending, junk: seq<Byte>, ctx: Ctx)
    | Store(va: nat, b: Byte, junk: seq<Byte>, ctx: Ctx)
    | MapVideo(pointer: nat, junk: seq<Byte>, ctx: Ctx)
    | ReadBytes(fd: int, to: nat, n: nat, junk: seq<Byte>, ctx: Ctx)
    | Args(to: nat, length: int, beyond: seq<Byte>, junk: seq<Byte>, ctx: Ctx)
    | OpenFile(name: seq<Byte>)
    | CloseFile(fd: int)
    | ShowTerminal(t: nat)

  // The kernel's own 4 MB, which hold the PCBs and the kernel stacks.
  predicate InKernel(va: nat) {
    FOUR_MB <= va < 2 * FOUR_MB
  }

  // The one thing asked of processes: neither read nor getargs is given a buffer in the kernel's
  // own memory, which they do not check.
  predicate EventOk(e: Event) {
    match e
    case Timer(junk, _) => |junk| == JUNK
    case Exec(_, junk, _) => |junk| == JUNK
    case Exit(_, junk, _) => |junk| == JUNK
    case Store(_, _, junk, _) => |junk| == JUNK
    case MapVideo(_, junk, _) => |junk| == JUNK
    case ReadBytes(_, to, _, junk, _) => |junk| == JUNK && !InKernel(to)
    case Args(to, n, beyond, junk, _) =>
      |junk| == JUNK && !InKernel(to) && (n >= C.MAX_ARGS ==> |beyond| == n - C.MAX_ARGS)
    case ShowTerminal(t) => t < MAX_TERMINALS
    case _ => true
  }

  predicate EventsOk(es: seq<Event>) {
    forall i :: 0 <= i < |es| ==> EventOk(es[i])
  }

  // What the running process does on its own, and whether that ends in a page fault.
  function Call(fs: FS.FileSys, k: Kernel, e: Event): (r: Called)
    requires FS.FsOk(fs) && Ok(k) && EventOk(e)
    ensures Ok(r.k)
  {
    match e
    case Store(va, b, _, _) => UserStore(k, va, b)
    case MapVideo(pointer, _, _) => Vidmap(k, pointer)
    case ReadBytes(fd, to, n, _, _) => Read(fs, k, fd, to, n)
    case Args(to, n, beyond, _, _) => GetArgs(k, to, n, beyond)
    case OpenFile(name) => Called(Open(fs, k, name).k, false)
    case CloseFile(fd) => Called(Close(k, fd), false)
    case ShowTerminal(t) => Called(k.(visible := t), false)
    case _ => Called(k, false)
  }

  // The running process ends: it exits, or a fault ends it.
  predicate Ends(fs: FS.FileSys, k: Kernel, e: Event)
    requires FS.FsOk(fs) && Ok(k) && EventOk(e)
  {
    e.Exit? || Call(fs, k, e).faults
  }

  function HowOf(e: Event): Ending {
    if e.Exit? then e.how else Exception
  }

  function End(fs: FS.FileSys, k: Kernel, how: Ending, junk: seq<Byte>, ctx: Ctx): (r: Kernel)
    requires FS.FsOk(fs) && Ok(k) && |junk| == JUNK
    ensures Ok(r)
  {
    Halt(fs, Raise(k, how), CodeOf(how), junk, ctx)
  }

  function Finish(fs: FS.FileSys, c: Called, junk: seq<Byte>, ctx: Ctx): (r: Kernel)
    requires FS.FsOk(fs) && Ok(c.k) && |junk| == JUNK
    ensures Ok(r)
  {
    if c.faults then End(fs, c.k, Exception, junk, ctx) else c.k
  }

  function Step(fs: FS.FileSys, k: Kernel, e: Event): (r: Kernel)
    requires FS.FsOk(fs) && Ok(k) && EventOk(e)
    ensures Ok(r)
  {
    match e
    case Timer(junk, ctx) => Tick(fs, k, junk, ctx)
    case Exec(command, junk, ctx) => Execute(fs, k, command, junk, ctx).k
    case Exit(how, junk, ctx) => End(fs, k, how, junk, ctx)
    case Store(_, _, junk, ctx) => Finish(fs, Call(fs, k, e), junk, ctx)
    case MapVideo(_, junk, ctx) => Finish(fs, Call(fs, k, e), junk, ctx)
    case ReadBytes(_, _, _, junk, ctx) => Finish(fs, Call(fs, k, e), junk, ctx)
    case Args(_, _, _, junk, ctx) => Finish(fs, Call(fs, k, e), junk, ctx)
    case _ => Call(fs, k, e).k
  }

  function Run(fs: FS.FileSys, k: Kernel, es: seq<Event>): (r: Kernel)
    requires FS.FsOk(fs) && Ok(k) && EventsOk(es)
    ensures Ok(r)
    decreases |es|
  {
    if es == [] then k else Step(fs, Run(fs, k, es[..|es| - 1]), es[|es| - 1])
  }
}
