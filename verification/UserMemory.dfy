// The current process's stores, and the system calls that copy to its memory (system_calls.c
// read, vidmap): where the bytes go, when a fault ends the process, and what stays.
module UserMemory {
  import opened Bytes
  import opened Machine
  import opened Processes
  import opened ProcessRuns
  import P = Paging
  import FS = FileSystem
  import C = Command

  // The user program's 4 MB at 128 MB.
  predicate InProgram(va: nat) {
    P.USER_BASE <= va < P.USER_BASE + FOUR_MB
  }

  ghost predicate Mapped(t: P.Tables, p: nat) {
    p < MAX_PROCESSES && P.Shape(t) && P.Base(t, Some(2 + p), VideoOf(t)) && OnScreen(VideoOf(t))
  }

  lemma CurrentIsMapped(k: Kernel, st: Chains)
    requires Inv(k, st)
    ensures Ok(k) && Mapped(k.tables, Current(k, st)) && MaskedPcb(k) == Slot(Current(k, st))
  {
    ViewsAgree(k, st);
  }

  // Where a byte written by the kernel goes while process p runs.
  lemma KernelPlaces(t: P.Tables, p: nat, va: nat)
    requires Mapped(t, p)
    ensures
      var r := Translated(t, va, false);
      && (InProgram(va) ==> r == Some((2 + p) * FOUR_MB + (va - P.USER_BASE)))
      && (InKernel(va) ==> r == Some(va))
      && (!InProgram(va) && !InKernel(va) && r.Some? ==> r.value < FOUR_MB && va != FOUR_MB - 1)
      && (P.USER_BASE + FOUR_MB <= va < P.USER_VIDEO_BASE ==> r == None)
  {
    if va < P.ADDRESS_SPACE {
      P.SupervisorReaches(t, Some(2 + p), VideoOf(t), va);
    }
  }

  lemma FrameSizes(k: Kernel)
    requires Ok(k)
    ensures |k.frames| == MAX_PROCESSES && forall p :: 0 <= p < MAX_PROCESSES ==> |k.frames[p]| == FRAME_SIZE
  {
  }

  lemma PutStaysHome(k: Kernel, p: nat, pa: nat, b: Byte)
    requires Ok(k) && p < MAX_PROCESSES && (pa / FOUR_MB == 2 + p || pa < 2 * FOUR_MB)
    ensures var r := PutByte(k, pa, b); r == k.(frames := k.frames[p := r.frames[p]])
  {
    assert k.frames[p := k.frames[p]] == k.frames;
  }

  lemma ProgramPlace(p: nat, va: nat)
    requires InProgram(va)
    ensures
      var pa := (2 + p) * FOUR_MB + (va - P.USER_BASE);
      pa / FOUR_MB == 2 + p && pa % FOUR_MB == va - P.USER_BASE
  {
  }

  // A user program's store goes to its own frame, or to the screen page behind the 256 MB
  // window, or, at any other address, ends in a fault that changes nothing.
  lemma StoreExactly(k: Kernel, p: nat, va: nat, b: Byte)
    requires Ok(k) && Mapped(k.tables, p)
    ensures
      var r := UserStore(k, va, b);
      var watches := VideoOf(k.tables).Some? && P.USER_VIDEO_BASE <= va < P.USER_VIDEO_BASE + FOUR_KB;
      && (r.faults <==> !InProgram(va) && !watches)
      && |k.frames[p]| == FRAME_SIZE
      && r.k == if InProgram(va) then k.(frames := k.frames[p := Spliced(k.frames[p], va - P.USER_BASE, [b])]) else k
  {
    hide Ok, P.Walk, P.Base, VideoOf, Spliced;
    Sizes(k);
    FrameSizes(k);
    if va < P.ADDRESS_SPACE {
      P.BaseReaches(k.tables, Some(2 + p), VideoOf(k.tables), va);
    }
    if InProgram(va) {
      ProgramPlace(p, va);
      OneSpliced(k.frames[p], va - P.USER_BASE, b);
    }
  }

  lemma OneSpliced(frame: seq<Byte>, at: nat, b: Byte)
    requires at < |frame|
    ensures Spliced(frame, at, [b]) == frame[at := b]
  {
  }

  // Whatever is copied and wherever, outside the kernel's own memory only p's frame changes.
  lemma {:induction false} CopyStaysHome(k: Kernel, p: nat, to: nat, bytes: seq<Byte>, i: nat)
    requires Ok(k) && Mapped(k.tables, p) && i <= |bytes| && !InKernel(to + i)
    ensures var r := CopyOut(k, to, bytes, i).k; r == k.(frames := k.frames[p := r.frames[p]])
    decreases |bytes| - i
  {
    hide Ok, Translated, P.Base, VideoOf, PutByte;
    Sizes(k);
    assert k.frames[p := k.frames[p]] == k.frames;
    if i < |bytes| {
      KernelPlaces(k.tables, p, to + i);
      var at := Translated(k.tables, to + i, false);
      if at.Some? {
        if InProgram(to + i) {
          ProgramPlace(p, to + i);
        }
        PutStaysHome(k, p, at.value, bytes[i]);
        CopyStaysHome(PutByte(k, at.value, bytes[i]), p, to, bytes, i + 1);
      }
    }
  }

  lemma PutLands(k: Kernel, p: nat, at: nat, b: Byte)
    requires Ok(k) && p < MAX_PROCESSES && at < FRAME_SIZE
    ensures |k.frames[p]| == FRAME_SIZE
    ensures
      var frame: seq<Byte> := k.frames[p];
      PutByte(k, (2 + p) * FOUR_MB + at, b) == k.(frames := k.frames[p := frame[at := b]])
  {
    ProgramPlace(p, P.USER_BASE + at);
  }

  // In the program's own 4 MB all of it arrives.
  lemma {:induction false} CopyLands(k: Kernel, p: nat, to: nat, bytes: seq<Byte>, i: nat)
    requires Ok(k) && Mapped(k.tables, p) && i <= |bytes|
    requires P.USER_BASE <= to && to + |bytes| <= P.USER_BASE + FOUR_MB
    ensures |k.frames[p]| == FRAME_SIZE
    ensures
      CopyOut(k, to, bytes, i) ==
      Called(k.(frames := k.frames[p := Spliced(k.frames[p], to - P.USER_BASE + i, bytes[i..])]), false)
    decreases |bytes| - i
  {
    hide Ok, Translated, P.Base, VideoOf, Spliced, PutByte;
    Sizes(k);
    FrameSizes(k);
    var at := to - P.USER_BASE + i;
    if i == |bytes| {
      assert bytes[i..] == [];
      SplicedNone(k.frames[p], at);
      assert k.frames[p := k.frames[p]] == k.frames;
    } else {
      KernelPlaces(k.tables, p, to + i);
      PutLands(k, p, at, bytes[i]);
      var next := PutByte(k, (2 + p) * FOUR_MB + at, bytes[i]);
      CopyLands(next, p, to, bytes, i + 1);
      SplicedStep(k.frames[p], at, bytes, i);
    }
  }

  lemma SplicedNone(frame: seq<Byte>, at: nat)
    requires at <= |frame|
    ensures Spliced(frame, at, []) == frame
  {
  }

  lemma SplicedStep(frame: seq<Byte>, at: nat, bytes: seq<Byte>, i: nat)
    requires i < |bytes| && at + |bytes| - i <= |frame|
    ensures Spliced(frame[at := bytes[i]], at + 1, bytes[i + 1..]) == Spliced(frame, at, bytes[i..])
  {
    assert bytes[i..] == [bytes[i]] + bytes[i + 1..];
  }

  // ---------------------------------------------------------------------------------------
  // read.

  // A byte written to va while the tables are t is in physical frame f.
  predicate GoesTo(t: P.Tables, va: nat, f: nat)
    requires P.Shape(t)
  {
    var place := Translated(t, va, false);
    place.Some? && place.value / FOUR_MB == f
  }

  predicate AllGoTo(t: P.Tables, to: nat, n: nat, f: nat)
    requires P.Shape(t)
  {
    forall va :: to <= va < to + n ==> GoesTo(t, va, f)
  }

  // Every byte lands in the reader's own frame if and only if the buffer is inside its program's
  // 4 MB, and then they are all there, in order, where it asked, and nothing else has changed.
  lemma CopyLandsExactly(k: Kernel, st: Chains, to: nat, bytes: seq<Byte>)
    requires Inv(k, st) && bytes != []
    ensures
      var p, r := Current(k, st), CopyOut(k, to, bytes, 0);
      var inside := P.USER_BASE <= to && to + |bytes| <= P.USER_BASE + FOUR_MB;
      && p < MAX_PROCESSES && |k.frames[p]| == FRAME_SIZE
      && (AllGoTo(k.tables, to, |bytes|, 2 + p) <==> inside)
      && (inside ==> r == Called(k.(frames := k.frames[p := Spliced(k.frames[p], to - P.USER_BASE, bytes)]), false))
  {
    hide AllLinked, Distinct, Covered, Rooted, Ok, P.Base, P.Walk, Translated, Spliced, VideoOf, MaskedPcb;
    CurrentIsMapped(k, st);
    var p := Current(k, st);
    Sizes(k);
    FrameSizes(k);
    FirstAndLast(k.tables, p, to, |bytes|);
    if P.USER_BASE <= to && to + |bytes| <= P.USER_BASE + FOUR_MB {
      CopyLands(k, p, to, bytes, 0);
      assert bytes[0..] == bytes;
    }
  }

  lemma PlaceIsOwnExactly(t: P.Tables, p: nat, va: nat)
    requires Mapped(t, p)
    ensures GoesTo(t, va, 2 + p) <==> InProgram(va)
  {
    hide Mapped, P.Base, P.Walk, Translated, VideoOf;
    MappedIsInRange(t, p);
    KernelPlaces(t, p, va);
    if InProgram(va) {
      ProgramPlace(p, va);
    }
  }

  lemma MappedIsInRange(t: P.Tables, p: nat)
    requires Mapped(t, p)
    ensures p < MAX_PROCESSES && P.Shape(t)
  {
  }

  lemma FirstAndLast(t: P.Tables, p: nat, to: nat, n: nat)
    requires Mapped(t, p) && n > 0
    ensures AllGoTo(t, to, n, 2 + p) <==> P.USER_BASE <= to && to + n <= P.USER_BASE + FOUR_MB
  {
    hide Mapped, GoesTo, P.Base, P.Walk, VideoOf;
    MappedIsInRange(t, p);
    var f := 2 + p;
    forall va: nat | to <= va < to + n ensures GoesTo(t, va, f) <==> InProgram(va) {
      PlaceIsOwnExactly(t, p, va);
    }
    if AllGoTo(t, to, n, f) {
      var last := to + (n - 1);
      assert GoesTo(t, to, f) && GoesTo(t, last, f);
    }
  }

  // The same for read: what an open file or directory delivers, with the position moved on.
  lemma ReadLandsExactly(fs: FS.FileSys, k: Kernel, st: Chains, fd: nat, to: nat, n: nat)
    requires FS.FsOk(fs) && Inv(k, st) && fd < NUM_FDS && Current(k, st) < MAX_PROCESSES
    requires k.pcbs[Current(k, st)].fda[fd].open
    requires Delivered(fs, k.pcbs[Current(k, st)].fda[fd], n).1 != []
    ensures
      var p := Current(k, st);
      var bytes := Delivered(fs, k.pcbs[p].fda[fd], n).1;
      var r, moved := Read(fs, k, fd, to, n), ReadFd(fs, k, fd, n);
      var inside := P.USER_BASE <= to && to + |bytes| <= P.USER_BASE + FOUR_MB;
      && (AllGoTo(k.tables, to, |bytes|, 2 + p) <==> inside)
      && |k.frames[p]| == FRAME_SIZE
      && (inside ==>
            r == Called(moved.(frames := k.frames[p := Spliced(k.frames[p], to - P.USER_BASE, bytes)]), false))
  {
    hide AllLinked, Distinct, Covered, Rooted, P.Base, P.Walk, Translated, Spliced, VideoOf, MaskedPcb, Delivered;
    hide GoesTo, CopyOut, ReadFd, FS.FsOk;
    CurrentIsMapped(k, st);
    ReadFdKeepsInv(fs, k, st, fd, n);
    CopyLandsExactly(ReadFd(fs, k, fd, n), st, to, Delivered(fs, k.pcbs[Current(k, st)].fda[fd], n).1);
  }

  // The kernel's own 4 MB are mapped too: a buffer at the PCB of process q is that PCB.
  lemma BufferAtPcb(k: Kernel, st: Chains, q: nat)
    requires Inv(k, st) && q < MAX_PROCESSES
    ensures Translated(k.tables, PcbAddress(q), false) == Some(PcbAddress(q))
    ensures !GoesTo(k.tables, PcbAddress(q), 2 + Current(k, st))
  {
    hide AllLinked, Distinct, Covered, Rooted, P.Base, P.Walk, Translated, VideoOf, MaskedPcb;
    CurrentIsMapped(k, st);
    KernelPlaces(k.tables, Current(k, st), PcbAddress(q));
  }

  // ---------------------------------------------------------------------------------------
  // vidmap.

  predicate PointerTaken(pointer: nat) {
    P.USER_BASE <= pointer <= P.USER_BASE + FOUR_MB
  }

  // The word a program reads there, least significant byte first.
  function WordAt(frame: seq<Byte>, at: nat): int
    requires at + 4 <= |frame|
  {
    var b0: int, b1: int, b2: int, b3: int := frame[at], frame[at + 1], frame[at + 2], frame[at + 3];
    b0 + 0x100 * b1 + 0x1_0000 * b2 + 0x100_0000 * b3
  }

  lemma OpenWindowChanges(k: Kernel, p: nat)
    requires Ok(k) && Mapped(k.tables, p) && MaskedPcb(k) == Slot(p)
    ensures
      var r := OpenWindow(k);
      && r == k.(pcbs := k.pcbs[p := k.pcbs[p].(vidmap := true)],
                 tables := P.SetUserVideoPage(k.tables, true, k.visible, k.scheduled))
      && Mapped(r.tables, p)
  {
    hide MaskedPcb, P.SetUserVideoPage, P.Base;
    VideoKeepsBase(k.tables, Some(2 + p), k.visible, k.scheduled);
  }

  // The word has a place exactly when it fits below 132 MB, because nothing is mapped there.
  lemma VidmapFitsExactly(k: Kernel, st: Chains, pointer: nat)
    requires Inv(k, st) && PointerTaken(pointer)
    ensures WordMapped(OpenWindow(k).tables, pointer) <==> pointer + 4 <= P.USER_BASE + FOUR_MB
    ensures Vidmap(k, pointer).faults <==> pointer + 4 > P.USER_BASE + FOUR_MB
  {
    hide AllLinked, Distinct, Covered, Rooted, P.Base, P.Walk, Translated, VideoOf, MaskedPcb, OpenWindow, CopyOut;
    CurrentIsMapped(k, st);
    var p := Current(k, st);
    OpenWindowChanges(k, p);
    var w := OpenWindow(k);
    forall va | pointer <= va < pointer + 4
      ensures Translated(w.tables, va, false).Some? <==> va < P.USER_BASE + FOUR_MB
    {
      KernelPlaces(w.tables, p, va);
    }
    if WordMapped(w.tables, pointer) {
      assert Translated(w.tables, pointer + 3, false).Some?;
      CopyLands(w, p, pointer, WINDOW_ADDRESS, 0);
    }
  }

  // vidmap changes nothing for a pointer outside 128-132 MB. Otherwise it marks the process and
  // points the window at its terminal's screen; and if the word fits below 132 MB, the program
  // finds the window's address there.
  lemma VidmapGivesWindow(k: Kernel, st: Chains, pointer: nat)
    requires Inv(k, st)
    ensures
      var r, p := Vidmap(k, pointer).k, Current(k, st);
      var at := pointer - P.USER_BASE;
      && p < MAX_PROCESSES && Ok(k)
      && (!PointerTaken(pointer) ==> r == k)
      && (PointerTaken(pointer) ==>
            r.pcbs == k.pcbs[p := k.pcbs[p].(vidmap := true)] &&
            r.tables == P.SetUserVideoPage(k.tables, true, k.visible, k.scheduled))
      && (PointerTaken(pointer) && at + 4 <= FRAME_SIZE ==>
            && |r.frames[p]| == FRAME_SIZE && WordAt(r.frames[p], at) == P.USER_VIDEO_BASE
            && forall i :: 0 <= i < FRAME_SIZE && !(at <= i < at + 4) ==> r.frames[p][i] == k.frames[p][i])
      && (PointerTaken(pointer) && at + 4 > FRAME_SIZE ==> r.frames == k.frames)
  {
    hide AllLinked, Distinct, Covered, Rooted, P.Base, P.Walk, Translated, VideoOf, MaskedPcb, OpenWindow, CopyOut;
    hide P.SetUserVideoPage, WordMapped;
    CurrentIsMapped(k, st);
    var p := Current(k, st);
    if PointerTaken(pointer) {
      OpenWindowChanges(k, p);
      VidmapFitsExactly(k, st, pointer);
      if pointer + 4 <= P.USER_BASE + FOUR_MB {
        CopyLands(OpenWindow(k), p, pointer, WINDOW_ADDRESS, 0);
        assert WINDOW_ADDRESS[0..] == WINDOW_ADDRESS;
      }
    }
  }

  // ---------------------------------------------------------------------------------------
  // Anything a process does on its own keeps the forest and touches only what is its own.

  predicate Quiet(k: Kernel, r: Kernel, p: nat) {
    && Ok(k) && Ok(r) && p < MAX_PROCESSES
    && r == k.(pcbs := k.pcbs[p := r.pcbs[p]], frames := k.frames[p := r.frames[p]],
               tables := r.tables, visible := r.visible)
    && r.pcbs[p] == k.pcbs[p].(fda := r.pcbs[p].fda, vidmap := r.pcbs[p].vidmap)
  }

  lemma QuietKeepsInv(k: Kernel, r: Kernel, st: Chains)
    requires Inv(k, st) && Quiet(k, r, Current(k, st)) && Mapped(r.tables, Current(k, st))
    ensures Inv(r, st) && OthersUntouched(k, r, Current(k, st))
  {
    hide AllLinked, Distinct, Covered, Rooted, P.Base;
    LinksKeepForest(k, r, st);
  }

  lemma ReadFdKeepsInv(fs: FS.FileSys, k: Kernel, st: Chains, fd: int, n: nat)
    requires FS.FsOk(fs) && Inv(k, st)
    ensures
      var r := ReadFd(fs, k, fd, n);
      && Inv(r, st) && Quiet(k, r, Current(k, st)) && r.tables == k.tables && r.frames == k.frames
      && r.scheduled == k.scheduled
  {
    hide AllLinked, Distinct, Covered, Rooted, P.Base, MaskedPcb, FS.DirRead;
    CurrentIsMapped(k, st);
    var p := Current(k, st);
    assert k.frames[p := k.frames[p]] == k.frames && k.pcbs[p := k.pcbs[p]] == k.pcbs;
    QuietKeepsInv(k, ReadFd(fs, k, fd, n), st);
  }

  // What the running process does by itself, without the timer and without starting another.
  predicate OwnCall(e: Event) {
    !e.Timer? && !e.Exec?
  }

  lemma VidmapIsQuiet(k: Kernel, p: nat, pointer: nat)
    requires Ok(k) && Mapped(k.tables, p) && MaskedPcb(k) == Slot(p)
    ensures var r := Vidmap(k, pointer).k; Quiet(k, r, p) && Mapped(r.tables, p)
  {
    hide MaskedPcb, Mapped, P.SetUserVideoPage, CopyOut, WordMapped, OpenWindow;
    QuietNone(k, p);
    if PointerTaken(pointer) {
      OpenWindowChanges(k, p);
      CopyStaysHome(OpenWindow(k), p, pointer, WINDOW_ADDRESS, 0);
      assert k.frames[p := k.frames[p]] == k.frames;
    }
  }

  lemma QuietNone(k: Kernel, p: nat)
    requires Ok(k) && Mapped(k.tables, p)
    ensures Quiet(k, k, p) && p < MAX_PROCESSES
  {
    assert k.frames[p := k.frames[p]] == k.frames && k.pcbs[p := k.pcbs[p]] == k.pcbs;
  }

  lemma ReadIsQuiet(fs: FS.FileSys, k: Kernel, p: nat, fd: int, to: nat, n: nat)
    requires FS.FsOk(fs) && Ok(k) && Mapped(k.tables, p) && MaskedPcb(k) == Slot(p) && !InKernel(to)
    ensures var r := Read(fs, k, fd, to, n).k; Quiet(k, r, p) && r.tables == k.tables
  {
    hide MaskedPcb, Mapped, CopyOut, Delivered, FS.DirRead, FS.Advance, FS.FsOk;
    QuietNone(k, p);
    if 0 <= fd <= 7 && k.pcbs[p].fda[fd].open && to != 0 {
      var moved := ReadFd(fs, k, fd, n);
      assert moved == k.(pcbs := k.pcbs[p := moved.pcbs[p]]);
      CopyStaysHome(moved, p, to, Delivered(fs, k.pcbs[p].fda[fd], n).1, 0);
    }
  }

  lemma ArgsIsQuiet(k: Kernel, p: nat, to: nat, n: int, beyond: seq<Byte>)
    requires Ok(k) && Mapped(k.tables, p) && MaskedPcb(k) == Slot(p) && !InKernel(to)
    ensures var r := GetArgs(k, to, n, beyond).k; Quiet(k, r, p) && r.tables == k.tables
  {
    hide MaskedPcb, Mapped, CopyOut;
    QuietNone(k, p);
    if to != 0 && n >= C.MAX_ARGS && k.pcbs[p].arg[0] != NUL {
      CopyStaysHome(k, p, to, k.pcbs[p].arg + beyond, 0);
    }
  }

  lemma StoreIsQuiet(k: Kernel, p: nat, va: nat, b: Byte)
    requires Ok(k) && Mapped(k.tables, p)
    ensures var r := UserStore(k, va, b).k; Quiet(k, r, p) && r.tables == k.tables
  {
    hide Mapped, UserStore, Spliced;
    QuietNone(k, p);
    StoreExactly(k, p, va, b);
  }

  lemma FdCallIsQuiet(fs: FS.FileSys, k: Kernel, p: nat, e: Event)
    requires FS.FsOk(fs) && Ok(k) && Mapped(k.tables, p) && MaskedPcb(k) == Slot(p)
    requires EventOk(e) && (e.OpenFile? || e.CloseFile? || e.ShowTerminal? || e.Exit?)
    ensures var r := Call(fs, k, e).k; Quiet(k, r, p) && r.tables == k.tables
  {
    hide MaskedPcb, Mapped, FS.Lookup, LeastFreeFd, OpenedFd, FS.FsOk;
    QuietNone(k, p);
  }

  // System calls, stores and switches touch only what the current process owns, and keep the
  // forest, whether or not a fault then ends the process.
  lemma CallKeepsInv(fs: FS.FileSys, k: Kernel, st: Chains, e: Event)
    requires FS.FsOk(fs) && Inv(k, st) && EventOk(e) && OwnCall(e)
    ensures
      var r := Call(fs, k, e).k;
      Inv(r, st) && Quiet(k, r, Current(k, st)) && OthersUntouched(k, r, Current(k, st))
  {
    hide AllLinked, Distinct, Covered, Rooted, Mapped, Quiet, Open, Close, Read, GetArgs, UserStore, Vidmap, MaskedPcb;
    hide P.Base, VideoOf, FS.FsOk, OthersUntouched;
    CurrentIsMapped(k, st);
    var p := Current(k, st);
    if e.Store? {
      StoreIsQuiet(k, p, e.va, e.b);
    } else if e.MapVideo? {
      VidmapIsQuiet(k, p, e.pointer);
    } else if e.ReadBytes? {
      ReadIsQuiet(fs, k, p, e.fd, e.to, e.n);
    } else if e.Args? {
      ArgsIsQuiet(k, p, e.to, e.length, e.beyond);
    } else {
      FdCallIsQuiet(fs, k, p, e);
    }
    QuietKeepsInv(k, Call(fs, k, e).k, st);
  }
}
