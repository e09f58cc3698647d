// Descriptor tables over whole runs of open, read and close (system_calls.c).
module Descriptors {
  import opened Bytes
  import opened Machine
  import opened Processes
  import opened ProcessRuns
  import opened UserMemory
  import opened KernelRuns
  import opened Scheduling
  import P = Paging
  import FS = FileSystem
  import S = Strings

  // open takes the least free descriptor of 2..7; it fails exactly when the name is not found
  // or all six are in use.
  lemma OpenTakesLeastFree(fs: FS.FileSys, k: Kernel, p: nat, name: seq<Byte>)
    requires Ok(k) && MaskedPcb(k) == Slot(p) && p < MAX_PROCESSES
    ensures
      var f, r := k.pcbs[p].fda, Open(fs, k, name);
      && (r.fd == -1 <==> FS.Lookup(fs, name).None? || forall i :: 2 <= i < NUM_FDS ==> f[i].open)
      && (r.fd == -1 ==> r.k == k)
      && (r.fd != -1 ==>
            && 2 <= r.fd < NUM_FDS && !f[r.fd].open && (forall i :: 2 <= i < r.fd ==> f[i].open)
            && var d := FS.Lookup(fs, name).value;
               var g := r.k.pcbs[p].fda;
               && r.k == k.(pcbs := k.pcbs[p := k.pcbs[p].(fda := g)]) && g == f[r.fd := g[r.fd]]
               && g[r.fd].open && g[r.fd].pos == 0
               && (d.ftype == 2 ==> g[r.fd].ops == FileOps && g[r.fd].inode == d.inode)
               && (d.ftype == 1 ==> g[r.fd].ops == DirOps) && (d.ftype == 0 ==> g[r.fd].ops == RtcOps))
  {
    hide FS.Lookup, MaskedPcb;
  }

  // ---------------------------------------------------------------------------------------
  // Descriptors 0 and 1.

  predicate StdOpen(f: seq<Fd>)
    requires |f| == NUM_FDS
  {
    f[0].open && f[0].ops == StdinOps && f[1].open && f[1].ops == StdoutOps
  }

  predicate AllStdOpen(k: Kernel)
    requires Ok(k)
  {
    forall p :: 0 <= p < MAX_PROCESSES && k.live[p] ==> StdOpen(k.pcbs[p].fda)
  }

  // What one step does to the current process's descriptors.
  predicate FdsStep(fs: FS.FileSys, e: Event, f: seq<Fd>, g: seq<Fd>)
    requires |f| == |g| == NUM_FDS
  {
    match e
    case OpenFile(name) =>
      var i := LeastFreeFd(f, 2);
      var d := FS.Lookup(fs, name);
      if d.None? || i == NUM_FDS then g == f else g == f[i := OpenedFd(f[i], d.value)]
    case CloseFile(i) => if 2 <= i <= 7 && f[i].open then g == f[i := f[i].(open := false)] else g == f
    case ReadBytes(i, to, n, _, _) =>
      if to == 0 then g == f
      else if 0 <= i <= 7 && f[i].open && f[i].ops.FileOps? then g == f[i := f[i].(pos := FS.Advance(f[i].pos, n))]
      else if 0 <= i <= 7 && f[i].open && f[i].ops.DirOps? then g == f[i := f[i].(pos := FS.DirRead(fs, f[i].pos).0)]
      else g == f
    case _ => g == f
  }

  lemma CallFdsStep(fs: FS.FileSys, k: Kernel, p: nat, e: Event)
    requires FS.FsOk(fs) && Ok(k) && EventOk(e) && OwnCall(e) && p < MAX_PROCESSES && MaskedPcb(k) == Slot(p)
    ensures FdsStep(fs, e, k.pcbs[p].fda, Call(fs, k, e).k.pcbs[p].fda) && Call(fs, k, e).k.live == k.live
  {
    hide P.SetUserVideoPage, CopyOut, PutByte, Delivered, MaskedPcb, WordMapped, Translated;
    hide FS.Lookup, FS.DirRead, LeastFreeFd, OpenedFd, FS.Advance;
  }

  // A child's end frees its slot; in any other step the current process stays live, and unless
  // it is a base shell that ends, its descriptors change by the event alone.
  lemma CurrentFdsStep(fs: FS.FileSys, k: Kernel, st: Chains, e: Event)
    requires ShellLoads(fs) && Inv(k, st) && EventOk(e)
    ensures
      var p, r := Current(k, st), Step(fs, k, e);
      && p < MAX_PROCESSES && Ok(k) && |st| == MAX_TERMINALS
      && (r.live[p] <==> !(Ends(fs, k, e) && |st[k.scheduled]| > 1))
      && (!Ends(fs, k, e) ==> FdsStep(fs, e, k.pcbs[p].fda, r.pcbs[p].fda))
      && (BaseExit(fs, k, st, e) ==> FreshTable(r.pcbs[p].fda))
  {
    hide Inv, Launches, Tick, Execute, Call, Ends, Step, FS.FsOk, P.ScreenPage, MaskedPcb, Ok;
    hide FreshTable, FdsStep;
    InvSizes(k, st);
    StepOf(fs, k, e);
    if Ends(fs, k, e) {
      CallKeepsInv(fs, k, st, e);
      EndKeepsInv(fs, Call(fs, k, e).k, st, HowOf(e), e.junk, e.ctx);
    } else if OwnCall(e) {
      ViewsAgree(k, st);
      CallFdsStep(fs, k, Current(k, st), e);
    } else {
      OtherFdsStep(fs, k, st, e);
    }
  }

  lemma OtherFdsStep(fs: FS.FileSys, k: Kernel, st: Chains, e: Event)
    requires FS.FsOk(fs) && Inv(k, st) && EventOk(e) && (e.Timer? || e.Exec?)
    ensures
      var p, r := Current(k, st), Step(fs, k, e);
      p < MAX_PROCESSES && r.live[p] && FdsStep(fs, e, k.pcbs[p].fda, r.pcbs[p].fda) && !Ends(fs, k, e)
  {
    hide Inv, Launches, Tick, Execute, FS.FsOk, P.ScreenPage, MaskedPcb;
    InvSizes(k, st);
    if e.Timer? {
      TickRotates(fs, k, st, e.junk, e.ctx);
    } else {
      ExecAdvances(fs, k, st, e);
    }
  }

  // A process that becomes live has a fresh table.
  lemma NewProcessIsFresh(fs: FS.FileSys, k: Kernel, st: Chains, e: Event)
    requires ShellLoads(fs) && Inv(k, st) && EventOk(e)
    ensures
      var r := Step(fs, k, e);
      forall q :: 0 <= q < MAX_PROCESSES && !k.live[q] && r.live[q] ==> FreshTable(r.pcbs[q].fda)
  {
    hide Inv, Launches, Tick, Execute, Call, Ends, Step, FS.FsOk, P.ScreenPage, MaskedPcb, Ok, FreshTable;
    InvSizes(k, st);
    StepOf(fs, k, e);
    if OwnCall(e) {
      CallKeepsInv(fs, k, st, e);
      if Ends(fs, k, e) {
        EndKeepsInv(fs, Call(fs, k, e).k, st, HowOf(e), e.junk, e.ctx);
      }
    } else {
      OthersBecomeFresh(fs, k, st, e);
    }
  }

  lemma OthersBecomeFresh(fs: FS.FileSys, k: Kernel, st: Chains, e: Event)
    requires FS.FsOk(fs) && Inv(k, st) && EventOk(e) && (e.Timer? || e.Exec?)
    ensures
      var r := Step(fs, k, e);
      forall q :: 0 <= q < MAX_PROCESSES && !k.live[q] && r.live[q] ==> FreshTable(r.pcbs[q].fda)
  {
    hide Inv, Launches, Tick, Execute, FS.FsOk, P.ScreenPage, MaskedPcb, FreshTable;
    InvSizes(k, st);
    if e.Timer? {
      TickRotates(fs, k, st, e.junk, e.ctx);
    } else if Launches(fs, k, e.command, e.junk) {
      LaunchedExecutePushes(fs, k, st, e.command, e.junk, e.ctx);
    } else {
      FailedExecuteIsHarmless(fs, k, st, e.command, e.junk, e.ctx);
    }
  }

  lemma StepKeepsStdOpen(fs: FS.FileSys, k: Kernel, st: Chains, e: Event)
    requires ShellLoads(fs) && Inv(k, st) && EventOk(e) && AllStdOpen(k)
    ensures AllStdOpen(Step(fs, k, e))
  {
    hide Inv, Step, FS.FsOk, FS.Lookup, OpenedFd, FS.Advance, FS.DirRead;
    InvSizes(k, st);
    var p, r := Current(k, st), Step(fs, k, e);
    StepKeepsInv(fs, k, st, e);
    CurrentFdsStep(fs, k, st, e);
    NewProcessIsFresh(fs, k, st, e);
    forall q | 0 <= q < MAX_PROCESSES && r.live[q] ensures StdOpen(r.pcbs[q].fda) {
      if k.live[q] && q != p {
        assert Untouched(k, r, q);
      }
    }
  }

  lemma {:induction false} RunKeepsStdOpen(fs: FS.FileSys, k: Kernel, st: Chains, es: seq<Event>)
    requires ShellLoads(fs) && Inv(k, st) && EventsOk(es) && AllStdOpen(k)
    ensures AllStdOpen(Run(fs, k, es))
    decreases |es|
  {
    hide Inv, Step, AllStdOpen, FS.FsOk;
    InvSizes(k, st);
    if es != [] {
      var most := es[..|es| - 1];
      RunKeepsStdOpen(fs, k, st, most);
      RunKeepsInv(fs, k, st, most);
      StepKeepsStdOpen(fs, Run(fs, k, most), RunChains(fs, k, st, most), es[|es| - 1]);
    }
  }

  lemma BootOpensStd(fs: FS.FileSys, k: Kernel, boot: seq<Event>)
    requires ShellLoads(fs) && Initial(k) && |boot| <= 5 && Timers(boot)
    ensures AllStdOpen(Run(fs, k, boot))
  {
    hide Run, FS.FsOk, P.Base, VideoOf, KernelStack, BootSaved;
    BootRun(fs, k, boot);
  }

  // From the initial state on, during boot and in every run after it, descriptors 0 and 1 of
  // every live process are open on the terminal.
  lemma StdStaysOpen(fs: FS.FileSys, k: Kernel, boot: seq<Event>, es: seq<Event>)
    requires ShellLoads(fs) && Initial(k) && |boot| <= 5 && Timers(boot) && EventsOk(es)
    requires |boot| < 5 ==> es == []
    ensures AllStdOpen(Run(fs, Run(fs, k, boot), es))
  {
    hide Inv, AllStdOpen, FS.FsOk;
    BootOpensStd(fs, k, boot);
    if |boot| == 5 {
      FiveTicksBoot(fs, k, boot);
      RunKeepsStdOpen(fs, Run(fs, k, boot), [[0], [1], [2]], es);
    }
  }

  // ---------------------------------------------------------------------------------------
  // File positions.

  // Process p neither closes descriptor i nor ends.
  predicate Keeps(fs: FS.FileSys, k: Kernel, st: Chains, es: seq<Event>, p: nat, i: nat)
    requires FS.FsOk(fs) && Ok(k) && EventsOk(es) && |st| == MAX_TERMINALS
    decreases |es|
  {
    es == [] ||
    (var most, e := es[..|es| - 1], es[|es| - 1];
     && Keeps(fs, k, st, most, p, i)
     && (Current(Run(fs, k, most), RunChains(fs, k, st, most)) == p ==>
           !Ends(fs, Run(fs, k, most), e) && e != CloseFile(i)))
  }

  // A read of descriptor i, with a buffer.
  predicate Reads(e: Event, i: nat) {
    e.ReadBytes? && e.fd == i && e.to != 0
  }

  // p's own requests on descriptor i, in order.
  function Requests(fs: FS.FileSys, k: Kernel, st: Chains, es: seq<Event>, p: nat, i: nat): seq<nat>
    requires FS.FsOk(fs) && Ok(k) && EventsOk(es) && |st| == MAX_TERMINALS
    decreases |es|
  {
    if es == [] then []
    else
      var most, e := es[..|es| - 1], es[|es| - 1];
      Requests(fs, k, st, most, p, i) +
      if Current(Run(fs, k, most), RunChains(fs, k, st, most)) == p && Reads(e, i) then [e.n] else []
  }

  // What they delivered.
  function Stream(fs: FS.FileSys, k: Kernel, st: Chains, es: seq<Event>, p: nat, i: nat): seq<seq<Byte>>
    requires FS.FsOk(fs) && Ok(k) && EventsOk(es) && |st| == MAX_TERMINALS && p < MAX_PROCESSES && i < NUM_FDS
    decreases |es|
  {
    if es == [] then []
    else
      var most, e := es[..|es| - 1], es[|es| - 1];
      var before := Run(fs, k, most);
      Stream(fs, k, st, most, p, i) +
      if Current(before, RunChains(fs, k, st, most)) == p && Reads(e, i)
      then [Delivered(fs, before.pcbs[p].fda[i], e.n).1] else []
  }

  lemma StepKeepsPosition(fs: FS.FileSys, k: Kernel, st: Chains, e: Event, p: nat, i: nat)
    requires ShellLoads(fs) && Inv(k, st) && EventOk(e) && p < MAX_PROCESSES && k.live[p]
    requires 2 <= i < NUM_FDS && k.pcbs[p].fda[i].open && k.pcbs[p].fda[i].ops.FileOps?
    requires Current(k, st) == p ==> !Ends(fs, k, e) && e != CloseFile(i)
    ensures
      var r := Step(fs, k, e);
      var f := k.pcbs[p].fda[i];
      && r.live[p]
      && r.pcbs[p].fda[i] ==
           if Current(k, st) == p && Reads(e, i) then f.(pos := FS.Advance(f.pos, e.n)) else f
  {
    hide Inv, Step, FS.FsOk, FS.Lookup, OpenedFd, FS.Advance, FS.DirRead;
    InvSizes(k, st);
    StepKeepsInv(fs, k, st, e);
    CurrentFdsStep(fs, k, st, e);
    if Current(k, st) != p {
      assert Untouched(k, Step(fs, k, e), p);
    }
  }

  lemma AdvanceAdds(sum: nat, n: nat)
    ensures FS.Advance(sum % TWO_32, n) == (sum + n) % TWO_32
  {
  }

  // An open regular file, seen through p's descriptor i.
  predicate FileAt(k: Kernel, p: nat, i: nat, inode: nat, pos: nat)
    requires Ok(k)
  {
    && p < MAX_PROCESSES && 2 <= i < NUM_FDS && k.live[p]
    && k.pcbs[p].fda[i] == Fd(FileOps, inode, pos, true)
  }

  // A regular file's position moves by its own process's requests on its own descriptor and by
  // nothing else, however the run goes; and what those reads deliver are the pieces of the file
  // that these requests ask for one after another.
  lemma {:induction false} FileIsAStream(
      fs: FS.FileSys, k: Kernel, st: Chains, es: seq<Event>, p: nat, i: nat, inode: nat, pos: nat)
    requires ShellLoads(fs) && Inv(k, st) && EventsOk(es)
    requires FileAt(k, p, i, inode, pos) && pos < TWO_32 && Keeps(fs, k, st, es, p, i)
    ensures
      var rs := Requests(fs, k, st, es, p, i);
      && FileAt(Run(fs, k, es), p, i, inode, (pos + FS.Sum(rs)) % TWO_32)
      && Stream(fs, k, st, es, p, i) == FS.Pieces(fs, inode, pos, rs)
    decreases |es|
  {
    hide Inv, Step, FS.FsOk, RunChains, FS.Advance, FS.DataRead, Current, EventOk, FS.Pieces, FS.Sum, Ends, Launches;
    InvSizes(k, st);
    if es == [] {
      NoRequests(fs, inode, pos);
    } else {
      var most, e := es[..|es| - 1], es[|es| - 1];
      FileIsAStream(fs, k, st, most, p, i, inode, pos);
      RunKeepsInv(fs, k, st, most);
      StepKeepsPosition(fs, Run(fs, k, most), RunChains(fs, k, st, most), e, p, i);
      var rs := Requests(fs, k, st, most, p, i);
      var pieces := Stream(fs, k, st, most, p, i);
      if Current(Run(fs, k, most), RunChains(fs, k, st, most)) != p || !Reads(e, i) {
        assert rs + [] == rs && pieces + [] == pieces;
      } else {
        AdvanceAdds(pos + FS.Sum(rs), e.n);
        FS.SumSnoc(rs, e.n);
        FS.PiecesSnoc(fs, inode, pos, rs, e.n);
      }
    }
  }

  lemma NoRequests(fs: FS.FileSys, inode: nat, pos: nat)
    requires FS.FsOk(fs)
    ensures FS.Sum([]) == 0 && FS.Pieces(fs, inode, pos, []) == []
  {
  }

  // The directory's entry j is what open finds under this name.
  predicate Finds(fs: FS.FileSys, name: seq<Byte>, j: nat) {
    FS.IsFirst(fs, name, j) && S.StrLen(name) <= FS.FNAME_LENGTH
  }

  // From a successful open of a regular file on, the descriptor is that file, by its entry's
  // inode, at position 0.
  lemma OpenStartsAStream(fs: FS.FileSys, k: Kernel, st: Chains, name: seq<Byte>, j: nat)
    requires FS.FsOk(fs) && Inv(k, st) && Open(fs, k, name).fd != -1
    requires Finds(fs, name, j) && fs.dentries[j].ftype == 2
    ensures
      var o := Open(fs, k, name);
      Inv(o.k, st) && o.fd >= 0 && FileAt(o.k, Current(k, st), o.fd, fs.dentries[j].inode, 0)
  {
    hide Inv, FS.FsOk, Open, FS.Lookup, FS.IsFirst, MaskedPcb;
    FS.LookupFinds(fs, name, j);
    InvSizes(k, st);
    ViewsAgree(k, st);
    OpenTakesLeastFree(fs, k, Current(k, st), name);
    CallKeepsInv(fs, k, st, OpenFile(name));
  }

  // End to end: open a file, then read it until nothing comes, with any other processes,
  // terminals and descriptors at work in between. The bytes delivered are the file, in order,
  // and one byte more unless some number of the requests adds up to its size.
  lemma FileIsReadWhole(fs: FS.FileSys, k: Kernel, st: Chains, name: seq<Byte>, j: nat, es: seq<Event>)
    requires ShellLoads(fs) && Inv(k, st) && EventsOk(es) && Open(fs, k, name).fd >= 0
    requires Finds(fs, name, j) && fs.dentries[j].ftype == 2 && fs.dentries[j].inode < |fs.inodes|
    requires Keeps(fs, Open(fs, k, name).k, st, es, Current(k, st), Open(fs, k, name).fd)
    requires
      var o, p := Open(fs, k, name), Current(k, st);
      FS.UntilEmpty(fs, fs.dentries[j].inode, 0, Requests(fs, o.k, st, es, p, o.fd))
    ensures
      var o, p := Open(fs, k, name), Current(k, st);
      var n := fs.inodes[fs.dentries[j].inode];
      && p < MAX_PROCESSES && o.fd < NUM_FDS && FS.InodeOk(fs, n)
      && FS.Joined(Stream(fs, o.k, st, es, p, o.fd)) ==
           FS.Contents(fs, n) +
           if FS.Hits(Requests(fs, o.k, st, es, p, o.fd), n.size) then [] else [FS.PastEnd(fs, n)]
  {
    hide Inv, Open, FS.Named, Keeps, Requests, Stream, MaskedPcb, FS.UntilEmpty, FS.Hits, FS.Pieces, FS.Joined;
    hide FS.Contents, FS.PastEnd;
    InvSizes(k, st);
    var o, p := Open(fs, k, name), Current(k, st);
    var inode := fs.dentries[j].inode;
    var rs := Requests(fs, o.k, st, es, p, o.fd);
    OpenStartsAStream(fs, k, st, name, j);
    FileIsAStream(fs, o.k, st, es, p, o.fd, inode, 0);
    FS.FileReassembles(fs, inode, rs);
  }

  // ---------------------------------------------------------------------------------------
  // The directory.

  predicate DirectoryAt(k: Kernel, p: nat, i: nat, pos: nat)
    requires Ok(k)
  {
    && p < MAX_PROCESSES && 2 <= i < NUM_FDS && k.live[p]
    && k.pcbs[p].fda[i].ops.DirOps? && k.pcbs[p].fda[i].open && k.pcbs[p].fda[i].pos == pos
  }

  lemma OpenStartsAListing(fs: FS.FileSys, k: Kernel, st: Chains, name: seq<Byte>, j: nat)
    requires FS.FsOk(fs) && Inv(k, st) && Open(fs, k, name).fd != -1
    requires Finds(fs, name, j) && fs.dentries[j].ftype == 1
    ensures
      var o := Open(fs, k, name);
      Inv(o.k, st) && o.fd >= 0 && Ok(o.k) && DirectoryAt(o.k, Current(k, st), o.fd, 0)
  {
    hide Inv, FS.FsOk, Open, FS.Lookup, FS.IsFirst, MaskedPcb;
    FS.LookupFinds(fs, name, j);
    InvSizes(k, st);
    ViewsAgree(k, st);
    OpenTakesLeastFree(fs, k, Current(k, st), name);
    CallKeepsInv(fs, k, st, OpenFile(name));
  }

  // The first m names of the directory, each in its 32 bytes, and then nothing.
  function Names(fs: FS.FileSys, m: nat): (s: seq<seq<Byte>>)
    ensures |s| == m
  {
    seq(m, x requires 0 <= x < m =>
      if x < |fs.dentries| then S.Padded(fs.dentries[x].name, FS.FNAME_LENGTH) else [])
  }

  lemma NamesSnoc(fs: FS.FileSys, m: nat)
    requires FS.FsOk(fs)
    ensures
      var pos := if m < |fs.dentries| then m else |fs.dentries|;
      var r := FS.DirRead(fs, pos);
      && Names(fs, m + 1) == Names(fs, m) + [if r.1.Some? then r.1.value else []]
      && r.0 == if m + 1 < |fs.dentries| then m + 1 else |fs.dentries|
  {
  }

  lemma StepKeepsDirectory(fs: FS.FileSys, k: Kernel, st: Chains, e: Event, p: nat, i: nat, pos: nat)
    requires ShellLoads(fs) && Inv(k, st) && EventOk(e) && Ok(k) && DirectoryAt(k, p, i, pos)
    requires Current(k, st) == p ==> !Ends(fs, k, e) && e != CloseFile(i)
    ensures DirectoryAt(Step(fs, k, e), p, i,
                        if Current(k, st) == p && Reads(e, i) then FS.DirRead(fs, pos).0 else pos)
  {
    hide Inv, Step, FS.FsOk, FS.Lookup, OpenedFd, FS.Advance, FS.DirRead, Ends;
    InvSizes(k, st);
    StepKeepsInv(fs, k, st, e);
    CurrentFdsStep(fs, k, st, e);
    if Current(k, st) != p {
      assert Untouched(k, Step(fs, k, e), p);
    }
  }

  // In every run, the reads of a directory opened at position 0 deliver its names one after
  // another, each once and in order, and after the last nothing.
  lemma {:induction false} DirectoryIsListed(
      fs: FS.FileSys, k: Kernel, st: Chains, es: seq<Event>, p: nat, i: nat)
    requires ShellLoads(fs) && Inv(k, st) && EventsOk(es) && Ok(k)
    requires DirectoryAt(k, p, i, 0) && Keeps(fs, k, st, es, p, i)
    ensures
      var m := |Requests(fs, k, st, es, p, i)|;
      && DirectoryAt(Run(fs, k, es), p, i, if m < |fs.dentries| then m else |fs.dentries|)
      && Stream(fs, k, st, es, p, i) == Names(fs, m)
    decreases |es|
  {
    hide Inv, Step, FS.FsOk, RunChains, FS.DirRead, Current, EventOk, Ends, Launches, Names;
    InvSizes(k, st);
    if es == [] {
      NoNames(fs);
    } else {
      var most, e := es[..|es| - 1], es[|es| - 1];
      DirectoryIsListed(fs, k, st, most, p, i);
      RunKeepsInv(fs, k, st, most);
      var m := |Requests(fs, k, st, most, p, i)|;
      StepKeepsDirectory(fs, Run(fs, k, most), RunChains(fs, k, st, most), e, p, i,
                         if m < |fs.dentries| then m else |fs.dentries|);
      NamesSnoc(fs, m);
      var names := Stream(fs, k, st, most, p, i);
      assert names + [] == names;
    }
  }

  lemma NoNames(fs: FS.FileSys)
    ensures Names(fs, 0) == []
  {
  }

  // What read returns: the number of bytes that a file delivers, the request for a name, 0 when
  // there is no more, and -1 for an operation that fails.
  lemma ReadReturns(fs: FS.FileSys, f: Fd, n: nat)
    requires FS.FsOk(fs)
    ensures
      var r := Delivered(fs, f, n);
      && (f.ops.FileOps? ==> r.0 == |r.1|)
      && (f.ops.FileOps? && f.inode < |fs.inodes| && f.pos < fs.inodes[f.inode].size ==>
            r.0 == Min(n, fs.inodes[f.inode].size + 1 - f.pos))
      && (f.ops.FileOps? && (f.inode >= |fs.inodes| || f.pos >= fs.inodes[f.inode].size) ==> r.0 == 0)
      && (f.ops.DirOps? && f.pos < |fs.dentries| ==> r.0 == n && |r.1| == FS.FNAME_LENGTH)
      && (f.ops.DirOps? && f.pos >= |fs.dentries| ==> r.0 == 0 && r.1 == [])
      && (f.ops.BadOps? || f.ops.StdoutOps? ==> r.0 == -1 && r.1 == [])
  {
    FS.DataReadIsTheFile(fs, f.inode, f.pos, n);
  }

  // A read that delivers nothing does not touch memory, so it cannot fault.
  lemma EmptyRead(fs: FS.FileSys, k: Kernel, st: Chains, i: nat, to: nat, n: nat)
    requires FS.FsOk(fs) && Inv(k, st) && i < NUM_FDS && Current(k, st) < MAX_PROCESSES
    requires Delivered(fs, k.pcbs[Current(k, st)].fda[i], n).1 == []
    ensures var r := Read(fs, k, i, to, n); !r.faults && r.k.frames == k.frames
  {
    hide Inv, Delivered, FS.DirRead, MaskedPcb, FS.FsOk;
    CurrentIsMapped(k, st);
  }

  // What one read does that fits in the program's memory, or delivers nothing.
  lemma FittingRead(fs: FS.FileSys, k: Kernel, st: Chains, i: nat, e: Event, bytes: seq<Byte>)
    requires FS.FsOk(fs) && Inv(k, st) && EventOk(e) && e.ReadBytes? && e.fd == i < NUM_FDS
    requires Current(k, st) < MAX_PROCESSES && k.pcbs[Current(k, st)].fda[i].open
    requires bytes == Delivered(fs, k.pcbs[Current(k, st)].fda[i], e.n).1
    requires P.USER_BASE <= e.to && e.to + |bytes| <= P.USER_BASE + FOUR_MB
    ensures
      var p, r := Current(k, st), Step(fs, k, e);
      && !Ends(fs, k, e) && StepChains(fs, k, st, e) == st && Inv(r, st) && Current(r, st) == p
      && |k.frames[p]| == FRAME_SIZE
      && r.frames == k.frames[p := Spliced(k.frames[p], e.to - P.USER_BASE, bytes)]
  {
    hide Inv, Delivered, Read, FS.FsOk, Ok, Spliced, Step, MaskedPcb;
    InvSizes(k, st);
    FrameSizes(k);
    var p := Current(k, st);
    CallKeepsInv(fs, k, st, e);
    StepOf(fs, k, e);
    if bytes == [] {
      EmptyRead(fs, k, st, i, e.to, e.n);
      SplicedNone(k.frames[p], e.to - P.USER_BASE);
      assert k.frames[p := k.frames[p]] == k.frames;
    } else {
      ReadLandsExactly(fs, k, st, i, e.to, e.n);
    }
  }

  // The common case: one read with room for the whole file, and one more that finds nothing.
  // The first puts the file and the byte after it into the program's memory.
  lemma OneBigRead(
      fs: FS.FileSys, k: Kernel, st: Chains, i: nat, inode: nat, to: nat, n: nat, junk: seq<Byte>, ctx: Ctx)
    requires ShellLoads(fs) && Inv(k, st) && inode < |fs.inodes| && FileAt(k, Current(k, st), i, inode, 0)
    requires 0 < fs.inodes[inode].size < n < 0x8000_0000 && |junk| == JUNK
    requires P.USER_BASE <= to && to + fs.inodes[inode].size + 1 <= P.USER_BASE + FOUR_MB
    ensures
      var node, p := fs.inodes[inode], Current(k, st);
      var es := [ReadBytes(i, to, n, junk, ctx), ReadBytes(i, to, 1, junk, ctx)];
      && FS.InodeOk(fs, node)
      && var bytes := FS.Contents(fs, node) + [FS.PastEnd(fs, node)];
         && EventsOk(es) && Keeps(fs, k, st, es, p, i) && Requests(fs, k, st, es, p, i) == [n, 1]
         && Stream(fs, k, st, es, p, i) == [bytes, []] && FS.UntilEmpty(fs, inode, 0, [n, 1])
         && |bytes| == node.size + 1 && |k.frames[p]| == FRAME_SIZE
         && Run(fs, k, es).frames == k.frames[p := Spliced(k.frames[p], to - P.USER_BASE, bytes)]
  {
    hide Inv, Step, FS.DataRead, FS.Contents, FS.Flat, FS.PastEnd, Stream, FS.FsOk, Ends, Spliced, FS.Pieces;
    hide FS.UntilEmpty;
    InvSizes(k, st);
    var p := Current(k, st);
    var first: Event, second: Event := ReadBytes(i, to, n, junk, ctx), ReadBytes(i, to, 1, junk, ctx);
    NodeFacts(fs, inode, n);
    FittingRead(fs, k, st, i, first, FS.DataRead(fs, inode, 0, n));
    StepKeepsPosition(fs, k, st, first, p, i);
    var k1 := Step(fs, k, first);
    FittingRead(fs, k1, st, i, second, []);
    TwoReads(fs, k, st, first, second, p, i);
    FileIsAStream(fs, k, st, [first, second], p, i, inode, 0);
    BigReadPieces(fs, inode, n);
    var after := k1.frames[p];
    SplicedNone(after, to - P.USER_BASE);
    assert k1.frames[p := after] == k1.frames;
  }

  lemma TwoReads(fs: FS.FileSys, k: Kernel, st: Chains, x: Event, y: Event, p: nat, i: nat)
    requires FS.FsOk(fs) && Ok(k) && |st| == MAX_TERMINALS && EventOk(x) && EventOk(y) && Reads(x, i) && Reads(y, i)
    requires Current(k, st) == p && !Ends(fs, k, x) && StepChains(fs, k, st, x) == st
    requires Current(Step(fs, k, x), st) == p && !Ends(fs, Step(fs, k, x), y)
    ensures
      var es := [x, y];
      && EventsOk(es) && Run(fs, k, es) == Step(fs, Step(fs, k, x), y)
      && Keeps(fs, k, st, es, p, i) && Requests(fs, k, st, es, p, i) == [x.n, y.n]
  {
    hide Step, Ends, FS.FsOk, Ok, StepChains;
    Sizes(k);
    Sizes(Step(fs, k, x));
    var one, es: seq<Event> := [x], [x, y];
    assert es[..1] == one && one[..0] == [];
    assert Run(fs, k, one[..0]) == k && RunChains(fs, k, st, one[..0]) == st;
    assert Run(fs, k, one) == Step(fs, k, x) && RunChains(fs, k, st, one) == st;
    assert Keeps(fs, k, st, [], p, i) && Keeps(fs, k, st, one, p, i);
    assert Requests(fs, k, st, one, p, i) == [] + [x.n] == [x.n];
  }

  lemma BigReadPieces(fs: FS.FileSys, inode: nat, n: nat)
    requires FS.FsOk(fs) && inode < |fs.inodes| && 0 < fs.inodes[inode].size < n < 0x8000_0000
    ensures
      var node := fs.inodes[inode];
      && FS.Pieces(fs, inode, 0, [n, 1]) == [FS.Contents(fs, node) + [FS.PastEnd(fs, node)], []]
      && FS.UntilEmpty(fs, inode, 0, [n, 1])
  {
    hide FS.DataRead, FS.Flat, FS.Contents, FS.FsOk, FS.InodeOk, FS.PastEnd;
    NodeFacts(fs, inode, n);
    assert [n, 1][1..] == [1] && [1][1..] == [];
    assert FS.Pieces(fs, inode, n, [1]) == [FS.DataRead(fs, inode, n, 1)] + FS.Pieces(fs, inode, FS.Advance(n, 1), []);
  }

  lemma NodeFacts(fs: FS.FileSys, inode: nat, n: nat)
    requires FS.FsOk(fs) && inode < |fs.inodes| && 0 < fs.inodes[inode].size < n < 0x8000_0000
    ensures
      var node := fs.inodes[inode];
      && FS.InodeOk(fs, node)
      && FS.DataRead(fs, inode, 0, n) == FS.Contents(fs, node) + [FS.PastEnd(fs, node)]
      && FS.DataRead(fs, inode, n, 1) == []
  {
    var node := fs.inodes[inode];
    assert FS.DataRead(fs, inode, 0, n) == FS.Flat(fs, node);
    FS.FlatIsTheFile(fs, node);
  }
}
