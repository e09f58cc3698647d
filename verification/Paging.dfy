// Address translation (paging.c): the page directory, the kernel's and the user's page
// tables, and a translation cache, with 32-bit paging as in section 4.3 of the Intel SDM
// Volume 3A.
module Paging {
  import opened Bytes
  import opened Machine

  const ENTRIES := 1024
  const USER_PROG_INDEX := 32      // 128 MB
  const USER_VIDEO_INDEX := 64     // 256 MB
  const USER_BASE := 0x800_0000
  const USER_VIDEO_BASE := 0x1000_0000
  const ADDRESS_SPACE := TWO_32

  datatype TableRef = KernelTable | VideoTable

  // The fields that translation depends on; a directory entry maps 4 MB or names a table.
  datatype Pde =
    | Large(present: bool, user: bool, base: nat)
    | Small(present: bool, user: bool, table: TableRef)

  datatype Pte = Pte(present: bool, user: bool, base: nat)

  datatype Tables = Tables(dir: seq<Pde>, kernel: seq<Pte>, video: seq<Pte>)

  predicate Shape(t: Tables) {
    |t.dir| == |t.kernel| == |t.video| == ENTRIES
  }

  function TableOf(t: Tables, r: TableRef): seq<Pte> {
    if r.KernelTable? then t.kernel else t.video
  }

  // The walk, for a user-mode or a supervisor access. None is a page fault.
  function Walk(t: Tables, va: nat, user: bool): Option<nat>
    requires Shape(t) && va < ADDRESS_SPACE
  {
    var d := t.dir[va / FOUR_MB];
    if !d.present || (user && !d.user) then None
    else if d.Large? then Some(d.base * FOUR_MB + va % FOUR_MB)
    else
      var p := TableOf(t, d.table)[va / FOUR_KB % ENTRIES];
      if !p.present || (user && !p.user) then None else Some(p.base * FOUR_KB + va % FOUR_KB)
  }

  // ---------------------------------------------------------------------------------------
  // What the functions of paging.c do to the tables.

  function InitDir(): (d: seq<Pde>)
    ensures |d| == ENTRIES
  {
    seq(ENTRIES, i requires 0 <= i < ENTRIES =>
      if i == 0 then Small(true, false, KernelTable)
      else if i == 1 then Large(true, false, 1)
      else Large(false, false, i))
  }

  function InitTable(firstPresent: nat, count: nat): (p: seq<Pte>)
    ensures |p| == ENTRIES
  {
    seq(ENTRIES, i requires 0 <= i < ENTRIES => Pte(firstPresent <= i < firstPresent + count, true, i))
  }

  function Init(): (t: Tables)
    ensures Shape(t)
  {
    Tables(InitDir(), InitTable(VIDMEM_PAGE, 4), InitTable(0, 0))
  }

  // base_addr is a 10-bit field.
  function SetUserProgPage(t: Tables, pid: int, present: bool): (r: Tables)
    requires Shape(t)
    ensures Shape(r)
  {
    t.(dir := t.dir[USER_PROG_INDEX := Large(present, true, (2 + pid) % ENTRIES)])
  }

  // The page a terminal's screen is on.
  function ScreenPage(t: nat, visible: nat): nat {
    if t == visible then VIDMEM_PAGE else VIDMEM_PAGE + t + 1
  }

  function SetUserVideoPage(t: Tables, present: bool, visible: nat, scheduled: nat): (r: Tables)
    requires Shape(t)
    ensures Shape(r)
  {
    t.(video := t.video[0 := t.video[0].(present := present, base := ScreenPage(scheduled, visible))],
       dir := t.dir[USER_VIDEO_INDEX := Small(present, true, VideoTable)])
  }

  function RedirectVidmem(t: Tables, terminal: nat, visible: nat): (r: Tables)
    requires Shape(t)
    ensures Shape(r)
  {
    t.(kernel := t.kernel[VIDMEM_PAGE := t.kernel[VIDMEM_PAGE].(base := ScreenPage(terminal, visible))])
  }

  datatype Call =
    | Prog(pid: nat, present: bool)
    | Video(present: bool, visible: nat, scheduled: nat)
    | Redirect(terminal: nat, visible: nat)

  // Processes have pids 0..5 and terminals ids 0..2.
  predicate CallOk(c: Call) {
    match c
    case Prog(pid, _) => pid < 6
    case Video(_, v, s) => v < 3 && s < 3
    case Redirect(x, v) => x < 3 && v < 3
  }

  function Do(t: Tables, c: Call): (r: Tables)
    requires Shape(t)
    ensures Shape(r)
  {
    match c
    case Prog(pid, present) => SetUserProgPage(t, pid, present)
    case Video(present, visible, scheduled) => SetUserVideoPage(t, present, visible, scheduled)
    case Redirect(terminal, visible) => RedirectVidmem(t, terminal, visible)
  }

  function DoAll(t: Tables, cs: seq<Call>): (r: Tables)
    requires Shape(t)
    ensures Shape(r)
    decreases |cs|
  {
    if cs == [] then t else Do(DoAll(t, cs[..|cs| - 1]), cs[|cs| - 1])
  }

  // ---------------------------------------------------------------------------------------
  // What user mode can reach, in every state.

  // The last program page and the last video page that were set, if any.
  function ProgPage(cs: seq<Call>): Option<nat>
    decreases |cs|
  {
    if cs == [] then None
    else match cs[|cs| - 1]
      case Prog(pid, present) => if present then Some(2 + pid) else None
      case _ => ProgPage(cs[..|cs| - 1])
  }

  function VideoPage(cs: seq<Call>): Option<nat>
    decreases |cs|
  {
    if cs == [] then None
    else match cs[|cs| - 1]
      case Video(present, visible, scheduled) => if present then Some(ScreenPage(scheduled, visible)) else None
      case _ => VideoPage(cs[..|cs| - 1])
  }

  // All entries but four are as init_paging left them.
  predicate Base(t: Tables, prog: Option<nat>, video: Option<nat>) {
    && Shape(t)
    && (forall i :: 0 <= i < ENTRIES && i != USER_PROG_INDEX && i != USER_VIDEO_INDEX ==> t.dir[i] == InitDir()[i])
    && (forall i :: 0 <= i < ENTRIES && i != VIDMEM_PAGE ==> t.kernel[i] == InitTable(VIDMEM_PAGE, 4)[i])
    && (forall i :: 1 <= i < ENTRIES ==> t.video[i] == InitTable(0, 0)[i])
    && t.kernel[VIDMEM_PAGE].present && VIDMEM_PAGE <= t.kernel[VIDMEM_PAGE].base <= VIDMEM_PAGE + 3
    && t.video[0].user
    && (var d := t.dir[USER_PROG_INDEX];
        d.Large? && d.present == prog.Some? && (prog.Some? ==> d.user && d.base == prog.value))
    && (var d := t.dir[USER_VIDEO_INDEX];
        && d.present == video.Some?
        && (video.Some? ==> d == Small(true, true, VideoTable) && t.video[0] == Pte(true, true, video.value)))
  }

  lemma {:induction false} RunsKeepBase(cs: seq<Call>)
    requires forall k :: 0 <= k < |cs| ==> CallOk(cs[k])
    ensures Base(DoAll(Init(), cs), ProgPage(cs), VideoPage(cs))
    decreases |cs|
  {
    if cs != [] {
      RunsKeepBase(cs[..|cs| - 1]);
    }
  }

  // The two windows of user mode: 4 MB at 128 MB and 4 KB at 256 MB.
  function Windows(prog: Option<nat>, video: Option<nat>, va: nat): Option<nat> {
    if USER_BASE <= va < USER_BASE + FOUR_MB && prog.Some? then
      Some(prog.value * FOUR_MB + (va - USER_BASE))
    else if USER_VIDEO_BASE <= va < USER_VIDEO_BASE + FOUR_KB && video.Some? then
      Some(video.value * FOUR_KB + (va - USER_VIDEO_BASE))
    else None
  }

  lemma BaseReaches(t: Tables, prog: Option<nat>, video: Option<nat>, va: nat)
    requires Base(t, prog, video) && va < ADDRESS_SPACE
    ensures Walk(t, va, true) == Windows(prog, video, va)
  {
    var i := va / FOUR_MB;
    assert i == USER_PROG_INDEX <==> USER_BASE <= va < USER_BASE + FOUR_MB;
    if i == USER_VIDEO_INDEX {
      assert va / FOUR_KB % ENTRIES == 0 <==> USER_VIDEO_BASE <= va < USER_VIDEO_BASE + FOUR_KB;
    }
  }

  // Every state: user mode reaches exactly 128-132 MB, on the running process's frame, and one
  // page at 256 MB, on one of the four screen pages.
  lemma UserReachesExactly(cs: seq<Call>, va: nat)
    requires forall k :: 0 <= k < |cs| ==> CallOk(cs[k])
    requires va < ADDRESS_SPACE
    ensures Walk(DoAll(Init(), cs), va, true) == Windows(ProgPage(cs), VideoPage(cs), va)
  {
    RunsKeepBase(cs);
    hide Walk, Base, DoAll, ProgPage, VideoPage, Windows;
    BaseReaches(DoAll(Init(), cs), ProgPage(cs), VideoPage(cs), va);
  }

  // So user mode never touches kernel memory (4-8 MB) or another process's frame.
  lemma UserStaysOut(cs: seq<Call>, va: nat)
    requires forall k :: 0 <= k < |cs| ==> CallOk(cs[k])
    requires va < ADDRESS_SPACE
    ensures
      match Walk(DoAll(Init(), cs), va, true)
      case None => true
      case Some(pa) =>
        || (ProgPage(cs).Some? && 2 <= ProgPage(cs).value <= 7 && pa / FOUR_MB == ProgPage(cs).value)
        || (VIDMEM_PAGE <= pa / FOUR_KB <= VIDMEM_PAGE + 3)
  {
    UserReachesExactly(cs, va);
    PagesInRange(cs);
  }

  lemma {:induction false} PagesInRange(cs: seq<Call>)
    requires forall k :: 0 <= k < |cs| ==> CallOk(cs[k])
    ensures ProgPage(cs).Some? ==> 2 <= ProgPage(cs).value <= 7
    ensures VideoPage(cs).Some? ==> VIDMEM_PAGE <= VideoPage(cs).value <= VIDMEM_PAGE + 3
    decreases |cs|
  {
    if cs != [] {
      PagesInRange(cs[..|cs| - 1]);
    }
  }

  // The kernel's own view never moves, except virtual page 0xB8, which stays on a screen page.
  lemma KernelViewIsFixed(cs: seq<Call>, va: nat)
    requires forall k :: 0 <= k < |cs| ==> CallOk(cs[k])
    requires (FOUR_MB <= va < 2 * FOUR_MB) || (VIDMEM_PAGE * FOUR_KB <= va < (VIDMEM_PAGE + 4) * FOUR_KB)
    ensures
      var r := Walk(DoAll(Init(), cs), va, false);
      && r.Some?
      && (va / FOUR_KB != VIDMEM_PAGE ==> r.value == va)
      && (va / FOUR_KB == VIDMEM_PAGE ==>
            VIDMEM_PAGE <= r.value / FOUR_KB <= VIDMEM_PAGE + 3 && r.value % FOUR_KB == va % FOUR_KB)
  {
    RunsKeepBase(cs);
    hide Walk, Base, DoAll, ProgPage, VideoPage;
    if va < FOUR_MB {
      ScreenWindow(DoAll(Init(), cs), ProgPage(cs), VideoPage(cs), va);
    } else {
      KernelWindow(DoAll(Init(), cs), ProgPage(cs), VideoPage(cs), va);
    }
  }

  lemma KernelWindow(t: Tables, prog: Option<nat>, video: Option<nat>, va: nat)
    requires Base(t, prog, video) && FOUR_MB <= va < 2 * FOUR_MB
    ensures Walk(t, va, false) == Some(va) && va / FOUR_KB != VIDMEM_PAGE
  {
    assert va / FOUR_MB == 1 && t.dir[1] == Large(true, false, 1);
  }

  lemma ScreenWindow(t: Tables, prog: Option<nat>, video: Option<nat>, va: nat)
    requires Base(t, prog, video) && VIDMEM_PAGE * FOUR_KB <= va < (VIDMEM_PAGE + 4) * FOUR_KB
    ensures
      var r := Walk(t, va, false);
      var page := va / FOUR_KB;
      && VIDMEM_PAGE <= page <= VIDMEM_PAGE + 3
      && r == Some((if page == VIDMEM_PAGE then t.kernel[page].base else page) * FOUR_KB + va % FOUR_KB)
      && VIDMEM_PAGE <= r.value / FOUR_KB <= VIDMEM_PAGE + 3 && r.value % FOUR_KB == va % FOUR_KB
      && (page != VIDMEM_PAGE ==> r.value == va)
  {
    assert va / FOUR_MB == 0 && t.dir[0] == Small(true, false, KernelTable);
    assert va / FOUR_KB % ENTRIES == va / FOUR_KB;
  }

  // What the kernel itself reaches: the running process's frame at 128 MB, its own 4 MB at
  // 4-8 MB, and otherwise at most screen pages, through pages 0xB8 to 0xBB and 256 MB.
  lemma SupervisorReaches(t: Tables, prog: Option<nat>, video: Option<nat>, va: nat)
    requires Base(t, prog, video) && va < ADDRESS_SPACE && (video.Some? ==> video.value < ENTRIES)
    ensures
      var r := Walk(t, va, false);
      && (USER_BASE <= va < USER_BASE + FOUR_MB && prog.Some? ==> r == Some(prog.value * FOUR_MB + (va - USER_BASE)))
      && (FOUR_MB <= va < 2 * FOUR_MB ==> r == Some(va))
      && (!(USER_BASE <= va < USER_BASE + FOUR_MB) && !(FOUR_MB <= va < 2 * FOUR_MB) && r.Some? ==>
            r.value < FOUR_MB && va != FOUR_MB - 1)
      && (USER_BASE + FOUR_MB <= va < USER_VIDEO_BASE ==> r.None?)
  {
    var i := va / FOUR_MB;
    assert i == USER_PROG_INDEX <==> USER_BASE <= va < USER_BASE + FOUR_MB;
    assert i == 1 <==> FOUR_MB <= va < 2 * FOUR_MB;
    if i == 0 {
      assert t.dir[0] == Small(true, false, KernelTable);
      assert va / FOUR_KB % ENTRIES == va / FOUR_KB && t.kernel[va / FOUR_KB].base < ENTRIES;
    } else if i == USER_VIDEO_INDEX && video.Some? {
      assert t.video[va / FOUR_KB % ENTRIES].base < ENTRIES;
    } else if i > 1 && i != USER_PROG_INDEX && i != USER_VIDEO_INDEX {
      assert t.dir[i] == Large(false, false, i);
    }
  }

  // ---------------------------------------------------------------------------------------
  // The translation cache (section 4.10): what it holds must be what the walk would give.

  datatype Access = Access(page: nat, user: bool)

  predicate Coherent(t: Tables, tlb: map<Access, nat>)
    requires Shape(t)
  {
    forall a :: a in tlb ==>
      a.page * FOUR_KB < ADDRESS_SPACE && Walk(t, a.page * FOUR_KB, a.user) == Some(tlb[a] * FOUR_KB)
  }

  // The processor may cache any translation it makes.
  function Cache(t: Tables, tlb: map<Access, nat>, a: Access): map<Access, nat>
    requires Shape(t)
  {
    if a.page * FOUR_KB < ADDRESS_SPACE && Walk(t, a.page * FOUR_KB, a.user).Some?
    then tlb[a := Walk(t, a.page * FOUR_KB, a.user).value / FOUR_KB] else tlb
  }

  lemma CachingKeepsCoherence(t: Tables, tlb: map<Access, nat>, a: Access)
    requires Shape(t) && Coherent(t, tlb)
    ensures Coherent(t, Cache(t, tlb, a))
  {
    if a.page * FOUR_KB < ADDRESS_SPACE {
      WalkIsAligned(t, a.page, a.user);
    }
  }

  lemma WalkIsAligned(t: Tables, page: nat, user: bool)
    requires Shape(t) && page * FOUR_KB < ADDRESS_SPACE
    ensures Walk(t, page * FOUR_KB, user).Some? ==> Walk(t, page * FOUR_KB, user).value % FOUR_KB == 0
  {
    var va := page * FOUR_KB;
    PageOffset(page);
    var d := t.dir[va / FOUR_MB];
    if d.Large? {
      assert d.base * FOUR_MB + va % FOUR_MB == (d.base * ENTRIES + page % ENTRIES) * FOUR_KB;
    }
  }

  lemma PageOffset(page: nat)
    ensures page * FOUR_KB % FOUR_MB == page % ENTRIES * FOUR_KB && page * FOUR_KB % FOUR_KB == 0
  {
    var i, j := page / ENTRIES, page % ENTRIES;
    OffsetOf(i, j);
    assert page == i * ENTRIES + j;
  }

  lemma OffsetOf(i: nat, j: nat)
    requires j < ENTRIES
    ensures (i * FOUR_MB + j * FOUR_KB) % FOUR_MB == j * FOUR_KB
  {
  }

  // ---------------------------------------------------------------------------------------
  // The tables in memory, with the cache beside them. Between two table writes the cache may
  // come to hold anything the processor looked up meanwhile, so every write forgets it.

  class PageTables {
    const directory: array<Pde>
    const kernelTable: array<Pte>
    const videoTable: array<Pte>
    var tlb: map<Access, nat>

    ghost predicate Valid()
      reads this
    {
      && directory.Length == kernelTable.Length == videoTable.Length == ENTRIES
      && kernelTable != videoTable
    }

    ghost function State(): (t: Tables)
      requires Valid()
      reads this, directory, kernelTable, videoTable
      ensures Shape(t)
    {
      Tables(directory[..], kernelTable[..], videoTable[..])
    }

    method FlushTlb()
      requires Valid()
      modifies this`tlb
      ensures Valid() && Coherent(State(), tlb)
    {
      tlb := map[];
    }

    method WriteDir(i: nat, e: Pde)
      requires Valid() && i < ENTRIES
      modifies this`tlb, directory
      ensures Valid() && directory[..] == old(directory[..])[i := e]
    {
      directory[i] := e;
      tlb := *;
    }

    method WriteKernelTable(i: nat, e: Pte)
      requires Valid() && i < ENTRIES
      modifies this`tlb, kernelTable
      ensures Valid() && kernelTable[..] == old(kernelTable[..])[i := e]
    {
      kernelTable[i] := e;
      tlb := *;
    }

    method WriteVideoTable(i: nat, e: Pte)
      requires Valid() && i < ENTRIES
      modifies this`tlb, videoTable
      ensures Valid() && videoTable[..] == old(videoTable[..])[i := e]
    {
      videoTable[i] := e;
      tlb := *;
    }

    // init_paging, on whatever the tables held before.
    constructor (pd: array<Pde>, pt: array<Pte>, vt: array<Pte>)
      requires pd.Length == pt.Length == vt.Length == ENTRIES && pt != vt
      modifies pd, pt, vt
      ensures Valid() && directory == pd && kernelTable == pt && videoTable == vt
      ensures State() == Init() && Coherent(State(), tlb)
    {
      directory, kernelTable, videoTable, tlb := pd, pt, vt, map[];
      new;
      for i := 0 to ENTRIES
        invariant Valid()
      {
        WriteDir(i, Large(false, true, i));
      }
      for i := 0 to ENTRIES
        invariant Valid()
        invariant kernelTable[..i] == InitTable(VIDMEM_PAGE, 4)[..i]
        invariant videoTable[..i] == InitTable(0, 0)[..i]
      {
        WriteVideoTable(i, Pte(false, true, i));
        WriteKernelTable(i, Pte(VIDMEM_PAGE <= i <= VIDMEM_PAGE + 3, true, i));
      }
      WriteDir(0, Small(true, false, KernelTable));
      WriteDir(1, Large(true, false, 1));
      for i := 2 to ENTRIES
        invariant Valid()
        invariant directory[..i] == InitDir()[..i]
        invariant kernelTable[..] == InitTable(VIDMEM_PAGE, 4) && videoTable[..] == InitTable(0, 0)
      {
        WriteDir(i, Large(false, false, i));
      }
      FlushTlb();
    }

    // The processor's walk through the tables in memory.
    method Translate(va: nat, user: bool) returns (pa: Option<nat>)
      requires Valid() && va < ADDRESS_SPACE
      ensures pa == Walk(State(), va, user)
    {
      var d := directory[va / FOUR_MB];
      if !d.present || (user && !d.user) {
        return None;
      }
      if d.Large? {
        return Some(d.base * FOUR_MB + va % FOUR_MB);
      }
      var i := va / FOUR_KB % ENTRIES;
      var p := if d.table.KernelTable? then kernelTable[i] else videoTable[i];
      if !p.present || (user && !p.user) {
        return None;
      }
      pa := Some(p.base * FOUR_KB + va % FOUR_KB);
    }

    method SetUserProg(pid: int, present: bool)
      requires Valid()
      modifies this`tlb, directory
      ensures Valid() && Coherent(State(), tlb)
      ensures State() == SetUserProgPage(old(State()), pid, present)
    {
      WriteDir(USER_PROG_INDEX, Large(present, true, (2 + pid) % ENTRIES));
      FlushTlb();
    }

    method SetUserVideo(present: bool, visible: nat, scheduled: nat)
      requires Valid()
      modifies this`tlb, directory, videoTable
      ensures Valid() && Coherent(State(), tlb)
      ensures State() == SetUserVideoPage(old(State()), present, visible, scheduled)
    {
      WriteVideoTable(0, videoTable[0].(present := present));
      if visible == scheduled {
        WriteVideoTable(0, videoTable[0].(base := VIDMEM_PAGE));
      } else {
        WriteVideoTable(0, videoTable[0].(base := VIDMEM_PAGE + scheduled + 1));
      }
      WriteDir(USER_VIDEO_INDEX, Small(present, true, VideoTable));
      FlushTlb();
    }

    method RedirectVidmemPage(terminal: int, visible: nat)
      requires Valid()
      modifies this`tlb, kernelTable
      ensures Valid()
      ensures 0 <= terminal <= 2 ==>
                Coherent(State(), tlb) && State() == RedirectVidmem(old(State()), terminal, visible)
      ensures !(0 <= terminal <= 2) ==> State() == old(State()) && tlb == old(tlb)
    {
      if terminal < 0 || terminal > 2 {
        return;
      }
      if terminal == visible {
        WriteKernelTable(VIDMEM_PAGE, kernelTable[VIDMEM_PAGE].(base := VIDMEM_PAGE));
      } else {
        WriteKernelTable(VIDMEM_PAGE, kernelTable[VIDMEM_PAGE].(base := VIDMEM_PAGE + terminal + 1));
      }
      FlushTlb();
    }
  }
}
