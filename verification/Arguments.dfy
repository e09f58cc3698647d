// The argument of a command, from the parent's execute to the child's getargs
// (system_calls.c execute, getargs).
module Arguments {
  import opened Bytes
  import opened Machine
  import opened Processes
  import opened ProcessRuns
  import opened UserMemory
  import opened KernelRuns
  import P = Paging
  import FS = FileSystem
  import C = Command
  import S = Strings

  // Process p is live before each of the events and after the last.
  predicate StaysLive(fs: FS.FileSys, k: Kernel, es: seq<Event>, p: nat)
    requires FS.FsOk(fs) && Ok(k) && EventsOk(es) && p < MAX_PROCESSES
    decreases |es|
  {
    Run(fs, k, es).live[p] && (es == [] || StaysLive(fs, k, es[..|es| - 1], p))
  }

  lemma ArgStep(fs: FS.FileSys, k: Kernel, st: Chains, e: Event, p: nat)
    requires ShellLoads(fs) && Inv(k, st) && EventOk(e) && MAX_TERMINALS <= p < MAX_PROCESSES
    requires k.live[p] && Step(fs, k, e).live[p]
    ensures Step(fs, k, e).pcbs[p].arg == k.pcbs[p].arg
  {
    hide Distinct, Covered, AllLinked, Running, Step, Ends, FS.FsOk, StepChains;
    InvSizes(k, st);
    StepKeepsInv(fs, k, st, e);
    var r := Step(fs, k, e);
    if p != Current(k, st) {
      assert Untouched(k, r, p);
    }
  }

  // No step but its own execute writes a child's argument field.
  lemma {:induction false} ArgStays(fs: FS.FileSys, k: Kernel, st: Chains, es: seq<Event>, p: nat)
    requires ShellLoads(fs) && Inv(k, st) && EventsOk(es) && MAX_TERMINALS <= p < MAX_PROCESSES
    requires StaysLive(fs, k, es, p)
    ensures Run(fs, k, es).pcbs[p].arg == k.pcbs[p].arg
    decreases |es|
  {
    hide Inv, Step, StepChains, FS.FsOk;
    InvSizes(k, st);
    if es != [] {
      var most := es[..|es| - 1];
      ArgStays(fs, k, st, most, p);
      RunKeepsInv(fs, k, st, most);
      ArgStep(fs, Run(fs, k, most), RunChains(fs, k, st, most), es[|es| - 1], p);
    }
  }

  // A command line of a name and an argument, with the spaces around them.
  function Line(pad: nat, name: seq<Byte>, gap: nat, arg: seq<Byte>): seq<Byte> {
    C.Spaces(pad) + name + C.Spaces(gap) + arg
  }

  predicate Printed(name: seq<Byte>, gap: nat, arg: seq<Byte>) {
    && name != [] && arg != [] && arg[0] != SPACE && gap >= 1 && NUL !in name && NUL !in arg
    && forall i :: 0 <= i < |name| ==> name[i] != SPACE
  }

  // The argument, cut or padded to the field.
  function FieldOf(arg: seq<Byte>): (f: seq<Byte>)
    ensures |f| == C.MAX_ARGS
  {
    var m := Min(|arg|, C.MAX_ARGS);
    arg[..m] + Fill(C.MAX_ARGS - m, NUL)
  }

  lemma FieldIsArgument(pad: nat, name: seq<Byte>, gap: nat, arg: seq<Byte>)
    requires Printed(name, gap, arg)
    ensures ArgField(Line(pad, name, gap, arg) + [NUL]) == FieldOf(arg) && FieldOf(arg)[0] != NUL
  {
    hide C.NameOf, C.ArgOf;
    var text := Line(pad, name, gap, arg);
    var command := text + [NUL];
    assert NUL !in C.Spaces(pad) && NUL !in C.Spaces(gap);
    forall i | 0 <= i < |text| ensures command[i] == text[i] != NUL {
      assert text[i] in text;
    }
    assert command[|text|] == NUL && S.StrLen(command) == |text|;
    assert command[..|text|] == text;
    C.ParseInvertsPrint(pad, name, gap, arg);
  }

  // From the parent's command to the child's memory: whenever the child calls getargs in its
  // life, whatever ran in between, it finds the argument that it was started with, cut to 100
  // bytes or padded, where it asked for it, and nothing else of its memory changes.
  lemma ArgumentArrives(
      fs: FS.FileSys, k: Kernel, st: Chains, pad: nat, name: seq<Byte>, gap: nat, arg: seq<Byte>,
      junk: seq<Byte>, ctx: Ctx, es: seq<Event>, e: Event)
    requires ShellLoads(fs) && Inv(k, st) && |junk| == JUNK && EventsOk(es) && Printed(name, gap, arg)
    requires Launches(fs, k, Line(pad, name, gap, arg) + [NUL], junk)
    requires EventOk(e) && e.Args? && e.length >= C.MAX_ARGS
    requires P.USER_BASE <= e.to && e.to + e.length <= P.USER_BASE + FOUR_MB
    requires
      var k1 := Execute(fs, k, Line(pad, name, gap, arg) + [NUL], junk, ctx).k;
      var pid := LowestFree(k.live, 0);
      && StaysLive(fs, k1, es, pid)
      && Current(Run(fs, k1, es), RunChains(fs, k1, st[k.scheduled := st[k.scheduled] + [pid]], es)) == pid
    ensures
      var before := Run(fs, Execute(fs, k, Line(pad, name, gap, arg) + [NUL], junk, ctx).k, es);
      var pid := LowestFree(k.live, 0);
      && !Ends(fs, before, e) && |before.frames[pid]| == FRAME_SIZE
      && Step(fs, before, e).frames ==
           before.frames[pid := Spliced(before.frames[pid], e.to - P.USER_BASE, FieldOf(arg) + e.beyond)]
  {
    hide Inv, Step, StepChains, FS.FsOk, Launches, Execute, Run, RunChains, StaysLive, Line, Spliced, ArgField;
    hide FieldOf, Ok, MaskedPcb, GetArgs, Ends, FreshTable, Printed;
    var command := Line(pad, name, gap, arg) + [NUL];
    var pid := LowestFree(k.live, 0);
    InvSizes(k, st);
    LaunchedExecutePushes(fs, k, st, command, junk, ctx);
    var k1 := Execute(fs, k, command, junk, ctx).k;
    var st1 := st[k.scheduled := st[k.scheduled] + [pid]];
    FieldIsArgument(pad, name, gap, arg);
    ArgStays(fs, k1, st1, es, pid);
    RunKeepsInv(fs, k1, st1, es);
    ArgsLand(fs, Run(fs, k1, es), RunChains(fs, k1, st1, es), e, FieldOf(arg));
  }

  lemma ArgsLand(fs: FS.FileSys, k: Kernel, st: Chains, e: Event, field: seq<Byte>)
    requires FS.FsOk(fs) && Inv(k, st) && EventOk(e) && e.Args? && e.length >= C.MAX_ARGS
    requires P.USER_BASE <= e.to && e.to + e.length <= P.USER_BASE + FOUR_MB
    requires Current(k, st) < MAX_PROCESSES && k.pcbs[Current(k, st)].arg == field
    requires |field| == C.MAX_ARGS && field[0] != NUL
    ensures
      var p := Current(k, st);
      && !Ends(fs, k, e) && |k.frames[p]| == FRAME_SIZE
      && Step(fs, k, e).frames == k.frames[p := Spliced(k.frames[p], e.to - P.USER_BASE, field + e.beyond)]
  {
    hide AllLinked, Distinct, Covered, Rooted, P.Base, VideoOf, MaskedPcb, Spliced, CopyOut, FS.FsOk;
    CurrentIsMapped(k, st);
    CopyLandsExactly(k, st, e.to, field + e.beyond);
    StepOf(fs, k, e);
  }

  // getargs refuses a null buffer, a request for less than the 100 bytes of the field, and a
  // process started without an argument; then nothing changes.
  lemma RefusedArgs(k: Kernel, st: Chains, to: nat, n: int, beyond: seq<Byte>)
    requires Inv(k, st) && Current(k, st) < MAX_PROCESSES
    requires to == 0 || n < 100 || k.pcbs[Current(k, st)].arg[0] == 0
    ensures GetArgs(k, to, n, beyond) == Called(k, false)
  {
    hide AllLinked, Distinct, Covered, Rooted, P.Base, MaskedPcb;
    CurrentIsMapped(k, st);
  }
}
