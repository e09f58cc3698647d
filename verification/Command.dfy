// How execute (system_calls.c) takes a command line apart: the program's name and its
// argument string.
module Command {
  import opened Bytes
  import opened Strings

  const MAX_ARGS := 100

  // The first byte at or after i that is not a space; and the first that is.
  function SkipSpaces(text: seq<Byte>, i: nat): (r: nat)
    requires i <= |text|
    ensures i <= r <= |text| && (r < |text| ==> text[r] != SPACE)
    ensures forall k :: i <= k < r ==> text[k] == SPACE
    decreases |text| - i
  {
    if i < |text| && text[i] == SPACE then SkipSpaces(text, i + 1) else i
  }

  function WordEnd(text: seq<Byte>, i: nat): (r: nat)
    requires i <= |text|
    ensures i <= r <= |text| && (r < |text| ==> text[r] == SPACE)
    ensures forall k :: i <= k < r ==> text[k] != SPACE
    decreases |text| - i
  {
    if i < |text| && text[i] != SPACE then WordEnd(text, i + 1) else i
  }

  function NameStart(text: seq<Byte>): (r: nat)
    ensures r <= |text|
  {
    SkipSpaces(text, 0)
  }

  function NameEnd(text: seq<Byte>): (r: nat)
    ensures NameStart(text) <= r <= |text|
  {
    WordEnd(text, NameStart(text))
  }

  // Leading spaces are dropped and the name runs to the next space.
  function NameOf(text: seq<Byte>): seq<Byte> {
    text[NameStart(text)..NameEnd(text)]
  }

  function ArgStart(text: seq<Byte>): (r: nat)
    ensures r <= |text|
  {
    SkipSpaces(text, NameEnd(text))
  }

  // What follows, without its leading spaces, cut at 100 bytes.
  function ArgOf(text: seq<Byte>): (r: seq<Byte>)
    ensures |r| <= MAX_ARGS
  {
    text[ArgStart(text)..Min(|text|, ArgStart(text) + MAX_ARGS)]
  }

  function Spaces(n: nat): (s: seq<Byte>)
    ensures |s| == n
  {
    Fill(n, SPACE)
  }

  // Parsing inverts printing: padding, a name without spaces, a gap and an argument that does
  // not begin with a space give back the name and the first 100 bytes of the argument, inner
  // and trailing spaces included.
  lemma ParseInvertsPrint(pad: nat, name: seq<Byte>, gap: nat, arg: seq<Byte>)
    requires name != [] && forall k :: 0 <= k < |name| ==> name[k] != SPACE
    requires arg == [] || (arg[0] != SPACE && gap >= 1)
    ensures
      var text := Spaces(pad) + name + Spaces(gap) + arg;
      NameOf(text) == name && ArgOf(text) == arg[..Min(|arg|, MAX_ARGS)]
  {
    hide SkipSpaces, WordEnd;
    var text := Spaces(pad) + name + Spaces(gap) + arg;
    var b := pad + |name|;
    assert forall k :: 0 <= k < pad ==> text[k] == SPACE;
    assert forall k :: pad <= k < b ==> text[k] == name[k - pad];
    assert forall k :: b <= k < b + gap ==> text[k] == SPACE;
    assert forall k :: b + gap <= k < |text| ==> text[k] == arg[k - b - gap];
    SkipIsExact(text, 0, pad);
    WordIsExact(text, pad, b);
    SkipIsExact(text, b, b + gap);
    assert text[pad..b] == name;
    assert text[b + gap..] == arg;
  }

  lemma {:induction false} SkipIsExact(text: seq<Byte>, i: nat, r: nat)
    requires i <= r <= |text| && (r < |text| ==> text[r] != SPACE)
    requires forall k :: i <= k < r ==> text[k] == SPACE
    ensures SkipSpaces(text, i) == r
    decreases r - i
  {
    if i < r {
      SkipIsExact(text, i + 1, r);
    }
  }

  lemma {:induction false} WordIsExact(text: seq<Byte>, i: nat, r: nat)
    requires i <= r <= |text| && (r < |text| ==> text[r] == SPACE)
    requires forall k :: i <= k < r ==> text[k] != SPACE
    ensures WordEnd(text, i) == r
    decreases r - i
  {
    if i < r {
      WordIsExact(text, i + 1, r);
    }
  }

  // ---------------------------------------------------------------------------------------
  // The two loops.

  method ParseName(command: seq<Byte>, execName: array<Byte>) returns (i: nat, j: nat)
    requires NUL in command && execName.Length == StrLen(command) + 1
    requires forall k :: 0 <= k < execName.Length ==> execName[k] == NUL
    modifies execName
    ensures
      var text := command[..StrLen(command)];
      && i == NameEnd(text) && j <= |text|
      && execName[..j] == NameOf(text)
      && (forall k :: j <= k < execName.Length ==> execName[k] == NUL)
  {
    hide StrLen;
    ghost var text := command[..StrLen(command)];
    ghost var start := NameStart(text);
    i, j := 0, 0;
    while command[i] != NUL && i < execName.Length
      invariant i <= |text| && start + j <= |text|
      invariant if j == 0 then SkipSpaces(text, i) == start else i == start + j && WordEnd(text, i) == NameEnd(text)
      invariant forall k :: 0 <= k < j ==> execName[k] == text[start + k]
      invariant forall k :: j <= k < execName.Length ==> execName[k] == NUL
      decreases |text| - i
    {
      if command[i] == SPACE && j == 0 {
        i := i + 1;
        continue;
      }
      if command[i] == SPACE && j != 0 {
        break;
      }
      execName[j] := command[i];
      i := i + 1;
      j := j + 1;
    }
    assert |NameOf(text)| == j;
    assert forall k :: 0 <= k < j ==> NameOf(text)[k] == text[start + k];
  }

  // From the byte after the name.
  method ParseArg(command: seq<Byte>, from: nat, arg: array<Byte>)
    requires NUL in command && arg.Length == MAX_ARGS
    requires from == NameEnd(command[..StrLen(command)])
    requires forall k :: 0 <= k < MAX_ARGS ==> arg[k] == NUL
    modifies arg
    ensures
      var r := ArgOf(command[..StrLen(command)]);
      arg[..|r|] == r && forall k :: |r| <= k < MAX_ARGS ==> arg[k] == NUL
  {
    hide StrLen;
    ghost var text := command[..StrLen(command)];
    ghost var start := ArgStart(text);
    var i, j := from, 0;
    if command[i] != NUL {
      i := i + 1;
      while command[i] != NUL && j < MAX_ARGS
        invariant j <= MAX_ARGS && i <= |text| && start + j <= |text|
        invariant if j == 0 then SkipSpaces(text, i) == start else i == start + j
        invariant forall k :: 0 <= k < j ==> arg[k] == text[start + k]
        invariant forall k :: j <= k < MAX_ARGS ==> arg[k] == NUL
        decreases |text| - i
      {
        if command[i] == SPACE && j == 0 {
          i := i + 1;
          continue;
        }
        arg[j] := command[i];
        i := i + 1;
        j := j + 1;
      }
    }
    assert |ArgOf(text)| == j;
    assert forall k :: 0 <= k < j ==> ArgOf(text)[k] == text[start + k];
  }

  // Both loops, on fresh buffers: the name, and the PCB's 100-byte argument field.
  method Parse(command: seq<Byte>) returns (name: seq<Byte>, arg: seq<Byte>)
    requires NUL in command
    ensures
      var text := command[..StrLen(command)];
      name == NameOf(text) + [NUL] && arg == ArgOf(text) + Fill(MAX_ARGS - |ArgOf(text)|, NUL)
  {
    var execName := new Byte[StrLen(command) + 1](_ => NUL);
    var args := new Byte[MAX_ARGS](_ => NUL);
    var i, j := ParseName(command, execName);
    ParseArg(command, i, args);
    name := execName[..j] + [NUL];
    arg := args[..];
    ghost var n := |ArgOf(command[..StrLen(command)])|;
    assert args[..] == args[..n] + args[n..];
  }
}
