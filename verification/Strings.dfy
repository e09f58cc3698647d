// C strings (lib.c strlen, strncmp, strncpy): a string is the bytes before the first NUL.
module Strings {
  import opened Bytes

  function StrLen(s: seq<Byte>): (n: nat)
    ensures n <= |s|
    ensures n < |s| ==> s[n] == NUL
    ensures forall k :: 0 <= k < n ==> s[k] != NUL
  {
    if s == [] || s[0] == NUL then 0 else 1 + StrLen(s[1..])
  }

  // The string that a reader limited to n bytes sees.
  function Text(s: seq<Byte>, n: nat): (t: seq<Byte>)
    ensures |t| <= n && |t| <= |s| && t == s[..|t|] && NUL !in t
    ensures |t| < n && |t| < |s| ==> s[|t|] == NUL
  {
    s[..Min(StrLen(s), n)]
  }

  // A field of n bytes holding the string s: the text, then NULs.
  function Padded(s: seq<Byte>, n: nat): (r: seq<Byte>)
    ensures |r| == n
  {
    Text(s, n) + Fill(n - |Text(s, n)|, NUL)
  }

  method Strlen(s: seq<Byte>) returns (len: nat)
    requires NUL in s
    ensures len == StrLen(s)
  {
    len := 0;
    while s[len] != NUL
      invariant len < |s| && len <= StrLen(s)
      decreases |s| - len
    {
      len := len + 1;
    }
  }

  function Signed(b: Byte): int {
    if b < 128 then b else b - 256
  }

  // The comparison reads no further than the limit, a NUL or a difference.
  method Strncmp(s1: seq<Byte>, s2: seq<Byte>, n: nat) returns (r: int)
    requires n <= |s1| || NUL in s1
    requires n <= |s2| || NUL in s2
    ensures r == 0 <==> Text(s1, n) == Text(s2, n)
    ensures r != 0 ==> exists k :: 0 <= k < n && k < |s1| && k < |s2| && s1[..k] == s2[..k] &&
                                   r == Signed(s1[k]) - Signed(s2[k])
  {
    var i := 0;
    while i < n
      invariant 0 <= i <= n && i <= |s1| && i <= |s2|
      invariant s1[..i] == s2[..i]
      invariant i <= StrLen(s1) && i <= StrLen(s2)
    {
      if s1[i] != s2[i] || s1[i] == NUL {
        return Signed(s1[i]) - Signed(s2[i]);
      }
      i := i + 1;
    }
    return 0;
  }

  method Strncpy(dest: array<Byte>, src: seq<Byte>, n: nat)
    requires n <= dest.Length && (n < |src| || NUL in src)
    modifies dest
    ensures dest[..n] == Padded(src, n)
    ensures dest[n..] == old(dest[n..])
  {
    var i := 0;
    while src[i] != NUL && i < n
      invariant 0 <= i <= n && i < |src| && i <= StrLen(src)
      invariant dest[..i] == src[..i]
      invariant dest[n..] == old(dest[n..])
      decreases n - i
    {
      dest[i] := src[i];
      i := i + 1;
    }
    var len := i;
    while i < n
      invariant len <= i <= n
      invariant dest[..len] == src[..len]
      invariant forall k :: len <= k < i ==> dest[k] == NUL
      invariant dest[n..] == old(dest[n..])
    {
      dest[i] := NUL;
      i := i + 1;
    }
  }
}
