// The block operations of lib.c: the assembly loops of memcpy, memset and memmove, over a
// memory in which the index is the address, against bytewise copy and fill.
module Memory {
  import opened Bytes

  // Memory after the n bytes at `dest` became what the n bytes at `src` were.
  function Copied(m: seq<Byte>, dest: nat, src: nat, n: nat): (r: seq<Byte>)
    requires dest + n <= |m| && src + n <= |m|
    ensures |r| == |m|
  {
    seq(|m|, k requires 0 <= k < |m| => if dest <= k < dest + n then m[src + (k - dest)] else m[k])
  }

  function Filled(m: seq<Byte>, dest: nat, c: Byte, n: nat): (r: seq<Byte>)
    requires dest + n <= |m|
    ensures |r| == |m|
  {
    seq(|m|, k requires 0 <= k < |m| => if dest <= k < dest + n then c else m[k])
  }

  lemma CopyNone(m: seq<Byte>, dest: nat, src: nat)
    requires dest <= |m| && src <= |m|
    ensures Copied(m, dest, src, 0) == m
  {
  }

  // Going upwards, a copy can be done in two parts when no source byte still to be read has
  // been overwritten.
  lemma CopyUp(m: seq<Byte>, dest: nat, src: nat, k: nat, j: nat)
    requires dest + k + j <= |m| && src + k + j <= |m|
    requires dest <= src || src + k + j <= dest
    ensures Copied(Copied(m, dest, src, k), dest + k, src + k, j) == Copied(m, dest, src, k + j)
  {
  }

  // Going downwards, when the source lies below the destination.
  lemma CopyDown(m: seq<Byte>, dest: nat, src: nat, k: nat)
    requires dest + k + 1 <= |m| && src < dest
    ensures Copied(Copied(m, dest + 1, src + 1, k), dest, src, 1) == Copied(m, dest, src, k + 1)
  {
  }

  lemma FillUp(m: seq<Byte>, dest: nat, c: Byte, k: nat, j: nat)
    requires dest + k + j <= |m|
    ensures Filled(Filled(m, dest, c, k), dest + k, c, j) == Filled(m, dest, c, k + j)
  {
  }

  // movsb: one byte from esi to edi.
  method MoveByte(mem: array<Byte>, edi: nat, esi: nat)
    requires edi < mem.Length && esi < mem.Length
    modifies mem
    ensures mem[..] == Copied(old(mem[..]), edi, esi, 1)
  {
    var al := mem[esi];
    mem[edi] := al;
  }

  // movsl: all four bytes are read before any is written.
  method MoveDword(mem: array<Byte>, edi: nat, esi: nat)
    requires edi + 4 <= mem.Length && esi + 4 <= mem.Length
    modifies mem
    ensures mem[..] == Copied(old(mem[..]), edi, esi, 4)
  {
    var b0, b1, b2, b3 := mem[esi], mem[esi + 1], mem[esi + 2], mem[esi + 3];
    mem[edi] := b0;
    mem[edi + 1] := b1;
    mem[edi + 2] := b2;
    mem[edi + 3] := b3;
  }

  // stosb and stosl.
  method StoreByte(mem: array<Byte>, edi: nat, al: Byte)
    requires edi < mem.Length
    modifies mem
    ensures mem[..] == Filled(old(mem[..]), edi, al, 1)
  {
    mem[edi] := al;
  }

  method StoreDword(mem: array<Byte>, edi: nat, al: Byte)
    requires edi + 4 <= mem.Length
    modifies mem
    ensures mem[..] == Filled(old(mem[..]), edi, al, 4)
  {
    mem[edi], mem[edi + 1], mem[edi + 2], mem[edi + 3] := al, al, al, al;
  }

  // The byte loops: one iteration per byte, or, before the dwords, up to a 4-aligned
  // destination.
  method MoveBytes(mem: array<Byte>, dest: nat, src: nat, n: nat)
    requires dest + n <= mem.Length && src + n <= mem.Length
    requires dest <= src || src + n <= dest
    modifies mem
    ensures mem[..] == Copied(old(mem[..]), dest, src, n)
  {
    hide Copied;
    CopyNone(mem[..], dest, src);
    ghost var m := mem[..];
    var edx := n;
    while edx != 0
      invariant 0 <= edx <= n
      invariant mem[..] == Copied(m, dest, src, n - edx)
    {
      CopyUp(m, dest, src, n - edx, 1);
      MoveByte(mem, dest + (n - edx), src + (n - edx));
      edx := edx - 1;
    }
  }

  method MoveUntilAligned(mem: array<Byte>, dest: nat, src: nat, n: nat) returns (done: nat)
    requires dest + n <= mem.Length && src + n <= mem.Length
    requires dest <= src || src + n <= dest
    modifies mem
    ensures done <= n && (done == n || (dest + done) % 4 == 0)
    ensures mem[..] == Copied(old(mem[..]), dest, src, done)
  {
    hide Copied;
    CopyNone(mem[..], dest, src);
    ghost var m := mem[..];
    done := 0;
    while done != n && (dest + done) % 4 != 0
      invariant done <= n
      invariant mem[..] == Copied(m, dest, src, done)
    {
      CopyUp(m, dest, src, done, 1);
      MoveByte(mem, dest + done, src + done);
      done := done + 1;
    }
  }

  // rep movsl.
  method MoveDwords(mem: array<Byte>, dest: nat, src: nat, count: nat)
    requires dest + 4 * count <= mem.Length && src + 4 * count <= mem.Length
    requires dest <= src || src + 4 * count <= dest
    modifies mem
    ensures mem[..] == Copied(old(mem[..]), dest, src, 4 * count)
  {
    hide Copied;
    CopyNone(mem[..], dest, src);
    ghost var m := mem[..];
    var done := 0;
    while done != count
      invariant done <= count
      invariant mem[..] == Copied(m, dest, src, 4 * done)
    {
      CopyUp(m, dest, src, 4 * done, 4);
      MoveDword(mem, dest + 4 * done, src + 4 * done);
      done := done + 1;
    }
  }

  // memcpy: bytes until the destination is 4-aligned, then dwords, then the last bytes.
  method Memcpy(mem: array<Byte>, dest: nat, src: nat, n: nat)
    requires dest + n <= mem.Length && src + n <= mem.Length
    requires dest <= src || src + n <= dest
    modifies mem
    ensures mem[..] == Copied(old(mem[..]), dest, src, n)
  {
    hide Copied;
    CopyNone(mem[..], dest, src);
    ghost var m := mem[..];
    var head := MoveUntilAligned(mem, dest, src, n);
    if head == n {
      return;
    }
    var dwords, tail := (n - head) / 4, (n - head) % 4;
    CopyUp(m, dest, src, head, 4 * dwords);
    MoveDwords(mem, dest + head, src + head, dwords);
    CopyUp(m, dest, src, head + 4 * dwords, tail);
    MoveBytes(mem, dest + head + 4 * dwords, src + head + 4 * dwords, tail);
  }

  // memset: the same three phases, storing the low byte of c.
  method Memset(mem: array<Byte>, dest: nat, c: int, n: nat)
    requires dest + n <= mem.Length
    modifies mem
    ensures mem[..] == Filled(old(mem[..]), dest, c % 256, n)
  {
    ghost var m := mem[..];
    var al: Byte := c % 256;
    var edi, ecx := dest, n;
    while ecx != 0 && edi % 4 != 0
      invariant 0 <= ecx <= n && edi == dest + (n - ecx)
      invariant mem[..] == Filled(m, dest, al, n - ecx)
    {
      FillUp(m, dest, al, n - ecx, 1);
      StoreByte(mem, edi, al);
      edi, ecx := edi + 1, ecx - 1;
    }
    if ecx == 0 {
      return;
    }
    var edx := ecx % 4;
    ecx := ecx / 4;
    while ecx != 0
      invariant 0 <= ecx && 4 * ecx + edx <= n && edi == dest + (n - edx - 4 * ecx)
      invariant mem[..] == Filled(m, dest, al, n - edx - 4 * ecx)
    {
      FillUp(m, dest, al, n - edx - 4 * ecx, 4);
      StoreDword(mem, edi, al);
      edi, ecx := edi + 4, ecx - 1;
    }
    while edx != 0
      invariant 0 <= edx <= n && edi == dest + (n - edx)
      invariant mem[..] == Filled(m, dest, al, n - edx)
    {
      FillUp(m, dest, al, n - edx, 1);
      StoreByte(mem, edi, al);
      edi, edx := edi + 1, edx - 1;
    }
  }

  // memmove: forwards when the source is not below the destination, else backwards from the
  // last byte, which leaves the processor's direction flag set; right for every overlap.
  method Memmove(mem: array<Byte>, dest: nat, src: nat, n: nat) returns (df: bool)
    requires dest + n <= mem.Length && src + n <= mem.Length
    modifies mem
    ensures mem[..] == Copied(old(mem[..]), dest, src, n)
    ensures df <==> src < dest
  {
    ghost var m := mem[..];
    df := src < dest;
    if !df {
      MoveBytes(mem, dest, src, n);
    } else {
      var esi, edi, ecx := src + n - 1, dest + n - 1, n;
      while ecx != 0
        invariant 0 <= ecx <= n && esi == src + ecx - 1 && edi == dest + ecx - 1
        invariant mem[..] == Copied(m, dest + ecx, src + ecx, n - ecx)
      {
        CopyDown(m, dest + ecx - 1, src + ecx - 1, n - ecx);
        MoveByte(mem, edi, esi);
        esi, edi, ecx := esi - 1, edi - 1, ecx - 1;
      }
    }
  }
}
