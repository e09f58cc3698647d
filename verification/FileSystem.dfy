// The read-only file system (file_system.c): files stored in 4 KB blocks named by an inode,
// and one directory of 32-byte names.
module FileSystem {
  import opened Bytes
  import opened Machine
  import opened Strings

  const BLOCK_SIZE := 4096
  const INODE_BLOCKS := 1023
  const FNAME_LENGTH := 32
  const MAX_DENTRY := 64
  const BOOT_DENTRIES := 63

  datatype Dentry = Dentry(name: seq<Byte>, ftype: nat, inode: nat)
  // `stray` is what memory holds where read_data looks for the byte past the end when the inode
  // lists no block for it.
  datatype Inode = Inode(size: nat, blocks: seq<nat>, stray: Byte)
  datatype FileSys = FileSys(dentries: seq<Dentry>, inodes: seq<Inode>, data: seq<seq<Byte>>)

  predicate Listed(fs: FileSys, n: Inode, i: nat) {
    i < |n.blocks| && n.blocks[i] < |fs.data| && |fs.data[n.blocks[i]]| == BLOCK_SIZE
  }

  // An inode whose size is in reach of its block list, and whose file's blocks exist.
  predicate InodeOk(fs: FileSys, n: Inode) {
    && |n.blocks| == INODE_BLOCKS && n.size < INODE_BLOCKS * BLOCK_SIZE
    && forall i :: 0 <= i < INODE_BLOCKS && i * BLOCK_SIZE < n.size ==> Listed(fs, n, i)
  }

  // The boot block has room for 63 directory entries.
  predicate FsOk(fs: FileSys) {
    && |fs.dentries| <= BOOT_DENTRIES
    && (forall i :: 0 <= i < |fs.dentries| ==> |fs.dentries[i].name| == FNAME_LENGTH)
    && (forall i :: 0 <= i < |fs.inodes| ==> InodeOk(fs, fs.inodes[i]))
  }

  // ---------------------------------------------------------------------------------------
  // What a file is: the blocks that its inode lists, one after another, cut at its size.

  // The first `count` blocks.
  function BlocksJoined(fs: FileSys, n: Inode, count: nat): (s: seq<Byte>)
    requires forall i :: 0 <= i < count ==> Listed(fs, n, i)
    ensures |s| == count * BLOCK_SIZE
  {
    if count == 0 then []
    else
      assert Listed(fs, n, count - 1);
      BlocksJoined(fs, n, count - 1) + fs.data[n.blocks[count - 1]]
  }

  function BlockCount(size: nat): nat {
    (size + BLOCK_SIZE - 1) / BLOCK_SIZE
  }

  function Contents(fs: FileSys, n: Inode): (s: seq<Byte>)
    requires InodeOk(fs, n)
    ensures |s| == n.size
  {
    BlocksJoined(fs, n, BlockCount(n.size))[..n.size]
  }

  // The byte after the last: the next of the block that the inode lists there, if it lists one.
  function PastEnd(fs: FileSys, n: Inode): Byte {
    var i := n.size / BLOCK_SIZE;
    if Listed(fs, n, i) then fs.data[n.blocks[i]][n.size % BLOCK_SIZE] else n.stray
  }

  // ---------------------------------------------------------------------------------------
  // What read_data makes of it, byte by byte.

  function ByteAt(fs: FileSys, n: Inode, k: nat): Byte
    requires InodeOk(fs, n) && k <= n.size
  {
    var i := k / BLOCK_SIZE;
    assert k < n.size ==> Listed(fs, n, i);
    if k == n.size && !Listed(fs, n, i) then n.stray
    else fs.data[n.blocks[i]][k % BLOCK_SIZE]
  }

  // The file's bytes, and one more.
  function Flat(fs: FileSys, n: Inode): (s: seq<Byte>)
    requires InodeOk(fs, n)
    ensures |s| == n.size + 1
  {
    seq(n.size + 1, k requires 0 <= k < n.size + 1 => ByteAt(fs, n, k))
  }

  lemma {:induction false} BlocksJoinedAt(fs: FileSys, n: Inode, count: nat, k: nat)
    requires forall i :: 0 <= i < count ==> Listed(fs, n, i)
    requires k < count * BLOCK_SIZE
    ensures k / BLOCK_SIZE < count && Listed(fs, n, k / BLOCK_SIZE)
    ensures BlocksJoined(fs, n, count)[k] == fs.data[n.blocks[k / BLOCK_SIZE]][k % BLOCK_SIZE]
    decreases count
  {
    if k < (count - 1) * BLOCK_SIZE {
      BlocksJoinedAt(fs, n, count - 1, k);
    } else {
      assert k / BLOCK_SIZE == count - 1 && k % BLOCK_SIZE == k - (count - 1) * BLOCK_SIZE;
    }
  }

  // Block-indexed storage is the flat file: the bytes at the offsets 0, 1, 2, ... are the blocks
  // one after another, and at the size comes the byte after the end.
  lemma FlatIsTheFile(fs: FileSys, n: Inode)
    requires InodeOk(fs, n)
    ensures Flat(fs, n) == Contents(fs, n) + [PastEnd(fs, n)]
  {
    var file := Contents(fs, n) + [PastEnd(fs, n)];
    forall k | 0 <= k < n.size ensures Flat(fs, n)[k] == file[k] {
      BlocksJoinedAt(fs, n, BlockCount(n.size), k);
    }
  }

  // What one read delivers, on the file.
  lemma DataReadIsTheFile(fs: FileSys, inode: nat, offset: nat, length: nat)
    requires FsOk(fs)
    ensures
      if inode < |fs.inodes| && offset < fs.inodes[inode].size then
        var n := fs.inodes[inode];
        && InodeOk(fs, n)
        && DataRead(fs, inode, offset, length) ==
             (Contents(fs, n) + [PastEnd(fs, n)])[offset..Min(offset + length, n.size + 1)]
      else DataRead(fs, inode, offset, length) == []
  {
    if inode < |fs.inodes| {
      FlatIsTheFile(fs, fs.inodes[inode]);
    }
  }

  // What read_data delivers: bytes from the offset on, up to and including the one at file_size.
  function DataRead(fs: FileSys, inode: nat, offset: nat, length: nat): (s: seq<Byte>)
    requires FsOk(fs)
    ensures |s| <= length
    ensures inode < |fs.inodes| && offset < fs.inodes[inode].size && length > 0 ==> s != []
  {
    if inode >= |fs.inodes| || offset >= fs.inodes[inode].size then []
    else Flat(fs, fs.inodes[inode])[offset..Min(offset + length, fs.inodes[inode].size + 1)]
  }

  lemma FlatAt(fs: FileSys, n: Inode, k: nat)
    requires InodeOk(fs, n) && k <= n.size
    ensures Flat(fs, n)[k] == ByteAt(fs, n, k)
  {
  }

  // One byte, through the inode's block list.
  method FetchByte(fs: FileSys, n: Inode, off: nat) returns (b: Byte)
    requires InodeOk(fs, n) && off <= n.size
    ensures b == ByteAt(fs, n, off)
  {
    var i := off / BLOCK_SIZE;
    if off == n.size && !Listed(fs, n, i) {
      return n.stray;
    }
    assert Listed(fs, n, i);
    var block := fs.data[n.blocks[i]];
    b := block[off % BLOCK_SIZE];
  }

  // read_data into buf, from index `at` on.
  method ReadData(fs: FileSys, inode: nat, offset: nat, buf: array<Byte>, at: nat, length: nat)
    returns (bytesRead: nat)
    requires FsOk(fs) && at + length <= buf.Length
    modifies buf
    ensures bytesRead == |DataRead(fs, inode, offset, length)|
    ensures buf[at..at + bytesRead] == DataRead(fs, inode, offset, length)
    ensures buf[..at] == old(buf[..at]) && buf[at + bytesRead..] == old(buf[at + bytesRead..])
  {
    hide InodeOk, Flat, ByteAt, Listed;
    bytesRead := 0;
    if inode >= |fs.inodes| {
      return;
    }
    var node := fs.inodes[inode];
    if offset >= node.size {
      return;
    }
    var off := offset;
    while bytesRead < length
      invariant bytesRead <= length && off == offset + bytesRead && off <= node.size + 1
      invariant buf[at..at + bytesRead] == Flat(fs, node)[offset..off]
      invariant buf[..at] == old(buf[..at]) && buf[at + bytesRead..] == old(buf[at + bytesRead..])
    {
      if off > node.size {
        break;
      }
      FlatAt(fs, node, off);
      var b := FetchByte(fs, node, off);
      buf[at + bytesRead] := b;
      assert buf[at..at + bytesRead + 1] == buf[at..at + bytesRead] + [Flat(fs, node)[off]];
      off := off + 1;
      bytesRead := bytesRead + 1;
    }
  }

  // ---------------------------------------------------------------------------------------
  // Reading a file in pieces through one descriptor.

  // file_pos is a 32-bit number.
  function Advance(pos: nat, request: int): nat {
    (pos + request) % TWO_32
  }

  // The pieces delivered by a sequence of reads starting at a position.
  function Pieces(fs: FileSys, inode: nat, pos: nat, requests: seq<nat>): (ps: seq<seq<Byte>>)
    requires FsOk(fs)
    ensures |ps| == |requests|
    decreases |requests|
  {
    if requests == [] then []
    else [DataRead(fs, inode, pos, requests[0])] + Pieces(fs, inode, Advance(pos, requests[0]), requests[1..])
  }

  function Joined(ps: seq<seq<Byte>>): seq<Byte> {
    if ps == [] then [] else ps[0] + Joined(ps[1..])
  }

  function Sum(requests: seq<nat>): nat {
    if requests == [] then 0 else requests[0] + Sum(requests[1..])
  }

  lemma {:induction false} SumSnoc(requests: seq<nat>, r: nat)
    ensures Sum(requests + [r]) == Sum(requests) + r
    decreases |requests|
  {
    var more := requests + [r];
    if requests == [] {
      assert more[1..] == [];
    } else {
      assert more[1..] == requests[1..] + [r];
      SumSnoc(requests[1..], r);
    }
  }

  lemma {:induction false} PiecesSnoc(fs: FileSys, inode: nat, pos: nat, requests: seq<nat>, r: nat)
    requires FsOk(fs) && pos < TWO_32
    ensures Pieces(fs, inode, pos, requests + [r]) ==
            Pieces(fs, inode, pos, requests) + [DataRead(fs, inode, (pos + Sum(requests)) % TWO_32, r)]
    decreases |requests|
  {
    hide FsOk, DataRead;
    var more := requests + [r];
    if requests == [] {
      assert more[1..] == [];
    } else {
      assert more[1..] == requests[1..] + [r];
      PiecesSnoc(fs, inode, Advance(pos, requests[0]), requests[1..], r);
      AdvanceThen(pos, requests[0], Sum(requests[1..]));
    }
  }

  lemma AdvanceThen(pos: nat, a: nat, b: nat)
    ensures (Advance(pos, a) + b) % TWO_32 == (pos + (a + b)) % TWO_32
  {
  }

  // Some number of the reads asked for exactly `size` bytes in all.
  predicate Hits(requests: seq<nat>, size: nat) {
    exists k :: 0 <= k <= |requests| && Sum(requests[..k]) == size
  }

  // Positive 31-bit requests, the last of which is the first to get nothing.
  predicate UntilEmpty(fs: FileSys, inode: nat, pos: nat, requests: seq<nat>)
    requires FsOk(fs)
  {
    var ps := Pieces(fs, inode, pos, requests);
    && requests != []
    && (forall k :: 0 <= k < |requests| ==> 0 < requests[k] < 0x8000_0000)
    && (forall k :: 0 <= k < |ps| - 1 ==> ps[k] != [])
    && ps[|ps| - 1] == []
  }

  lemma HitsShift(requests: seq<nat>, size: nat)
    requires requests != []
    ensures Hits(requests, size) <==>
            size == 0 || (size >= requests[0] && Hits(requests[1..], size - requests[0]))
  {
    if size == 0 {
      assert Sum(requests[..0]) == 0;
    } else {
      if Hits(requests, size) {
        var k :| 0 <= k <= |requests| && Sum(requests[..k]) == size;
        assert k > 0 && requests[..k][1..] == requests[1..][..k - 1];
      }
      if size >= requests[0] && Hits(requests[1..], size - requests[0]) {
        var k :| 0 <= k <= |requests[1..]| && Sum(requests[1..][..k]) == size - requests[0];
        assert requests[..k + 1][1..] == requests[1..][..k];
        assert Sum(requests[..k + 1]) == size;
      }
    }
  }

  // What is left to read: all of it up to the end, or, past the end, one byte more.
  function Rest(fs: FileSys, n: Inode, pos: nat, exact: bool): seq<Byte>
    requires InodeOk(fs, n) && pos <= n.size
  {
    if exact then Flat(fs, n)[pos..n.size] else Flat(fs, n)[pos..]
  }

  lemma UntilEmptyShift(fs: FileSys, inode: nat, pos: nat, requests: seq<nat>)
    requires FsOk(fs) && UntilEmpty(fs, inode, pos, requests)
    requires DataRead(fs, inode, pos, requests[0]) != []
    ensures UntilEmpty(fs, inode, Advance(pos, requests[0]), requests[1..])
  {
    hide DataRead;
    var ps := Pieces(fs, inode, pos, requests);
    var rest := Pieces(fs, inode, Advance(pos, requests[0]), requests[1..]);
    assert ps[1..] == rest;
    assert forall k :: 0 <= k < |rest| - 1 ==> rest[k] == ps[k + 1];
  }

  // One read that stays inside the file, and one that meets or passes its end.
  lemma ReadInside(fs: FileSys, inode: nat, pos: nat, request: nat)
    requires FsOk(fs) && inode < |fs.inodes| && 0 < request < 0x8000_0000
    requires pos + request <= fs.inodes[inode].size
    ensures
      var n := fs.inodes[inode];
      var next := pos + request;
      && DataRead(fs, inode, pos, request) != [] && Advance(pos, request) == next
      && forall exact :: DataRead(fs, inode, pos, request) + Rest(fs, n, next, exact) == Rest(fs, n, pos, exact)
  {
  }

  lemma ReadAcross(fs: FileSys, inode: nat, pos: nat, request: nat)
    requires FsOk(fs) && inode < |fs.inodes| && 0 < request < 0x8000_0000
    requires pos < fs.inodes[inode].size < pos + request
    ensures
      var n := fs.inodes[inode];
      && DataRead(fs, inode, pos, request) == Rest(fs, n, pos, false) != []
      && forall r :: DataRead(fs, inode, Advance(pos, request), r) == []
  {
  }

  lemma UntilEmptyAtEnd(fs: FileSys, inode: nat, pos: nat, requests: seq<nat>)
    requires FsOk(fs) && UntilEmpty(fs, inode, pos, requests)
    requires DataRead(fs, inode, pos, requests[0]) == []
    ensures Joined(Pieces(fs, inode, pos, requests)) == []
  {
    hide DataRead;
    var ps := Pieces(fs, inode, pos, requests);
    assert ps[0] == [] && |ps| == 1;
    assert ps[1..] == [];
  }

  // From any position in the file: the pieces up to the first empty one join to the rest of
  // the file, plus the extra byte unless the requests meet the end exactly.
  lemma {:induction false} PiecesReassemble(fs: FileSys, inode: nat, pos: nat, requests: seq<nat>)
    requires FsOk(fs) && inode < |fs.inodes| && pos <= fs.inodes[inode].size
    requires UntilEmpty(fs, inode, pos, requests)
    ensures
      var n := fs.inodes[inode];
      Joined(Pieces(fs, inode, pos, requests)) == Rest(fs, n, pos, Hits(requests, n.size - pos))
    decreases |requests|
  {
    hide FsOk, InodeOk, DataRead, UntilEmpty, Hits, Rest, Pieces, Joined, Advance;
    var n := fs.inodes[inode];
    UntilEmptyNonempty(fs, inode, pos, requests);
    HitsShift(requests, n.size - pos);
    var next := pos + requests[0];
    if pos == n.size {
      ReadAtEnd(fs, inode, requests[0]);
      UntilEmptyAtEnd(fs, inode, pos, requests);
    } else if next <= n.size {
      ReadInside(fs, inode, pos, requests[0]);
      JoinedStep(fs, inode, pos, requests);
      UntilEmptyShift(fs, inode, pos, requests);
      PiecesReassemble(fs, inode, next, requests[1..]);
    } else {
      ReadAcross(fs, inode, pos, requests[0]);
      JoinedStep(fs, inode, pos, requests);
      UntilEmptyShift(fs, inode, pos, requests);
      UntilEmptyNonempty(fs, inode, Advance(pos, requests[0]), requests[1..]);
      UntilEmptyAtEnd(fs, inode, Advance(pos, requests[0]), requests[1..]);
    }
  }

  lemma JoinedStep(fs: FileSys, inode: nat, pos: nat, requests: seq<nat>)
    requires FsOk(fs) && requests != []
    ensures Joined(Pieces(fs, inode, pos, requests)) ==
            DataRead(fs, inode, pos, requests[0]) + Joined(Pieces(fs, inode, Advance(pos, requests[0]), requests[1..]))
  {
    hide DataRead;
    assert Pieces(fs, inode, pos, requests)[1..] == Pieces(fs, inode, Advance(pos, requests[0]), requests[1..]);
  }

  lemma ReadAtEnd(fs: FileSys, inode: nat, request: nat)
    requires FsOk(fs) && inode < |fs.inodes|
    ensures
      var n := fs.inodes[inode];
      && DataRead(fs, inode, n.size, request) == []
      && forall exact :: exact ==> Rest(fs, n, n.size, exact) == []
  {
  }

  lemma UntilEmptyNonempty(fs: FileSys, inode: nat, pos: nat, requests: seq<nat>)
    requires FsOk(fs) && UntilEmpty(fs, inode, pos, requests)
    ensures requests != [] && 0 < requests[0] < 0x8000_0000
    ensures inode < |fs.inodes| ==> InodeOk(fs, fs.inodes[inode])
  {
  }

  // Reading a whole file: in order, without gap or repeat; one byte too many if and only if no
  // number of requests sums to the file size.
  lemma FileReassembles(fs: FileSys, inode: nat, requests: seq<nat>)
    requires FsOk(fs) && inode < |fs.inodes| && UntilEmpty(fs, inode, 0, requests)
    ensures
      var n := fs.inodes[inode];
      var all := Joined(Pieces(fs, inode, 0, requests));
      && (Hits(requests, n.size) ==> all == Contents(fs, n))
      && (!Hits(requests, n.size) ==> all == Contents(fs, n) + [PastEnd(fs, n)])
  {
    hide Pieces, Joined, UntilEmpty, Hits, ByteAt, Listed, Contents, PastEnd;
    PiecesReassemble(fs, inode, 0, requests);
    var n := fs.inodes[inode];
    FlatIsTheFile(fs, n);
    assert Flat(fs, n)[0..] == Flat(fs, n);
  }

  // ---------------------------------------------------------------------------------------
  // The directory.

  // The copy of an entry that the callers get: its name cut at the first NUL and padded.
  function Copy(d: Dentry): Dentry {
    d.(name := Padded(d.name, FNAME_LENGTH))
  }

  function EntryAt(fs: FileSys, index: nat): Option<Dentry> {
    if index < |fs.dentries| then Some(Copy(fs.dentries[index])) else None
  }

  predicate Named(d: Dentry, query: seq<Byte>) {
    Text(d.name, FNAME_LENGTH) == Text(query, FNAME_LENGTH)
  }

  function FirstNamed(fs: FileSys, query: seq<Byte>, from: nat): (i: nat)
    requires from <= |fs.dentries|
    ensures from <= i <= |fs.dentries|
    ensures i < |fs.dentries| ==> Named(fs.dentries[i], query)
    ensures forall k :: from <= k < i ==> !Named(fs.dentries[k], query)
    decreases |fs.dentries| - from
  {
    if from == |fs.dentries| || Named(fs.dentries[from], query) then from
    else FirstNamed(fs, query, from + 1)
  }

  function Lookup(fs: FileSys, query: seq<Byte>): Option<Dentry> {
    if StrLen(query) > FNAME_LENGTH then None
    else EntryAt(fs, FirstNamed(fs, query, 0))
  }

  // Entry j is the one that a search for the query finds.
  predicate IsFirst(fs: FileSys, query: seq<Byte>, j: nat) {
    && j < |fs.dentries| && Named(fs.dentries[j], query)
    && forall k :: 0 <= k < j ==> !Named(fs.dentries[k], query)
  }

  // A name of at most 32 bytes finds the first entry that has it: its name, its type and its
  // inode.
  lemma LookupFinds(fs: FileSys, query: seq<Byte>, j: nat)
    requires IsFirst(fs, query, j) && StrLen(query) <= FNAME_LENGTH
    ensures
      var r := Lookup(fs, query);
      && r.Some? && r.value.name == Padded(fs.dentries[j].name, FNAME_LENGTH)
      && r.value.ftype == fs.dentries[j].ftype && r.value.inode == fs.dentries[j].inode
  {
    FirstIs(fs, query, 0, j);
  }

  lemma {:induction false} FirstIs(fs: FileSys, query: seq<Byte>, from: nat, j: nat)
    requires IsFirst(fs, query, j) && from <= j
    ensures FirstNamed(fs, query, from) == j
    decreases j - from
  {
    hide Named;
    if from < j {
      FirstIs(fs, query, from + 1, j);
    }
  }

  // An index finds its entry.
  lemma IndexFinds(fs: FileSys, index: nat)
    ensures
      var r := EntryAt(fs, index);
      && (r.Some? <==> index < |fs.dentries|)
      && (r.Some? ==>
            && r.value.name == Padded(fs.dentries[index].name, FNAME_LENGTH)
            && r.value.ftype == fs.dentries[index].ftype && r.value.inode == fs.dentries[index].inode)
  {
  }

  method ReadDentryByName(fs: FileSys, fname: seq<Byte>) returns (r: Option<Dentry>)
    requires FsOk(fs) && NUL in fname
    ensures r == Lookup(fs, fname)
  {
    var len := Strlen(fname);
    if len > FNAME_LENGTH {
      return None;
    }
    var i := 0;
    while i < |fs.dentries|
      invariant 0 <= i <= |fs.dentries|
      invariant FirstNamed(fs, fname, 0) == FirstNamed(fs, fname, i)
    {
      var diff := Strncmp(fs.dentries[i].name, fname, FNAME_LENGTH);
      if diff == 0 {
        var copy := CopyName(fs.dentries[i].name);
        return Some(Dentry(copy, fs.dentries[i].ftype, fs.dentries[i].inode));
      }
      i := i + 1;
    }
    return None;
  }

  // strncpy of a whole name. The loop tests the byte after the name before it stops at 32;
  // whatever that byte is, it stops there.
  method CopyName(name: seq<Byte>) returns (copy: seq<Byte>)
    requires |name| == FNAME_LENGTH
    ensures copy == Padded(name, FNAME_LENGTH)
  {
    var dest := new Byte[FNAME_LENGTH];
    Strncpy(dest, name + [NUL], FNAME_LENGTH);
    copy := dest[..FNAME_LENGTH];
    TextOfField(name);
  }

  lemma TextOfField(name: seq<Byte>)
    requires |name| == FNAME_LENGTH
    ensures Text(name + [NUL], FNAME_LENGTH) == Text(name, FNAME_LENGTH)
  {
    StrLenOfField(name);
  }

  lemma {:induction false} StrLenOfField(name: seq<Byte>)
    ensures StrLen(name + [NUL]) == StrLen(name)
    decreases |name|
  {
    if name != [] {
      StrLenOfField(name[1..]);
      assert (name + [NUL])[1..] == name[1..] + [NUL];
    }
  }

  method ReadDentryByIndex(fs: FileSys, index: nat) returns (r: Option<Dentry>)
    requires FsOk(fs)
    ensures r == EntryAt(fs, index)
  {
    if index >= |fs.dentries| {
      return None;
    }
    var copy := CopyName(fs.dentries[index].name);
    return Some(Dentry(copy, fs.dentries[index].ftype, fs.dentries[index].inode));
  }

  // One read_dir from a position: the new position and, unless it is past the last entry, the
  // 32 bytes of a name.
  function DirRead(fs: FileSys, pos: nat): (nat, Option<seq<Byte>>) {
    if pos >= MAX_DENTRY || pos >= |fs.dentries| then (pos, None)
    else (pos + 1, Some(Padded(fs.dentries[pos].name, FNAME_LENGTH)))
  }

  // The results of a number of reads in a row.
  function Listing(fs: FileSys, pos: nat, count: nat): seq<Option<seq<Byte>>>
    decreases count
  {
    if count == 0 then [] else [DirRead(fs, pos).1] + Listing(fs, DirRead(fs, pos).0, count - 1)
  }

  // Every name once, in order, and from then on nothing.
  lemma {:induction false} ListingIsTheDirectory(fs: FileSys, pos: nat, count: nat)
    requires FsOk(fs) && pos <= |fs.dentries|
    ensures
      var l := Listing(fs, pos, count);
      && |l| == count
      && forall k :: 0 <= k < count ==>
           l[k] == if pos + k < |fs.dentries| then Some(Padded(fs.dentries[pos + k].name, FNAME_LENGTH)) else None
    decreases count
  {
    if count > 0 {
      ListingIsTheDirectory(fs, DirRead(fs, pos).0, count - 1);
    }
  }

  // A listed name, handed back as a C string, names what it was listed for.
  lemma PaddedNamesItself(name: seq<Byte>)
    requires |name| == FNAME_LENGTH
    ensures
      var query := Padded(name, FNAME_LENGTH) + [NUL];
      StrLen(query) <= FNAME_LENGTH && Text(query, FNAME_LENGTH) == Text(name, FNAME_LENGTH)
  {
    var t := Text(name, FNAME_LENGTH);
    var query := Padded(name, FNAME_LENGTH) + [NUL];
    assert query[|t|] == NUL;
    assert forall k :: 0 <= k < |t| ==> query[k] == t[k];
    assert StrLen(query) == |t|;
    assert query[..|t|] == t;
  }

  // Listing and lookup agree, both ways: every listed name finds the first entry with an equal
  // name, and that entry's type and inode; and a name of at most 32 bytes is found only if some
  // entry is listed under it.
  lemma ListedNamesAreFound(fs: FileSys, i: nat)
    requires FsOk(fs) && i < |fs.dentries|
    ensures
      var query := Padded(fs.dentries[i].name, FNAME_LENGTH) + [NUL];
      var j, r := FirstNamed(fs, query, 0), Lookup(fs, query);
      && j <= i && r.Some? && r.value.ftype == fs.dentries[j].ftype && r.value.inode == fs.dentries[j].inode
      && r.value.name == Padded(fs.dentries[j].name, FNAME_LENGTH) == Padded(fs.dentries[i].name, FNAME_LENGTH)
      && forall k :: 0 <= k < j ==> Text(fs.dentries[k].name, FNAME_LENGTH) != Text(fs.dentries[i].name, FNAME_LENGTH)
  {
    PaddedNamesItself(fs.dentries[i].name);
    var query := Padded(fs.dentries[i].name, FNAME_LENGTH) + [NUL];
    assert Named(fs.dentries[i], query);
    LookupFinds(fs, query, FirstNamed(fs, query, 0));
  }

  lemma LookupFailsExactly(fs: FileSys, query: seq<Byte>)
    requires FsOk(fs)
    ensures Lookup(fs, query).None? <==>
            StrLen(query) > FNAME_LENGTH || forall i :: 0 <= i < |fs.dentries| ==> !Named(fs.dentries[i], query)
  {
  }
}
