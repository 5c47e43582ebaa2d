/**
 The cpio writer of core/cpio/mkbootfs.c, and a reader of the "newc" format that goes by the
 lengths in the headers.
 */
module Cpio {
  import opened Base
  import opened SmartSocket

  /** "070701" and "TRAILER!!!". */
  const MAGIC: bytes := [48, 55, 48, 55, 48, 49]
  const TRAILER: bytes := [84, 82, 65, 73, 76, 69, 82, 33, 33, 33]

  const HEADER := 110
  const FIRST_INODE: uint32 := 300000
  const INT_MAX := 0x7fff_ffff

  datatype Entry = Entry(mode: uint32, name: bytes, data: bytes)

  predicate Archivable(e: Entry)
  {
    0 !in e.name && e.name != TRAILER && |e.name| + 1 < TWO_32 && |e.data| < TWO_32
  }

  predicate AllArchivable(entries: seq<Entry>)
  {
    forall i :: 0 <= i < |entries| ==> Archivable(entries[i])
  }

  // ----- the format -----

  function Zeros(n: nat): (s: bytes)
    ensures |s| == n && forall i :: 0 <= i < n ==> s[i] == 0
  {
    seq(n, i => 0)
  }

  /** The next multiple of 4, and of 256. */
  function Up4(n: nat): (m: nat)
    ensures n <= m < n + 4 && m % 4 == 0
  {
    (n + 3) / 4 * 4
  }

  function Up256(n: nat): (m: nat)
    ensures n <= m < n + 256 && m % 256 == 0
  {
    (n + 255) / 256 * 256
  }

  function Padded(s: bytes, to: nat): (r: bytes)
    requires to >= |s|
    ensures |r| == to && s <= r
  {
    s + Zeros(to - |s|)
  }

  lemma PaddedMore(s: bytes, to: nat)
    requires to >= |s|
    ensures Padded(s, to + 1) == Padded(s, to) + [0]
  {
  }

  function Pad4(s: bytes): (r: bytes)
    ensures |r| == Up4(|s|) && s <= r
  {
    Padded(s, Up4(|s|))
  }

  function Hex8(n: uint32): (s: bytes)
    ensures |s| == 8
  {
    HexDigits(n, 8)
  }

  lemma Hex8RoundTrip(n: uint32)
    ensures UnhexFrom(Hex8(n), 0) == n
  {
    assert Pow16(4) == 0x1_0000 by { HexWidthBound(0, 4); }
    assert Pow16(8) == 16 * (16 * (16 * (16 * Pow16(4))));
    UnhexInvertsHexDigits(n, 8);
  }

  function Fields(values: seq<uint32>): (s: bytes)
    ensures |s| == 8 * |values|
  {
    if values == [] then [] else Hex8(values[0]) + Fields(values[1..])
  }

  lemma {:induction false} FieldAt(values: seq<uint32>, i: nat)
    requires i < |values|
    ensures Fields(values)[8 * i..8 * i + 8] == Hex8(values[i])
  {
    if i > 0 {
      FieldAt(values[1..], i - 1);
      assert Fields(values)[8..] == Fields(values[1..]);
      assert Fields(values)[8 * i..8 * i + 8] == Fields(values[1..])[8 * (i - 1)..8 * (i - 1) + 8];
    }
  }

  /** The thirteen numbers of a header: inode, mode, uid, gid, nlink, mtime, filesize, four device numbers, namesize, check. */
  function Numbers(inode: uint32, mode: uint32, dataSize: uint32, nameSize: uint32): (v: seq<uint32>)
    ensures |v| == 13
  {
    [inode, mode, 0, 0, 1, 0, dataSize, 0, 0, 0, 0, nameSize, 0]
  }

  function Header(inode: uint32, e: Entry): (h: bytes)
    requires |e.name| + 1 < TWO_32 && |e.data| < TWO_32
    ensures |h| == HEADER
  {
    MAGIC + Fields(Numbers(inode, e.mode, |e.data|, |e.name| + 1))
  }

  /** `_eject`: what the output is after one more entry. */
  function Emit(out: bytes, inode: uint32, e: Entry): bytes
    requires |e.name| + 1 < TWO_32 && |e.data| < TWO_32
  {
    Pad4(Pad4(out) + Header(inode, e) + e.name + [0]) + e.data
  }

  function NextInode(inode: uint32): uint32
  {
    if inode == 0xffff_ffff then 0 else inode + 1
  }

  function EmitAll(out: bytes, inode: uint32, entries: seq<Entry>): bytes
    requires AllArchivable(entries)
    decreases |entries|
  {
    if entries == [] then out else EmitAll(Emit(out, inode, entries[0]), NextInode(inode), entries[1..])
  }

  function InodeAfter(inode: uint32, count: nat): uint32
    decreases count
  {
    if count == 0 then inode else InodeAfter(NextInode(inode), count - 1)
  }

  /** The whole archive: the entries, the trailer, and zeros up to a multiple of 256. */
  function Archive(entries: seq<Entry>, trailerMode: uint32): bytes
    requires AllArchivable(entries)
  {
    var s := Emit(EmitAll([], FIRST_INODE, entries), InodeAfter(FIRST_INODE, |entries|), Entry(trailerMode, TRAILER, []));
    Padded(s, Up256(|s|))
  }

  // ----- the reader -----

  /** An entry with the other numbers of its header. */
  datatype Listed = Listed(inode: uint32, uid: uint32, gid: uint32, links: uint32, mtime: uint32, devices: seq<uint32>, check: uint32, entry: Entry)

  datatype ReadResult = Bad | Got(listed: Listed, next: nat)

  function Field(header: bytes, i: nat): uint32
    requires |header| == HEADER && i < 13
  {
    UnhexFrom(header[6 + 8 * i..14 + 8 * i], 0)
  }

  function Listing(header: bytes, e: Entry): Listed
    requires |header| == HEADER
  {
    Listed(Field(header, 0), Field(header, 2), Field(header, 3), Field(header, 4), Field(header, 5),
           [Field(header, 7), Field(header, 8), Field(header, 9), Field(header, 10)], Field(header, 12), e)
  }

  function ReadEntry(s: bytes, pos: nat): ReadResult
  {
    if pos + HEADER > |s| then Bad
    else
      var header, name := s[pos..pos + HEADER], pos + HEADER;
      var mode, dataSize: nat, nameSize: nat := Field(header, 1), Field(header, 6), Field(header, 11);
      if header[..6] != MAGIC || nameSize == 0 || name + nameSize > |s| || s[name + nameSize - 1] != 0 then Bad
      else
        var data := Up4(name + nameSize);
        if data + dataSize > |s| then Bad
        else Got(Listing(header, Entry(mode, s[name..name + nameSize - 1], s[data..data + dataSize])), Up4(data + dataSize))
  }

  /** The entries before the trailer; None if the archive breaks off. */
  function ReadArchive(s: bytes, pos: nat): Option<seq<Listed>>
    decreases |s| - pos
  {
    match ReadEntry(s, pos)
    case Bad => None
    case Got(e, next) =>
      if e.entry.name == TRAILER then Some([])
      else
        var rest := ReadArchive(s, next);
        if rest.None? then None else Some([e] + rest.value)
  }

  // ----- what is read is what was written -----

  lemma PartsLaid(out: bytes, header: bytes, name: bytes, data: bytes)
    requires |header| == HEADER
    ensures var s, h := Pad4(Pad4(out) + header + name + [0]) + data, Up4(|out|);
            var n := h + HEADER; var d := Up4(n + |name| + 1);
            && h % 4 == 0 && d % 4 == 0 && out <= s && |s| == d + |data|
            && s[h..n] == header && s[n..n + |name|] == name && s[n + |name|] == 0 && s[d..] == data
  {
    var head := Pad4(out) + header + name + [0];
    assert |head| == Up4(|out|) + HEADER + |name| + 1;
    var s := Pad4(head) + data;
    assert head <= s;
    assert forall i :: 0 <= i < |head| ==> s[i] == head[i];
  }

  /** Where the parts of an entry are: header and data at multiples of 4. */
  lemma EmitLayout(out: bytes, inode: uint32, e: Entry)
    requires |e.name| + 1 < TWO_32 && |e.data| < TWO_32
    ensures var s, h := Emit(out, inode, e), Up4(|out|);
            var n := h + HEADER; var d := Up4(n + |e.name| + 1);
            && h % 4 == 0 && d % 4 == 0 && out <= s && |s| == d + |e.data|
            && s[h..n] == Header(inode, e) && s[n..n + |e.name|] == e.name && s[n + |e.name|] == 0 && s[d..] == e.data
  {
    PartsLaid(out, Header(inode, e), e.name, e.data);
  }

  lemma FieldPiece(values: seq<uint32>, i: nat)
    requires |values| == 13 && i < 13
    ensures (MAGIC + Fields(values))[6 + 8 * i..14 + 8 * i] == Hex8(values[i])
  {
    FieldAt(values, i);
    Shifted(MAGIC, Fields(values), 8 * i, 8 * i + 8);
  }

  lemma FieldOf(values: seq<uint32>, i: nat)
    requires |values| == 13 && i < 13
    ensures Field(MAGIC + Fields(values), i) == values[i]
  {
    FieldPiece(values, i);
    Hex8RoundTrip(values[i]);
  }

  /** As the writer lists an entry: owned by root, one link, no times and no devices. */
  function ListedAs(inode: uint32, e: Entry): Listed
  {
    Listed(inode, 0, 0, 1, 0, [0, 0, 0, 0], 0, e)
  }

  lemma HeaderFields(inode: uint32, e: Entry)
    requires |e.name| + 1 < TWO_32 && |e.data| < TWO_32
    ensures var h := Header(inode, e);
            && h[..6] == MAGIC && Field(h, 1) == e.mode && Field(h, 6) == |e.data| && Field(h, 11) == |e.name| + 1
            && Listing(h, e) == ListedAs(inode, e)
  {
    var v := Numbers(inode, e.mode, |e.data|, |e.name| + 1);
    var h := Header(inode, e);
    forall i | 0 <= i < 13 ensures Field(h, i) == v[i] { FieldOf(v, i); }
  }

  lemma Shifted(a: bytes, b: bytes, i: nat, j: nat)
    requires i <= j <= |b|
    ensures (a + b)[|a| + i..|a| + j] == b[i..j]
  {
  }

  lemma PrefixSlice(a: bytes, s: bytes, i: nat, j: nat)
    requires a <= s && i <= j <= |a|
    ensures s[i..j] == a[i..j]
  {
  }

  /** An entry lies in `s` at `h`. */
  predicate LiesAt(s: bytes, h: nat, inode: uint32, e: Entry)
    requires |e.name| + 1 < TWO_32 && |e.data| < TWO_32
  {
    var n := h + HEADER;
    var d := Up4(n + |e.name| + 1);
    && d + |e.data| <= |s|
    && s[h..n] == Header(inode, e) && s[n..n + |e.name|] == e.name && s[n + |e.name|] == 0 && s[d..d + |e.data|] == e.data
  }

  lemma ReadAt(s: bytes, h: nat, header: bytes, e: Entry)
    requires |header| == HEADER && header[..6] == MAGIC
    requires Field(header, 1) == e.mode && Field(header, 6) == |e.data| && Field(header, 11) == |e.name| + 1
    requires var n := h + HEADER; var d := Up4(n + |e.name| + 1);
             && d + |e.data| <= |s|
             && s[h..n] == header && s[n..n + |e.name|] == e.name && s[n + |e.name|] == 0 && s[d..d + |e.data|] == e.data
    ensures ReadEntry(s, h) == Got(Listing(header, e), Up4(Up4(h + HEADER + |e.name| + 1) + |e.data|))
  {
  }

  lemma ReadParts(s: bytes, h: nat, inode: uint32, e: Entry)
    requires |e.name| + 1 < TWO_32 && |e.data| < TWO_32 && LiesAt(s, h, inode, e)
    ensures ReadEntry(s, h) == Got(ListedAs(inode, e), Up4(Up4(h + HEADER + |e.name| + 1) + |e.data|))
  {
    HeaderFields(inode, e);
    ReadAt(s, h, Header(inode, e), e);
  }

  lemma LiesRead(s: bytes, h: nat, inode: uint32, e: Entry, size: nat)
    requires |e.name| + 1 < TWO_32 && |e.data| < TWO_32 && LiesAt(s, h, inode, e)
    requires size == Up4(h + HEADER + |e.name| + 1) + |e.data|
    ensures ReadEntry(s, h) == Got(ListedAs(inode, e), Up4(size))
  {
    ReadParts(s, h, inode, e);
  }

  lemma EmitLies(out: bytes, inode: uint32, e: Entry, s: bytes)
    requires |e.name| + 1 < TWO_32 && |e.data| < TWO_32 && Emit(out, inode, e) <= s
    ensures LiesAt(s, Up4(|out|), inode, e)
    ensures |Emit(out, inode, e)| == Up4(Up4(|out|) + HEADER + |e.name| + 1) + |e.data|
  {
    var a, h := Emit(out, inode, e), Up4(|out|);
    EmitLayout(out, inode, e);
    var n := h + HEADER;
    var d := Up4(n + |e.name| + 1);
    PrefixSlice(a, s, h, n);
    PrefixSlice(a, s, n, n + |e.name|);
    PrefixSlice(a, s, d, |a|);
  }

  /** An entry is read back from where it was put, with its header, whatever follows. */
  lemma EmitRead(out: bytes, inode: uint32, e: Entry, s: bytes)
    requires |e.name| + 1 < TWO_32 && |e.data| < TWO_32 && Emit(out, inode, e) <= s
    ensures ReadEntry(s, Up4(|out|)) == Got(ListedAs(inode, e), Up4(|Emit(out, inode, e)|))
  {
    EmitLies(out, inode, e, s);
    LiesRead(s, Up4(|out|), inode, e, |Emit(out, inode, e)|);
  }

  lemma {:induction false} EmitAllExtends(out: bytes, inode: uint32, entries: seq<Entry>)
    requires AllArchivable(entries)
    ensures out <= EmitAll(out, inode, entries)
    decreases |entries|
  {
    if entries != [] {
      EmitLayout(out, inode, entries[0]);
      EmitAllExtends(Emit(out, inode, entries[0]), NextInode(inode), entries[1..]);
    }
  }

  /** The entries with consecutive inode numbers. */
  function Numbered(inode: uint32, entries: seq<Entry>): (list: seq<Listed>)
    ensures |list| == |entries|
    decreases |entries|
  {
    if entries == [] then [] else [ListedAs(inode, entries[0])] + Numbered(NextInode(inode), entries[1..])
  }

  lemma {:induction false} NumberedAt(inode: uint32, entries: seq<Entry>, i: nat)
    requires i < |entries|
    ensures Numbered(inode, entries)[i] == ListedAs((inode + i) % TWO_32, entries[i])
    decreases i
  {
    if i == 0 {
      assert inode % TWO_32 == inode;
    } else {
      NumberedAt(NextInode(inode), entries[1..], i - 1);
      assert (NextInode(inode) + (i - 1)) % TWO_32 == (inode + i) % TWO_32 by {
        if inode == 0xffff_ffff { assert inode + i == TWO_32 + (i - 1); }
      }
    }
  }

  lemma Apart(a: nat, b: nat)
    requires a < b < a + TWO_32
    ensures a % TWO_32 != b % TWO_32
  {
    var q := b / TWO_32 - a / TWO_32;
    assert b - a == TWO_32 * q + (b % TWO_32 - a % TWO_32);
  }

  /** Up to 2^32 entries have different inodes: with one link each, none is taken for a hard link to another. */
  lemma InodesDiffer(entries: seq<Entry>, i: nat, j: nat)
    requires i < j < |entries| <= TWO_32
    ensures Numbered(FIRST_INODE, entries)[i].inode != Numbered(FIRST_INODE, entries)[j].inode
  {
    NumberedAt(FIRST_INODE, entries, i);
    NumberedAt(FIRST_INODE, entries, j);
    Apart(FIRST_INODE + i, FIRST_INODE + j);
  }

  lemma {:induction false} EntriesRead(out: bytes, inode: uint32, entries: seq<Entry>, last: uint32, trailerMode: uint32, s: bytes)
    requires AllArchivable(entries)
    requires Emit(EmitAll(out, inode, entries), last, Entry(trailerMode, TRAILER, [])) <= s
    ensures ReadArchive(s, Up4(|out|)) == Some(Numbered(inode, entries))
    decreases |entries|
  {
    var all := EmitAll(out, inode, entries);
    if entries == [] {
      EmitRead(out, last, Entry(trailerMode, TRAILER, []), s);
    } else {
      var e, more := entries[0], Emit(out, inode, entries[0]);
      EmitAllExtends(more, NextInode(inode), entries[1..]);
      EmitLayout(all, last, Entry(trailerMode, TRAILER, []));
      EmitRead(out, inode, e, s);
      EntriesRead(more, NextInode(inode), entries[1..], last, trailerMode, s);
    }
  }

  /** The i-th entry is listed with the i-th inode number. */
  predicate InPlace(entries: seq<Entry>, i: nat)
    requires i < |entries|
  {
    Numbered(FIRST_INODE, entries)[i] == ListedAs((FIRST_INODE + i) % TWO_32, entries[i])
  }

  lemma NumberedAll(entries: seq<Entry>)
    ensures forall i :: 0 <= i < |entries| ==> InPlace(entries, i)
  {
    forall i | 0 <= i < |entries| ensures InPlace(entries, i) {
      NumberedAt(FIRST_INODE, entries, i);
    }
  }

  lemma ArchiveRead(entries: seq<Entry>, trailerMode: uint32)
    requires AllArchivable(entries)
    ensures ReadArchive(Archive(entries, trailerMode), 0) == Some(Numbered(FIRST_INODE, entries))
    ensures |Archive(entries, trailerMode)| % 256 == 0
  {
    EntriesRead([], FIRST_INODE, entries, InodeAfter(FIRST_INODE, |entries|), trailerMode, Archive(entries, trailerMode));
  }

  /**
   The reader recovers exactly the list of entries, each with the header its place in the list
   gives it; the archive is a multiple of 256 long.
   */
  lemma ArchiveRoundTrip(entries: seq<Entry>, trailerMode: uint32)
    requires AllArchivable(entries)
    ensures ReadArchive(Archive(entries, trailerMode), 0) == Some(Numbered(FIRST_INODE, entries))
    ensures forall i :: 0 <= i < |entries| ==> InPlace(entries, i)
    ensures |Archive(entries, trailerMode)| % 256 == 0
  {
    ArchiveRead(entries, trailerMode);
    NumberedAll(entries);
  }

  // ----- the writer -----

  /** stdout and the two counters; `totalSize` is a C int. */
  class Writer {
    var out: bytes
    var totalSize: int
    var nextInode: uint32

    predicate Valid()
      reads this
    {
      totalSize == |out|
    }

    constructor ()
      ensures Valid() && out == [] && nextInode == FIRST_INODE
    {
      out, totalSize, nextInode := [], 0, FIRST_INODE;
    }

    /** The two padding loops. */
    method PadTo4()
      requires Valid() && Up4(|out|) <= INT_MAX
      modifies this`out, this`totalSize
      ensures Valid() && out == Pad4(old(out))
    {
      ghost var s := out;
      assert s == Padded(s, totalSize);
      while totalSize % 4 != 0
        invariant Valid() && |s| <= totalSize <= Up4(|s|) && out == Padded(s, totalSize)
        decreases Up4(|s|) - totalSize
      {
        PaddedMore(s, totalSize);
        totalSize, out := totalSize + 1, out + [0];
      }
    }

    method PadTo256()
      requires Valid() && Up256(|out|) <= INT_MAX
      modifies this`out, this`totalSize
      ensures Valid() && out == Padded(old(out), Up256(|old(out)|))
    {
      ghost var s := out;
      assert s == Padded(s, totalSize);
      while totalSize % 256 != 0
        invariant Valid() && |s| <= totalSize <= Up256(|s|) && out == Padded(s, totalSize)
        decreases Up256(|s|) - totalSize
      {
        PaddedMore(s, totalSize);
        totalSize, out := totalSize + 1, out + [0];
      }
    }

    /** `_eject`. */
    method Eject(e: Entry)
      requires Valid() && |e.name| + 1 < TWO_32 && |e.data| < TWO_32
      requires |Emit(out, nextInode, e)| <= INT_MAX
      modifies this
      ensures Valid() && out == Emit(old(out), old(nextInode), e) && nextInode == NextInode(old(nextInode))
    {
      EmitLayout(out, nextInode, e);
      PadTo4();
      out := out + Header(nextInode, e) + e.name + [0];
      nextInode := NextInode(nextInode);
      totalSize := totalSize + 6 + 8 * 13 + |e.name| + 1;
      PadTo4();
      if e.data != [] {
        out, totalSize := out + e.data, totalSize + |e.data|;
      } else {
        assert out + e.data == out;
      }
    }

    /** `_eject_trailer`. */
    method EjectTrailer(mode: uint32)
      requires Valid() && Up256(|Emit(out, nextInode, Entry(mode, TRAILER, []))|) <= INT_MAX
      modifies this
      ensures Valid() && var s := Emit(old(out), old(nextInode), Entry(mode, TRAILER, [])); out == Padded(s, Up256(|s|))
    {
      Eject(Entry(mode, TRAILER, []));
      PadTo256();
    }
  }

  /** After `k` entries the output is `out`, and the next inode is `inode`. */
  predicate Emitting(entries: seq<Entry>, out: bytes, inode: uint32, k: nat)
    requires AllArchivable(entries) && k <= |entries|
  {
    && EmitAll([], FIRST_INODE, entries) == EmitAll(out, inode, entries[k..])
    && InodeAfter(FIRST_INODE, |entries|) == InodeAfter(inode, |entries| - k)
  }

  /** Every stage of the archive is shorter than the whole. */
  lemma EmittingStep(entries: seq<Entry>, trailerMode: uint32, out: bytes, inode: uint32, k: nat)
    requires AllArchivable(entries) && k < |entries| && Emitting(entries, out, inode, k)
    ensures |Emit(out, inode, entries[k])| <= |Archive(entries, trailerMode)|
    ensures Emitting(entries, Emit(out, inode, entries[k]), NextInode(inode), k + 1)
  {
    assert entries[k..][0] == entries[k] && entries[k..][1..] == entries[k + 1..];
    EmitAllExtends(Emit(out, inode, entries[k]), NextInode(inode), entries[k + 1..]);
    EmitLayout(EmitAll([], FIRST_INODE, entries), InodeAfter(FIRST_INODE, |entries|), Entry(trailerMode, TRAILER, []));
  }

  lemma EmittingDone(entries: seq<Entry>, trailerMode: uint32, out: bytes, inode: uint32)
    requires AllArchivable(entries) && Emitting(entries, out, inode, |entries|)
    ensures Archive(entries, trailerMode) == var s := Emit(out, inode, Entry(trailerMode, TRAILER, [])); Padded(s, Up256(|s|))
  {
    assert entries[|entries|..] == [];
  }

  /** Archiving a list of entries: the bytes counted are the bytes written. */
  method WriteArchive(entries: seq<Entry>, trailerMode: uint32) returns (out: bytes, totalSize: int)
    requires AllArchivable(entries) && |Archive(entries, trailerMode)| <= INT_MAX
    ensures out == Archive(entries, trailerMode) && totalSize == |out|
  {
    var w := new Writer();
    assert entries[0..] == entries;
    for k := 0 to |entries|
      invariant w.Valid() && Emitting(entries, w.out, w.nextInode, k)
    {
      EmittingStep(entries, trailerMode, w.out, w.nextInode, k);
      w.Eject(entries[k]);
    }
    EmittingDone(entries, trailerMode, w.out, w.nextInode);
    w.EjectTrailer(trailerMode);
    out, totalSize := w.out, w.totalSize;
  }
}
