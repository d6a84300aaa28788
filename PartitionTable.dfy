/** The legacy MBR and the GUID Partition Table as views over one image.
    Byte layouts follow the UEFI Specification: the legacy MBR in section
    5.2.1, the GPT header in section 5.3.2 and the partition entry in
    section 5.3.3. The first half of the module states, as functions of the
    store's bytes, what each table field holds and what the checksum
    operations do; the second half holds the views (classes) whose methods
    are proved against those functions. */
module PartitionTable {
  import opened Sectors
  import opened Bytes
  import opened Checksum
  import opened BlockFile
  import opened Errors

  // ---------------------------------------------------------------------
  // Layout

  /** A little-endian field: byte offset inside its structure and width. */
  datatype Field = Field(at: nat, width: nat)

  const MBR_ENTRIES: nat := 0x1BE
  const MBR_ENTRY_SIZE: nat := 0x10
  const MBR_ENTRY_COUNT: nat := 4
  const MBR_SIGNATURE: nat := 0x1FE

  /** The GPT header sits in LBA 1; the entry views and the checksummed
      entry array start at LBA 2. */
  const GPT_HEADER: nat := 512
  const ENTRY_ARRAY: nat := 1024
  /** The size the GPT view is opened with (never used for bounds). */
  const GPT_VIEW_SIZE: nat := 5120

  const MAGIC := Field(0x00, 8)
  const REVISION := Field(0x08, 4)
  const HEADER_SIZE := Field(0x0C, 4)
  const HEADER_CRC := Field(0x10, 4)
  const CURRENT_LBA := Field(0x18, 8)
  const BACKUP_LBA := Field(0x20, 8)
  const FIRST_USABLE_LBA := Field(0x28, 8)
  const LAST_USABLE_LBA := Field(0x30, 8)
  const DISK_GUID := Field(0x38, 16)
  const ENTRY_START_LBA := Field(0x48, 8)
  const ENTRY_COUNT := Field(0x50, 4)
  const ENTRY_SIZE := Field(0x54, 4)
  const ENTRIES_CRC := Field(0x58, 4)

  const TYPE_GUID := Field(0x00, 16)
  const UNIQUE_GUID := Field(0x10, 16)
  const FIRST_LBA := Field(0x20, 8)
  const LAST_LBA := Field(0x28, 8)
  const ATTRIBUTES := Field(0x30, 8)
  const NAME := Field(0x38, 72)

  /** "EFI PART" */
  const EFI_PART: seq<Byte> := [0x45, 0x46, 0x49, 0x20, 0x50, 0x41, 0x52, 0x54]

  // ---------------------------------------------------------------------
  // What the store holds

  /** Little-endian value of field `f` of the structure at `base`. */
  function FieldValue(s: seq<Byte>, base: nat, f: Field): (v: nat)
    requires base + f.at + f.width <= |s|
    ensures v < Pow256(f.width)
  {
    FromLE(s[base + f.at..base + f.at + f.width])
  }

  /** The `MBR.magic()` value: the two signature bytes read big-endian. It is
      0x55AA exactly when the bytes on disk are 0x55 then 0xAA. */
  function MbrMagic(s: seq<Byte>): (m: nat)
    requires |s| >= 512
    ensures m == 0x55AA <==> s[MBR_SIGNATURE] == 0x55 && s[MBR_SIGNATURE + 1] == 0xAA
  {
    FromBE2(s[MBR_SIGNATURE], s[MBR_SIGNATURE + 1])
  }

  predicate MbrSignatureOk(s: seq<Byte>)
    requires |s| >= 512
  {
    s[MBR_SIGNATURE] == 0x55 && s[MBR_SIGNATURE + 1] == 0xAA
  }

  predicate GptMagicOk(s: seq<Byte>)
    requires |s| >= 1024
  {
    s[GPT_HEADER..GPT_HEADER + 8] == EFI_PART
  }

  function HeaderSizeOf(s: seq<Byte>): nat
    requires |s| >= 1024
  {
    FieldValue(s, GPT_HEADER, HEADER_SIZE)
  }

  function EntryCountOf(s: seq<Byte>): nat
    requires |s| >= 1024
  {
    FieldValue(s, GPT_HEADER, ENTRY_COUNT)
  }

  function EntrySizeOf(s: seq<Byte>): nat
    requires |s| >= 1024
  {
    FieldValue(s, GPT_HEADER, ENTRY_SIZE)
  }

  /** Length of the checksummed entry array: entryCount * entrySize. */
  function EntriesLength(s: seq<Byte>): nat
    requires |s| >= 1024
  {
    EntryCountOf(s) * EntrySizeOf(s)
  }

  /** Image offset of on-disk entry k of the array. */
  function EntryOffset(s: seq<Byte>, k: nat): nat
    requires |s| >= 1024
  {
    ENTRY_ARRAY + k * EntrySizeOf(s)
  }

  /** The header bytes `header()` reads lie inside the store. */
  predicate HeaderReadable(s: seq<Byte>)
  {
    |s| >= 1024 && GPT_HEADER + HeaderSizeOf(s) <= |s|
  }

  /** Both checksummed ranges lie inside the store. */
  predicate ChecksumReadable(s: seq<Byte>)
  {
    HeaderReadable(s) && ENTRY_ARRAY + EntriesLength(s) <= |s|
  }

  /** `buf[0x10:0x14] = b'\x00' * 4` on a bytearray: Python clamps the slice
      to the buffer, so a header shorter than 0x14 bytes gets the four zero
      bytes in place of its tail. */
  function ZeroCrcField(h: seq<Byte>): (r: seq<Byte>)
    ensures |h| >= 0x14 ==> |r| == |h| && r[0x10..0x14] == [0, 0, 0, 0]
    ensures |h| >= 0x14 ==> forall k :: 0 <= k < |h| && !(0x10 <= k < 0x14) ==> r[k] == h[k]
    ensures |h| < 0x14 ==> r == h[..Min(|h|, 0x10)] + [0, 0, 0, 0]
  {
    h[..Min(|h|, 0x10)] + [0, 0, 0, 0] + h[Min(|h|, 0x14)..]
  }

  /** The zeroed header does not depend on what the CRC field holds. */
  lemma ZeroCrcFieldIgnoresField(h1: seq<Byte>, h2: seq<Byte>)
    requires |h1| == |h2|
    requires forall k :: 0 <= k < |h1| && !(0x10 <= k < 0x14) ==> h1[k] == h2[k]
    ensures ZeroCrcField(h1) == ZeroCrcField(h2)
  {
    if |h1| < 0x14 {
      assert h1[..Min(|h1|, 0x10)] == h2[..Min(|h2|, 0x10)];
    } else {
      assert forall k :: 0 <= k < |h1| ==> ZeroCrcField(h1)[k] == ZeroCrcField(h2)[k];
    }
  }

  /** `GPT.header()`: the first headerSize bytes of the header with the
      header CRC field zeroed. */
  function HeaderOf(s: seq<Byte>): seq<Byte>
    requires HeaderReadable(s)
  {
    ZeroCrcField(s[GPT_HEADER..GPT_HEADER + HeaderSizeOf(s)])
  }

  /** `GPT.partitionData()`: entryCount * entrySize bytes from byte 1024. */
  function PartitionDataOf(s: seq<Byte>): seq<Byte>
    requires ChecksumReadable(s)
  {
    s[ENTRY_ARRAY..ENTRY_ARRAY + EntriesLength(s)]
  }

  /** The store after `setCrc()`. */
  function WithHeaderCrc(s: seq<Byte>): (r: seq<Byte>)
    requires HeaderReadable(s)
    ensures |r| == |s|
    ensures FieldValue(r, GPT_HEADER, HEADER_CRC) == Crc32(HeaderOf(s))
    ensures forall k :: 0 <= k < |s| && !(GPT_HEADER + 0x10 <= k < GPT_HEADER + 0x14) ==> r[k] == s[k]
    ensures HeaderSizeOf(r) == HeaderSizeOf(s)
    ensures EntryCountOf(r) == EntryCountOf(s) && EntrySizeOf(r) == EntrySizeOf(s)
  {
    var r := Splice(s, GPT_HEADER + HEADER_CRC.at, ToLE(Crc32(HeaderOf(s)), 4));
    SameGeometry(s, r);
    r
  }

  /** The store after `setPartitionEntriesCrc()`. */
  function WithEntriesCrc(s: seq<Byte>): (r: seq<Byte>)
    requires ChecksumReadable(s)
    ensures |r| == |s|
    ensures FieldValue(r, GPT_HEADER, ENTRIES_CRC) == Crc32(PartitionDataOf(s))
    ensures forall k :: 0 <= k < |s| && !(GPT_HEADER + 0x58 <= k < GPT_HEADER + 0x5C) ==> r[k] == s[k]
    ensures HeaderSizeOf(r) == HeaderSizeOf(s)
    ensures EntryCountOf(r) == EntryCountOf(s) && EntrySizeOf(r) == EntrySizeOf(s)
  {
    var r := Splice(s, GPT_HEADER + ENTRIES_CRC.at, ToLE(Crc32(PartitionDataOf(s)), 4));
    SameGeometry(s, r);
    r
  }

  /** Both stored checksums match the bytes they cover. */
  predicate ChecksumsValid(s: seq<Byte>)
    requires ChecksumReadable(s)
  {
    FieldValue(s, GPT_HEADER, ENTRIES_CRC) == Crc32(PartitionDataOf(s))
    && FieldValue(s, GPT_HEADER, HEADER_CRC) == Crc32(HeaderOf(s))
  }

  /** A range a four-byte field write at `at` does not overlap reads the
      same afterwards. */
  lemma UnchangedSlice(s: seq<Byte>, t: seq<Byte>, at: nat, lo: nat, hi: nat)
    requires |s| == |t| && lo <= hi <= |s|
    requires hi <= at || at + 4 <= lo
    requires forall k :: 0 <= k < |s| && !(at <= k < at + 4) ==> t[k] == s[k]
    ensures t[lo..hi] == s[lo..hi]
  {
    assert forall k :: lo <= k < hi ==> t[k] == s[k];
  }

  /** Stores that agree on the header-size, entry-count and entry-size
      fields describe the same header and entry-array geometry. */
  lemma SameGeometry(s: seq<Byte>, t: seq<Byte>)
    requires |s| >= 1024 && |t| == |s|
    requires SameOn(s, t, GPT_HEADER + 0x0C, GPT_HEADER + 0x10)
    requires SameOn(s, t, GPT_HEADER + 0x50, GPT_HEADER + 0x58)
    ensures HeaderSizeOf(t) == HeaderSizeOf(s)
    ensures EntryCountOf(t) == EntryCountOf(s) && EntrySizeOf(t) == EntrySizeOf(s)
    ensures ChecksumReadable(s) <==> ChecksumReadable(t)
    ensures HeaderReadable(s) <==> HeaderReadable(t)
  {
    SameOnSlices(s, t, GPT_HEADER + 0x0C, GPT_HEADER + 0x10);
    SameOnSlices(s, t, GPT_HEADER + 0x50, GPT_HEADER + 0x54);
    SameOnSlices(s, t, GPT_HEADER + 0x54, GPT_HEADER + 0x58);
  }

  /** `setCrc()` leaves the zeroed header as it was: its result does not
      depend on what the CRC field held. */
  lemma HeaderCrcKeepsHeader(s: seq<Byte>)
    requires HeaderReadable(s)
    ensures HeaderReadable(WithHeaderCrc(s))
    ensures HeaderOf(WithHeaderCrc(s)) == HeaderOf(s)
  {
    HeaderIgnoresCrcField(s, WithHeaderCrc(s));
  }

  /** `setCrc()` leaves the entry array and the stored entry checksum as
      they were. */
  lemma HeaderCrcKeepsEntries(s: seq<Byte>)
    requires ChecksumReadable(s)
    ensures ChecksumReadable(WithHeaderCrc(s))
    ensures PartitionDataOf(WithHeaderCrc(s)) == PartitionDataOf(s)
    ensures FieldValue(WithHeaderCrc(s), GPT_HEADER, ENTRIES_CRC) == FieldValue(s, GPT_HEADER, ENTRIES_CRC)
  {
    var t := WithHeaderCrc(s);
    UnchangedSlice(s, t, GPT_HEADER + 0x10, GPT_HEADER + 0x58, GPT_HEADER + 0x5C);
    UnchangedSlice(s, t, GPT_HEADER + 0x10, ENTRY_ARRAY, ENTRY_ARRAY + EntriesLength(s));
  }

  /** Two stores that differ at most in the header CRC field have the same
      zeroed header. */
  lemma HeaderIgnoresCrcField(s: seq<Byte>, t: seq<Byte>)
    requires HeaderReadable(s) && |t| == |s|
    requires HeaderSizeOf(t) == HeaderSizeOf(s)
    requires forall k :: 0 <= k < |s| && !(GPT_HEADER + 0x10 <= k < GPT_HEADER + 0x14) ==> t[k] == s[k]
    ensures HeaderReadable(t) && HeaderOf(t) == HeaderOf(s)
  {
    var n := HeaderSizeOf(s);
    var h1 := s[GPT_HEADER..GPT_HEADER + n];
    var h2 := t[GPT_HEADER..GPT_HEADER + n];
    forall k | 0 <= k < n && !(0x10 <= k < 0x14)
      ensures h1[k] == h2[k]
    {
      assert h1[k] == s[GPT_HEADER + k] && h2[k] == t[GPT_HEADER + k];
    }
    ZeroCrcFieldIgnoresField(h1, h2);
  }

  /** `setPartitionEntriesCrc()` leaves the header geometry and the entry
      array as they were (the zeroed header changes when it covers the
      field, which is why the header checksum must be computed after). */
  lemma EntriesCrcFrame(s: seq<Byte>)
    requires ChecksumReadable(s)
    ensures ChecksumReadable(WithEntriesCrc(s))
    ensures PartitionDataOf(WithEntriesCrc(s)) == PartitionDataOf(s)
  {
    var t := WithEntriesCrc(s);
    UnchangedSlice(s, t, GPT_HEADER + 0x58, ENTRY_ARRAY, ENTRY_ARRAY + EntriesLength(s));
  }

  /** Recomputing the entry checksum and then the header checksum leaves both
      consistent with the bytes they cover. */
  lemma RechecksumValid(s: seq<Byte>)
    requires ChecksumReadable(s)
    ensures ChecksumReadable(WithHeaderCrc(WithEntriesCrc(s)))
    ensures ChecksumsValid(WithHeaderCrc(WithEntriesCrc(s)))
  {
    EntriesCrcFrame(s);
    HeaderCrcKeepsHeader(WithEntriesCrc(s));
    HeaderCrcKeepsEntries(WithEntriesCrc(s));
  }

  /** On a store whose checksums are consistent, neither operation changes
      anything. */
  lemma ValidIsFixpoint(s: seq<Byte>)
    requires ChecksumReadable(s) && ChecksumsValid(s)
    ensures WithEntriesCrc(s) == s
    ensures WithHeaderCrc(s) == s
  {
    ToLEFromLE(s[GPT_HEADER + 0x58..GPT_HEADER + 0x5C]);
    SpliceSelf(s, GPT_HEADER + 0x58, 4);
    ToLEFromLE(s[GPT_HEADER + 0x10..GPT_HEADER + 0x14]);
    SpliceSelf(s, GPT_HEADER + 0x10, 4);
  }

  /** Repeating `setCrc()` changes nothing. */
  lemma HeaderCrcIdempotent(s: seq<Byte>)
    requires HeaderReadable(s)
    ensures WithHeaderCrc(WithHeaderCrc(s)) == WithHeaderCrc(s)
  {
    var t := WithHeaderCrc(s);
    HeaderCrcKeepsHeader(s);
    ToLEFromLE(t[GPT_HEADER + 0x10..GPT_HEADER + 0x14]);
    SpliceSelf(t, GPT_HEADER + 0x10, 4);
  }

  /** Repeating `setPartitionEntriesCrc()` changes nothing. */
  lemma EntriesCrcIdempotent(s: seq<Byte>)
    requires ChecksumReadable(s)
    ensures WithEntriesCrc(WithEntriesCrc(s)) == WithEntriesCrc(s)
  {
    var t := WithEntriesCrc(s);
    EntriesCrcFrame(s);
    ToLEFromLE(t[GPT_HEADER + 0x58..GPT_HEADER + 0x5C]);
    SpliceSelf(t, GPT_HEADER + 0x58, 4);
  }

  // ---------------------------------------------------------------------
  // Where the entry views sit

  /** The two copies of the program build the partition list differently:
      the batch script adds three views right after the header before the
      entry array; the interactive tool skips them. */
  datatype Layout = HeaderSlotsThenArray | ArrayOnly

  /** Index of the view of on-disk slot 0 of the entry array. */
  function FirstArrayView(layout: Layout): nat {
    if layout == HeaderSlotsThenArray then 3 else 0
  }

  /** How many views the loop of `GPT.__init__` has appended before index `k`. */
  function ViewsBefore(layout: Layout, k: nat): nat {
    if layout == HeaderSlotsThenArray then k else if k < 3 then 0 else k - 3
  }

  /** The offsets the loop of `GPT.__init__` has appended after its first
      `k` iterations: index i < 3 views `first + i * entrySize` (batch script
      only), index i >= 3 views `1024 + (i - 3) * entrySize`. */
  function AppendedViews(layout: Layout, first: nat, entrySize: nat, k: nat): seq<nat>
    decreases k
  {
    if k == 0 then []
    else
      var prev := AppendedViews(layout, first, entrySize, k - 1);
      var i := k - 1;
      if i < 3 then
        (if layout == HeaderSlotsThenArray then prev + [first + i * entrySize] else prev)
      else prev + [ENTRY_ARRAY + (i - 3) * entrySize]
  }

  /** After `k` iterations the list holds `ViewsBefore(layout, k)` views: the
      header-slot views first, then consecutive entries of the array. */
  lemma {:induction false} AppendedViewsAt(layout: Layout, first: nat, entrySize: nat, k: nat)
    ensures |AppendedViews(layout, first, entrySize, k)| == ViewsBefore(layout, k)
    ensures forall j :: 0 <= j < ViewsBefore(layout, k) && j < FirstArrayView(layout) ==>
      AppendedViews(layout, first, entrySize, k)[j] == first + j * entrySize
    ensures forall j :: FirstArrayView(layout) <= j < ViewsBefore(layout, k) ==>
      AppendedViews(layout, first, entrySize, k)[j] == ENTRY_ARRAY + (j - FirstArrayView(layout)) * entrySize
  {
    if k > 0 {
      AppendedViewsAt(layout, first, entrySize, k - 1);
      var prev := AppendedViews(layout, first, entrySize, k - 1);
      var i := k - 1;
      if i < 3 && layout == HeaderSlotsThenArray {
        assert AppendedViews(layout, first, entrySize, k) == prev + [first + i * entrySize];
      } else if i >= 3 {
        assert AppendedViews(layout, first, entrySize, k) == prev + [ENTRY_ARRAY + (i - 3) * entrySize];
        assert |prev| - FirstArrayView(layout) == i - 3;
      } else {
        assert AppendedViews(layout, first, entrySize, k) == prev;
      }
    }
  }

  /** Absolute offsets of the views `GPT.__init__` appends, in list order. */
  function EntryViewOffsets(layout: Layout, headerSize: nat, count: nat, entrySize: nat): (offs: seq<nat>)
    ensures |offs| == FirstArrayView(layout) + count
    ensures forall k :: 0 <= k < count ==>
      offs[FirstArrayView(layout) + k] == ENTRY_ARRAY + k * entrySize
    ensures forall k :: 0 <= k < FirstArrayView(layout) ==>
      offs[k] == AlignUp16(GPT_HEADER + headerSize) + k * entrySize
  {
    var first := AlignUp16(GPT_HEADER + headerSize);
    AppendedViewsAt(layout, first, entrySize, count + 3);
    var offs := AppendedViews(layout, first, entrySize, count + 3);
    assert forall k :: 0 <= k < count ==> offs[FirstArrayView(layout) + k] == ENTRY_ARRAY + k * entrySize;
    offs
  }

  /** `partitions[13]` of the batch script and `partitions[10]` of the
      interactive tool are both a view of on-disk slot 10. */
  lemma ResizeTargetIsSlotTen(headerSize: nat, count: nat, entrySize: nat)
    requires count >= 11
    ensures EntryViewOffsets(HeaderSlotsThenArray, headerSize, count, entrySize)[13]
         == EntryViewOffsets(ArrayOnly, headerSize, count, entrySize)[10]
         == ENTRY_ARRAY + 10 * entrySize
  {
    var b := EntryViewOffsets(HeaderSlotsThenArray, headerSize, count, entrySize);
    assert b[3 + 10] == ENTRY_ARRAY + 10 * entrySize;
  }

  /** Offset of the k-th view of the MBR's partition list. */
  function MbrEntryOffset(k: nat): (off: nat)
    ensures k < MBR_ENTRY_COUNT ==> off + MBR_ENTRY_SIZE <= MBR_SIGNATURE
  {
    MBR_ENTRIES + MBR_ENTRY_SIZE * k
  }

  // ---------------------------------------------------------------------
  // Views

  /** `MBR`: the boot sector view and its four entry views. */
  class Mbr {
    const view: File
    var partitions: seq<File>

    ghost predicate Valid()
      reads this
    {
      view.offset == 0
      && |partitions| == MBR_ENTRY_COUNT
      && forall k :: 0 <= k < |partitions| ==>
           partitions[k].image == view.image && partitions[k].offset == MbrEntryOffset(k)
    }

    /** The part of `MBR.__init__` after the signature check: the four
        entry views at 0x1BE + 16 * k. */
    constructor (view: File)
      requires view.offset == 0
      ensures this.view == view && Valid()
      ensures forall p | p in partitions :: fresh(p)
    {
      this.view := view;
      new;
      partitions := [];
      for k := 0 to MBR_ENTRY_COUNT
        invariant |partitions| == k
        invariant forall j :: 0 <= j < k ==>
          partitions[j].image == view.image && partitions[j].offset == MbrEntryOffset(j)
        invariant forall p | p in partitions :: fresh(p)
      {
        var entry := new File(view.image, MbrEntryOffset(k), MBR_ENTRY_SIZE);
        partitions := partitions + [entry];
      }
    }

    /** `MBR.gpt()`: the GPT view at LBA 1. */
    method Gpt(layout: Layout) returns (r: Result<Gpt>)
      requires |view.image.bytes| >= 1024
      modifies view.image`transfers
      ensures r.Ok? <==> GptMagicOk(view.image.bytes)
      ensures r.Err? ==> r.error == InvalidGptMagic
      ensures r.Ok? ==> fresh(r.value) && fresh(r.value.view) && r.value.Opened(view.image, layout)
      ensures r.Ok? ==> forall p | p in r.value.partitions :: fresh(p.view)
    {
      r := OpenGpt(view.image, layout);
    }
  }

  /** `MBR.magic()`: the signature read through the sector view. */
  method ReadMbrMagic(view: File) returns (m: nat)
    requires view.offset == 0 && |view.image.bytes| >= 512
    modifies view`i, view.image`transfers
    ensures m == MbrMagic(view.image.bytes)
  {
    var sig := view.ReadAt(2, MBR_SIGNATURE);
    m := FromBE2(sig[0], sig[1]);
  }

  /** `MBR(f, 0, LBAOffset(1))`: fails unless the boot sector ends 0x55 0xAA. */
  method OpenMbr(image: Image) returns (r: Result<Mbr>)
    requires |image.bytes| >= 512
    modifies image`transfers
    ensures r.Ok? <==> MbrSignatureOk(image.bytes)
    ensures r.Err? ==> r.error == InvalidMbrMagic
    ensures r.Ok? ==> fresh(r.value) && fresh(r.value.view) && r.value.Valid() && r.value.view.image == image
  {
    var view := new File(image, 0, LbaOffset(1));
    var magic := ReadMbrMagic(view);
    if magic != 0x55AA {
      return Err(InvalidMbrMagic);
    }
    var mbr := new Mbr(view);
    return Ok(mbr);
  }

  /** `GPTPartition`: a view of one partition entry. */
  class GptPartition {
    const view: File

    constructor (image: Image, offset: nat, size: nat)
      ensures view.image == image && view.offset == offset && view.size == size && view.i == 0
      ensures fresh(view)
    {
      view := new File(image, offset, size);
    }

    /** `firstLba()`, `lastLba()`, `attributes()`: seek to the field, read it. */
    method ReadField(f: Field) returns (v: nat)
      requires view.offset + f.at + f.width <= |view.image.bytes|
      modifies view`i, view.image`transfers
      ensures v == FieldValue(view.image.bytes, view.offset, f)
    {
      view.Seek(f.at);
      v := view.ReadInt(f.width);
    }

    /** `type()`, `guid()` and the raw 72 bytes under `name()`. */
    method ReadBytes(f: Field) returns (bs: seq<Byte>)
      requires view.offset + f.at + f.width <= |view.image.bytes|
      modifies view`i, view.image`transfers
      ensures bs == view.image.bytes[view.offset + f.at..view.offset + f.at + f.width]
    {
      bs := view.ReadAt(f.width, f.at);
    }

    /** `setLastLba(n)`: fails, writing nothing, unless n fits in 64 bits. */
    method SetLastLba(n: int) returns (ok: bool)
      requires 0 <= n < Pow256(8) ==> view.offset + LAST_LBA.at + LAST_LBA.width <= |view.image.bytes|
      modifies view.image, view`i, view.image`transfers
      ensures ok <==> 0 <= n < Pow256(8)
      ensures ok ==> view.image.bytes == Splice(old(view.image.bytes), view.offset + LAST_LBA.at, ToLE(n, 8))
      ensures !ok ==> view.image.bytes == old(view.image.bytes)
    {
      view.Seek(LAST_LBA.at);
      assert view.Position() == view.offset + LAST_LBA.at && LAST_LBA.width == 8;
      ok := view.WriteInt(n, LAST_LBA.width);
    }
  }

  /** `GPT`: the header view and the list of entry views. */
  class Gpt {
    const view: File
    const layout: Layout
    var partitions: seq<GptPartition>
    /** The absolute offset of each entry view, in list order. */
    ghost var offsets: seq<nat>

    ghost predicate Valid()
      reads this
    {
      view.offset == GPT_HEADER
      && |partitions| == |offsets|
      && forall k :: 0 <= k < |partitions| ==>
           partitions[k].view.image == view.image && partitions[k].view.offset == offsets[k]
    }

    /** What `OpenGpt` promises about a fresh GPT over `image`. */
    ghost predicate Opened(image: Image, layout: Layout)
      reads this, image`bytes
    {
      Valid() && view.image == image && this.layout == layout && |image.bytes| >= 1024
      && offsets == EntryViewOffsets(layout, HeaderSizeOf(image.bytes),
                                     EntryCountOf(image.bytes), EntrySizeOf(image.bytes))
    }

    /** The part of `GPT.__init__` after the magic check: reads the header
        geometry and appends one view per entry. */
    constructor (view: File, layout: Layout)
      requires view.offset == GPT_HEADER && |view.image.bytes| >= 1024
      modifies view`i, view.image`transfers
      ensures this.view == view && Opened(view.image, layout)
      ensures forall p | p in partitions :: fresh(p) && fresh(p.view)
    {
      this.view := view;
      this.layout := layout;
      new;
      ghost var s := view.image.bytes;
      var headerSize := ReadField(HEADER_SIZE);
      var start := AlignUp16(GPT_HEADER + headerSize);
      var start2 := LbaOffset(2);
      var entrySize := ReadField(ENTRY_SIZE);
      var count := ReadField(ENTRY_COUNT);
      partitions := [];
      offsets := [];
      AppendViews(headerSize, start, start2, count, entrySize);
    }

    /** The append loop of `GPT.__init__`: `range(entryCount + 3)`, where the
        first three indices view the bytes after the header (batch script)
        or are skipped (interactive tool). */
    method AppendViews(ghost headerSize: nat, start: nat, start2: nat, count: nat, entrySize: nat)
      requires Valid() && partitions == [] && offsets == []
      requires start2 == ENTRY_ARRAY && start == AlignUp16(GPT_HEADER + headerSize)
      modifies this`partitions, this`offsets
      ensures Valid()
      ensures offsets == EntryViewOffsets(layout, headerSize, count, entrySize)
      ensures forall p | p in partitions :: fresh(p) && fresh(p.view)
    {
      for k := 0 to count + 3
        invariant offsets == AppendedViews(layout, start, entrySize, k)
        invariant Valid()
        invariant forall p | p in partitions :: fresh(p) && fresh(p.view)
      {
        AppendIndex(k, start, start2, entrySize);
      }
    }

    /** One iteration of the append loop, for index `k`. */
    method AppendIndex(k: nat, start: nat, start2: nat, entrySize: nat)
      requires Valid() && start2 == ENTRY_ARRAY
      requires offsets == AppendedViews(layout, start, entrySize, k)
      modifies this`partitions, this`offsets
      ensures Valid()
      ensures offsets == AppendedViews(layout, start, entrySize, k + 1)
      ensures forall p | p in partitions :: p in old(partitions) || (fresh(p) && fresh(p.view))
    {
      if k < 3 {
        if layout == HeaderSlotsThenArray {
          AppendView(start + k * entrySize, entrySize);
        }
      } else {
        AppendView(start2 + (k - 3) * entrySize, entrySize);
      }
    }

    /** `self.partitions.append(GPTPartition(self.f, offset, size))` */
    method AppendView(offset: nat, size: nat)
      requires Valid()
      modifies this`partitions, this`offsets
      ensures Valid()
      ensures offsets == old(offsets) + [offset]
      ensures forall p | p in partitions :: p in old(partitions) || (fresh(p) && fresh(p.view))
    {
      var p := new GptPartition(view.image, offset, size);
      partitions := partitions + [p];
      offsets := offsets + [offset];
    }

    /** `revision()`, `headerSize()`, `crc()`, `currentLba()`, `backupLba()`,
        `firstUsableLba()`, `lastUsableLba()`, `partitionEntryStartLba()`,
        `partitionEntryCount()`, `partitionEntrySize()`,
        `partitionEntriesCrc()`: seek to the field, read it. */
    method ReadField(f: Field) returns (v: nat)
      requires view.offset == GPT_HEADER && GPT_HEADER + f.at + f.width <= |view.image.bytes|
      modifies view`i, view.image`transfers
      ensures v == FieldValue(view.image.bytes, GPT_HEADER, f)
    {
      view.Seek(f.at);
      v := view.ReadInt(f.width);
    }

    /** `magic()` and `diskGUID()`: raw bytes of a field. */
    method ReadBytes(f: Field) returns (bs: seq<Byte>)
      requires view.offset == GPT_HEADER && GPT_HEADER + f.at + f.width <= |view.image.bytes|
      modifies view`i, view.image`transfers
      ensures bs == view.image.bytes[GPT_HEADER + f.at..GPT_HEADER + f.at + f.width]
    {
      bs := view.ReadAt(f.width, f.at);
    }

    /** `partitionEntryOffset()`: the byte just past the header. */
    method PartitionEntryOffset() returns (off: nat)
      requires view.offset == GPT_HEADER && |view.image.bytes| >= 1024
      modifies view`i, view.image`transfers
      ensures off == GPT_HEADER + HeaderSizeOf(view.image.bytes)
    {
      var headerSize := ReadField(HEADER_SIZE);
      off := LbaOffset(1) + headerSize;
    }

    /** `header()` */
    method Header() returns (h: seq<Byte>)
      requires view.offset == GPT_HEADER && HeaderReadable(view.image.bytes)
      modifies view`i, view.image`transfers
      ensures h == HeaderOf(view.image.bytes)
    {
      var headerSize := ReadField(HEADER_SIZE);
      var buf := view.ReadAt(headerSize, 0);
      h := ZeroCrcField(buf);
    }

    /** `partitionData()` */
    method PartitionData() returns (data: seq<Byte>)
      requires view.offset == GPT_HEADER && ChecksumReadable(view.image.bytes)
      modifies view`i, view.image`transfers
      ensures data == PartitionDataOf(view.image.bytes)
    {
      var count := ReadField(ENTRY_COUNT);
      var entrySize := ReadField(ENTRY_SIZE);
      data := view.ReadAt(count * entrySize, LbaOffset(1));
    }

    /** `setCrc()` */
    method SetCrc()
      requires view.offset == GPT_HEADER && HeaderReadable(view.image.bytes)
      modifies view.image, view`i, view.image`transfers
      ensures view.image.bytes == WithHeaderCrc(old(view.image.bytes))
    {
      var h := Header();
      var checksum := Crc32(h);
      view.Seek(HEADER_CRC.at);
      var ok := view.WriteInt(checksum, HEADER_CRC.width);
    }

    /** `setPartitionEntriesCrc()` */
    method SetPartitionEntriesCrc()
      requires view.offset == GPT_HEADER && ChecksumReadable(view.image.bytes)
      modifies view.image, view`i, view.image`transfers
      ensures view.image.bytes == WithEntriesCrc(old(view.image.bytes))
    {
      var data := PartitionData();
      var checksum := Crc32(data);
      view.Seek(ENTRIES_CRC.at);
      var ok := view.WriteInt(checksum, ENTRIES_CRC.width);
    }
  }

  /** `GPT(f, LBAOffset(1), LBAOffset(10))`: fails unless the header starts
      with "EFI PART". */
  method OpenGpt(image: Image, layout: Layout) returns (r: Result<Gpt>)
    requires |image.bytes| >= 1024
    modifies image`transfers
    ensures r.Ok? <==> GptMagicOk(image.bytes)
    ensures r.Err? ==> r.error == InvalidGptMagic
    ensures r.Ok? ==> fresh(r.value) && fresh(r.value.view) && r.value.Opened(image, layout)
    ensures r.Ok? ==> forall p | p in r.value.partitions :: fresh(p.view)
  {
    var view := new File(image, GPT_HEADER, GPT_VIEW_SIZE);
    var magic := view.ReadAt(MAGIC.width, MAGIC.at);
    if magic != EFI_PART {
      return Err(InvalidGptMagic);
    }
    var gpt := new Gpt(view, layout);
    return Ok(gpt);
  }
}
