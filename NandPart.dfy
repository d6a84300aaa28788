/** The interactive resize tool: the partition table's free-space figure
    and the Resize button. The window, its table and the dialogs are not
    modelled; the answer to the confirmation dialog is a parameter. */
module NandPart {
  import opened Sectors
  import opened Bytes
  import opened BlockFile
  import opened PartitionTable
  import opened Errors
  import opened Resize

  /** The least free space, in bytes, the Resize button accepts. */
  const MIN_FREE_SPACE: nat := 1024 * 1024 * 1024
  /** The list index of the grown partition: on-disk slot 10. */
  const TARGET: nat := 10

  // ---------------------------------------------------------------------
  // Free space (App.refreshTable)

  /** The free space shown for a device of `size` bytes whose last listed
      partition ends at `lastLba`, computed with Python's true division:
      the sector total is clamped up to `lastLba` so the figure is never
      negative. Equal to the integer gap between the end of the device and
      byte 512 * lastLba, or zero when there is none. */
  function FreeSpace(size: nat, lastLba: nat): (free: real)
    ensures free == (if size < LbaOffset(lastLba) then 0 else size - LbaOffset(lastLba)) as real
    ensures free >= 0.0
  {
    var totalLbas := size as real / 512.0;
    var total := if totalLbas < lastLba as real then lastLba as real else totalLbas;
    512.0 * (total - lastLba as real)
  }

  /** Later entries sit no earlier in the image. */
  lemma EntryOffsetMono(s: seq<Byte>, j: nat, k: nat)
    requires |s| >= 1024 && j <= k
    ensures EntryOffset(s, j) <= EntryOffset(s, k)
  {
    MulMono(j, k, EntrySizeOf(s));
  }

  /** Without the header-slot views, the k-th view is the k-th entry. */
  lemma ArrayViewOffset(s: seq<Byte>, k: nat)
    requires |s| >= 1024 && k < EntryCountOf(s)
    ensures EntryViewOffsets(ArrayOnly, HeaderSizeOf(s), EntryCountOf(s), EntrySizeOf(s))[k] == EntryOffset(s, k)
  {
  }

  /** Every listed entry's last-LBA field lies inside the store (the last
      one is the farthest). */
  predicate ListedEntriesReadable(s: seq<Byte>)
  {
    |s| >= 1024
    && (EntryCountOf(s) == 0
        || EntryOffset(s, EntryCountOf(s) - 1) + LAST_LBA.at + LAST_LBA.width <= |s|)
  }

  /** The last LBA of the final listed entry (not the largest one), or 0
      when the GPT lists no entries. */
  function LastListedLba(s: seq<Byte>): nat
    requires ListedEntriesReadable(s)
  {
    if EntryCountOf(s) == 0 then 0
    else FieldValue(s, EntryOffset(s, EntryCountOf(s) - 1), LAST_LBA)
  }

  lemma MulMono(a: nat, b: nat, c: nat)
    requires a <= b
    ensures a * c <= b * c
  {
    assert b * c == a * c + (b - a) * c;
  }

  /** A figure of at least 1 GiB means the device extends at least 1 GiB
      past the end of the last listed partition. */
  lemma FreeSpaceThreshold(size: nat, lastLba: nat)
    ensures FreeSpace(size, lastLba) >= MIN_FREE_SPACE as real <==> size >= LbaOffset(lastLba) + MIN_FREE_SPACE
  {
  }

  /** The loop of `refreshTable()`: `lastLba = p.lastLba()` for each entry
      view in list order. */
  method ReadLastListedLba(gpt: Gpt) returns (lastLba: nat)
    requires gpt.Opened(gpt.view.image, ArrayOnly)
    requires ListedEntriesReadable(gpt.view.image.bytes)
    modifies set p | p in gpt.partitions :: p.view
    modifies gpt.view.image`transfers
    ensures lastLba == LastListedLba(gpt.view.image.bytes)
  {
    ghost var s := gpt.view.image.bytes;
    ghost var count := EntryCountOf(s);
    ghost var size := EntrySizeOf(s);
    lastLba := 0;
    var k := 0;
    while k < |gpt.partitions|
      invariant 0 <= k <= |gpt.partitions| == count
      invariant k > 0 ==> EntryOffset(s, k - 1) + LAST_LBA.at + LAST_LBA.width <= |s|
      invariant lastLba == if k == 0 then 0 else FieldValue(s, EntryOffset(s, k - 1), LAST_LBA)
    {
      lastLba := ReadEntryLastLba(gpt, k);
      k := k + 1;
    }
  }

  /** `gpt.partitions[k].lastLba()`. */
  method ReadEntryLastLba(gpt: Gpt, k: nat) returns (lastLba: nat)
    requires gpt.Opened(gpt.view.image, ArrayOnly)
    requires ListedEntriesReadable(gpt.view.image.bytes)
    requires k < |gpt.partitions|
    modifies gpt.partitions[k].view`i, gpt.view.image`transfers
    ensures EntryOffset(gpt.view.image.bytes, k) + LAST_LBA.at + LAST_LBA.width <= |gpt.view.image.bytes|
    ensures lastLba == FieldValue(gpt.view.image.bytes, EntryOffset(gpt.view.image.bytes, k), LAST_LBA)
  {
    ghost var s := gpt.view.image.bytes;
    ArrayViewOffset(s, k);
    EntryOffsetMono(s, k, EntryCountOf(s) - 1);
    lastLba := gpt.partitions[k].ReadField(LAST_LBA);
  }

  class App {
    /** Bytes free after the last listed partition, as last computed. */
    var freeSpace: real

    constructor ()
      ensures freeSpace == 0.0
    {
      freeSpace := 0.0;
    }

    /** `refreshTable()` on the selected image: open it (checking both
        signatures), walk the partition list keeping the last LBA of the
        entry seen last, then set the free space. A signature error leaves
        the previous figure. */
    method RefreshTable(src: Image) returns (r: Result<()>)
      requires |src.bytes| >= 1024
      requires MbrSignatureOk(src.bytes) && GptMagicOk(src.bytes) ==> ListedEntriesReadable(src.bytes)
      modifies this`freeSpace, src`transfers
      ensures !MbrSignatureOk(src.bytes) ==> r == Err(InvalidMbrMagic) && freeSpace == old(freeSpace)
      ensures MbrSignatureOk(src.bytes) && !GptMagicOk(src.bytes) ==>
        r == Err(InvalidGptMagic) && freeSpace == old(freeSpace)
      ensures MbrSignatureOk(src.bytes) && GptMagicOk(src.bytes) ==>
        r == Ok(()) && freeSpace == FreeSpace(|src.bytes|, LastListedLba(src.bytes))
    {
      var m := OpenMbr(src);
      if m.Err? {
        return Err(m.error);
      }
      var g := m.value.Gpt(ArrayOnly);
      if g.Err? {
        return Err(g.error);
      }
      var lastLba := ReadLastListedLba(g.value);
      freeSpace := FreeSpace(|src.bytes|, lastLba);
      return Ok(());
    }
  }

  // ---------------------------------------------------------------------
  // The new last LBA (nandpart.py:489)

  /** A Python number: `/` on two ints yields a float. */
  datatype Number = Int(i: int) | Float(x: real)

  /** `value.to_bytes(n, 'little')` as `writeInt64` evaluates it: a float
      has no `to_bytes`, an int outside [0, 256^n) raises OverflowError. */
  function ToBytes(value: Number, n: nat): (r: Result<seq<Byte>>)
    ensures r.Ok? <==> value.Int? && 0 <= value.i < Pow256(n)
    ensures r.Ok? ==> |r.value| == n && FromLE(r.value) == value.i
    ensures value.Float? ==> r == Err(NotAnInteger)
  {
    match value
    case Float(_) => Err(NotAnInteger)
    case Int(i) => if 0 <= i < Pow256(n) then Ok(ToLE(i, n)) else Err(Overflow)
  }

  /** The argument the Resize button passes to `setLastLba`, as written:
      `(file.size / 512) - SECTOR_END_PADDING`, a float. */
  function LastLbaAsWritten(size: nat): (v: Number)
    ensures v.Float?
  {
    Float(size as real / 512.0 - SECTOR_END_PADDING as real)
  }

  /** As written, the last-LBA write can never succeed, whatever the size. */
  lemma AsWrittenNeverEncodes(size: nat)
    ensures ToBytes(LastLbaAsWritten(size), LAST_LBA.width) == Err(NotAnInteger)
  {
  }

  /** The intended argument: the device's sector count minus the padding,
      as an integer. For a whole number of sectors it has the value of the
      float the code computes. */
  function LastLbaIntended(size: nat): (v: int)
    ensures size % SECTOR_SIZE == 0 ==> v as real == LastLbaAsWritten(size).x
    ensures size % SECTOR_SIZE == 0 ==> LbaOffset(v + SECTOR_END_PADDING) == size
  {
    size / SECTOR_SIZE - SECTOR_END_PADDING
  }

  // ---------------------------------------------------------------------
  // The Resize button (Header.onCopy)

  /** How a press of the Resize button ends. */
  datatype CopyOutcome =
    | NoSource             // index 0, the placeholder entry, is selected
    | NotEnoughSpace       // free space below 1 GiB
    | Declined             // the confirmation dialog was not answered Yes
    | Failed(error: Error) // an exception escaped
    | Done

  /** Sector count of an image whose size is a whole number of sectors. */
  function SectorCount(s: seq<Byte>): nat
  {
    |s| / SECTOR_SIZE
  }

  /** What the resize needs of the selected image: a whole number of
      sectors, room for both copies, and, if the run gets that far, the
      target entry and both checksummed ranges in bounds. */
  predicate ResizeFits(s: seq<Byte>)
  {
    |s| % SECTOR_SIZE == 0 && RelocationFits(s, SectorCount(s))
    && (MbrSignatureOk(s) && GptMagicOk(s) && EntryCountOf(s) > TARGET
        && 0 <= LastLbaIntended(|s|) < Pow256(LAST_LBA.width)
        ==> GrowFits(s, SectorCount(s), TargetSlot(s)))
  }

  /** How a confirmed resize of an image holding `s` ends, and the store `t`
      it leaves. Signature errors stop it before anything is written; a
      missing slot or an unencodable LBA stops it after the relocation. */
  predicate ResizeOutcome(s: seq<Byte>, o: CopyOutcome, t: seq<Byte>)
    requires ResizeFits(s)
  {
    var n := SectorCount(s);
    if !MbrSignatureOk(s) then o == Failed(InvalidMbrMagic) && t == s
    else if !GptMagicOk(s) then o == Failed(InvalidGptMagic) && t == s
    else if EntryCountOf(s) <= TARGET then o == Failed(NoSuchPartition) && t == Relocated(s, n)
    else if !(0 <= LastLbaIntended(|s|) < Pow256(LAST_LBA.width)) then
      o == Failed(Overflow) && t == Relocated(s, n)
    else o == Done && t == Resized(s, n, TargetSlot(s), LastLbaIntended(|s|))
  }

  /** What a completed resize leaves: slot 10 ends at the image's sector
      count minus the padding, both checksums match, the last sector (at
      `size - 512`) holds the old LBA-1 sector and the 32 sectors before
      it (from `size - 33 * 512`) the old 0x4000 bytes from LBA 2, and
      below that block only the three updated fields differ. */
  lemma ResizeResult(s: seq<Byte>, n: nat)
    requires ResizeFits(s) && MbrSignatureOk(s) && GptMagicOk(s) && EntryCountOf(s) > TARGET
    requires n == SectorCount(s) && 0 <= LastLbaIntended(|s|) < Pow256(LAST_LBA.width)
    requires TailClear(s, n, TargetSlot(s))
    ensures LbaOffset(n) == |s|
    ensures var t := Resized(s, n, TargetSlot(s), LastLbaIntended(|s|));
      && ChecksumReadable(t) && ChecksumsValid(t)
      && FieldValue(t, TargetSlot(s), LAST_LBA) == n - SECTOR_END_PADDING
      && t[LbaOffset(n - 1)..LbaOffset(n)] == s[LbaOffset(1)..LbaOffset(2)]
      && t[TailStart(n)..LbaOffset(n - 1)] == s[ENTRY_ARRAY..ENTRY_ARRAY + ARRAY_COPY_SIZE]
      && forall k :: 0 <= k < TailStart(n) && !InUpdatedField(k, TargetSlot(s)) ==> t[k] == s[k]
  {
    var slot, v := TargetSlot(s), LastLbaIntended(|s|);
    ResizedTable(s, n, slot, v);
    ResizedTail(s, n, slot, v);
    ResizedPrimary(s, n, slot, v);
  }

  /** The free-space guard of `onCopy()` passes only when the new last LBA
      of slot 10 lies more than 1040383 sectors (2^21 minus the padding)
      past the end of the final listed partition; when slot 10 is itself
      the final listed entry, the resize strictly grows it. */
  lemma GuardedResizeGrows(s: seq<Byte>)
    requires |s| % SECTOR_SIZE == 0 && ListedEntriesReadable(s)
    requires FreeSpace(|s|, LastListedLba(s)) >= MIN_FREE_SPACE as real
    ensures LastLbaIntended(|s|) >= LastListedLba(s) + 1040383
    ensures EntryCountOf(s) == TARGET + 1 ==>
      LastLbaIntended(|s|) > FieldValue(s, TargetSlot(s), LAST_LBA)
  {
    var last := LastListedLba(s);
    FreeSpaceThreshold(|s|, last);
    var q := |s| / SECTOR_SIZE;
    assert |s| == SECTOR_SIZE * q;
    assert SECTOR_SIZE * q >= SECTOR_SIZE * (last + 2097152);
  }

  /** The body of `onCopy()` past its guards: `file.open('rb+')` (which
      checks the MBR signature), `mbr.gpt()`, then the shared sequence. */
  method ResizeImage(image: Image) returns (o: CopyOutcome)
    requires ResizeFits(image.bytes)
    modifies image
    ensures ResizeOutcome(old(image.bytes), o, image.bytes)
  {
    var root := new File(image, 0, |image.bytes|);
    var m := OpenMbr(image);
    if m.Err? {
      return Failed(m.error);
    }
    var g := m.value.Gpt(ArrayOnly);
    if g.Err? {
      return Failed(g.error);
    }
    var r := ResizeOpened(root, g.value);
    o := if r.Ok? then Done else Failed(r.error);
  }

  /** The shared sequence on `partitions[10]`, with the image's sector
      count and the intended integer last LBA. */
  method ResizeOpened(root: File, gpt: Gpt) returns (r: Result<()>)
    requires root.offset == 0 && gpt.Opened(root.image, ArrayOnly)
    requires ResizeFits(root.image.bytes)
    requires MbrSignatureOk(root.image.bytes) && GptMagicOk(root.image.bytes)
    modifies root, root.image, gpt.view, set p | p in gpt.partitions :: p.view
    ensures ResizeOutcome(old(root.image.bytes), if r.Ok? then Done else Failed(r.error), root.image.bytes)
  {
    ghost var s := root.image.bytes;
    var size := |root.image.bytes|;
    ghost var views := |gpt.partitions|;
    ghost var slot := if views > TARGET then gpt.offsets[TARGET] else 0;
    ListedSlotTen(s, gpt.offsets);
    var n := size / SECTOR_SIZE;
    var lastLba := LastLbaIntended(size);
    r := GrowTo(root, gpt, TARGET, n, lastLba);
    assert |gpt.partitions| == views && (views > TARGET ==> gpt.offsets[TARGET] == slot);
    GrowToOutcome(s, views, slot, n, lastLba, r, root.image.bytes);
  }

  /** How a confirmed resize ends as the code is written: the signature
      checks and the two relocation writes as before, then `setLastLba`
      raises on the float before it writes anything, so neither checksum is
      recomputed. */
  predicate ResizeOutcomeAsWritten(s: seq<Byte>, o: CopyOutcome, t: seq<Byte>)
    requires ResizeFits(s)
  {
    var n := SectorCount(s);
    if !MbrSignatureOk(s) then o == Failed(InvalidMbrMagic) && t == s
    else if !GptMagicOk(s) then o == Failed(InvalidGptMagic) && t == s
    else if EntryCountOf(s) <= TARGET then o == Failed(NoSuchPartition) && t == Relocated(s, n)
    else o == Failed(NotAnInteger) && t == Relocated(s, n)
  }

  /** The body of `onCopy()` past its guards, as written: the last-LBA
      argument is the float `LastLbaAsWritten`, whose `to_bytes` raises for
      every image, so the checksum updates after it are never reached. */
  method ResizeImageAsWritten(image: Image) returns (o: CopyOutcome)
    requires ResizeFits(image.bytes)
    modifies image
    ensures ResizeOutcomeAsWritten(old(image.bytes), o, image.bytes)
  {
    ghost var s := image.bytes;
    var size := |image.bytes|;
    var root := new File(image, 0, size);
    var m := OpenMbr(image);
    if m.Err? {
      return Failed(m.error);
    }
    var g := m.value.Gpt(ArrayOnly);
    if g.Err? {
      return Failed(g.error);
    }
    var gpt := g.value;
    ListedSlotTen(s, gpt.offsets);
    Relocate(root, size / SECTOR_SIZE);
    if |gpt.partitions| <= TARGET {
      return Failed(NoSuchPartition);
    }
    gpt.partitions[TARGET].view.Seek(LAST_LBA.at);
    var encoded := ToBytes(LastLbaAsWritten(size), LAST_LBA.width);
    AsWrittenNeverEncodes(size);
    return Failed(encoded.error);
  }

  /** As written, a resize that gets as far as slot 10 leaves the primary
      structures exactly as they were: slot 10 keeps its last LBA and the
      two stored checksums keep their old values; only the copied block at
      the end of the device has changed. */
  lemma AsWrittenKeepsTable(s: seq<Byte>, n: nat)
    requires |s| >= 1024 && TailClear(s, n, TargetSlot(s))
    ensures var t := Relocated(s, n);
      && t[..TailStart(n)] == s[..TailStart(n)]
      && FieldValue(t, TargetSlot(s), LAST_LBA) == FieldValue(s, TargetSlot(s), LAST_LBA)
      && FieldValue(t, GPT_HEADER, HEADER_CRC) == FieldValue(s, GPT_HEADER, HEADER_CRC)
      && FieldValue(t, GPT_HEADER, ENTRIES_CRC) == FieldValue(s, GPT_HEADER, ENTRIES_CRC)
  {
    var t, end := Relocated(s, n), TailStart(n);
    assert SameOn(t, s, 0, end);
    assert t[..end] == s[..end];
    SameFieldValue(t, s, TargetSlot(s), LAST_LBA);
    SameFieldValue(t, s, GPT_HEADER, HEADER_CRC);
    SameFieldValue(t, s, GPT_HEADER, ENTRIES_CRC);
  }

  /** In the interactive tool's list, view 10 is on-disk slot 10. */
  lemma ListedSlotTen(s: seq<Byte>, offsets: seq<nat>)
    requires |s| >= 1024
    requires offsets == EntryViewOffsets(ArrayOnly, HeaderSizeOf(s), EntryCountOf(s), EntrySizeOf(s))
    ensures |offsets| == EntryCountOf(s)
    ensures |offsets| > TARGET ==> offsets[TARGET] == TargetSlot(s)
  {
    if |offsets| > TARGET {
      ResizeTargetIsSlotTen(HeaderSizeOf(s), EntryCountOf(s), EntrySizeOf(s));
    }
  }

  /** The outcomes `GrowTo` promises for slot 10 of the list, read as the
      outcome of the Resize button. */
  lemma GrowToOutcome(s: seq<Byte>, views: nat, slot: nat, n: nat, lastLba: int, r: Result<()>, t: seq<Byte>)
    requires ResizeFits(s) && MbrSignatureOk(s) && GptMagicOk(s)
    requires n == SectorCount(s) && lastLba == LastLbaIntended(|s|)
    requires views == EntryCountOf(s) && (views > TARGET ==> slot == TargetSlot(s))
    requires TARGET >= views ==> r == Err(NoSuchPartition) && t == Relocated(s, n)
    requires TARGET < views && !(0 <= lastLba < Pow256(8)) ==> r == Err(Overflow) && t == Relocated(s, n)
    requires TARGET < views && 0 <= lastLba < Pow256(8) ==> r == Ok(()) && t == Resized(s, n, slot, lastLba)
    ensures ResizeOutcome(s, if r.Ok? then Done else Failed(r.error), t)
  {
  }

  class Header {
    const app: App
    const files: seq<Image>
    /** Index of the selected source in `files`; 0 is the placeholder. */
    var srcSelected: nat

    constructor (app: App, files: seq<Image>)
      ensures this.app == app && this.files == files && srcSelected == 0
    {
      this.app := app;
      this.files := files;
      srcSelected := 0;
    }

    /** The three guards of `onCopy()` all pass. */
    predicate Proceeds(confirmed: bool)
      reads this, app
    {
      srcSelected != 0 && app.freeSpace >= MIN_FREE_SPACE as real && confirmed
    }

    /** `onCopy()`: nothing is written unless a source is selected, the
        last computed free space is at least 1 GiB and the user confirms.
        Then the selected image is opened and the shared sequence runs on
        `partitions[10]` with the sector count of the image. A GPT with at
        most 10 entries fails after the two relocation writes. */
    method OnCopy(confirmed: bool) returns (o: CopyOutcome)
      requires srcSelected < |files|
      requires Proceeds(confirmed) ==> ResizeFits(files[srcSelected].bytes)
      modifies files[srcSelected]
      ensures !Proceeds(confirmed) ==> files[srcSelected].bytes == old(files[srcSelected].bytes)
      ensures srcSelected == 0 ==> o == NoSource
      ensures srcSelected != 0 && app.freeSpace < MIN_FREE_SPACE as real ==> o == NotEnoughSpace
      ensures srcSelected != 0 && app.freeSpace >= MIN_FREE_SPACE as real && !confirmed ==> o == Declined
      ensures Proceeds(confirmed) ==>
        ResizeOutcome(old(files[srcSelected].bytes), o, files[srcSelected].bytes)
    {
      if srcSelected == 0 {
        return NoSource;
      }
      if app.freeSpace < MIN_FREE_SPACE as real {
        return NotEnoughSpace;
      }
      if !confirmed {
        return Declined;
      }
      o := ResizeImage(files[srcSelected]);
    }
  }
}
