/** The batch resize script: grows a Switch NAND image taken from a 32 GB
    device so that it describes a 256 GB device. It opens the MBR and the
    GPT behind it and runs the shared resize sequence with fixed numbers. */
module NxNand {
  import opened Sectors
  import opened Bytes
  import opened BlockFile
  import opened PartitionTable
  import opened Errors
  import opened Resize

  /** Sector count of the 32 GB device the image comes from. */
  const SECTOR_COUNT_32GB: nat := 61071360
  /** Sector count of the 256 GB target device. */
  const SECTOR_COUNT_256GB: nat := 488552715
  /** The list index of the grown partition; with the three header-slot
      views ahead of the array, this is on-disk slot 10. */
  const TARGET: nat := 13

  /** The new last LBA of the grown partition. */
  function NewLastLba(): (lba: nat)
    ensures lba == 487495946
    ensures lba < SECTOR_COUNT_256GB && lba < Pow256(8)
  {
    assert Pow256(8) == 0x1_0000_0000_0000_0000;
    SECTOR_COUNT_256GB - SECTOR_END_PADDING
  }

  /** What the script needs of the image: room for both copies at the end
      of the 256 GB device and, if the run gets that far, the target entry
      and both checksummed ranges in bounds. */
  predicate BatchFits(s: seq<Byte>)
  {
    RelocationFits(s, SECTOR_COUNT_256GB)
    && (MbrSignatureOk(s) && GptMagicOk(s) && EntryCountOf(s) >= 11 ==>
          GrowFits(s, SECTOR_COUNT_256GB, TargetSlot(s)))
  }

  /** How the script ends on an image holding `s`, and the store `t` it
      leaves. A bad MBR or GPT signature stops it before anything is
      written; a GPT with fewer than 11 entries has no `partitions[13]`,
      which fails after the two relocation writes. */
  predicate BatchOutcome(s: seq<Byte>, r: Result<()>, t: seq<Byte>)
    requires BatchFits(s)
  {
    if !MbrSignatureOk(s) then r == Err(InvalidMbrMagic) && t == s
    else if !GptMagicOk(s) then r == Err(InvalidGptMagic) && t == s
    else if EntryCountOf(s) < 11 then r == Err(NoSuchPartition) && t == Relocated(s, SECTOR_COUNT_256GB)
    else r == Ok(()) && t == Resized(s, SECTOR_COUNT_256GB, TargetSlot(s), NewLastLba())
  }

  /** What a successful run leaves: slot 10 ends at LBA 487495946, both
      checksums match, the last LBA of the 256 GB device holds the old LBA-1
      sector and LBA N - 33 .. N - 2 the old 0x4000 bytes from LBA 2, and
      below that block only the three updated fields differ. */
  lemma ScriptResult(s: seq<Byte>)
    requires BatchFits(s) && MbrSignatureOk(s) && GptMagicOk(s) && EntryCountOf(s) >= 11
    requires TailClear(s, SECTOR_COUNT_256GB, TargetSlot(s))
    ensures var t := Resized(s, SECTOR_COUNT_256GB, TargetSlot(s), NewLastLba());
      && ChecksumReadable(t) && ChecksumsValid(t)
      && FieldValue(t, TargetSlot(s), LAST_LBA) == 487495946
      && t[LbaOffset(SECTOR_COUNT_256GB - 1)..LbaOffset(SECTOR_COUNT_256GB)] == s[LbaOffset(1)..LbaOffset(2)]
      && t[TailStart(SECTOR_COUNT_256GB)..LbaOffset(SECTOR_COUNT_256GB - 1)]
         == s[ENTRY_ARRAY..ENTRY_ARRAY + ARRAY_COPY_SIZE]
      && forall k :: 0 <= k < TailStart(SECTOR_COUNT_256GB) && !InUpdatedField(k, TargetSlot(s)) ==> t[k] == s[k]
  {
    var n, slot, v := SECTOR_COUNT_256GB, TargetSlot(s), NewLastLba();
    ResizedTable(s, n, slot, v);
    ResizedTail(s, n, slot, v);
    ResizedPrimary(s, n, slot, v);
  }

  /** The script after the MBR and GPT are open: the shared sequence on
      `partitions[13]`, run through the MBR's view. */
  method ResizeOpened(root: File, gpt: Gpt) returns (r: Result<()>)
    requires root.offset == 0 && gpt.Opened(root.image, HeaderSlotsThenArray)
    requires BatchFits(root.image.bytes)
    requires MbrSignatureOk(root.image.bytes) && GptMagicOk(root.image.bytes)
    modifies root, root.image, gpt.view, set p | p in gpt.partitions :: p.view
    ensures BatchOutcome(old(root.image.bytes), r, root.image.bytes)
  {
    ghost var s := root.image.bytes;
    ghost var views := |gpt.partitions|;
    ghost var slot := if views > TARGET then gpt.offsets[TARGET] else 0;
    ListedSlotThirteen(s, gpt.offsets);
    r := GrowTo(root, gpt, TARGET, SECTOR_COUNT_256GB, NewLastLba());
    assert |gpt.partitions| == views && (views > TARGET ==> gpt.offsets[TARGET] == slot);
    GrowToOutcome(s, views, slot, r, root.image.bytes);
  }

  /** The outcomes `GrowTo` promises for view 13, read as the script's end. */
  lemma GrowToOutcome(s: seq<Byte>, views: nat, slot: nat, r: Result<()>, t: seq<Byte>)
    requires BatchFits(s) && MbrSignatureOk(s) && GptMagicOk(s)
    requires views == 3 + EntryCountOf(s) && (views > TARGET ==> slot == TargetSlot(s))
    requires TARGET >= views ==> r == Err(NoSuchPartition) && t == Relocated(s, SECTOR_COUNT_256GB)
    requires TARGET < views ==> r == Ok(()) && t == Resized(s, SECTOR_COUNT_256GB, slot, NewLastLba())
    ensures BatchOutcome(s, r, t)
  {
  }

  /** In the batch script's list, view 13 is on-disk slot 10. */
  lemma ListedSlotThirteen(s: seq<Byte>, offsets: seq<nat>)
    requires |s| >= 1024
    requires offsets == EntryViewOffsets(HeaderSlotsThenArray, HeaderSizeOf(s), EntryCountOf(s), EntrySizeOf(s))
    ensures |offsets| == 3 + EntryCountOf(s)
    ensures |offsets| > TARGET ==> offsets[TARGET] == TargetSlot(s)
  {
    if |offsets| > TARGET {
      ResizeTargetIsSlotTen(HeaderSizeOf(s), EntryCountOf(s), EntrySizeOf(s));
    }
  }

  /** The whole script on an image already as large as the 256 GB device. */
  method Run(image: Image) returns (r: Result<()>)
    requires BatchFits(image.bytes)
    modifies image
    ensures BatchOutcome(old(image.bytes), r, image.bytes)
  {
    var m := OpenMbr(image);
    if m.Err? {
      return Err(m.error);
    }
    var mbr := m.value;
    var g := mbr.Gpt(HeaderSlotsThenArray);
    if g.Err? {
      return Err(g.error);
    }
    r := ResizeOpened(mbr.view, g.value);
  }
}
