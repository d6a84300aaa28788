/** The resize sequence both programs run: copy the primary GPT header
    sector and the first 0x4000 bytes of the primary entry array to the end
    of the (already enlarged) device, set one entry's last LBA, then
    recompute the entry-array checksum and the header checksum.

    The copies are taken from the primary structures, not from an existing
    backup, and the copy written to the last LBA stays a verbatim primary
    header: its current-LBA, backup-LBA and checksum fields are not
    adjusted, and neither are the primary header's backup-LBA and
    last-usable-LBA fields. The model reproduces this. */
module Resize {
  import opened Sectors
  import opened Bytes
  import opened BlockFile
  import opened PartitionTable
  import opened Errors

  /** Bytes copied from LBA 2 onwards: 32 sectors. */
  const ARRAY_COPY_SIZE: nat := 0x4000
  /** Sectors both programs leave unused after the grown partition's last LBA. */
  const SECTOR_END_PADDING: nat := 1056769
  /** The on-disk entry slot both programs grow. */
  const GROWN_SLOT: nat := 10

  /** The image offset of the grown entry. */
  function TargetSlot(s: seq<Byte>): nat
    requires |s| >= 1024
  {
    EntryOffset(s, GROWN_SLOT)
  }

  /** Both copies are in bounds: the device holds n sectors and the source
      ranges exist. */
  predicate RelocationFits(s: seq<Byte>, n: nat)
  {
    33 <= n && LbaOffset(n) <= |s| && ENTRY_ARRAY + ARRAY_COPY_SIZE <= |s|
  }

  /** Start of the relocated block: LBA n - 33. */
  function TailStart(n: nat): nat
    requires 33 <= n
  {
    LbaOffset(n - 33)
  }

  /** The store after the two relocation writes: the LBA-1 sector lands in
      LBA n - 1 and the 0x4000 bytes from LBA 2 land in LBA n - 33 .. n - 2.
      Both are read before either is written. */
  function Relocated(s: seq<Byte>, n: nat): (r: seq<Byte>)
    requires RelocationFits(s, n)
    ensures |r| == |s|
    ensures r[LbaOffset(n - 1)..LbaOffset(n)] == s[LbaOffset(1)..LbaOffset(2)]
    ensures r[TailStart(n)..LbaOffset(n - 1)] == s[ENTRY_ARRAY..ENTRY_ARRAY + ARRAY_COPY_SIZE]
    ensures forall k :: 0 <= k < |s| && !(TailStart(n) <= k < LbaOffset(n)) ==> r[k] == s[k]
  {
    var header := s[LbaOffset(1)..LbaOffset(1) + SECTOR_SIZE];
    var entries := s[LbaOffset(2)..LbaOffset(2) + ARRAY_COPY_SIZE];
    var r1 := Splice(s, LbaOffset(n - 1), header);
    var r := Splice(r1, LbaOffset(n - 33), entries);
    assert forall k :: LbaOffset(n - 1) <= k < LbaOffset(n) ==> r[k] == r1[k];
    r
  }

  /** The store after `setLastLba(v)` on the entry at `slot`. */
  function Extended(s: seq<Byte>, slot: nat, v: nat): (r: seq<Byte>)
    requires ENTRY_ARRAY <= slot && slot + LAST_LBA.at + LAST_LBA.width <= |s|
    requires v < Pow256(LAST_LBA.width)
    ensures |r| == |s|
    ensures FieldValue(r, slot, LAST_LBA) == v
    ensures forall k :: 0 <= k < |s| && !(slot + 0x28 <= k < slot + 0x30) ==> r[k] == s[k]
    ensures HeaderSizeOf(r) == HeaderSizeOf(s)
    ensures EntryCountOf(r) == EntryCountOf(s) && EntrySizeOf(r) == EntrySizeOf(s)
  {
    var r := Splice(s, slot + LAST_LBA.at, ToLE(v, LAST_LBA.width));
    SameGeometry(s, r);
    r
  }

  /** Everything the full sequence reads lies inside the device: the two
      copies, the target entry's last-LBA field, and the two checksummed
      ranges as they stand after relocation. */
  predicate GrowFits(s: seq<Byte>, n: nat, slot: nat)
  {
    RelocationFits(s, n)
    && ENTRY_ARRAY <= slot && slot + LAST_LBA.at + LAST_LBA.width <= |s|
    && ChecksumReadable(Relocated(s, n))
  }

  /** `setPartitionEntriesCrc()` followed by `setCrc()`: afterwards both
      checksums match what they cover, and only the two checksum fields
      have changed. */
  function Rechecksummed(s: seq<Byte>): (r: seq<Byte>)
    requires ChecksumReadable(s)
    ensures |r| == |s| && ChecksumReadable(r) && ChecksumsValid(r)
    ensures forall k :: (0 <= k < |s| && !(GPT_HEADER + 0x10 <= k < GPT_HEADER + 0x14)
                         && !(GPT_HEADER + 0x58 <= k < GPT_HEADER + 0x5C)) ==> r[k] == s[k]
  {
    RechecksumValid(s);
    WithHeaderCrc(WithEntriesCrc(s))
  }

  /** The store after the whole sequence with the target entry at `slot`
      and its new last LBA `v`. */
  function Resized(s: seq<Byte>, n: nat, slot: nat, v: nat): (r: seq<Byte>)
    requires GrowFits(s, n, slot) && v < Pow256(LAST_LBA.width)
    ensures |r| == |s|
    ensures ChecksumReadable(r) && ChecksumsValid(r)
  {
    Rechecksummed(Extended(Relocated(s, n), slot, v))
  }

  /** The relocated copy lies wholly past the primary structures the
      sequence reads and writes. */
  predicate TailClear(s: seq<Byte>, n: nat, slot: nat)
  {
    GrowFits(s, n, slot)
    && ENTRY_ARRAY + ARRAY_COPY_SIZE <= TailStart(n)
    && slot + LAST_LBA.at + LAST_LBA.width <= TailStart(n)
    && GPT_HEADER + HeaderSizeOf(s) <= TailStart(n)
    && ENTRY_ARRAY + EntriesLength(s) <= TailStart(n)
  }

  /** Byte `k` lies in one of the three fields the sequence updates: the
      target entry's last LBA, the header checksum, the entry-array checksum. */
  predicate InUpdatedField(k: nat, slot: nat)
  {
    (slot + LAST_LBA.at <= k < slot + LAST_LBA.at + LAST_LBA.width)
    || (GPT_HEADER + HEADER_CRC.at <= k < GPT_HEADER + HEADER_CRC.at + HEADER_CRC.width)
    || (GPT_HEADER + ENTRIES_CRC.at <= k < GPT_HEADER + ENTRIES_CRC.at + ENTRIES_CRC.width)
  }

  /** Bytes outside the three updated fields keep their value from after
      relocation. */
  lemma ResizedFrame(s: seq<Byte>, n: nat, slot: nat, v: nat)
    requires GrowFits(s, n, slot) && v < Pow256(LAST_LBA.width)
    ensures |Resized(s, n, slot, v)| == |s|
    ensures forall k :: (0 <= k < |s| && !InUpdatedField(k, slot)) ==>
      Resized(s, n, slot, v)[k] == Relocated(s, n)[k]
  {
    var m := Relocated(s, n);
    var e := Extended(m, slot, v);
    ChainFrame(m, e, Rechecksummed(e), slot);
  }

  /** A store that differs from `m` only in the last-LBA field, then only
      in the two checksum fields, differs from `m` only in updated fields. */
  lemma ChainFrame(m: seq<Byte>, e: seq<Byte>, r: seq<Byte>, slot: nat)
    requires |e| == |m| && |r| == |m|
    requires forall k :: 0 <= k < |m| && !(slot + 0x28 <= k < slot + 0x30) ==> e[k] == m[k]
    requires forall k :: (0 <= k < |e| && !(GPT_HEADER + 0x10 <= k < GPT_HEADER + 0x14)
                         && !(GPT_HEADER + 0x58 <= k < GPT_HEADER + 0x5C)) ==> r[k] == e[k]
    ensures forall k :: (0 <= k < |m| && !InUpdatedField(k, slot)) ==> r[k] == m[k]
  {
  }

  /** After the sequence, the last LBA holds the pre-run LBA-1 sector and
      LBA n - 33 .. n - 2 hold the pre-run 0x4000 bytes from LBA 2: two
      adjacent, disjoint blocks ending exactly at byte 512 * n. */
  lemma ResizedTail(s: seq<Byte>, n: nat, slot: nat, v: nat)
    requires TailClear(s, n, slot) && v < Pow256(LAST_LBA.width)
    ensures Resized(s, n, slot, v)[LbaOffset(n - 1)..LbaOffset(n)] == s[LbaOffset(1)..LbaOffset(2)]
    ensures Resized(s, n, slot, v)[TailStart(n)..LbaOffset(n - 1)] == s[ENTRY_ARRAY..ENTRY_ARRAY + ARRAY_COPY_SIZE]
    ensures TailStart(n) + ARRAY_COPY_SIZE == LbaOffset(n - 1) && LbaOffset(n - 1) + SECTOR_SIZE == LbaOffset(n)
  {
    ResizedFrame(s, n, slot, v);
    RelocatedTailKept(Resized(s, n, slot, v), s, n, slot);
  }

  /** Any store that agrees with `Relocated(s, n)` outside the three
      updated fields still holds both relocated blocks. */
  lemma RelocatedTailKept(r: seq<Byte>, s: seq<Byte>, n: nat, slot: nat)
    requires RelocationFits(s, n) && |r| == |s|
    requires ENTRY_ARRAY + ARRAY_COPY_SIZE <= TailStart(n)
    requires forall k :: (0 <= k < |s| && !InUpdatedField(k, slot)) ==> r[k] == Relocated(s, n)[k]
    requires slot + LAST_LBA.at + LAST_LBA.width <= TailStart(n)
    ensures r[LbaOffset(n - 1)..LbaOffset(n)] == s[LbaOffset(1)..LbaOffset(2)]
    ensures r[TailStart(n)..LbaOffset(n - 1)] == s[ENTRY_ARRAY..ENTRY_ARRAY + ARRAY_COPY_SIZE]
  {
    var m := Relocated(s, n);
    assert SameOn(r, m, TailStart(n), LbaOffset(n));
    SameOnSlices(r, m, TailStart(n), LbaOffset(n - 1));
    SameOnSlices(r, m, LbaOffset(n - 1), LbaOffset(n));
  }

  /** Below the relocated block the primary structures change only in the
      target entry's last-LBA field and the two checksum fields. */
  lemma ResizedPrimary(s: seq<Byte>, n: nat, slot: nat, v: nat)
    requires TailClear(s, n, slot) && v < Pow256(LAST_LBA.width)
    ensures forall k :: (0 <= k < TailStart(n) && !InUpdatedField(k, slot)) ==>
      Resized(s, n, slot, v)[k] == s[k]
  {
    ResizedFrame(s, n, slot, v);
  }

  /** The target entry ends at LBA v, and both checksums are consistent with
      the header and entry array as they now stand. */
  lemma ResizedTable(s: seq<Byte>, n: nat, slot: nat, v: nat)
    requires GrowFits(s, n, slot) && v < Pow256(LAST_LBA.width)
    ensures ChecksumReadable(Resized(s, n, slot, v))
    ensures FieldValue(Resized(s, n, slot, v), slot, LAST_LBA) == v
    ensures ChecksumsValid(Resized(s, n, slot, v))
  {
    RechecksumKeepsEntry(Extended(Relocated(s, n), slot, v), slot);
  }

  /** Recomputing the checksums leaves an entry's last-LBA field alone. */
  lemma RechecksumKeepsEntry(e: seq<Byte>, slot: nat)
    requires ChecksumReadable(e)
    requires ENTRY_ARRAY <= slot && slot + LAST_LBA.at + LAST_LBA.width <= |e|
    ensures FieldValue(Rechecksummed(e), slot, LAST_LBA) == FieldValue(e, slot, LAST_LBA)
  {
    var r := Rechecksummed(e);
    assert SameOn(r, e, slot + LAST_LBA.at, slot + LAST_LBA.at + LAST_LBA.width);
    SameFieldValue(r, e, slot, LAST_LBA);
  }

  /** Stores that agree on a field's bytes read the same value from it. */
  lemma SameFieldValue(r: seq<Byte>, e: seq<Byte>, base: nat, f: Field)
    requires base + f.at + f.width <= |r| && base + f.at + f.width <= |e|
    requires SameOn(r, e, base + f.at, base + f.at + f.width)
    ensures FieldValue(r, base, f) == FieldValue(e, base, f)
  {
    SameOnSlices(r, e, base + f.at, base + f.at + f.width);
  }

  /** The primary header's backup-LBA and last-usable-LBA fields are never
      updated: they keep describing the device at its old size. */
  lemma ResizedKeepsPrimaryFields(s: seq<Byte>, n: nat, slot: nat, v: nat)
    requires TailClear(s, n, slot) && v < Pow256(LAST_LBA.width)
    ensures FieldValue(Resized(s, n, slot, v), GPT_HEADER, BACKUP_LBA) == FieldValue(s, GPT_HEADER, BACKUP_LBA)
    ensures FieldValue(Resized(s, n, slot, v), GPT_HEADER, LAST_USABLE_LBA) == FieldValue(s, GPT_HEADER, LAST_USABLE_LBA)
  {
    var r := Resized(s, n, slot, v);
    ResizedPrimary(s, n, slot, v);
    assert SameOn(r, s, GPT_HEADER + BACKUP_LBA.at, GPT_HEADER + BACKUP_LBA.at + 8);
    assert SameOn(r, s, GPT_HEADER + LAST_USABLE_LBA.at, GPT_HEADER + LAST_USABLE_LBA.at + 8);
    SameOnSlices(r, s, GPT_HEADER + BACKUP_LBA.at, GPT_HEADER + BACKUP_LBA.at + 8);
    SameOnSlices(r, s, GPT_HEADER + LAST_USABLE_LBA.at, GPT_HEADER + LAST_USABLE_LBA.at + 8);
  }

  /** The header written to the last LBA is the primary header verbatim: its
      current-LBA and backup-LBA fields still name the primary's locations. */
  lemma ResizedCopyIsPrimaryHeader(s: seq<Byte>, n: nat, slot: nat, v: nat)
    requires TailClear(s, n, slot) && v < Pow256(LAST_LBA.width)
    ensures FieldValue(Resized(s, n, slot, v), LbaOffset(n - 1), CURRENT_LBA) == FieldValue(s, GPT_HEADER, CURRENT_LBA)
    ensures FieldValue(Resized(s, n, slot, v), LbaOffset(n - 1), BACKUP_LBA) == FieldValue(s, GPT_HEADER, BACKUP_LBA)
  {
    ResizedTail(s, n, slot, v);
    HeaderCopyFields(Resized(s, n, slot, v), s, n);
  }

  /** The current-LBA and backup-LBA fields of a verbatim copy of the LBA-1
      sector placed at LBA n - 1. */
  lemma HeaderCopyFields(r: seq<Byte>, s: seq<Byte>, n: nat)
    requires 1 <= n && LbaOffset(n) <= |r| && LbaOffset(2) <= |s|
    requires r[LbaOffset(n - 1)..LbaOffset(n)] == s[LbaOffset(1)..LbaOffset(2)]
    ensures FieldValue(r, LbaOffset(n - 1), CURRENT_LBA) == FieldValue(s, GPT_HEADER, CURRENT_LBA)
    ensures FieldValue(r, LbaOffset(n - 1), BACKUP_LBA) == FieldValue(s, GPT_HEADER, BACKUP_LBA)
  {
    CopiedField(r, LbaOffset(n - 1), s, GPT_HEADER, CURRENT_LBA);
    CopiedField(r, LbaOffset(n - 1), s, GPT_HEADER, BACKUP_LBA);
  }

  /** A field read from a verbatim copy of a header sector has the value it
      has in the original. */
  lemma CopiedField(r: seq<Byte>, a: nat, s: seq<Byte>, b: nat, f: Field)
    requires a + SECTOR_SIZE <= |r| && b + SECTOR_SIZE <= |s|
    requires r[a..a + SECTOR_SIZE] == s[b..b + SECTOR_SIZE]
    requires f.at + f.width <= SECTOR_SIZE
    ensures FieldValue(r, a, f) == FieldValue(s, b, f)
  {
    forall k | a + f.at <= k < a + f.at + f.width
      ensures r[k] == s[k - a + b]
    {
      assert r[a..a + SECTOR_SIZE][k - a] == s[b..b + SECTOR_SIZE][k - a];
    }
    assert r[a + f.at..a + f.at + f.width] == s[b + f.at..b + f.at + f.width];
  }

  /** The two relocation writes, both read before either is written
      (`gptData` and `partitionData`). */
  method Relocate(root: File, n: nat)
    requires root.offset == 0 && RelocationFits(root.image.bytes, n)
    modifies root, root.image
    ensures root.image.bytes == Relocated(old(root.image.bytes), n)
  {
    var gptData := root.ReadAt(SECTOR_SIZE, LbaOffset(1));
    var partitionData := root.ReadAt(ARRAY_COPY_SIZE, LbaOffset(2));
    root.WriteAt(gptData, LbaOffset(n - 1));
    root.WriteAt(partitionData, LbaOffset(n - 33));
  }

  /** The shared sequence, run through `root` (a view at offset 0) and the
      open GPT: relocation, then `partitions[target].setLastLba(lastLba)`,
      `setPartitionEntriesCrc()` and `setCrc()`. Indexing the partition
      list and encoding the LBA happen after both copies are written, so
      their failures leave the relocated bytes in place. */
  method GrowTo(root: File, gpt: Gpt, target: nat, n: nat, lastLba: int) returns (r: Result<()>)
    requires root.offset == 0 && gpt.Valid() && gpt.view.image == root.image
    requires RelocationFits(root.image.bytes, n)
    requires target < |gpt.partitions| && 0 <= lastLba < Pow256(8) ==>
      GrowFits(root.image.bytes, n, gpt.offsets[target])
    modifies root, root.image, gpt.view, set p | p in gpt.partitions :: p.view
    ensures target >= |gpt.partitions| ==>
      r == Err(NoSuchPartition) && root.image.bytes == Relocated(old(root.image.bytes), n)
    ensures target < |gpt.partitions| && !(0 <= lastLba < Pow256(8)) ==>
      r == Err(Overflow) && root.image.bytes == Relocated(old(root.image.bytes), n)
    ensures target < |gpt.partitions| && 0 <= lastLba < Pow256(8) ==>
      r == Ok(()) && root.image.bytes == Resized(old(root.image.bytes), n, gpt.offsets[target], lastLba)
  {
    ghost var s := root.image.bytes;
    var image := root.image;
    Relocate(root, n);
    if target >= |gpt.partitions| {
      return Err(NoSuchPartition);
    }
    if !(0 <= lastLba < Pow256(8)) {
      var ok := gpt.partitions[target].SetLastLba(lastLba);
      return Err(Overflow);
    }
    ExtendEntry(gpt, target, lastLba);
    Rechecksum(gpt);
    return Ok(());
  }

  /** `partitions[target].setLastLba(v)` for a value that encodes. */
  method ExtendEntry(gpt: Gpt, target: nat, v: nat)
    requires gpt.Valid() && target < |gpt.partitions| && v < Pow256(8)
    requires ENTRY_ARRAY <= gpt.offsets[target]
    requires gpt.offsets[target] + LAST_LBA.at + LAST_LBA.width <= |gpt.view.image.bytes|
    modifies gpt.view.image, gpt.partitions[target].view
    ensures gpt.view.image.bytes == Extended(old(gpt.view.image.bytes), gpt.offsets[target], v)
  {
    var entry := gpt.partitions[target];
    assert entry.view.offset == gpt.offsets[target] && entry.view.image == gpt.view.image;
    var ok := entry.SetLastLba(v);
  }

  /** `setPartitionEntriesCrc()` followed by `setCrc()`. */
  method Rechecksum(gpt: Gpt)
    requires gpt.Valid() && ChecksumReadable(gpt.view.image.bytes)
    modifies gpt.view.image, gpt.view
    ensures gpt.view.image.bytes == Rechecksummed(old(gpt.view.image.bytes))
  {
    gpt.SetPartitionEntriesCrc();
    gpt.SetCrc();
  }
}
