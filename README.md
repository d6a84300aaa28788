# nandpart: a verified model of the NAND partition-table resizer

The repository is a small GPT editor. It grows the partition table of a NAND
image so that the image can move to a larger device. It copies the LBA-1
header sector and the 0x4000 bytes from LBA 2 to the end of the enlarged
device, moves one partition's last LBA out to the new end, and recomputes
the two CRC32 fields of the GPT header. There are two entry points with the
same core. `nxnand.py` is a batch script with fixed sector counts.
`nandpart.py` is a Qt tool with a Resize button. This project models that
core once and drives it from both entry points:

- `Sectors.dfy`: `LBAOffset` and the floor/ceil arithmetic that rounds a
  request out to whole 512-byte sectors.
- `Bytes.dfy`: byte splicing and the little-endian integer codec
  (`int.from_bytes` / `int.to_bytes`).
- `Checksum.dfy`: zlib's `crc32` (CRC-32/ISO-HDLC, reflected polynomial
  0xEDB88320).
- `BlockFile.dfy`: the byte store (`Image`, which accepts only
  sector-aligned transfers) and the cursor view `File` with
  `read`/`write`/`readInt*`/`writeInt*`.
- `PartitionTable.dfy`: the MBR and GPT views. Each one has two parts:
  pure functions that say what the bytes hold, and classes whose methods
  are proved against those functions. The byte layouts are those of the
  UEFI Specification: the legacy MBR in section 5.2.1, the GPT header in
  section 5.3.2 and the GPT partition entry in section 5.3.3.
- `Resize.dfy`: the resize sequence, given as pure functions
  (`Relocated`, `Extended`, `Rechecksummed`, `Resized`), with lemmas about
  it and the shared method `GrowTo`.
- `NxNand.dfy`: the batch script (lines 306-330).
- `NandPart.dfy`: the free-space figure of `App.refreshTable` and the
  guarded `Header.onCopy`.

`File`, `MBR`, `GPT` and `GPTPartition` appear in both source files with
identical bodies: `nxnand.py:19-303` and `nandpart.py:32-312`. The two
copies differ in one place. `GPT.__init__` of the batch script puts three
views just after the header, ahead of the entry array. The Qt tool skips
them (`nandpart.py:199-201`). The `Layout` datatype selects between the two.
The model rows below cite the batch script for the shared code.

The model follows the code as written; in particular:

- The resize copies the primary header sector (LBA 1) and the 0x4000 bytes
  from LBA 2. It does not read an existing backup.
- It never updates the primary header's backup-LBA or last-usable-LBA
  field. The copy at the last LBA stays a verbatim primary header, with
  its current-LBA and backup-LBA fields unchanged and a header CRC that
  was never recomputed for it. `Resize.ResizedTail` states that the last
  LBA receives the old LBA-1 sector byte for byte;
  `Resize.ResizedKeepsPrimaryFields` and `Resize.ResizedCopyIsPrimaryHeader`
  state which field values follow from that.
- There is no "new size not larger than old size" error. The batch script
  has no guard at all. The Qt tool's only guard is the 1 GiB free-space
  test.
- The entry views are placed at the fixed byte 1024, not at the header's
  entry-start LBA.
- `partitionEntryOffset()` is `512 + headerSize` with no rounding. The
  rounding up to 16 happens in `GPT.__init__`.
- Out-of-range offsets are never reported as errors. They become
  preconditions here.

Both drivers edit on-disk entry slot 10. In the batch script the list has
three header-slot views first, so slot 10 is `partitions[13]`. In the Qt
tool it is `partitions[10]`. `PartitionTable.ResizeTargetIsSlotTen` proves
that both indices reach the same slot.

## Model

| member | source | states |
|---|---|---|
| `Sectors.LbaOffset` | nxnand.py:16-17 | an LBA's byte offset is a multiple of 512 and gives back the LBA when divided by 512 |
| `Sectors.AlignDown` | nxnand.py:38 | `floor(x/512)*512` is the largest multiple of 512 not above x |
| `Sectors.AlignUp` | nxnand.py:39 | `ceil(x/512)*512` is the smallest multiple of 512 not below x |
| `Sectors.AlignUp16` | nxnand.py:183 | `ceil(x/16)*16` is the smallest multiple of 16 not below x |
| `Sectors.WindowOf` | nxnand.py:37-40 | the fetch window of a request is made of 512-multiples, encloses the request, and sticks out less than one sector on each side |
| `Bytes.Splice` | nxnand.py:92 | a bytearray slice assignment keeps the length, puts the value at its place, and leaves every other byte as it was |
| `Bytes.FromLE` | nxnand.py:59 | `int.from_bytes(b, 'little')` of n bytes is below 256^n |
| `Bytes.ToLE` | nxnand.py:104 | `to_bytes(n, 'little')` yields n bytes that decode back to the value |
| `Bytes.ToLEFromLE` | nxnand.py:55-119 | encoding a decoded byte string gives the same bytes back, so the little-endian codec is a bijection |
| `Bytes.FromLEInjective` | nxnand.py:55-119 | two byte strings of equal length that decode to the same integer are equal |
| `Bytes.FromBE2` | nxnand.py:295 | the big-endian value of two bytes has the first byte as its high byte and the second as its low byte |
| `Checksum.Crc32` | nxnand.py:5 | the checksum fits in the 4-byte GPT CRC fields |
| `BlockFile.Image.ReadSectors` | nxnand.py:42-44 | the store is read only in sector-aligned windows; a read returns the window's bytes, cut at the end of the store, and appends that range to the image's transfer log |
| `BlockFile.Image.WriteSectors` | nxnand.py:95-101 | the store is written only at a sector boundary, with whole sectors or up to the end of the store; the bytes land there and the range is appended to the transfer log |
| `BlockFile.StoredWindow` | nxnand.py:85-92 | the range a transfer moves starts at a sector boundary, encloses the target, and is whole sectors unless it reaches the end of the store |
| `BlockFile.WindowedWriteIsSplice` | nxnand.py:85-101 | the read-modify-write of the aligned window equals changing just the target bytes |
| `BlockFile.WriteThenRead` | nxnand.py:76-101 | after a write, the written range reads back as the value, and every other byte keeps its old value, including the rest of the rewritten window |
| `BlockFile.WriteIntThenReadInt` | nxnand.py:55-119 | `readInt(n)` after `writeInt(v, n)` at the same position returns v, for every v below 256^n |
| `BlockFile.File.constructor` | nxnand.py:20-24 | a view has its image, base offset and size, with the cursor at 0 |
| `BlockFile.File.Seek` | nxnand.py:26-28 | seek sets the cursor and nothing else |
| `BlockFile.File.Read` | nxnand.py:33-53 | read returns the requested bytes of the store, advances the cursor by their number, changes no store byte, and makes exactly one transfer: a read of the enclosing aligned window, cut at the end of the store |
| `BlockFile.File.ReadAt` | nxnand.py:33-35 | read with an offset seeks first, then returns the bytes at base + offset |
| `BlockFile.File.ReadInt` | nxnand.py:55-74 | readIntN is the little-endian value of the N bytes at the cursor; it advances the cursor by N and makes exactly one transfer, a read of the enclosing aligned window |
| `BlockFile.File.Write` | nxnand.py:76-101 | write changes exactly the target bytes of the store, does not move the cursor, and makes exactly two transfers: a read and then a write of the enclosing aligned window |
| `BlockFile.File.WriteAt` | nxnand.py:80-81 | write with an offset seeks first, then changes exactly the bytes at base + offset, through one read and one write of the enclosing aligned window |
| `BlockFile.File.WriteInt` | nxnand.py:103-119 | writeIntN raises, writing nothing, unless 0 <= v < 256^N; otherwise it stores v's little-endian bytes at the cursor through one read and one write of the enclosing aligned window |
| `PartitionTable.FieldValue` | nxnand.py:202-253 | a header or entry field's value fits its width |
| `PartitionTable.MbrMagic` | nxnand.py:293-295 | the MBR magic is 0x55AA exactly when byte 0x1FE is 0x55 and byte 0x1FF is 0xAA |
| `PartitionTable.ZeroCrcField` | nxnand.py:260-263 | the header copy has bytes 0x10..0x13 zeroed and all other bytes unchanged; a header shorter than 0x14 bytes gets Python's slice-assignment result |
| `PartitionTable.ZeroCrcFieldIgnoresField` | nxnand.py:260-263 | the zeroed header does not depend on what the CRC field held |
| `PartitionTable.WithHeaderCrc` | nxnand.py:214-217 | after setCrc, header field 0x10 holds crc32 of header(), and no other byte or geometry field has changed |
| `PartitionTable.WithEntriesCrc` | nxnand.py:255-258 | after setPartitionEntriesCrc, header field 0x58 holds crc32 of the entryCount*entrySize bytes from byte 1024, and no other byte has changed |
| `PartitionTable.HeaderCrcKeepsHeader` | nxnand.py:214-217 | setCrc leaves header() as it was |
| `PartitionTable.HeaderCrcKeepsEntries` | nxnand.py:214-217 | setCrc leaves the entry array and the stored entry CRC as they were |
| `PartitionTable.EntriesCrcFrame` | nxnand.py:255-258 | setPartitionEntriesCrc leaves the entry array as it was |
| `PartitionTable.RechecksumValid` | nxnand.py:329-330 | setPartitionEntriesCrc followed by setCrc leaves both CRC fields consistent with the bytes they cover |
| `PartitionTable.ValidIsFixpoint` | nxnand.py:214-266 | on a store whose CRCs are already consistent, neither CRC update changes anything |
| `PartitionTable.HeaderCrcIdempotent` | nxnand.py:214-217 | calling setCrc twice gives the same store as calling it once |
| `PartitionTable.EntriesCrcIdempotent` | nxnand.py:255-258 | calling setPartitionEntriesCrc twice gives the same store as calling it once |
| `PartitionTable.AppendedViewsAt` | nxnand.py:189-193 | after k iterations of the append loop, the list holds the header-slot views at start + i*size, then consecutive entries at 1024 + j*size |
| `PartitionTable.EntryViewOffsets` | nxnand.py:183-193 | the GPT lists entryCount views, plus 3 in the batch script; view 3+k (batch) or k (Qt tool) sits at 1024 + k*entrySize, and header-slot view i at ceil((512+headerSize)/16)*16 + i*entrySize |
| `PartitionTable.ResizeTargetIsSlotTen` | nxnand.py:189-193 | `partitions[13]` of the batch script and `partitions[10]` of the Qt tool are both on-disk slot 10, at 1024 + 10*entrySize |
| `PartitionTable.MbrEntryOffset` | nxnand.py:287-288 | each of the four 16-byte entry views ends at or before the 0x1FE signature |
| `PartitionTable.Mbr.constructor` | nxnand.py:287-288 | the MBR lists exactly four entry views, view k at 0x1BE + 16k |
| `PartitionTable.Mbr.Gpt` | nxnand.py:290-291 | gpt() opens the GPT at byte 512 of the same image and fails with the GPT magic error exactly when the magic is wrong |
| `PartitionTable.ReadMbrMagic` | nxnand.py:293-295 | the magic read through the sector view is the big-endian value of bytes 0x1FE, 0x1FF |
| `PartitionTable.OpenMbr` | nxnand.py:279-288 | opening the MBR succeeds exactly when bytes 0x1FE, 0x1FF are 0x55, 0xAA; otherwise it raises the MBR magic error |
| `PartitionTable.GptPartition.constructor` | nxnand.py:137-139 | an entry view has its image, base offset and entry size, with the cursor at 0 |
| `PartitionTable.GptPartition.ReadField` | nxnand.py:149-163 | firstLba/lastLba/attributes are the little-endian values at entry offsets 0x20/0x28/0x30 |
| `PartitionTable.GptPartition.ReadBytes` | nxnand.py:141-147 | type/guid (and the raw name) are the bytes at their entry offsets |
| `PartitionTable.GptPartition.SetLastLba` | nxnand.py:157-159 | setLastLba writes n at entry offset 0x28 and changes nothing else; it raises, writing nothing, when n does not fit in 64 bits |
| `PartitionTable.Gpt.constructor` | nxnand.py:175-193 | after the magic check, the list of entry views is exactly the one EntryViewOffsets gives for the header's size, count and entry size |
| `PartitionTable.Gpt.AppendViews` | nxnand.py:189-193 | the append loop over range(entryCount + 3) yields exactly those offsets |
| `PartitionTable.Gpt.AppendIndex` | nxnand.py:190-193 | one loop iteration appends the view for index k (none for k < 3 in the Qt tool) |
| `PartitionTable.Gpt.AppendView` | nxnand.py:191 | append adds one fresh view at the given offset |
| `PartitionTable.Gpt.ReadField` | nxnand.py:202-253 | each header getter returns the little-endian value of its field, relative to byte 512 |
| `PartitionTable.Gpt.ReadBytes` | nxnand.py:199-237 | magic() and diskGUID() return the raw field bytes |
| `PartitionTable.Gpt.PartitionEntryOffset` | nxnand.py:196-197 | partitionEntryOffset is 512 + headerSize, not rounded |
| `PartitionTable.Gpt.Header` | nxnand.py:260-263 | header() is the first headerSize header bytes with the CRC field zeroed |
| `PartitionTable.Gpt.PartitionData` | nxnand.py:265-267 | partitionData() is entryCount*entrySize bytes from absolute byte 1024 |
| `PartitionTable.Gpt.SetCrc` | nxnand.py:214-217 | setCrc leaves the store as WithHeaderCrc describes |
| `PartitionTable.Gpt.SetPartitionEntriesCrc` | nxnand.py:255-258 | setPartitionEntriesCrc leaves the store as WithEntriesCrc describes |
| `PartitionTable.OpenGpt` | nxnand.py:175-179 | opening the GPT succeeds exactly when bytes 512..519 are "EFI PART"; otherwise it raises the GPT magic error |
| `Resize.Relocated` | nxnand.py:320-325 | after the two copies, LBA N-1 holds the old LBA-1 sector and LBA N-33..N-2 the old 0x4000 bytes from LBA 2, and every byte outside LBA N-33..N-1 is unchanged |
| `Resize.Extended` | nxnand.py:327 | setting the last LBA makes the entry's field 0x28 read v, changes only that field, and keeps the header geometry |
| `Resize.Rechecksummed` | nxnand.py:329-330 | recomputing both CRCs makes them consistent and changes only the two CRC fields |
| `Resize.Resized` | nxnand.py:316-330 | the store after the whole sequence keeps its length and has both checksums consistent; `Resize.ResizedTail`, `Resize.ResizedPrimary` and `Resize.ResizedTable` state the rest of its content |
| `Resize.ResizedFrame` | nxnand.py:320-330 | after the whole sequence, bytes outside the last-LBA field and the two CRC fields are as the relocation left them |
| `Resize.ResizedTail` | nxnand.py:320-325 | after the sequence, LBA N-1 holds the old LBA-1 sector and LBA N-33 the old 0x4000 bytes from LBA 2; the two blocks are adjacent and disjoint and end at byte 512*N |
| `Resize.ResizedPrimary` | nxnand.py:320-330 | below the relocated block, only the target's last-LBA field and the two CRC fields change |
| `Resize.ResizedTable` | nxnand.py:327-330 | after the sequence, the target entry's last LBA is v and both CRCs are consistent |
| `Resize.RechecksumKeepsEntry` | nxnand.py:329-330 | recomputing the CRCs does not change an entry's last LBA |
| `Resize.ResizedKeepsPrimaryFields` | nxnand.py:320-330 | the primary header's backup-LBA and last-usable-LBA fields keep their pre-run values |
| `Resize.ResizedCopyIsPrimaryHeader` | nxnand.py:320-324 | the header at the last LBA has the primary's current-LBA and backup-LBA values, so it is not made into a proper backup header |
| `Resize.Relocate` | nxnand.py:320-325 | reading both blocks and then writing them leaves the store as Relocated describes |
| `Resize.GrowTo` | nxnand.py:320-330 | the shared sequence ends as Resized when the index exists and the LBA encodes; otherwise it raises after the relocation, leaving the store as Relocated describes |
| `Resize.ExtendEntry` | nxnand.py:327 | setLastLba on the listed view leaves the store as Extended describes |
| `Resize.Rechecksum` | nxnand.py:329-330 | entries CRC then header CRC leaves the store as Rechecksummed describes |
| `NxNand.NewLastLba` | nxnand.py:327 | the new last LBA is 488552715 - 1056769 = 487495946, inside the device and encodable |
| `NxNand.ListedSlotThirteen` | nxnand.py:189-193 | the batch script's list has entryCount + 3 views, and view 13 is on-disk slot 10 |
| `NxNand.ScriptResult` | nxnand.py:320-330 | a completed run leaves slot 10 ending at LBA 487495946, both CRCs consistent, and the two copies at the end of the 256 GB device; the primary structures change only in the three updated fields |
| `NxNand.ResizeOpened` | nxnand.py:320-330 | with the MBR and GPT open, the script ends as BatchOutcome describes |
| `NxNand.Run` | nxnand.py:306-330 | the script fails before writing on a bad MBR or GPT magic, fails after the relocation when there is no view 13, and otherwise leaves the resized store |
| `NandPart.FreeSpace` | nandpart.py:615-632 | the free space is never negative and equals size - 512*lastLba when the device reaches past lastLba, else 0 |
| `NandPart.FreeSpaceThreshold` | nandpart.py:469 | the 1 GiB free-space test passes exactly when the device extends at least 1 GiB past byte 512*lastLba |
| `NandPart.ReadLastListedLba` | nandpart.py:619-627 | the refresh loop ends holding the last LBA of the final listed entry (the last in list order, not the maximum) |
| `NandPart.ReadEntryLastLba` | nandpart.py:621 | `p.lastLba()` for list view k reads field 0x28 of on-disk entry k |
| `NandPart.App.constructor` | nandpart.py:559 | the free space starts at 0 |
| `NandPart.App.RefreshTable` | nandpart.py:610-632 | a refresh sets the free space from the final listed entry's last LBA; a bad magic raises and leaves the old figure |
| `NandPart.ToBytes` | nandpart.py:121-122 | to_bytes succeeds only for an integer in [0, 256^n), giving its little-endian bytes; a float has no to_bytes |
| `NandPart.LastLbaAsWritten` | nandpart.py:489 | the argument as written is a float |
| `NandPart.AsWrittenNeverEncodes` | nandpart.py:489 | as written, the last-LBA write always raises, for every image size |
| `NandPart.LastLbaIntended` | nandpart.py:489 | the intended integer has the value of the float as written, and it is padding sectors short of the device's end |
| `NandPart.ResizeImageAsWritten` | nandpart.py:476-492 | as written, the resize fails before writing on a bad magic, fails after the relocation when there is no slot 10, and otherwise fails after the relocation on the float last LBA, leaving the relocated store with no checksum recomputed |
| `NandPart.AsWrittenKeepsTable` | nandpart.py:482-492 | as written, a run that gets as far as slot 10 leaves everything below the copied block as it was: slot 10's last LBA and both stored checksums keep their old values |
| `NandPart.ListedSlotTen` | nandpart.py:198-203 | the Qt tool lists entryCount views, and view 10 is on-disk slot 10 |
| `NandPart.ResizeResult` | nandpart.py:482-492 | a completed resize leaves slot 10 ending at size/512 - 1056769, both CRCs consistent, and the two copies at size - 512 and size - 33*512; the primary structures change only in the three updated fields |
| `NandPart.GuardedResizeGrows` | nandpart.py:469-489 | when the free-space guard passes, the new last LBA lies at least 1040383 sectors past the final listed partition's end; when slot 10 is the final listed entry, the resize strictly grows it |
| `NandPart.ResizeImage` | nandpart.py:476-492 | past the guards, the resize fails before writing on a bad magic, fails after the relocation when there is no slot 10 or the LBA does not encode, and otherwise leaves the resized store |
| `NandPart.ResizeOpened` | nandpart.py:482-492 | with the MBR and GPT open, the sequence on `partitions[10]` ends as ResizeOutcome describes |
| `NandPart.Header.constructor` | nandpart.py:389-393 | nothing is selected at first (index 0, the placeholder) |
| `NandPart.Header.OnCopy` | nandpart.py:458-494 | nothing is written when no source is selected, when the free space is below 1 GiB, or when the user declines; otherwise the resize runs on the selected image |

## Findings

| source | as written | input that shows it | evidently intended | confidence | as-written member | corrected member |
|---|---|---|---|---|---|---|
| nandpart.py:489 | `(file.size / 512) - SECTOR_END_PADDING` is a float in Python 3, and `writeInt64` calls `to_bytes` on it, which raises AttributeError after both relocation writes are committed | any selected image that passes the guards, e.g. one of 250138990080 bytes | the integer sector count minus the padding, `file.size // 512 - SECTOR_END_PADDING` | not executed; high | `NandPart.AsWrittenNeverEncodes` | `NandPart.LastLbaIntended` |

`NandPart.ResizeImageAsWritten` runs the button's body as written: it
ends with the relocated store and a NotAnInteger failure, and
`NandPart.AsWrittenKeepsTable` shows that this leaves slot 10 and both
checksums unchanged. The rest of the model uses the corrected value.
`NandPart.ResizeFits` requires the image size to be a whole number of sectors, and for such a
size `LastLbaIntended` has exactly the value of the float the code computes.

## Left out

- The PyQt5 interface is not modelled: the window, table, progress bar,
  timers and message boxes. The answer to the confirmation dialog is the
  `confirmed` parameter of `Header.OnCopy`.
- Device and file discovery is not modelled (`wmi`, `os.listdir`,
  `fileSize`), and neither are `Image.open`/`close`/`isOpen`, `flush` and
  the `sys.argv` handling. An image is a byte store whose length is its
  size.
- `sizeStr` is not modelled. It is float formatting for display only.
- The `print` methods are left out, together with the MBR entry fields that
  only they read, and the CRC comparisons they print. The same relation is
  `PartitionTable.ChecksumsValid`.
- NxNand.Run: does not model the `gpt.print()` call at nxnand.py:309. It
  runs before any write, and its `name()` can raise UnicodeDecodeError on
  a name that is not valid UTF-16, which would end the script with the
  store untouched.
- `GPTPartition.name()` is not decoded. The 72 raw bytes are available
  through `GptPartition.ReadBytes(NAME)`. The `UnicodeDecodeError` that
  `refreshTable` could raise through `p.name()` is not modelled.
- The per-row `name()`/`firstLba()` reads in `refreshTable` are left out.
  They only fill table cells.
- The `size` padding branch of `write` is left out. It concatenates a str
  to bytes, and no caller passes `size`.
- Dead code is left out: the commented-out resize in `resize()` of the Qt
  tool, and `onCheck`/`updatePath`, which use an undefined `Config`.
- BlockFile.File.Read: a read whose request runs past the end of the store
  (a short read) is excluded by a precondition. A write past the end, which
  would grow an image file, is excluded the same way. The store must
  already have the enlarged size (`NxNand.BatchFits`,
  `NandPart.ResizeFits`).
- The ghost transfer log of an `Image` records the ranges that reached
  the store, not the bytes each transfer carried.
- Concurrency, and the non-atomic read-modify-write of one window against
  other writers, are not modelled. The source is single-threaded.
- I/O errors of the device are not modelled. Every transfer succeeds.
