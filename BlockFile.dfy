/** The sector-aligned store and the cursor views over it (class `File`).
    Every view shares one `Image`; a view has a base `offset` and a cursor
    `i`, and every read or write it makes is rounded out to whole sectors
    before it reaches the image. */
module BlockFile {
  import opened Sectors
  import opened Bytes

  function Min(a: nat, b: nat): nat { if a <= b then a else b }

  /** A device or disk image: a fixed-size byte store (the Python file
      object). Only whole-sector transfers reach it, which the
      preconditions of its two methods enforce. */
  class Image {
    var bytes: seq<Byte>
    /** Every byte range that has reached the store, oldest first. */
    ghost var transfers: seq<Window>

    constructor (contents: seq<Byte>)
      ensures bytes == contents && transfers == []
    {
      bytes := contents;
      transfers := [];
    }

    /** `f.seek(start); f.read(len)`: a read that runs past the end of the
        image returns the bytes up to the end. */
    method ReadSectors(start: nat, len: nat) returns (buf: seq<Byte>)
      requires start % SECTOR_SIZE == 0 && len % SECTOR_SIZE == 0
      requires start <= |bytes|
      modifies this`transfers
      ensures buf == bytes[start..Min(start + len, |bytes|)]
      ensures transfers == old(transfers) + [Window(start, Min(start + len, |bytes|))]
    {
      buf := bytes[start..Min(start + len, |bytes|)];
      transfers := transfers + [Window(start, Min(start + len, |bytes|))];
    }

    /** `f.seek(start); f.write(buf)`: a whole number of sectors, or the
        sectors up to the end of the image. */
    method WriteSectors(start: nat, buf: seq<Byte>)
      requires start % SECTOR_SIZE == 0
      requires start + |buf| <= |bytes|
      requires |buf| % SECTOR_SIZE == 0 || start + |buf| == |bytes|
      modifies this
      ensures bytes == Splice(old(bytes), start, buf)
      ensures transfers == old(transfers) + [Window(start, start + |buf|)]
    {
      bytes := bytes[..start] + buf + bytes[start + |buf|..];
      transfers := transfers + [Window(start, start + |buf|)];
    }
  }

  /** The range a transfer of `n` bytes at `p` moves to or from the store:
      the enclosing sectors, cut at the end of the store. */
  function StoredWindow(p: nat, n: nat, size: nat): (w: Window)
    requires p + n <= size
    ensures w.start % SECTOR_SIZE == 0 && w.start <= p && p + n <= w.end <= size
    ensures (w.end - w.start) % SECTOR_SIZE == 0 || w.end == size
  {
    Window(AlignDown(p), Min(AlignUp(p + n), size))
  }

  /** What `File.write` does to the store, step by step: fetch the aligned
      window, splice the value into it, put the window back. */
  function WindowedWrite(s: seq<Byte>, p: nat, value: seq<Byte>): seq<Byte>
    requires p + |value| <= |s|
  {
    var w := StoredWindow(p, |value|, |s|);
    var buf := s[w.start..w.end];
    Splice(s, w.start, Splice(buf, p - w.start, value))
  }

  /** Read-modify-write of the window changes exactly the requested bytes:
      every other byte of the window is written back as it was. */
  lemma WindowedWriteIsSplice(s: seq<Byte>, p: nat, value: seq<Byte>)
    requires p + |value| <= |s|
    ensures WindowedWrite(s, p, value) == Splice(s, p, value)
  {
    var w := StoredWindow(p, |value|, |s|);
    var buf := s[w.start..w.end];
    var inner := Splice(buf, p - w.start, value);
    var r := Splice(s, w.start, inner);
    var t := Splice(s, p, value);
    forall k | 0 <= k < |s|
      ensures r[k] == t[k]
    {
      if w.start <= k < w.end {
        var j := k - w.start;
        assert r[k] == inner[j];
        if p <= k < p + |value| {
          assert inner[j] == value[k - p];
        } else {
          assert inner[j] == buf[j] == s[k];
        }
      }
    }
    assert r == t;
  }

  /** Reading back what a write put at `p` gives the written bytes, and the
      rest of the store, the rest of the rewritten window included, is as
      it was. */
  lemma WriteThenRead(s: seq<Byte>, p: nat, value: seq<Byte>)
    requires p + |value| <= |s|
    ensures |WindowedWrite(s, p, value)| == |s|
    ensures WindowedWrite(s, p, value)[p..p + |value|] == value
    ensures forall k :: 0 <= k < |s| && !(p <= k < p + |value|) ==> WindowedWrite(s, p, value)[k] == s[k]
  {
    WindowedWriteIsSplice(s, p, value);
  }

  /** `readInt(n)` after `writeInt(v, n)` at the same position returns `v`
      for every value the n-byte field holds. */
  lemma WriteIntThenReadInt(s: seq<Byte>, p: nat, v: nat, n: nat)
    requires v < Pow256(n) && p + n <= |s|
    ensures |WindowedWrite(s, p, ToLE(v, n))| == |s|
    ensures FromLE(WindowedWrite(s, p, ToLE(v, n))[p..p + n]) == v
  {
    WriteThenRead(s, p, ToLE(v, n));
  }

  /** A view of the image with its own base offset and cursor (Python's
      `File` and every subclass of it). */
  class File {
    const image: Image
    const offset: nat
    const size: nat
    var i: nat

    constructor (image: Image, offset: nat, size: nat)
      ensures this.image == image && this.offset == offset && this.size == size
      ensures i == 0
    {
      this.image := image;
      this.offset := offset;
      this.size := size;
      i := 0;
    }

    /** Absolute position of the cursor in the image. */
    function Position(): nat
      reads this
    {
      offset + i
    }

    method Seek(to: nat)
      modifies this`i
      ensures i == to
    {
      i := to;
    }

    /** `read(n)`: the n bytes at the cursor, fetched through their aligned
        window; the cursor moves past them. */
    method Read(n: nat) returns (bs: seq<Byte>)
      requires Position() + n <= |image.bytes|
      modifies this`i, image`transfers
      ensures bs == image.bytes[old(Position())..old(Position()) + n]
      ensures i == old(i) + n
      ensures image.transfers == old(image.transfers) + [StoredWindow(old(Position()), n, |image.bytes|)]
    {
      var p := offset + i;
      var w := WindowOf(p, n);
      AlignedDistance(w.start, w.end);
      var aligned := image.ReadSectors(w.start, w.end - w.start);
      bs := aligned[p - w.start..p - w.start + n];
      assert forall k :: 0 <= k < n ==> bs[k] == aligned[p - w.start + k] == image.bytes[p + k];
      i := i + |bs|;
    }

    /** `read(n, at)`: seek, then read. */
    method ReadAt(n: nat, at: nat) returns (bs: seq<Byte>)
      requires offset + at + n <= |image.bytes|
      modifies this`i, image`transfers
      ensures bs == image.bytes[offset + at..offset + at + n]
      ensures i == at + n
      ensures image.transfers == old(image.transfers) + [StoredWindow(offset + at, n, |image.bytes|)]
    {
      Seek(at);
      bs := Read(n);
    }

    /** `readInt(width)` (readInt8 ... readInt128): the little-endian value of
        the `width` bytes at the cursor. */
    method ReadInt(width: nat) returns (v: nat)
      requires Position() + width <= |image.bytes|
      modifies this`i, image`transfers
      ensures v == FromLE(image.bytes[old(Position())..old(Position()) + width])
      ensures v < Pow256(width)
      ensures i == old(i) + width
      ensures image.transfers == old(image.transfers) + [StoredWindow(old(Position()), width, |image.bytes|)]
    {
      var bs := Read(width);
      v := FromLE(bs);
    }

    /** `write(value)`: read-modify-write of the aligned window around the
        target bytes. The cursor does not move. */
    method Write(value: seq<Byte>)
      requires Position() + |value| <= |image.bytes|
      modifies image
      ensures image.bytes == Splice(old(image.bytes), Position(), value)
      ensures var w := StoredWindow(Position(), |value|, |image.bytes|);
        image.transfers == old(image.transfers) + [w, w]
    {
      var p := offset + i;
      var w := StoredWindow(p, |value|, |image.bytes|);
      AlignedDistance(w.start, AlignUp(p + |value|));
      var aligned := image.ReadSectors(w.start, AlignUp(p + |value|) - w.start);
      assert w.end == Min(w.start + (AlignUp(p + |value|) - w.start), |image.bytes|);
      var spliced := Splice(aligned, p - w.start, value);
      WindowedWriteIsSplice(image.bytes, p, value);
      image.WriteSectors(w.start, spliced);
    }

    /** `write(value, at)`: seek, then write. */
    method WriteAt(value: seq<Byte>, at: nat)
      requires offset + at + |value| <= |image.bytes|
      modifies image, this`i
      ensures image.bytes == Splice(old(image.bytes), offset + at, value)
      ensures i == at
      ensures var w := StoredWindow(offset + at, |value|, |image.bytes|);
        image.transfers == old(image.transfers) + [w, w]
    {
      Seek(at);
      Write(value);
    }

    /** `writeInt(v, width)` (writeInt8 ... writeInt128): `to_bytes` raises
        OverflowError, before anything is written, unless 0 <= v < 256^width. */
    method WriteInt(v: int, width: nat) returns (ok: bool)
      requires 0 <= v < Pow256(width) ==> Position() + width <= |image.bytes|
      modifies image
      ensures ok <==> 0 <= v < Pow256(width)
      ensures ok ==> image.bytes == Splice(old(image.bytes), Position(), ToLE(v, width))
      ensures ok ==> var w := StoredWindow(Position(), width, |image.bytes|);
        image.transfers == old(image.transfers) + [w, w]
      ensures !ok ==> image.bytes == old(image.bytes) && image.transfers == old(image.transfers)
    {
      ok := 0 <= v < Pow256(width);
      if ok {
        Write(ToLE(v, width));
      }
    }
  }
}
