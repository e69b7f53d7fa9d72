/** Reading an open file, directly or through a cache of three of its blocks. */
module FileCache {
  import opened Arithmetic
  import opened NodeFormat
  import opened BitMask

  const CACHE_BLOCKS := 3
  const NO_VALID_CACHE := -1  // the all-ones word

  datatype CacheBlock = CacheBlock(loaded: bool, base: nat, data: seq<byte>)

  /**
    How a read turns out: all is read, nothing is read, the loop goes round for ever, or it reads from a block what
    was never in it.
   */
  datatype Reading = Done | Failed | Endless | Stray

  /**
    The reader.  Every operation is specified against the file alone: `Position()` is where a plain
    file cursor would stand.
   */
  class FileReader {
    const file: seq<byte>
    var filePos: nat
    var useCache: bool
    var cacheSize: nat
    var blocks: seq<CacheBlock>
    var cacheIndex: int
    var cacheOffset: nat

    /** What a block based at `base` holds once it is loaded. */
    function Chunk(base: nat): seq<byte>
      reads this`cacheSize
    {
      if base >= |file| then []
      else if base + cacheSize <= |file| then file[base..base + cacheSize]
      else file[base..]
    }

    predicate BlocksValid()
      reads this`blocks, this`cacheSize
    {
      && |blocks| == CACHE_BLOCKS && cacheSize > 0
      && forall i :: 0 <= i < |blocks| && blocks[i].loaded ==> blocks[i].data == Chunk(blocks[i].base)
    }

    predicate HasCursor()
      reads this
    {
      useCache ==> cacheIndex != NO_VALID_CACHE
    }

    predicate Valid()
      reads this
    {
      && (useCache ==> BlocksValid())
      && (useCache && HasCursor() ==> 0 <= cacheIndex < CACHE_BLOCKS && blocks[cacheIndex].loaded)
    }

    function Position(): nat
      requires Valid() && HasCursor()
      reads this
    {
      if useCache then blocks[cacheIndex].base + cacheOffset else filePos
    }

    function BasePos(pos: nat): nat
      requires cacheSize > 0
      reads this`cacheSize
    {
      AndNot(pos, cacheSize - 1)
    }

    /** Nothing is read yet; a cached reader has to seek before its first read. */
    constructor (file: seq<byte>, caching: bool)
      ensures this.file == file && useCache == caching && filePos == 0
      ensures Valid() && (HasCursor() <==> !caching)
      ensures caching ==> cacheSize == CacheSize(|file|)
    {
      BlockSizePositive(|file|);
      this.file := file;
      filePos, useCache, cacheSize := 0, caching, CacheSize(|file|);
      cacheIndex, cacheOffset := NO_VALID_CACHE, 0;
      blocks := seq(CACHE_BLOCKS, _ => CacheBlock(false, 0, []));
    }

    /** The base of a position is less than a block away, and its chunk holds the position's byte. */
    lemma BaseBelow(pos: nat)
      requires cacheSize > 0
      ensures BasePos(pos) <= pos < BasePos(pos) + cacheSize
      ensures var chunk, off := Chunk(BasePos(pos)), pos - BasePos(pos);
              && (pos < |file| ==> off < |chunk| && chunk[off] == file[pos])
              && (pos == |file| ==> |chunk| == off)
              && (pos >= |file| ==> |chunk| <= off)
              && (|chunk| < off <==> |file| < pos && pos != BasePos(pos))
    {
      AndNotSplits(pos, cacheSize - 1);
    }

    lemma ChunkEnds(base: nat)
      ensures base <= |file| ==> base + |Chunk(base)| <= |file|
    {
    }

    /** What a chunk holds from a position on is what the file holds there. */
    lemma ChunkPart(pos: nat, n: nat)
      requires cacheSize > 0 && pos + n <= |file|
      requires pos - BasePos(pos) >= 0 && pos - BasePos(pos) + n <= |Chunk(BasePos(pos))|
      ensures var off := pos - BasePos(pos); Chunk(BasePos(pos))[off..off + n] == file[pos..pos + n]
    {
      hide BasePos;
      var base := BasePos(pos);
      SliceOfSlice(file, base, if base + cacheSize <= |file| then base + cacheSize else |file|, pos - base, n);
    }

    /** A free slot, else one holding a distant block, else the first. */
    method ChooseSlot(basePos: nat) returns (slot: int)
      requires BlocksValid()
      ensures 0 <= slot < CACHE_BLOCKS
      ensures if exists i :: 0 <= i < CACHE_BLOCKS && !blocks[i].loaded
              then !blocks[slot].loaded && forall k :: 0 <= k < slot ==> blocks[k].loaded
              else if exists i :: 0 <= i < CACHE_BLOCKS && Abs(blocks[i].base - basePos) > 2 * cacheSize
              then
                && Abs(blocks[slot].base - basePos) > 2 * cacheSize
                && forall k :: 0 <= k < slot ==> Abs(blocks[k].base - basePos) <= 2 * cacheSize
              else slot == 0
    {
      slot := -1;
      var i := 0;
      while i < CACHE_BLOCKS && slot == -1
        invariant 0 <= i <= CACHE_BLOCKS && -1 <= slot < CACHE_BLOCKS
        invariant forall k :: 0 <= k < i && k != slot ==> blocks[k].loaded
        invariant slot != -1 ==> !blocks[slot].loaded && slot == i - 1
      {
        if !blocks[i].loaded {
          slot := i;
        }
        i := i + 1;
      }
      if slot == -1 {
        i := 0;
        while i < CACHE_BLOCKS && slot == -1
          invariant 0 <= i <= CACHE_BLOCKS && -1 <= slot < CACHE_BLOCKS
          invariant forall k :: 0 <= k < i && k != slot ==> Abs(blocks[k].base - basePos) <= 2 * cacheSize
          invariant slot != -1 ==> Abs(blocks[slot].base - basePos) > 2 * cacheSize && slot == i - 1
        {
          var distance := if blocks[i].base < basePos then basePos - blocks[i].base else blocks[i].base - basePos;
          if distance > 2 * cacheSize {
            slot := i;
          }
          i := i + 1;
        }
        if slot == -1 {
          slot := 0;
        }
      }
    }

    /** Reads the stretch of the file from some position on into a slot. */
    method FillSlot(slot: int, basePos: nat) returns (size: nat)
      requires BlocksValid() && 0 <= slot < CACHE_BLOCKS
      modifies this`filePos, this`blocks
      ensures BlocksValid() && size == |Chunk(basePos)|
      ensures blocks == old(blocks)[slot := old(blocks)[slot].(base := basePos, data := Chunk(basePos))]
    {
      hide Valid, HasCursor, Position;
      filePos := basePos;
      var data := Fread(cacheSize);
      assert data == Chunk(basePos);
      hide Chunk;
      blocks := blocks[slot := blocks[slot].(base := basePos, data := data)];
      size := |data|;
    }

    method LoadCacheBlock(pos: nat) returns (r: int)
      requires BlocksValid()
      modifies this`filePos, this`blocks
      ensures BlocksValid()
      ensures r == NO_VALID_CACHE <==> |file| < pos && pos != BasePos(pos)
      ensures r != NO_VALID_CACHE ==> 0 <= r < CACHE_BLOCKS && blocks[r].loaded && blocks[r].base == BasePos(pos)
      ensures forall i :: 0 <= i < CACHE_BLOCKS && old(blocks[i].loaded) ==> blocks[i].loaded
      ensures r != NO_VALID_CACHE ==> forall i :: 0 <= i < CACHE_BLOCKS && i != r ==> blocks[i] == old(blocks[i])
      ensures r != NO_VALID_CACHE && (exists i :: 0 <= i < CACHE_BLOCKS && !old(blocks[i].loaded)) ==>
                !old(blocks)[r].loaded
    {
      hide BasePos, Valid, HasCursor, Position, Chunk;
      BaseBelow(pos);
      var basePos := BasePos(pos);
      var slot := ChooseSlot(basePos);
      var size := FillSlot(slot, basePos);
      if size < pos - basePos {
        return NO_VALID_CACHE;
      }
      blocks := blocks[slot := blocks[slot].(loaded := true)];
      return slot;
    }

    /** The C library's fread: as many of the wanted bytes as the file still has. */
    method Fread(size: nat) returns (data: seq<byte>)
      modifies this`filePos
      ensures data == (if old(filePos) >= |file| then []
                       else if old(filePos) + size <= |file| then file[old(filePos)..old(filePos) + size]
                       else file[old(filePos)..])
      ensures filePos == old(filePos) + |data|
      ensures Valid() == old(Valid())
    {
      var end := if filePos + size <= |file| then filePos + size else |file|;
      data := if filePos <= end then file[filePos..end] else [];
      filePos := filePos + |data|;
    }

    method GetCacheBlock(pos: nat) returns (r: int)
      requires BlocksValid()
      modifies this`filePos, this`blocks
      ensures BlocksValid()
      ensures r == NO_VALID_CACHE ==> |file| < pos && pos != BasePos(pos)
      ensures r != NO_VALID_CACHE ==> 0 <= r < CACHE_BLOCKS && blocks[r].loaded && blocks[r].base == BasePos(pos)
      ensures forall i :: 0 <= i < CACHE_BLOCKS && old(blocks[i].loaded) ==> blocks[i].loaded
      ensures (exists i :: 0 <= i < CACHE_BLOCKS && old(blocks[i].loaded && blocks[i].base == BasePos(pos))) ==>
                blocks == old(blocks) && filePos == old(filePos)
    {
      var basePos := BasePos(pos);
      for i := 0 to CACHE_BLOCKS
        invariant forall k :: 0 <= k < i ==> !(blocks[k].loaded && blocks[k].base == basePos)
      {
        if blocks[i].loaded && blocks[i].base == basePos {
          return i;
        }
      }
      r := LoadCacheBlock(pos);
    }

    /** Leaves a used-up block for the one that continues it, if the file goes on there. */
    method NextBlock() returns (ok: bool)
      requires Valid() && useCache && HasCursor() && cacheOffset >= |blocks[cacheIndex].data|
      modifies this`filePos, this`blocks, this`cacheIndex, this`cacheOffset
      ensures Valid() && HasCursor()
      ensures ok <==> old(Position()) < |file|
      ensures ok ==> cacheOffset < |blocks[cacheIndex].data|
      ensures old(Position()) <= |file| ==> Position() == old(Position())
    {
      var pos := blocks[cacheIndex].base + cacheOffset;
      BaseBelow(pos);
      var tmp := GetCacheBlock(pos);
      if tmp < 0 {
        return false;
      }
      cacheIndex := tmp;
      cacheOffset := pos - blocks[cacheIndex].base;
      return cacheOffset < |blocks[cacheIndex].data|;
    }

    /**
      One byte, exactly when the cursor stands on one.  At the very end of the file the cursor stays
      where it is, even though the cache may have to load an empty block to find out.
     */
    method ReadByte() returns (ok: bool, value: byte)
      requires Valid()
      modifies this`filePos, this`blocks, this`cacheIndex, this`cacheOffset
      ensures Valid() && (HasCursor() <==> old(HasCursor()))
      ensures ok <==> old(HasCursor()) && old(Position()) < |file|
      ensures ok ==> value == file[old(Position())] && Position() == old(Position()) + 1
      ensures old(HasCursor()) && old(Position()) == |file| ==> Position() == |file|
    {
      value := 0;
      if useCache {
        if cacheIndex == NO_VALID_CACHE {
          return false, value;
        }
        if cacheOffset >= |blocks[cacheIndex].data| {
          var more := NextBlock();
          if !more {
            return false, value;
          }
        }
        value := blocks[cacheIndex].data[cacheOffset];
        cacheOffset := cacheOffset + 1;
        return true, value;
      }
      if filePos >= |file| {
        return false, value;
      }
      value := file[filePos];
      filePos := filePos + 1;
      return true, value;
    }

    /**
      Seeking never fails inside the file or at its end.  Past the end a direct seek succeeds, while
      a cached one may fail.
     */
    method SafeSeek(pos: nat) returns (ok: bool)
      requires Valid()
      modifies this`filePos, this`blocks, this`cacheIndex, this`cacheOffset
      ensures Valid()
      ensures pos <= |file| || !useCache || pos == BasePos(pos) ==> ok
      ensures ok ==> HasCursor() && Position() == pos
      ensures ok && useCache ==> blocks[cacheIndex].base == BasePos(pos)
    {
      if useCache {
        BaseBelow(pos);
        var i := GetCacheBlock(pos);
        if i == NO_VALID_CACHE {
          return false;
        }
        cacheIndex := i;
        cacheOffset := pos - blocks[i].base;
      } else {
        filePos := pos;
      }
      ok := true;
    }

    /** The position of the byte that was read last. */
    method SafeTell() returns (ok: bool, pos: int)
      requires Valid()
      ensures ok <==> HasCursor()
      ensures ok ==> pos == Position() - 1
    {
      pos := 0;
      if useCache {
        if cacheIndex == NO_VALID_CACHE {
          return false, pos;
        }
        pos := blocks[cacheIndex].base + cacheOffset - 1;
        return true, pos;
      }
      pos := filePos - 1;
      return true, pos;
    }

    /**
      A run of bytes from anywhere in the file, across as many blocks as it takes.  A cached read that begins in the
      file and does not lie in it never ends: at the end of the file the loop makes no progress.
     */
    method ReadBytes(buffer: array<byte>, size: nat, pos: nat) returns (r: Reading)
      requires Valid() && size <= buffer.Length
      modifies this`filePos, this`blocks, this`cacheIndex, this`cacheOffset, buffer
      ensures Valid()
      ensures size > 0 || pos <= |file| ==> (r == Done <==> pos + size <= |file| || (size == 0 && !useCache))
      ensures r == Endless <==>
                useCache && size > 0 && pos + size > |file| && (pos <= |file| || pos == BasePos(pos))
      ensures r == Stray ==> useCache && size > 0 && |file| < pos
      ensures r == Done ==> HasCursor() && Position() == pos + size
      ensures r == Done && size > 0 ==> buffer[..size] == file[pos..pos + size]
      ensures forall k :: size <= k < buffer.Length ==> buffer[k] == old(buffer[k])
    {
      if useCache {
        r := ReadCached(buffer, size, pos);
        return;
      }
      filePos := pos;
      var data := Fread(size);
      CopyInto(buffer, 0, data);
      r := if |data| == size then Done else Failed;
    }

    method ReadCached(buffer: array<byte>, size: nat, pos: nat) returns (r: Reading)
      requires Valid() && useCache && size <= buffer.Length
      modifies this`filePos, this`blocks, this`cacheIndex, this`cacheOffset, buffer
      ensures Valid()
      ensures size > 0 || pos <= |file| ==> (r == Done <==> pos + size <= |file|)
      ensures r == Endless <==> size > 0 && pos + size > |file| && (pos <= |file| || pos == BasePos(pos))
      ensures r == Stray ==> size > 0 && |file| < pos
      ensures r == Done ==> HasCursor() && Position() == pos + size
      ensures r == Done && size > 0 ==> buffer[..size] == file[pos..pos + size]
      ensures forall k :: size <= k < buffer.Length ==> buffer[k] == old(buffer[k])
    {
      hide FileReader.Valid, FileReader.HasCursor, FileReader.Position, FileReader.BasePos;
      CacheHasSize();
      var remain: nat, bufferPos: nat := size, 0;
      while true
        invariant Valid() && cacheSize > 0
        invariant remain + bufferPos == size && (pos + bufferPos <= |file| || bufferPos == 0)
        invariant bufferPos > 0 ==> remain > 0
        invariant pos <= |file| ==> buffer[..bufferPos] == file[pos..pos + bufferPos]
        invariant forall k :: size <= k < buffer.Length ==> buffer[k] == old(buffer[k])
        decreases remain
      {
        var part;
        r, part := ReadFromBlock(pos + bufferPos, remain);
        if r != Done {
          return;
        }
        CopyInto(buffer, bufferPos, part);
        if pos <= |file| {
          Adjoined(file, pos, pos + bufferPos, pos + bufferPos + |part|);
        }
        remain := remain - |part|;
        bufferPos := bufferPos + |part|;
        if remain == 0 {
          return;
        }
        if part == [] {
          return Endless;
        }
      }
    }

    lemma CacheHasSize()
      requires Valid() && useCache
      ensures cacheSize > 0
    {
    }

    /**
      The part of a cached read that one block can serve; the cursor ends up behind it.  Where nothing is left to
      read nothing ever is, however often one asks.
     */
    method ReadFromBlock(pos: nat, remain: nat) returns (r: Reading, part: seq<byte>)
      requires Valid() && useCache && cacheSize > 0
      modifies this`filePos, this`blocks, this`cacheIndex, this`cacheOffset
      ensures Valid() && r != Endless && |part| <= remain
      ensures r == Done ==> HasCursor() && Position() == pos + |part|
      ensures pos <= |file| ==>
                && r == Done && pos + |part| <= |file| && part == file[pos..pos + |part|]
                && (part == [] <==> remain == 0 || pos == |file|)
      ensures pos > |file| ==> part == [] && (remain > 0 ==> (r == Done <==> pos == BasePos(pos)))
      ensures r == Stray ==> pos > |file| && remain > 0
    {
      hide FileReader.Valid, FileReader.HasCursor, FileReader.Position, FileReader.BasePos, FileReader.Chunk;
      part := [];
      BaseBelow(pos);
      var ok, data := SeekBlock(pos);
      if !ok {
        return Failed, part;
      }
      if cacheOffset > |data| {
        return if remain == 0 then Done else Stray, part;
      }
      var reading := if remain <= |data| - cacheOffset then remain else |data| - cacheOffset;
      part := data[cacheOffset..cacheOffset + reading];
      ChunkEnds(BasePos(pos));
      if pos <= |file| {
        ChunkPart(pos, reading);
      }
      Forward(reading);
      r := Done;
    }

    /** The block of a position, with the cursor at that position. */
    method SeekBlock(pos: nat) returns (ok: bool, data: seq<byte>)
      requires Valid() && useCache && cacheSize > 0
      modifies this`filePos, this`blocks, this`cacheIndex, this`cacheOffset
      ensures Valid()
      ensures pos <= |file| || pos == BasePos(pos) ==> ok
      ensures ok ==>
                && HasCursor() && Position() == pos && BasePos(pos) <= pos && cacheOffset == pos - BasePos(pos)
                && data == Chunk(BasePos(pos)) && cacheIndex >= 0
    {
      BaseBelow(pos);
      ok := SafeSeek(pos);
      data := if ok then blocks[cacheIndex].data else [];
    }

    method Forward(n: nat)
      requires Valid() && HasCursor() && useCache
      modifies this`cacheOffset
      ensures Valid() && HasCursor() && Position() == old(Position()) + n
    {
      cacheOffset := cacheOffset + n;
    }
  }

  lemma SliceOfSlice(s: seq<byte>, a: nat, b: nat, off: nat, n: nat)
    requires a <= b <= |s| && off + n <= b - a
    ensures s[a..b][off..off + n] == s[a + off..a + off + n]
  {
    var chunk, part := s[a..b], s[a + off..a + off + n];
    assert |chunk[off..off + n]| == |part|;
    forall k | 0 <= k < n ensures chunk[off..off + n][k] == part[k] {
    }
    assert chunk[off..off + n] == part;
  }

  lemma Adjoined(s: seq<byte>, a: nat, b: nat, c: nat)
    requires a <= b <= c <= |s|
    ensures s[a..b] + s[b..c] == s[a..c]
  {
  }

  /** The C library's memcpy into the middle of a buffer. */
  method CopyInto(buffer: array<byte>, at: nat, data: seq<byte>)
    requires at + |data| <= buffer.Length
    modifies buffer
    ensures buffer[..at + |data|] == old(buffer[..at]) + data
    ensures forall k :: at + |data| <= k < buffer.Length ==> buffer[k] == old(buffer[k])
  {
    forall k | 0 <= k < |data| {
      buffer[at + k] := data[k];
    }
  }

  // ---------------------------------------------------------------- block size

  /** min(32768, max(fileSize / 20, 8192)) & ~0x1FFF */
  function CacheSize(fileSize: nat): nat {
    var wanted := if fileSize / 20 < 8192 then 8192 else fileSize / 20;
    AndNot(if wanted < 32768 then wanted else 32768, 0x1FFF)
  }

  /** The cache is never degenerate, whatever the size of the file ... */
  lemma BlockSizePositive(fileSize: nat)
    ensures 0 < CacheSize(fileSize) <= 32768
  {
    var wanted := if fileSize / 20 < 8192 then 8192 else fileSize / 20;
    AndNotSplits(if wanted < 32768 then wanted else 32768, 0x1FFF);
  }

  /** All low bits up to some position. */
  predicate LowBits(m: nat) {
    m == 0 || (m % 2 == 1 && LowBits(m / 2))
  }

  /** Under such a mask the base is the usual one: a multiple of the block size. */
  lemma {:induction false} LowBitsAreRemainder(x: nat, m: nat)
    requires LowBits(m)
    ensures And(x, m) == x % (m + 1)
    decreases x
  {
    if x != 0 && m != 0 {
      LowBitsAreRemainder(x / 2, m / 2);
      var h, r := m / 2 + 1, (x / 2) % (m / 2 + 1);
      assert m + 1 == 2 * h && And(x, m) == x % 2 + 2 * r;
      DoubleRemainder(x, h, r);
    } else {
      AndZero(x);
    }
  }

  lemma {:induction false} AndZero(x: nat)
    ensures And(x, 0) == 0
  {
    if x != 0 {
      AndZero(x / 2);
    }
  }

  lemma DoubleRemainder(x: nat, h: nat, r: nat)
    requires h > 0 && r == (x / 2) % h
    ensures x % (2 * h) == x % 2 + 2 * r
  {
    var q := (x / 2) / h;
    assert x / 2 == q * h + r;
    assert x == (2 * h) * q + (x % 2 + 2 * r);
    RemainderUnique(x, 2 * h, q, x % 2 + 2 * r);
  }

  lemma RemainderUnique(x: int, d: int, q: int, r: int)
    requires d > 0 && x == d * q + r && 0 <= r < d
    ensures x % d == r
  {
    var q', r' := x / d, x % d;
    QuotientUnique(d, q, r, q', r');
  }

  lemma QuotientUnique(d: int, q: int, r: int, q': int, r': int)
    requires d * q + r == d * q' + r' && 0 <= r < d && 0 <= r' < d
    ensures q == q' && r == r'
  {
    MulAtLeast(d, q - q');
    assert d * (q - q') == d * q - d * q';
    MulAtLeast(d, q' - q);
    assert d * (q' - q) == d * q' - d * q;
  }

  lemma {:induction false} MulAtLeast(d: int, k: int)
    requires d > 0
    ensures k >= 1 ==> d * k >= d
    decreases k
  {
    if k > 1 {
      MulAtLeast(d, k - 1);
      assert d * k == d * (k - 1) + d;
    }
  }

  /** ... and is one of four sizes, each a multiple of 8192. */
  lemma BlockSizes(fileSize: nat)
    ensures CacheSize(fileSize)
            == if fileSize < 327680 then 8192 else if fileSize < 491520 then 16384
               else if fileSize < 655360 then 24576 else 32768
  {
    var wanted := if fileSize / 20 < 8192 then 8192 else fileSize / 20;
    var size := if wanted < 32768 then wanted else 32768;
    assert CacheSize(fileSize) == AndNot(size, 0x1FFF);
    hide *;
    AlignedDown(size);
    OneOfFour(size);
  }

  lemma OneOfFour(size: nat)
    requires 8192 <= size <= 32768
    ensures size - size % 8192
            == if size < 16384 then 8192 else if size < 24576 then 16384 else if size < 32768 then 24576 else 32768
  {
    var q := size / 8192;
    assert size - size % 8192 == 8192 * q;
    assert q in {1, 2, 3, 4};
  }

  lemma AlignedDown(size: nat)
    ensures AndNot(size, 0x1FFF) == size - size % 8192
  {
    assert LowBits(0x1FFF);
    hide And, AndNot, LowBits;
    AndNotSplits(size, 0x1FFF);
    LowBitsAreRemainder(size, 0x1FFF);
  }

  /** The one size that is no power of two does occur, and its bases are not multiples of it. */
  lemma UnalignedBlocks()
    ensures CacheSize(500000) == 24576
    ensures AndNot(24576, 24576 - 1) == 8192
  {
    hide AndNot;
    AlignedDown(25000);
    var r := 1;
    assert AndNot(3, 2) == 1 by { AndNotDoubles(0, 2); }
    while r != 8192
      invariant r in {1, 2, 4, 8, 16, 32, 64, 128, 256, 512, 1024, 2048, 4096, 8192}
      invariant AndNot(3 * r, 3 * r - 1) == r
      decreases 8192 - r
    {
      AndNotDoubles(3 * r, 3 * r - 1);
      r := 2 * r;
    }
  }

  lemma AndNotDoubles(x: nat, m: nat)
    ensures AndNot(2 * x, 2 * m + 1) == 2 * AndNot(x, m)
    ensures AndNot(3, 2) == 1
  {
  }
}
