/**
  Buffer geometry in the DRM layer: what the checks made when a buffer is created,
  described or presented guarantee, and the cache-cleaning walk over a rectangle
  that relies on them.
 */
module DrmRect {

  const PAGE_SIZE: nat := 4096
  const MAX_BUFFER_SIZE: nat := 64 * 1024 * 1024
  const U32: nat := 0x1_0000_0000
  const U64: nat := 0x1_0000_0000_0000_0000

  datatype Format = None | BGRA8888 | RGBA8888 | Other

  datatype Desc = Desc(size: nat, scanout: bool, width: nat, height: nat, stride: nat, format: Format)

  datatype Status = Ok | Inval | Overflow | Busy | TooBig

  // The fields are unsigned 32-bit words, except for the 64-bit size.
  predicate Words(d: Desc) {
    d.size < U64 && d.width < U32 && d.height < U32 && d.stride < U32
  }

  // Arithmetic in unsigned 32-bit and 64-bit words.
  function Low32(n: nat): nat { n % U32 }
  function Low64(n: nat): nat { n % U64 }

  function AlignUp(n: nat): nat {
    (n + PAGE_SIZE - 1) / PAGE_SIZE * PAGE_SIZE
  }

  predicate Colour(f: Format) {
    f.BGRA8888? || f.RGBA8888?
  }

  // The checks of armos_drm_bo_create; products are taken in 64 bits.
  function CreateCheck(d: Desc): Status {
    if d.size == 0 || d.size > MAX_BUFFER_SIZE then Inval
    else if (d.width == 0) != (d.height == 0) then Inval
    else if d.width != 0 && (!Colour(d.format) || d.stride < Low64(d.width * 4)) then Inval
    else if d.width != 0 && Low64(d.stride * d.height) > d.size then Inval
    else if d.width == 0 && (d.stride != 0 || !d.format.None?) then Inval
    else if AlignUp(d.size) > MAX_BUFFER_SIZE then Overflow
    else Ok
  }

  // What every buffer satisfies from its creation on.
  predicate Sound(d: Desc, pageCount: nat) {
    && Words(d)
    && 0 < d.size <= MAX_BUFFER_SIZE && pageCount * PAGE_SIZE == AlignUp(d.size)
    && (d.width == 0 <==> d.height == 0)
    && (d.width == 0 ==> d.stride == 0 && d.format.None?)
    && 4 * d.width <= d.stride && d.stride * d.height <= d.size
  }

  lemma MulMonotone(a: nat, b: nat, c: nat)
    requires a <= c
    ensures a * b <= c * b
  {
  }

  lemma SmallLow32(n: nat)
    requires n < U32
    ensures Low32(n) == n
  {
  }

  lemma SmallLow64(n: nat)
    requires n < U64
    ensures Low64(n) == n
  {
  }

  // A product of two 32-bit words does not wrap in 64 bits.
  lemma SmallProduct(a: nat, b: nat)
    requires a < U32 && b < U32
    ensures Low64(a * b) == a * b
  {
    hide Low64;
    MulMonotone(a, b, U32 - 1);
    SmallLow64(a * b);
  }

  // The creation checks accept exactly the sound descriptions.
  lemma CreateCheckIsExact(d: Desc)
    requires Words(d)
    ensures CreateCheck(d).Ok? <==>
              Sound(d, AlignUp(d.size) / PAGE_SIZE) && (d.width != 0 ==> Colour(d.format))
  {
    SmallProduct(d.width, 4);
    SmallProduct(d.stride, d.height);
    assert AlignUp(d.size) / PAGE_SIZE * PAGE_SIZE == AlignUp(d.size);
    if 0 < d.size <= MAX_BUFFER_SIZE {
      AlignFits(d.size);
    }
  }

  lemma AlignFits(n: nat)
    requires n <= MAX_BUFFER_SIZE
    ensures n <= AlignUp(n) <= MAX_BUFFER_SIZE
  {
    assert (n + PAGE_SIZE - 1) / PAGE_SIZE <= MAX_BUFFER_SIZE / PAGE_SIZE;
  }

  // ------------------------------------------------------- the rectangle, as bytes

  // The addresses a, a + 1, ..., a + n - 1.
  function Range(a: nat, n: nat): seq<nat> {
    seq(n, i requires 0 <= i < n => a + i)
  }

  // The offset in the buffer of the first byte of a row of the rectangle.
  function RowStart(d: Desc, x: nat, line: nat): nat {
    line * d.stride + x * 4
  }

  // The same, as drm_buffer_clean_rect computes it.
  function RowOffset(d: Desc, x: nat, line: nat): nat {
    Low64(Low32(line) * d.stride + x * 4)
  }

  // The bytes of the first `rows` rows of the rectangle, in order.
  function RectBytes(d: Desc, x: nat, y: nat, width: nat, rows: nat): seq<nat> {
    if rows == 0 then []
    else RectBytes(d, x, y, width, rows - 1) + Range(RowStart(d, x, y + rows - 1), width * 4)
  }

  // One call of the cache-clean primitive: part of one page.
  datatype Chunk = Chunk(page: nat, offset: nat, length: nat)

  function Cleaned(calls: seq<Chunk>): seq<nat> {
    if calls == [] then []
    else
      var c := calls[|calls| - 1];
      Cleaned(calls[..|calls| - 1]) + Range(c.page * PAGE_SIZE + c.offset, c.length)
  }

  predicate InPage(c: Chunk, pageCount: nat) {
    c.page < pageCount && 0 < c.length && c.offset + c.length <= PAGE_SIZE
  }

  lemma CleanedOneMore(calls: seq<Chunk>, c: Chunk)
    ensures Cleaned(calls + [c]) == Cleaned(calls) + Range(c.page * PAGE_SIZE + c.offset, c.length)
  {
    assert (calls + [c])[..|calls|] == calls;
  }

  // A row of the rectangle lies inside the buffer.
  lemma RowInside(d: Desc, pageCount: nat, x: nat, line: nat, width: nat)
    requires Sound(d, pageCount) && line < d.height && x + width <= d.width
    ensures RowStart(d, x, line) + width * 4 <= d.size <= pageCount * PAGE_SIZE
  {
    MulMonotone(line + 1, d.stride, d.height);
    AlignFits(d.size);
  }

  // The bytes of the rectangle, each once: byte k of row r of the rectangle.
  lemma {:induction false} RectBytesAt(d: Desc, x: nat, y: nat, width: nat, rows: nat, r: nat, k: nat)
    requires r < rows && k < width * 4
    ensures |RectBytes(d, x, y, width, rows)| == rows * (width * 4)
    ensures 0 <= r * (width * 4) + k < rows * (width * 4)
    ensures RectBytes(d, x, y, width, rows)[r * (width * 4) + k] == (y + r) * d.stride + 4 * x + k
  {
    RectBytesLength(d, x, y, width, rows);
    RectBytesLength(d, x, y, width, rows - 1);
    var w := width * 4;
    assert (rows - 1) * w + w == rows * w;
    if r < rows - 1 {
      RectBytesAt(d, x, y, width, rows - 1, r, k);
      assert r * w + k < (rows - 1) * w;
    }
  }

  // A byte lies in a row of the rectangle iff its line and its pixel do.
  lemma InRow(stride: nat, x: nat, width: nat, line: nat, a: nat)
    requires 0 < stride && 4 * (x + width) <= stride
    ensures line * stride + 4 * x <= a < line * stride + 4 * x + 4 * width <==>
              a / stride == line && x <= a % stride / 4 < x + width
  {
    assert a == a / stride * stride + a % stride;
    if line * stride <= a < line * stride + stride {
      DivIs(a, stride, line);
    }
  }

  lemma DivIs(a: nat, d: nat, q: nat)
    requires 0 < d && q * d <= a < q * d + d
    ensures a / d == q
  {
    var p := a / d;
    assert p * d <= a < p * d + d;
    if p < q {
      MulMonotone(p + 1, d, q);
    } else if q < p {
      MulMonotone(q + 1, d, p);
    }
  }

  // The bytes of the rectangle are those of its pixels, each four bytes wide.
  lemma {:induction false} InRect(d: Desc, x: nat, y: nat, width: nat, rows: nat, a: nat)
    requires 0 < d.stride && 4 * (x + width) <= d.stride
    ensures a in RectBytes(d, x, y, width, rows) <==>
              y <= a / d.stride < y + rows && x <= a % d.stride / 4 < x + width
  {
    if rows > 0 {
      var line := y + rows - 1;
      InRect(d, x, y, width, rows - 1, a);
      InRow(d.stride, x, width, line, a);
      InRange(RowStart(d, x, line), width * 4, a);
      hide Range;
      assert a in RectBytes(d, x, y, width, rows) <==>
               a in RectBytes(d, x, y, width, rows - 1) || a in Range(RowStart(d, x, line), width * 4);
    }
  }

  lemma InRange(base: nat, n: nat, a: nat)
    ensures a in Range(base, n) <==> base <= a < base + n
  {
    if base <= a < base + n {
      assert Range(base, n)[a - base] == a;
    }
  }

  lemma {:induction false} RectBytesLength(d: Desc, x: nat, y: nat, width: nat, rows: nat)
    ensures |RectBytes(d, x, y, width, rows)| == rows * (width * 4)
  {
    if rows > 0 {
      RectBytesLength(d, x, y, width, rows - 1);
      assert (rows - 1) * (width * 4) + width * 4 == rows * (width * 4);
    }
  }

  // Strictly increasing, and below a bound.
  predicate Climbs(s: seq<nat>, bound: nat) {
    && (forall i, j :: 0 <= i < j < |s| ==> s[i] < s[j])
    && (forall i :: 0 <= i < |s| ==> s[i] < bound)
  }

  lemma AppendRange(s: seq<nat>, base: nat, n: nat, bound: nat)
    requires Climbs(s, base) && base + n <= bound
    ensures Climbs(s + Range(base, n), bound)
  {
    var r := s + Range(base, n);
    assert forall i :: |s| <= i < |r| ==> r[i] == base + (i - |s|);
  }

  // No byte of the rectangle comes twice: the addresses increase.
  lemma {:induction false} RectBytesIncrease(d: Desc, x: nat, y: nat, width: nat, rows: nat)
    requires 4 * (x + width) <= d.stride
    ensures Climbs(RectBytes(d, x, y, width, rows), RowStart(d, x, y + rows))
  {
    if rows > 0 {
      var line := y + rows - 1;
      RectBytesIncrease(d, x, y, width, rows - 1);
      assert y + (rows - 1) == line;
      RowsApart(d, x, line, width);
      hide Climbs, RowStart, Range;
      AppendRange(RectBytes(d, x, y, width, rows - 1), RowStart(d, x, line), width * 4, RowStart(d, x, line + 1));
    }
  }

  lemma RowsApart(d: Desc, x: nat, line: nat, width: nat)
    requires 4 * (x + width) <= d.stride
    ensures RowStart(d, x, line) + 4 * width <= RowStart(d, x, line + 1)
  {
    assert (line + 1) * d.stride == line * d.stride + d.stride;
  }

  class Buffer {
    var desc: Desc
    var exportCount: nat
    const pageCount: nat

    ghost predicate Valid()
      reads this
    {
      Sound(desc, pageCount)
    }

    constructor (d: Desc)
      requires Words(d) && CreateCheck(d).Ok?
      ensures Valid() && desc == d && exportCount == 0
    {
      CreateCheckIsExact(d);
      desc, exportCount, pageCount := d, 0, AlignUp(d.size) / PAGE_SIZE;
    }

    // armos_drm_bo_set_metadata, once the handle has been found: it succeeds if
    // the buffer already has this geometry, or if it has none, is not exported
    // and is large enough.
    method SetMetadata(width: nat, height: nat, stride: nat, format: Format) returns (r: Status)
      requires Valid() && width < U32 && height < U32 && stride < U32
      modifies this`desc
      ensures Valid()
      ensures r.Ok? <==>
                && width != 0 && height != 0 && Colour(format) && 4 * width <= stride
                && (old(desc) == old(desc).(width := width, height := height, stride := stride, format := format)
                    || (old(desc).width == 0 && exportCount == 0 && stride * height <= old(desc).size))
      ensures desc == if r.Ok? then old(desc).(width := width, height := height, stride := stride, format := format)
                      else old(desc)
    {
      if width == 0 || height == 0 || !Colour(format) {
        return Inval;
      }
      var minimumStride := Low64(width * 4);
      var minimumSize := Low64(stride * height);
      SmallProduct(width, 4);
      SmallProduct(stride, height);
      MulMonotone(1, stride, height);
      hide Low64;
      if stride < minimumStride || minimumSize < minimumStride {
        return Inval;
      }
      if desc.width != 0 || desc.height != 0 || desc.stride != 0 || !desc.format.None? {
        if desc.width == width && desc.height == height && desc.stride == stride && desc.format == format {
          return Ok;
        }
        return Busy;
      }
      if exportCount != 0 {
        return Busy;
      }
      if minimumSize > desc.size {
        return TooBig;
      }
      desc := desc.(width := width, height := height, stride := stride, format := format);
      return Ok;
    }

    // The test armos_drm_bo_present makes before it cleans the rectangle.
    predicate Presentable(x: nat, y: nat, width: nat, height: nat)
      reads this
    {
      && desc.scanout && desc.width != 0 && desc.height != 0
      && x < desc.width && y < desc.height
      && width <= desc.width - x && height <= desc.height - y
    }

    // drm_buffer_clean_rect: every page index is below page_count, and the calls
    // cover the bytes of the rectangle, each of them once and no other: those on its
    // lines and in its columns of four-byte pixels.
    method CleanRect(x: nat, y: nat, width: nat, height: nat) returns (calls: seq<Chunk>)
      requires Valid() && Presentable(x, y, width, height)
      ensures forall c :: c in calls ==> InPage(c, pageCount)
      ensures Cleaned(calls) == RectBytes(desc, x, y, width, height)
      ensures forall a: nat :: a in Cleaned(calls) <==>
                y <= a / desc.stride < y + height && x <= a % desc.stride / 4 < x + width
    {
      assert 0 < desc.stride && 4 * (x + width) <= desc.stride;
      calls := [];
      assert Cleaned(calls) == [];
      hide RowOffset, Low64, Sound, RowStart, Range, InPage, Cleaned;
      var rowSize := Low64(width * 4);
      SmallProduct(width, 4);
      var row := 0;
      while row < height
        invariant 0 <= row <= height
        invariant forall c :: c in calls ==> InPage(c, pageCount)
        invariant Cleaned(calls) == RectBytes(desc, x, y, width, row)
      {
        var offset := RowOffset(desc, x, y + row);
        OffsetIsExact(desc, pageCount, x, y + row, width);
        calls := CleanRow(calls, offset, rowSize);
        row := row + 1;
      }
      forall a: nat
        ensures a in Cleaned(calls) <==>
                  y <= a / desc.stride < y + height && x <= a % desc.stride / 4 < x + width
      {
        InRect(desc, x, y, width, height, a);
      }
    }

    // The inner loop over one row.
    method CleanRow(calls: seq<Chunk>, start: nat, rowSize: nat) returns (calls': seq<Chunk>)
      requires start + rowSize <= pageCount * PAGE_SIZE
      requires forall c :: c in calls ==> InPage(c, pageCount)
      ensures forall c :: c in calls' ==> InPage(c, pageCount)
      ensures Cleaned(calls') == Cleaned(calls) + Range(start, rowSize)
    {
      calls' := calls;
      var offset: nat, remaining: nat := start, rowSize;
      while remaining != 0
        invariant offset + remaining == start + rowSize && start <= offset
        invariant forall c :: c in calls' ==> InPage(c, pageCount)
        invariant Cleaned(calls') == Cleaned(calls) + Range(start, offset - start)
        decreases remaining
      {
        var page := offset / PAGE_SIZE;
        var pageOffset := offset % PAGE_SIZE;
        var chunk := PAGE_SIZE - pageOffset;
        if chunk > remaining {
          chunk := remaining;
        }
        CleanedOneMore(calls', Chunk(page, pageOffset, chunk));
        RangeSplit(start, offset - start, chunk);
        calls' := calls' + [Chunk(page, pageOffset, chunk)];
        offset, remaining := offset + chunk, remaining - chunk;
      }
    }
  }

  lemma RangeSplit(a: nat, m: nat, n: nat)
    ensures Range(a, m + n) == Range(a, m) + Range(a + m, n)
  {
  }

  // None of the 32-bit and 64-bit operations on the way to a row's offset wraps.
  lemma OffsetIsExact(d: Desc, pageCount: nat, x: nat, line: nat, width: nat)
    requires Sound(d, pageCount) && line < d.height && x + width <= d.width
    ensures RowOffset(d, x, line) == RowStart(d, x, line) == line * d.stride + 4 * x
    ensures RowStart(d, x, line) + width * 4 <= d.size <= pageCount * PAGE_SIZE
  {
    hide Low32, Low64, AlignUp;
    RowInside(d, pageCount, x, line, width);
    SmallLow32(line);
    SmallLow64(RowStart(d, x, line));
  }
}
