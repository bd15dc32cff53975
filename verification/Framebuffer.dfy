/** Capturing the visible window of a DRM framebuffer as rows of RGB bytes. */
module Framebuffer {
  import opened Common

  const XRGB8888 := 0x34325258
  const ARGB8888 := 0x34325241
  const XBGR8888 := 0x34324258
  const ABGR8888 := 0x34324241
  const MAX_SIDE := 16384
  const MAX_PITCH := 268435456
  const MAX_MAPPING := 1073741824

  datatype Crtc = Crtc(bufferId: nat, x: nat, y: nat, width: nat, height: nat, modeValid: bool)

  datatype Buffer = Buffer(width: nat, height: nat, format: nat, modifier: nat, handle: nat, pitch: nat, offset: nat)

  /** The older framebuffer query: a depth instead of a format. */
  datatype Legacy = Legacy(width: nat, height: nat, bpp: nat, handle: nat, pitch: nat)

  datatype MapReply = Unsupported | MapFailed | MapOffset(offset: nat)

  /** What the kernel answers, and the bytes behind the buffer. */
  datatype Device = Device(
    crtc: Option<Crtc>, fb2: Option<Buffer>, legacy: Option<Legacy>, mapReply: MapReply, memory: seq<byte>)

  datatype Error =
    NoCrtc | Inactive | NoBuffer | NoHandle | Modifier | Format | Size | Window | Pitch | Length
    | NoDumbMap | MapError | Unaligned | MmapError | RowBounds

  datatype Capture = Rows(rows: seq<seq<byte>>) | Failed(error: Error)

  /** The number that names a format: its four characters, the first one lowest. */
  function FourCc(name: string): nat
    requires |name| == 4 && forall c :: c in name ==> c < '\U{80}'
  {
    name[0] as int + 256 * (name[1] as int) + 65536 * (name[2] as int) + 16777216 * (name[3] as int)
  }

  /** The four formats by name. */
  lemma FormatsAreNamed()
    ensures XRGB8888 == FourCc("XR24") && ARGB8888 == FourCc("AR24")
    ensures XBGR8888 == FourCc("XB24") && ABGR8888 == FourCc("AB24")
  {
  }

  /** What the older query tells: no modifier, no offset, and a format only for 32 bits a pixel. */
  function FromLegacy(fb: Legacy): (b: Buffer)
    ensures b.width == fb.width && b.height == fb.height && b.handle == fb.handle && b.pitch == fb.pitch
    ensures b.modifier == 0 && b.offset == 0
    ensures if fb.bpp == 32 then b.format == XRGB8888 else !Supported(b.format)
  {
    Buffer(fb.width, fb.height, if fb.bpp == 32 then XRGB8888 else 0, 0, fb.handle, fb.pitch, 0)
  }

  predicate Supported(format: nat) {
    format == XRGB8888 || format == ARGB8888 || format == XBGR8888 || format == ABGR8888
  }

  /** The bytes of one framebuffer pixel that hold red, green and blue. */
  function Channel(format: nat, c: nat): nat
    requires c < 3
  {
    if format == XRGB8888 || format == ARGB8888 then 2 - c else c
  }

  /** A pixel: four bytes as a number, the first one lowest. */
  function Word(data: seq<byte>, at: nat): nat
    requires at + 4 <= |data|
  {
    (data[at] as int) + 256 * (data[at + 1] as int) + 65536 * (data[at + 2] as int) + 16777216 * (data[at + 3] as int)
  }

  /** The bytes hold red, green and blue of a pixel: red is bits 16 to 23 in the RGB formats, 0 to 7 in the BGR ones. */
  ghost predicate IsColour(red: byte, green: byte, blue: byte, format: nat, word: nat) {
    && green == word / 256 % 256
    && (format == XRGB8888 || format == ARGB8888 ==> red == word / 65536 % 256 && blue == word % 256)
    && (format == XBGR8888 || format == ABGR8888 ==> red == word % 256 && blue == word / 65536 % 256)
  }

  lemma WordBytes(a: int, b: int, c: int, d: int)
    requires 0 <= a < 256 && 0 <= b < 256 && 0 <= c < 256 && 0 <= d < 256
    ensures var word := a + 256 * b + 65536 * c + 16777216 * d;
            word % 256 == a && word / 256 % 256 == b && word / 65536 % 256 == c
  {
    var word := a + 256 * b + 65536 * c + 16777216 * d;
    assert word == a + 256 * (b + 256 * c + 65536 * d);
    assert word / 256 == b + 256 * c + 65536 * d;
    assert word / 65536 == c + 256 * d by {
      assert word == (a + 256 * b) + 65536 * (c + 256 * d);
    }
  }

  /** The channels of a pixel are the bytes that Channel points at. */
  lemma ChannelsAreColour(data: seq<byte>, at: nat, format: nat)
    requires at + 4 <= |data| && Supported(format)
    ensures IsColour(data[at + Channel(format, 0)], data[at + Channel(format, 1)], data[at + Channel(format, 2)],
                     format, Word(data, at))
  {
    WordBytes(data[at], data[at + 1], data[at + 2], data[at + 3]);
  }

  /** The framebuffer the capture works on, if the kernel describes one. */
  function Described(d: Device): Option<Buffer> {
    match d.fb2
    case Some(b) => Some(b)
    case None => match d.legacy case Some(fb) => Some(FromLegacy(fb)) case None => None
  }

  ghost predicate Shown(d: Device) {
    d.crtc.Some? && d.crtc.value.bufferId != 0 && d.crtc.value.modeValid
    && d.crtc.value.width != 0 && d.crtc.value.height != 0
  }

  ghost predicate Fits(c: Crtc, b: Buffer) {
    && 0 < b.width <= 16384 && 0 < b.height <= 16384
    && c.x + c.width <= b.width && c.y + c.height <= b.height
    && b.width * 4 <= b.pitch <= 0x1000_0000
    && b.offset + b.height * b.pitch <= 0x4000_0000
  }

  ghost predicate Usable(b: Buffer) {
    b.handle != 0 && b.modifier == 0 && Supported(b.format)
  }

  /** Where a channel of framebuffer pixel (row, col) lies in the mapping. */
  function Address(b: Buffer, row: nat, col: nat, c: nat): nat
    requires c < 3
  {
    b.offset + row * b.pitch + 4 * col + Channel(b.format, c)
  }

  /** Whole rows before a later row. */
  lemma RowsBefore(row: nat, later: nat, pitch: nat)
    requires row < later
    ensures row * pitch + pitch <= later * pitch
  {
    var more := later - row - 1;
    assert later * pitch == row * pitch + pitch + more * pitch by {
      assert later == row + 1 + more;
    }
  }

  /** Every pixel of the framebuffer lies inside the mapping. */
  lemma AddressInMapping(b: Buffer, row: nat, col: nat, c: nat)
    requires c < 3 && row < b.height && col < b.width && b.width * 4 <= b.pitch
    ensures Address(b, row, col, c) < b.offset + b.height * b.pitch
  {
    RowsBefore(row, b.height, b.pitch);
  }

  /** No two channels of the framebuffer share a byte. */
  lemma AddressIsInjective(b: Buffer, row: nat, col: nat, c: nat, row': nat, col': nat, c': nat)
    requires c < 3 && c' < 3 && col < b.width && col' < b.width && b.width * 4 <= b.pitch
    requires Address(b, row, col, c) == Address(b, row', col', c')
    ensures row == row' && col == col' && c == c'
  {
    if row < row' {
      RowsBefore(row, row', b.pitch);
    } else if row' < row {
      RowsBefore(row', row, b.pitch);
    }
  }

  /** A row slice of the window stays inside the mapped view. */
  lemma RowInView(c: Crtc, b: Buffer, row: nat)
    requires Fits(c, b) && row < c.height
    ensures (c.y + row) * b.pitch + c.x * 4 + c.width * 4 <= b.height * b.pitch
  {
    RowsBefore(c.y + row, b.height, b.pitch);
  }

  // ----- one row -----

  /** Every fourth byte from an offset. */
  function Stride(data: seq<byte>, from: nat): (r: seq<byte>)
    requires from < 4 && |data| % 4 == 0
    ensures |r| == |data| / 4 && forall i :: 0 <= i < |r| ==> r[i] == data[4 * i + from]
  {
    seq(|data| / 4, i requires 0 <= i < |data| / 4 => data[4 * i + from])
  }

  /** Assign to every third byte from an offset. */
  method Spread(out: array<byte>, at: nat, values: seq<byte>)
    requires at < 3 && out.Length == 3 * |values|
    modifies out
    ensures forall k :: 0 <= k < out.Length ==> out[k] == if k % 3 == at then values[k / 3] else old(out[k])
  {
    for n := 0 to |values|
      invariant forall k :: 0 <= k < out.Length ==>
                  out[k] == if k % 3 == at && k / 3 < n then values[k / 3] else old(out[k])
    {
      out[3 * n + at] := values[n];
    }
  }

  ghost predicate Converted(row: seq<byte>, src: seq<byte>, width: nat, format: nat)
    requires |src| == 4 * width
  {
    |row| == 3 * width &&
    forall col: nat :: col < width ==> IsConverted(row, src, col, format)
  }

  /** Pixel col of the row has the colour of pixel col of the source. */
  ghost predicate IsConverted(row: seq<byte>, src: seq<byte>, col: nat, format: nat)
    requires 4 * col + 4 <= |src| && 3 * col + 3 <= |row|
  {
    IsColour(row[3 * col], row[3 * col + 1], row[3 * col + 2], format, Word(src, 4 * col))
  }

  method ConvertRow(src: seq<byte>, width: nat, format: nat) returns (r: Option<seq<byte>>)
    requires |src| >= 4 * width
    ensures r.Some? <==> Supported(format)
    ensures r.Some? ==> Converted(r.value, src[..4 * width], width, format)
  {
    if !Supported(format) {
      return None;
    }
    var data := src[..width * 4];
    var row: seq<byte>;
    if format == XRGB8888 || format == ARGB8888 {
      row := Interleave(Stride(data, 2), Stride(data, 1), Stride(data, 0));
    } else {
      row := Interleave(Stride(data, 0), Stride(data, 1), Stride(data, 2));
    }
    forall col: nat | col < width
      ensures IsConverted(row, data, col, format)
    {
      ChannelsAreColour(data, 4 * col, format);
    }
    r := Some(row);
  }

  /** Three equally long channels, pixel by pixel. */
  method Interleave(red: seq<byte>, green: seq<byte>, blue: seq<byte>) returns (row: seq<byte>)
    requires |red| == |green| == |blue|
    ensures |row| == 3 * |red|
    ensures forall col :: 0 <= col < |red| ==>
              row[3 * col] == red[col] && row[3 * col + 1] == green[col] && row[3 * col + 2] == blue[col]
  {
    var out := new byte[3 * |red|];
    Spread(out, 0, red);
    Spread(out, 1, green);
    Spread(out, 2, blue);
    forall col | 0 <= col < |red|
      ensures out[3 * col] == red[col] && out[3 * col + 1] == green[col] && out[3 * col + 2] == blue[col]
    {
      ThirdOf(col, 0);
      ThirdOf(col, 1);
      ThirdOf(col, 2);
    }
    row := out[..];
  }

  lemma ThirdOf(col: nat, c: nat)
    requires c < 3
    ensures (3 * col + c) % 3 == c && (3 * col + c) / 3 == col
  {
  }

  // ----- the capture -----

  /** The captured window shows the framebuffer, channel for channel. */
  ghost predicate Shows(rows: seq<seq<byte>>, c: Crtc, b: Buffer, memory: seq<byte>) {
    && |rows| == c.height
    && forall row :: 0 <= row < |rows| ==> RowShows(rows[row], row, c, b, memory)
  }

  ghost predicate RowShows(pixels: seq<byte>, row: nat, c: Crtc, b: Buffer, memory: seq<byte>) {
    && |pixels| == 3 * c.width
    && forall col: nat :: col < c.width ==> PixelShows(pixels, row, col, c, b, memory)
  }

  /** Window pixel (row, col) has the colour of framebuffer pixel (y + row, x + col). */
  ghost predicate PixelShows(pixels: seq<byte>, row: nat, col: nat, c: Crtc, b: Buffer, memory: seq<byte>) {
    var at := b.offset + (c.y + row) * b.pitch + 4 * (c.x + col);
    && at + 4 <= |memory| && 3 * col + 3 <= |pixels|
    && IsColour(pixels[3 * col], pixels[3 * col + 1], pixels[3 * col + 2], b.format, Word(memory, at))
  }

  /** One row of the window, from its first byte in the view. */
  method ReadRow(view: seq<byte>, start: nat, c: Crtc, b: Buffer, ghost row: nat, ghost memory: seq<byte>)
      returns (pixels: Option<seq<byte>>)
    requires start + c.width * 4 <= |view| && start == (c.y + row) * b.pitch + c.x * 4
    requires b.offset + |view| <= |memory| && view == memory[b.offset..b.offset + |view|]
    ensures pixels.Some? <==> Supported(b.format)
    ensures pixels.Some? ==> RowShows(pixels.value, row, c, b, memory)
  {
    hide IsColour, Word, RowShows, Converted;
    var src := view[start..start + c.width * 4];
    assert src[..4 * c.width] == src;
    SliceOfView(memory, b.offset, view, start, start + c.width * 4);
    pixels := ConvertRow(src, c.width, b.format);
    if pixels.Some? {
      RowIsRight(pixels.value, row, b.offset + start, c, b, memory);
    }
  }

  method ReadWindow(view: seq<byte>, c: Crtc, b: Buffer, ghost memory: seq<byte>) returns (r: Capture)
    requires Fits(c, b) && Supported(b.format)
    requires b.offset + b.height * b.pitch <= |memory| && view == memory[b.offset..b.offset + b.height * b.pitch]
    ensures r.Rows? && Shows(r.rows, c, b, memory)
  {
    hide IsColour, Word, RowShows, Converted;
    var rows: seq<seq<byte>> := [];
    for row := 0 to c.height
      invariant |rows| == row && forall i :: 0 <= i < row ==> RowShows(rows[i], i, c, b, memory)
    {
      var start: nat := (c.y + row) * b.pitch + c.x * 4;
      RowInView(c, b, row);
      if start + c.width * 4 > |view| {
        return Failed(RowBounds);
      }
      var pixels := ReadRow(view, start, c, b, row, memory);
      if pixels.None? {
        return Failed(Format);
      }
      rows := rows + [pixels.value];
    }
    r := Rows(rows);
  }

  lemma SliceOfView(memory: seq<byte>, offset: nat, view: seq<byte>, start: nat, end: nat)
    requires offset + |view| <= |memory| && view == memory[offset..offset + |view|] && start <= end <= |view|
    ensures view[start..end] == memory[offset + start..offset + end]
  {
    var a, b := view[start..end], memory[offset + start..offset + end];
    forall i | 0 <= i < |a|
      ensures a[i] == b[i]
    {
      assert a[i] == view[start + i] == memory[offset + (start + i)];
    }
  }

  lemma RowIsRight(pixels: seq<byte>, row: nat, start: nat, c: Crtc, b: Buffer, memory: seq<byte>)
    requires start + c.width * 4 <= |memory| && start == b.offset + (c.y + row) * b.pitch + c.x * 4
    requires Converted(pixels, memory[start..start + c.width * 4], c.width, b.format)
    ensures RowShows(pixels, row, c, b, memory)
  {
    var src := memory[start..start + c.width * 4];
    forall col: nat | col < c.width
      ensures PixelShows(pixels, row, col, c, b, memory)
    {
      assert IsConverted(pixels, src, col, b.format);
      assert Word(src, 4 * col) == Word(memory, start + 4 * col);
    }
  }

  /** The page size that map offsets must respect. */
  const PAGE := 4096

  /** What each refusal says about the request; the handle and the format come first. */
  ghost predicate Objection(e: Error, c: Crtc, b: Buffer) {
    match e
    case NoHandle => b.handle == 0
    case Modifier => b.handle != 0 && b.modifier != 0
    case Format => b.handle != 0 && b.modifier == 0 && !Supported(b.format)
    case Size => Usable(b) && !(0 < b.width <= MAX_SIDE && 0 < b.height <= MAX_SIDE)
    case Window => Usable(b) && (c.x + c.width > b.width || c.y + c.height > b.height)
    case Pitch => Usable(b) && !(b.width * 4 <= b.pitch <= MAX_PITCH)
    case Length => Usable(b) && b.offset + b.height * b.pitch > MAX_MAPPING
    case _ => false
  }

  /** The checks a capture must pass, in the order it makes them. */
  method Check(c: Crtc, b: Buffer) returns (e: Option<Error>)
    ensures e == None <==> Usable(b) && Fits(c, b)
    ensures e.Some? ==> Objection(e.value, c, b)
  {
    if b.handle == 0 {
      return Some(NoHandle);
    }
    if b.modifier != 0 {
      return Some(Modifier);
    }
    if !Supported(b.format) {
      return Some(Format);
    }
    if b.width == 0 || b.height == 0 || b.width > MAX_SIDE || b.height > MAX_SIDE {
      return Some(Size);
    }
    if c.x + c.width > b.width || c.y + c.height > b.height {
      return Some(Window);
    }
    if b.pitch < b.width * 4 || b.pitch > MAX_PITCH {
      return Some(Pitch);
    }
    if b.offset + b.height * b.pitch > MAX_MAPPING {
      return Some(Length);
    }
    return None;
  }

  /** Everything the kernel must grant for a capture. */
  ghost predicate Mappable(d: Device, b: Buffer) {
    && d.mapReply.MapOffset? && d.mapReply.offset % 4096 == 0
    && b.offset + b.height * b.pitch <= |d.memory|
  }

  /** What each refusal says about the device; a row outside the mapping is never met. */
  ghost predicate Refusal(e: Error, d: Device) {
    match e
    case NoCrtc => d.crtc.None?
    case Inactive => d.crtc.Some? && !Shown(d)
    case NoBuffer => Shown(d) && d.fb2.None? && d.legacy.None?
    case NoDumbMap => Asked(d) && d.mapReply.Unsupported?
    case MapError => Asked(d) && d.mapReply.MapFailed?
    case Unaligned => Asked(d) && d.mapReply.MapOffset? && d.mapReply.offset % PAGE != 0
    case MmapError => Asked(d) && !Mappable(d, Described(d).value)
    case _ => Shown(d) && Described(d).Some? && Objection(e, d.crtc.value, Described(d).value)
  }

  /** The request got as far as mapping the buffer. */
  ghost predicate Asked(d: Device) {
    Shown(d) && Described(d).Some? && Usable(Described(d).value) && Fits(d.crtc.value, Described(d).value)
  }

  /** The capture, without its file: it succeeds exactly when every check and every call does. */
  method Grab(d: Device) returns (r: Capture)
    ensures r.Rows? <==>
            Shown(d) && Described(d).Some? && Usable(Described(d).value) &&
            Fits(d.crtc.value, Described(d).value) && Mappable(d, Described(d).value)
    ensures r.Rows? ==> Shows(r.rows, d.crtc.value, Described(d).value, d.memory)
    ensures r.Failed? ==> Refusal(r.error, d)
  {
    if d.crtc.None? {
      return Failed(NoCrtc);
    }
    var c := d.crtc.value;
    if c.bufferId == 0 || c.width == 0 || c.height == 0 || !c.modeValid {
      return Failed(Inactive);
    }
    var b := Described(d);
    if b.None? {
      return Failed(NoBuffer);
    }
    var e := Check(c, b.value);
    if e.Some? {
      return Failed(e.value);
    }
    r := MapAndRead(d, c, b.value);
  }

  ghost predicate MapRefusal(e: Error, d: Device, b: Buffer) {
    && (e == NoDumbMap ==> d.mapReply.Unsupported?)
    && (e == MapError ==> d.mapReply.MapFailed?)
    && (e == Unaligned ==> d.mapReply.MapOffset? && d.mapReply.offset % PAGE != 0)
    && (e == MmapError ==> !Mappable(d, b))
    && e in {NoDumbMap, MapError, Unaligned, MmapError}
  }

  method MapAndRead(d: Device, c: Crtc, b: Buffer) returns (r: Capture)
    requires Usable(b) && Fits(c, b)
    ensures r.Rows? <==> Mappable(d, b)
    ensures r.Rows? ==> Shows(r.rows, c, b, d.memory)
    ensures r.Failed? ==> MapRefusal(r.error, d, b)
  {
    match d.mapReply
    case Unsupported => return Failed(NoDumbMap);
    case MapFailed => return Failed(MapError);
    case MapOffset(offset) =>
      if offset % PAGE != 0 {
        return Failed(Unaligned);
      }
      var length := b.offset + b.height * b.pitch;
      if length > |d.memory| {
        return Failed(MmapError);
      }
      r := ReadWindow(d.memory[b.offset..length], c, b, d.memory);
  }
}
