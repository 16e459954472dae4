/** The guard in front of `glTexImage*` (mpvrenderer.cpp): pixels that are not
    finite, or too large for a half float, are replaced in a copy before OpenGL
    fetches them. The addresses OpenGL fetches are those of section 8.4.4.1 of
    the OpenGL 4.6 core profile specification. */
module UploadGuard {
  import opened Native

  type GLint = n: int | -0x8000_0000 <= n <= 0x7fff_ffff

  const GL_FLOAT := 0x1406
  const HALF_MAX := 65504.0
  const FLOAT_BYTES := 4
  const TWO_64 := 0x1_0000_0000_0000_0000

  /** The current context as the guard queries it. */
  datatype Context = Context(
    isES: bool, major: int, alignment: GLint, rowLength: GLint, skipRows: GLint, skipPixels: GLint,
    skipImages: GLint, imageHeight: GLint, buffer: GLint, swap: GLint)

  datatype Upload = Upload(
    internalFormat: GLint, width: GLint, height: GLint, depth: GLint, threeDimensional: bool, format: int, kind: int)

  /** What OpenGL lets a context hold: state that an OpenGL ES context does not
      have keeps its initial value. */
  predicate LegalContext(c: Context) {
    && c.alignment in {1, 2, 4, 8}
    && c.rowLength >= 0 && c.skipRows >= 0 && c.skipPixels >= 0 && c.skipImages >= 0 && c.imageHeight >= 0
    && (c.isES ==> c.swap == 0)
    && (c.isES && c.major < 3 ==>
          c.rowLength == c.skipRows == c.skipPixels == c.skipImages == c.imageHeight == c.buffer == 0)
  }

  /** A texture without a third dimension is uploaded with depth 1. */
  predicate LegalUpload(u: Upload) {
    !u.threeDimensional ==> u.depth <= 1
  }

  // ----- formats, as OpenGL names them -----

  datatype Component = Red | Green | Blue | Alpha | Luminance | Depth

  /** The components of a texel in client memory, in their order, for each format
      of floats (section 8.4.4 of the OpenGL 4.6 compatibility profile
      specification). */
  const TEXELS: map<int, seq<Component>> := map[
    0x1903 := [Red],
    0x1904 := [Green],
    0x1905 := [Blue],
    0x1906 := [Alpha],
    0x1909 := [Luminance],
    0x1902 := [Depth],
    0x8227 := [Red, Green],
    0x190A := [Luminance, Alpha],
    0x1907 := [Red, Green, Blue],
    0x80E0 := [Blue, Green, Red],
    0x1908 := [Red, Green, Blue, Alpha],
    0x80E1 := [Blue, Green, Red, Alpha]]

  /** A format of none of these has no texels here. */
  function Texel(format: int): seq<Component> {
    if format in TEXELS then TEXELS[format] else []
  }

  /** The internal formats that store each component as a 16-bit float (section
      8.5 there): R16F, RG16F, RGB16F and RGBA16F. */
  const HALF_FLOATS: map<int, seq<Component>> := map[
    0x822D := [Red],
    0x822F := [Red, Green],
    0x881B := [Red, Green, Blue],
    0x881A := [Red, Green, Blue, Alpha]]

  /** A float that the texture can hold without becoming infinite or no number. */
  predicate Storable(x: Number, internalFormat: int) {
    x.Finite? && (internalFormat in HALF_FLOATS ==> -65504.0 <= x.value <= 65504.0)
  }

  // ----- the pure helpers of the source -----

  /** As many floats as the format names components; none for other formats. */
  function FloatComponents(format: int): (n: nat)
    ensures n == |Texel(format)| <= 4
  {
    if format in {0x1903, 0x1904, 0x1905, 0x1906, 0x1909, 0x1902} then 1
    else if format in {0x8227, 0x190A} then 2
    else if format in {0x1907, 0x80E0} then 3
    else if format in {0x1908, 0x80E1} then 4
    else 0
  }

  predicate HalfFloatStorage(internalFormat: int): (half: bool)
    ensures half <==> internalFormat in HALF_FLOATS
  {
    internalFormat in {0x822D, 0x822F, 0x881B, 0x881A}
  }

  predicate NeedsReplacement(x: Number, half: bool) {
    !x.Finite? || (half && (x.value > HALF_MAX || x.value < -HALF_MAX))
  }

  function Replacement(x: Number): Number {
    if !x.Finite? then Finite(0.0)
    else if x.value < 0.0 then Finite(-HALF_MAX) else Finite(HALF_MAX)
  }

  /** The float that may safely take the place of `x`. */
  function Repaired(x: Number, half: bool): Number {
    if NeedsReplacement(x, half) then Replacement(x) else x
  }

  /** A repaired float can be stored; a float that can be stored is kept; a finite
      float keeps its sign and moves no further than to the largest half float,
      and one that is not finite becomes zero. */
  lemma RepairIsSafe(x: Number, internalFormat: int)
    ensures var r := Repaired(x, HalfFloatStorage(internalFormat));
      && Storable(r, internalFormat)
      && (Storable(x, internalFormat) ==> r == x)
      && (x.Finite? && !Storable(x, internalFormat) ==> r.value == if x.value < 0.0 then -65504.0 else 65504.0)
      && (!x.Finite? ==> r.value == 0.0)
    ensures NeedsReplacement(x, HalfFloatStorage(internalFormat)) <==> !Storable(x, internalFormat)
  {
  }

  lemma RepairedNeedsNothing(x: Number, half: bool)
    ensures !NeedsReplacement(Repaired(x, half), half)
  {
  }

  // ----- what OpenGL fetches -----

  function TexelsPerRow(c: Context, u: Upload): int {
    if c.rowLength > 0 then c.rowLength else u.width
  }

  /** Elements from one row to the next. */
  function RowStride(c: Context, u: Upload): int {
    Stride(|Texel(u.format)| * TexelsPerRow(c, u), c.alignment)
  }

  /** The stride of rows of `elements` floats under an alignment in bytes. */
  function Stride(elements: int, alignment: int): int {
    if FLOAT_BYTES >= alignment then elements
    else (alignment / FLOAT_BYTES) * CeilingDiv(FLOAT_BYTES * elements, alignment)
  }

  function CeilingDiv(x: int, d: int): int {
    if d <= 0 then 0 else (x + d - 1) / d
  }

  function RowsPerImage(c: Context, u: Upload): int {
    if u.threeDimensional && c.imageHeight > 0 then c.imageHeight else u.height
  }

  /** The first skipped images count only for a texture of three dimensions. */
  function SkippedImages(c: Context, u: Upload): int {
    if u.threeDimensional then c.skipImages else 0
  }

  /** The element OpenGL fetches for component `n` of the texel at (x, y, z). */
  function Fetched(c: Context, u: Upload, x: int, y: int, z: int, n: int): int {
    (SkippedImages(c, u) + z) * RowsPerImage(c, u) * RowStride(c, u)
    + (c.skipRows + y) * RowStride(c, u)
    + (c.skipPixels + x) * |Texel(u.format)| + n
  }

  predicate InUpload(u: Upload, x: int, y: int, z: int, n: int) {
    0 <= x < u.width && 0 <= y < u.height && 0 <= z < u.depth && 0 <= n < |Texel(u.format)|
  }

  /** One past the last element OpenGL fetches. */
  function FetchEnd(c: Context, u: Upload): int {
    Fetched(c, u, u.width - 1, u.height - 1, u.depth - 1, |Texel(u.format)| - 1) + 1
  }

  /** An upload of floats from client memory in native byte order. */
  predicate Guarded(context: Option<Context>, u: Upload) {
    && u.kind == GL_FLOAT && |Texel(u.format)| != 0 && u.width > 0 && u.height > 0 && u.depth > 0
    && context.Some? && context.value.buffer == 0 && context.value.swap == 0
  }

  // ----- 64-bit arithmetic -----

  function U64(n: int): (r: int)
    ensures 0 <= r < TWO_64
  {
    n % TWO_64
  }

  lemma U64Shift(r: int, k: int)
    requires 0 <= r < TWO_64
    ensures U64(r + k * TWO_64) == r
  {
  }

  /** One operation of the source's `unsigned long long`: the exact result, cut
      to 64 bits. */
  method Cut(exact: int) returns (r: int, ghost k: int)
    ensures 0 <= r < TWO_64 && exact == r + k * TWO_64
    ensures 0 <= exact < TWO_64 ==> r == exact
  {
    r, k := U64(exact), exact / TWO_64;
  }

  // ----- the extent -----

  /** The unpack state as the guard reads it: what the context cannot have, or
      the upload does not use, stays 0 without a query. */
  function Queried(c: Context, u: Upload): Context {
    var unpackState := !c.isES || c.major >= 3;
    Context(c.isES, c.major, c.alignment,
            if unpackState then c.rowLength else 0,
            if unpackState then c.skipRows else 0,
            if unpackState then c.skipPixels else 0,
            if unpackState && u.threeDimensional then c.skipImages else 0,
            if unpackState && u.threeDimensional then c.imageHeight else 0,
            if unpackState then c.buffer else 0,
            if unpackState && !c.isES then c.swap else 0)
  }

  predicate Scannable(q: Context) {
    q.buffer == 0 && q.swap == 0 && q.alignment > 0 && q.rowLength >= 0 && q.skipRows >= 0
    && q.skipPixels >= 0 && q.skipImages >= 0 && q.imageHeight >= 0
  }

  /** Bytes from one row to the next agree with OpenGL's row stride. */
  method RowBytes(rowLength: int, width: int, groupBytes: int, alignment: int) returns (rowBytes: int)
    requires 0 <= rowLength <= 0x7fff_ffff && 0 < width <= 0x7fff_ffff && 0 <= groupBytes <= 16
    requires groupBytes % FLOAT_BYTES == 0 && alignment in {1, 2, 4, 8}
    ensures var texels := if rowLength > 0 then rowLength else width;
            rowBytes == FLOAT_BYTES * Stride(groupBytes / FLOAT_BYTES * texels, alignment)
  {
    var texels := if rowLength > 0 then rowLength else width;
    ghost var elements := groupBytes / FLOAT_BYTES * texels;
    RowFits(texels, groupBytes, elements);
    ghost var k;
    rowBytes, k := Cut(texels * groupBytes);
    if FLOAT_BYTES < alignment {
      EightByteRows(elements);
      var padded;
      padded, k := Cut(rowBytes + alignment - 1);
      rowBytes, k := Cut(padded / alignment * alignment);
    }
  }

  lemma EightByteRows(elements: int)
    requires 0 <= FLOAT_BYTES * elements <= 16 * 0x7fff_ffff
    ensures FLOAT_BYTES * Stride(elements, 8) == (FLOAT_BYTES * elements + 8 - 1) / 8 * 8
  {
    var groups := (FLOAT_BYTES * elements + 7) / 8;
    assert Stride(elements, 8) == 2 * groups;
  }

  lemma RowFits(texels: int, groupBytes: int, elements: int)
    requires 0 < texels <= 0x7fff_ffff && 0 <= groupBytes <= 16 && groupBytes % FLOAT_BYTES == 0
    requires elements == groupBytes / FLOAT_BYTES * texels
    ensures texels * groupBytes == FLOAT_BYTES * elements && 0 <= FLOAT_BYTES * elements <= 16 * 0x7fff_ffff
  {
    assert groupBytes == 0 || groupBytes == 4 || groupBytes == 8 || groupBytes == 12 || groupBytes == 16;
  }

  /** The exact number of bytes up to the end of the last element fetched. */
  lemma ExactExtent(c: Context, u: Upload, rowBytes: int, groupBytes: int, imageBytes: int)
    requires rowBytes == FLOAT_BYTES * RowStride(c, u) && groupBytes == FLOAT_BYTES * |Texel(u.format)|
    requires imageBytes == RowsPerImage(c, u) * rowBytes
    ensures FLOAT_BYTES * FetchEnd(c, u)
            == SkippedImages(c, u) * imageBytes + c.skipRows * rowBytes + c.skipPixels * groupBytes
               + (u.depth - 1) * imageBytes + (u.height - 1) * rowBytes + u.width * groupBytes
  {
    var r, h, n, s := RowStride(c, u), RowsPerImage(c, u), |Texel(u.format)|, SkippedImages(c, u);
    Distribute4(s, u.depth - 1, h, r);
    Distribute(c.skipRows, u.height - 1, r);
    Distribute(c.skipPixels, u.width, n);
    assert (c.skipPixels + u.width - 1) * n + n == (c.skipPixels + u.width) * n;
  }

  lemma Distribute(a: int, b: int, r: int)
    ensures FLOAT_BYTES * ((a + b) * r) == a * (FLOAT_BYTES * r) + b * (FLOAT_BYTES * r)
  {
    assert a * (FLOAT_BYTES * r) == FLOAT_BYTES * (a * r) && b * (FLOAT_BYTES * r) == FLOAT_BYTES * (b * r);
  }

  lemma Distribute4(s: int, d: int, h: int, r: int)
    ensures FLOAT_BYTES * ((s + d) * h * r) == s * (h * (FLOAT_BYTES * r)) + d * (h * (FLOAT_BYTES * r))
  {
    assert (s + d) * h * r == (s + d) * (h * r) == s * (h * r) + d * (h * r);
    assert h * (FLOAT_BYTES * r) == FLOAT_BYTES * (h * r);
    assert s * (FLOAT_BYTES * (h * r)) == FLOAT_BYTES * (s * (h * r));
    assert d * (FLOAT_BYTES * (h * r)) == FLOAT_BYTES * (d * (h * r));
  }

  /** The sum of six products, every operation cut to 64 bits. */
  method WrappedSum(s: int, d: int, h: int, rowBytes: int, skipRows: int, lastRow: int, pixels: int, width: int)
    returns (extent: int)
    ensures extent == U64(s * (h * rowBytes) + skipRows * rowBytes + pixels
                          + d * (h * rowBytes) + lastRow * rowBytes + width)
  {
    ghost var k, k1, k2, k3, k4, k5, k6;
    var imageBytes, skipped, rows, images, last, offset;
    imageBytes, k := Cut(h * rowBytes);
    skipped, k1 := Cut(s * imageBytes);
    rows, k2 := Cut(skipRows * rowBytes);
    offset, k3 := Sum3(skipped, rows, pixels);
    images, k4 := Cut(d * imageBytes);
    last, k5 := Cut(lastRow * rowBytes);
    extent, k6 := Sum4(offset, images, last, width);
    TimesShifted(s, h * rowBytes, imageBytes, k);
    TimesShifted(d, h * rowBytes, imageBytes, k);
    U64Shift(extent, s * k + k1 + k2 + k3 + d * k + k4 + k5 + k6);
  }

  lemma TimesShifted(s: int, exact: int, r: int, k: int)
    requires exact == r + k * TWO_64
    ensures s * exact == s * r + (s * k) * TWO_64
  {
  }

  method Sum3(a: int, b: int, c: int) returns (sum: int, ghost k: int)
    ensures 0 <= sum < TWO_64 && a + b + c == sum + k * TWO_64
  {
    ghost var k1, k2, k3;
    var ab, cut;
    ab, k1 := Cut(a + b);
    cut, k2 := Cut(c);
    sum, k3 := Cut(ab + cut);
    k := k1 + k2 + k3;
  }

  method Sum4(a: int, b: int, c: int, d: int) returns (sum: int, ghost k: int)
    ensures 0 <= sum < TWO_64 && a + b + c + d == sum + k * TWO_64
  {
    ghost var k1, k2, k3;
    var abc, cut;
    abc, k1 := Sum3(a, b, c);
    cut, k2 := Cut(d);
    sum, k3 := Cut(abc + cut);
    k := k1 + k2 + k3;
  }

  /** The bytes to scan, in the 64-bit arithmetic of the source: exactly up to
      the end of the last float OpenGL fetches, wherever that fits 64 bits. */
  method ExtentOf(c: Context, u: Upload) returns (extent: int)
    requires LegalContext(c) && LegalUpload(u)
    requires Texel(u.format) != [] && u.width > 0 && u.height > 0 && u.depth > 0
    ensures extent == U64(FLOAT_BYTES * FetchEnd(c, u))
  {
    var q := Queried(c, u);
    var groupBytes := FloatComponents(u.format) * FLOAT_BYTES;
    var rowBytes := RowBytes(q.rowLength, u.width, groupBytes, q.alignment);
    extent := WrappedSum(if u.threeDimensional then q.skipImages else 0, u.depth - 1,
                         if q.imageHeight > 0 then q.imageHeight else u.height, rowBytes,
                         q.skipRows, u.height - 1, q.skipPixels * groupBytes, u.width * groupBytes);
    ExactExtent(c, u, rowBytes, groupBytes, RowsPerImage(c, u) * rowBytes);
  }

  // ----- what lies inside the extent -----

  /** Every float OpenGL fetches lies inside the extent, even where rows overlap;
      the last one ends it. */
  lemma FetchedIsScanned(c: Context, u: Upload, x: int, y: int, z: int, n: int)
    requires LegalContext(c) && InUpload(u, x, y, z, n)
    ensures 0 <= Fetched(c, u, x, y, z, n) < FetchEnd(c, u)
  {
    var k := |Texel(u.format)|;
    var r, h, s := RowStride(c, u), RowsPerImage(c, u), SkippedImages(c, u);
    StrideIsPositive(c, u);
    assert h > 0;
    Grows(s + z, s + u.depth - 1, h);
    Grows((s + z) * h, (s + u.depth - 1) * h, r);
    Grows(c.skipRows + y, c.skipRows + u.height - 1, r);
    Grows(c.skipPixels + x, c.skipPixels + u.width - 1, k);
  }

  lemma Grows(a: int, b: int, k: int)
    requires 0 <= a <= b && 0 <= k
    ensures 0 <= a * k <= b * k
  {
  }

  lemma StrideIsPositive(c: Context, u: Upload)
    requires LegalContext(c) && u.width > 0
    ensures RowStride(c, u) >= 0
  {
    assert |Texel(u.format)| * TexelsPerRow(c, u) >= 0;
  }

  /** An array in which every float of the extent is repaired shows OpenGL the
      repaired image, texel by texel, and nothing that still needs repair. */
  lemma ImageIsRepaired(c: Context, u: Upload, source: seq<Number>, shown: seq<Number>, half: bool)
    requires LegalContext(c) && RepairedUpTo(FetchEnd(c, u), source, shown, half)
    ensures ShowsRepaired(c, u, source, shown, half)
    ensures forall x, y, z, n :: InUpload(u, x, y, z, n) ==>
                                   var at := Fetched(c, u, x, y, z, n);
                                   0 <= at < |shown| && !NeedsReplacement(shown[at], half)
  {
    forall x, y, z, n | InUpload(u, x, y, z, n)
      ensures var at := Fetched(c, u, x, y, z, n);
              0 <= at < |source| && at < |shown| && shown[at] == Repaired(source[at], half)
              && !NeedsReplacement(shown[at], half)
    {
      FetchedIsScanned(c, u, x, y, z, n);
      RepairedNeedsNothing(source[Fetched(c, u, x, y, z, n)], half);
    }
  }

  /** Every float OpenGL fetches can be stored in the texture. */
  ghost predicate ShowsStorable(c: Context, u: Upload, shown: seq<Number>) {
    forall x, y, z, n :: InUpload(u, x, y, z, n) ==>
                           var at := Fetched(c, u, x, y, z, n);
                           0 <= at < |shown| && Storable(shown[at], u.internalFormat)
  }

  lemma RepairedIsStorable(c: Context, u: Upload, source: seq<Number>, shown: seq<Number>)
    requires ShowsRepaired(c, u, source, shown, HalfFloatStorage(u.internalFormat))
    ensures ShowsStorable(c, u, shown)
  {
    forall x, y, z, n | InUpload(u, x, y, z, n)
      ensures var at := Fetched(c, u, x, y, z, n); 0 <= at < |shown| && Storable(shown[at], u.internalFormat)
    {
      RepairIsSafe(source[Fetched(c, u, x, y, z, n)], u.internalFormat);
    }
  }

  /** No object reaches so far that the extent of an upload from it could wrap. */
  lemma ExtentIsExact(c: Context, u: Upload, length: int, sizeMax: int)
    requires LegalContext(c) && InUpload(u, 0, 0, 0, 0)
    requires FetchEnd(c, u) <= length && FLOAT_BYTES * length <= sizeMax < TWO_64
    ensures 0 < FetchEnd(c, u) && U64(FLOAT_BYTES * FetchEnd(c, u)) == FLOAT_BYTES * FetchEnd(c, u)
  {
    FetchedIsScanned(c, u, 0, 0, 0, 0);
    U64Shift(FLOAT_BYTES * FetchEnd(c, u), 0);
  }

  predicate RepairedUpTo(end: int, source: seq<Number>, shown: seq<Number>, half: bool) {
    end <= |source| && end <= |shown| && forall i :: 0 <= i < end ==> shown[i] == Repaired(source[i], half)
  }

  ghost predicate ShowsRepaired(c: Context, u: Upload, source: seq<Number>, shown: seq<Number>, half: bool) {
    forall x, y, z, n :: InUpload(u, x, y, z, n) ==>
                           var at := Fetched(c, u, x, y, z, n);
                           0 <= at < |source| && at < |shown| && shown[at] == Repaired(source[at], half)
  }

  predicate CleanUpTo(end: int, source: seq<Number>, half: bool) {
    end <= |source| && forall i :: 0 <= i < end ==> !NeedsReplacement(source[i], half)
  }

  // ----- the guard -----

  /** A `std::vector<float>`. */
  class Storage {
    var data: array<Number>

    constructor ()
      ensures fresh(data) && data.Length == 0
    {
      data := new Number[0];
    }

    method Resize(count: nat) returns (thrown: bool)
      modifies this
      ensures thrown ==> data == old(data)
      ensures !thrown ==> fresh(data) && data.Length == count
    {
      thrown := *;
      if !thrown { data := new Number[count](_ => Finite(0.0)); }
    }
  }

  /** mpvrenderer.cpp, `guardedPixels`. An upload reads no further than the
      client's pixels reach, and no object is larger than SIZE_MAX bytes. */
  method GuardedPixels(u: Upload, pixels: array?<Number>, context: Option<Context>, sizeMax: nat, storage: Storage)
    returns (result: array?<Number>, failed: bool)
    requires context.Some? ==> LegalContext(context.value)
    requires LegalUpload(u) && sizeMax < TWO_64
    requires pixels != null ==> FLOAT_BYTES * pixels.Length <= sizeMax
    requires pixels != null && Guarded(context, u) ==> FetchEnd(context.value, u) <= pixels.Length
    modifies storage
    ensures pixels == null || !Guarded(context, u) || failed ==> result == pixels
    ensures pixels != null && Guarded(context, u) ==>
              var half := HalfFloatStorage(u.internalFormat);
              && result != null && (result == pixels || fresh(result))
              && (CleanUpTo(FetchEnd(context.value, u), pixels[..], half) ==> result == pixels && !failed)
              && (result == pixels ==> failed || CleanUpTo(FetchEnd(context.value, u), pixels[..], half))
              && (!failed ==> RepairedUpTo(FetchEnd(context.value, u), pixels[..], result[..], half))
  {
    result, failed := pixels, false;
    if u.kind != GL_FLOAT || pixels == null || FloatComponents(u.format) == 0
       || u.width <= 0 || u.height <= 0 || u.depth <= 0 || context.None? { return; }
    var c := context.value;
    if !Scannable(Queried(c, u)) { return; }
    var extent := ExtentOf(c, u);
    ExtentIsExact(c, u, pixels.Length, sizeMax);
    if extent / FLOAT_BYTES > sizeMax / FLOAT_BYTES { return; }
    var half := HalfFloatStorage(u.internalFormat);
    result, failed := ReplaceBad(pixels, extent / FLOAT_BYTES, half, storage);
  }

  /** The floats before `count`, in a copy when one of them needs replacement. */
  method ReplaceBad(pixels: array<Number>, count: nat, half: bool, storage: Storage)
    returns (result: array<Number>, failed: bool)
    requires count <= pixels.Length
    modifies storage
    ensures result == pixels || fresh(result)
    ensures CleanUpTo(count, pixels[..], half) ==> result == pixels && !failed
    ensures result == pixels ==> failed || CleanUpTo(count, pixels[..], half)
    ensures failed ==> result == pixels
    ensures !failed ==> RepairedUpTo(count, pixels[..], result[..], half)
  {
    result, failed := pixels, false;
    var first := FirstBad(pixels, count, half);
    if first == count { return; }
    assert NeedsReplacement(pixels[..][first], half);
    var thrown := storage.Resize(count);
    if thrown { return pixels, true; }
    RepairInto(pixels, storage.data, count, first, half);
    result := storage.data;
  }

  /** The scan for the first float to replace; `count` when there is none. */
  method FirstBad(pixels: array<Number>, count: nat, half: bool) returns (first: nat)
    requires count <= pixels.Length
    ensures first <= count && CleanUpTo(first, pixels[..], half)
    ensures first < count ==> NeedsReplacement(pixels[first], half)
  {
    first := count;
    var i := 0;
    while i < count
      invariant 0 <= i <= count && first == count && CleanUpTo(i, pixels[..], half)
    {
      if NeedsReplacement(pixels[i], half) {
        first := i;
        break;
      }
      i := i + 1;
    }
  }

  /** The copy, and the replacements from the first bad float on. */
  method RepairInto(pixels: array<Number>, data: array<Number>, count: nat, first: nat, half: bool)
    requires pixels != data && data.Length == count <= pixels.Length
    requires first <= count && CleanUpTo(first, pixels[..], half)
    modifies data
    ensures forall i :: 0 <= i < count ==> data[i] == Repaired(pixels[i], half)
  {
    forall i | 0 <= i < count { data[i] := pixels[i]; }
    assert forall i :: 0 <= i < first ==> pixels[..][i] == pixels[i];
    var i := first;
    while i < count
      invariant first <= i <= count
      invariant forall j :: 0 <= j < i ==> data[j] == Repaired(pixels[j], half)
      invariant forall j :: i <= j < count ==> data[j] == pixels[j]
    {
      if NeedsReplacement(data[i], half) { data[i] := Replacement(data[i]); }
      i := i + 1;
    }
  }

  /** mpvrenderer.cpp, `guardedTexImage1D`, `guardedTexImage2D` and
      `guardedTexImage3D`: what OpenGL is handed is the client's image with
      exactly the bad floats replaced; only a failed copy hands it on as it is. */
  method GuardedTexImage(u: Upload, pixels: array?<Number>, context: Option<Context>, sizeMax: nat)
    returns (shown: array?<Number>, failed: bool)
    requires context.Some? ==> LegalContext(context.value)
    requires LegalUpload(u) && sizeMax < TWO_64
    requires pixels != null ==> FLOAT_BYTES * pixels.Length <= sizeMax
    requires pixels != null && Guarded(context, u) ==> FetchEnd(context.value, u) <= pixels.Length
    ensures pixels == null || !Guarded(context, u) || failed ==> shown == pixels
    ensures pixels != null && Guarded(context, u) && !failed ==>
              shown != null
              && ShowsRepaired(context.value, u, pixels[..], shown[..], HalfFloatStorage(u.internalFormat))
              && ShowsStorable(context.value, u, shown[..])
  {
    var storage := new Storage();
    shown, failed := GuardedPixels(u, pixels, context, sizeMax, storage);
    if pixels != null && Guarded(context, u) && !failed {
      ImageIsRepaired(context.value, u, pixels[..], shown[..], HalfFloatStorage(u.internalFormat));
      RepairedIsStorable(context.value, u, pixels[..], shown[..]);
    }
  }
}
