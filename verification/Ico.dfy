/** Concatenation of a list of blocks, and where each block lies in it. */
module Blocks {

  function Flat<T>(blocks: seq<seq<T>>): seq<T> {
    if blocks == [] then [] else Flat(blocks[..|blocks| - 1]) + blocks[|blocks| - 1]
  }

  function Total<T>(blocks: seq<seq<T>>): nat {
    if blocks == [] then 0 else Total(blocks[..|blocks| - 1]) + |blocks[|blocks| - 1]|
  }

  lemma FlatSnoc<T>(blocks: seq<seq<T>>, i: nat)
    requires i < |blocks|
    ensures Flat(blocks[..i + 1]) == Flat(blocks[..i]) + blocks[i]
    ensures Total(blocks[..i + 1]) == Total(blocks[..i]) + |blocks[i]|
  {
    assert blocks[..i + 1][..i] == blocks[..i];
  }

  lemma {:induction false} FlatLength<T>(blocks: seq<seq<T>>)
    ensures |Flat(blocks)| == Total(blocks)
  {
    if blocks != [] {
      FlatLength(blocks[..|blocks| - 1]);
    }
  }

  lemma {:induction false} TotalPrefix<T>(blocks: seq<seq<T>>, i: nat)
    requires i <= |blocks|
    ensures Total(blocks[..i]) <= Total(blocks)
  {
    if i < |blocks| {
      var before := blocks[..|blocks| - 1];
      TotalPrefix(before, i);
      assert before[..i] == blocks[..i];
    } else {
      assert blocks[..i] == blocks;
    }
  }

  lemma {:induction false} TotalUniform<T>(blocks: seq<seq<T>>, size: nat)
    requires forall i :: 0 <= i < |blocks| ==> |blocks[i]| == size
    ensures Total(blocks) == size * |blocks|
  {
    if blocks != [] {
      TotalUniform(blocks[..|blocks| - 1], size);
    }
  }

  /** Block `i` lies behind the blocks before it. */
  lemma {:induction false} FlatSlice<T>(blocks: seq<seq<T>>, i: nat)
    requires i < |blocks|
    ensures Total(blocks[..i]) + |blocks[i]| <= |Flat(blocks)|
    ensures Flat(blocks)[Total(blocks[..i])..Total(blocks[..i]) + |blocks[i]|] == blocks[i]
  {
    var n := |blocks| - 1;
    FlatLength(blocks[..n]);
    if i < n {
      FlatSlice(blocks[..n], i);
      assert blocks[..n][..i] == blocks[..i];
      SliceOfMiddle([], Flat(blocks[..n]), blocks[n], Total(blocks[..i]), Total(blocks[..i]) + |blocks[i]|);
      assert [] + Flat(blocks[..n]) + blocks[n] == Flat(blocks);
    }
  }

  lemma SliceOfMiddle<T>(a: seq<T>, b: seq<T>, c: seq<T>, i: nat, j: nat)
    requires i <= j <= |b|
    ensures (a + b + c)[|a| + i..|a| + j] == b[i..j]
  {
  }

  lemma SliceOfTail<T>(a: seq<T>, b: seq<T>, i: nat, j: nat)
    requires i <= j <= |b|
    ensures (a + b)[|a| + i..|a| + j] == b[i..j]
  {
  }

  lemma FirstPart<T>(header: seq<T>, entries: seq<seq<T>>, blobs: seq<seq<T>>, i: nat)
    requires i < |entries|
    ensures var f, at := header + Flat(entries) + Flat(blobs), |header| + Total(entries[..i]);
      at + |entries[i]| <= |f| && f[at..at + |entries[i]|] == entries[i]
  {
    FlatSlice(entries, i);
    SliceOfMiddle(header, Flat(entries), Flat(blobs), Total(entries[..i]), Total(entries[..i]) + |entries[i]|);
  }

  lemma SecondPart<T>(header: seq<T>, entries: seq<seq<T>>, blobs: seq<seq<T>>, i: nat)
    requires i < |blobs|
    ensures var f, at := header + Flat(entries) + Flat(blobs), |header| + Total(entries) + Total(blobs[..i]);
      at + |blobs[i]| <= |f| && f[at..at + |blobs[i]|] == blobs[i]
  {
    FlatLength(entries);
    FlatSlice(blobs, i);
    SliceOfTail(header + Flat(entries), Flat(blobs), Total(blobs[..i]), Total(blobs[..i]) + |blobs[i]|);
  }
}

/** `writeICO`: an ICO container of PNG blobs, written with a running 32-bit offset, and the reader
    that defines what the written bytes mean. */
module Ico {
  import opened Common
  import opened Blocks

  datatype Image = Image(width: nat, height: nat, png: seq<Byte>)

  const TWO16: int := 0x1_0000
  const TWO32: int := 0x1_0000_0000
  const HEADER_SIZE := 6
  const ENTRY_SIZE := 16

  function Le16(n: nat): (b: seq<Byte>)
    ensures |b| == 2
  {
    [n % 256, n / 256 % 256]
  }

  function Le32(n: nat): (b: seq<Byte>)
    ensures |b| == 4
  {
    [n % 256, n / 256 % 256, n / 65536 % 256, n / 16777216 % 256]
  }

  /** A width or height byte: 256 and more are written as 0. */
  function DimByte(d: nat): Byte {
    if d >= 256 then 0 else d
  }

  /** Dimensions, color count, reserved, planes and bits per pixel. */
  function EntryPrefix(img: Image): (b: seq<Byte>)
    ensures |b| == 8
  {
    [DimByte(img.width), DimByte(img.height), 0, 0, 1, 0, 32, 0]
  }

  function EntryBytes(img: Image, offset: nat): (b: seq<Byte>)
    ensures |b| == ENTRY_SIZE
  {
    EntryPrefix(img) + Le32(|img.png|) + Le32(offset)
  }

  function Header(count: nat): (b: seq<Byte>)
    ensures |b| == HEADER_SIZE
  {
    [0, 0, 1, 0, count % 256, count / 256 % 256]
  }

  function Blobs(images: seq<Image>): seq<seq<Byte>> {
    seq(|images|, i requires 0 <= i < |images| => images[i].png)
  }

  function FirstOffset(images: seq<Image>): nat {
    HEADER_SIZE + ENTRY_SIZE * |images|
  }

  /** Where blob `i` starts. */
  function OffsetOf(images: seq<Image>, i: nat): nat
    requires i <= |images|
  {
    FirstOffset(images) + Total(Blobs(images)[..i])
  }

  function Directory(images: seq<Image>): seq<seq<Byte>> {
    seq(|images|, i requires 0 <= i < |images| => EntryBytes(images[i], OffsetOf(images, i) % TWO32))
  }

  function Written(images: seq<Image>): seq<Byte> {
    Header(|images|) + Flat(Directory(images)) + Flat(Blobs(images))
  }

  /** One directory entry, field by field. */
  method WriteEntry(out: seq<Byte>, img: Image, offset: nat) returns (out': seq<Byte>)
    ensures out' == out + EntryBytes(img, offset)
  {
    var width: Byte := if img.width >= 256 then 0 else img.width;
    var height: Byte := if img.height >= 256 then 0 else img.height;
    var entry := [width, height, 0, 0];
    entry := entry + Le16(1);
    entry := entry + Le16(32);
    assert entry == EntryPrefix(img);
    entry := entry + Le32(|img.png|);
    entry := entry + Le32(offset);
    out' := out + entry;
  }

  method WriteHeader(count: nat) returns (out: seq<Byte>)
    ensures out == Header(count)
  {
    out := Le16(0) + Le16(1) + Le16(count);
  }

  lemma WrapSum(m: nat, n: nat)
    ensures (m % TWO32 + n % TWO32) % TWO32 == (m + n) % TWO32
  {
  }

  lemma OffsetStep(images: seq<Image>, i: nat)
    requires i < |images|
    ensures (OffsetOf(images, i) % TWO32 + |images[i].png| % TWO32) % TWO32 == OffsetOf(images, i + 1) % TWO32
  {
    FlatSnoc(Blobs(images), i);
    WrapSum(OffsetOf(images, i), |images[i].png|);
  }

  method WriteIco(images: seq<Image>) returns (out: seq<Byte>)
    ensures out == Written(images)
  {
    out := WriteHeader(|images|);
    out := WriteDirectory(out, images);
    out := WriteBlobs(out, images);
  }

  method WriteBlobs(before: seq<Byte>, images: seq<Image>) returns (out: seq<Byte>)
    ensures out == before + Flat(Blobs(images))
  {
    out := before;
    for i := 0 to |images|
      invariant out == before + Flat(Blobs(images)[..i])
    {
      FlatSnoc(Blobs(images), i);
      out := out + images[i].png;
    }
    assert Blobs(images)[..|images|] == Blobs(images);
  }

  lemma DirectoryStep(header: seq<Byte>, images: seq<Image>, i: nat)
    requires i < |images|
    ensures header + Flat(Directory(images)[..i + 1])
         == header + Flat(Directory(images)[..i]) + EntryBytes(images[i], OffsetOf(images, i) % TWO32)
  {
    FlatSnoc(Directory(images), i);
  }

  /** The loop with the running offset, a Go `uint32` that wraps around. */
  method WriteDirectory(header: seq<Byte>, images: seq<Image>) returns (out: seq<Byte>)
    ensures out == header + Flat(Directory(images))
  {
    out := header;
    var offset: nat := (HEADER_SIZE + |images| * ENTRY_SIZE) % TWO32;
    for i := 0 to |images|
      invariant out == header + Flat(Directory(images)[..i])
      invariant offset == OffsetOf(images, i) % TWO32
    {
      DirectoryStep(header, images, i);
      OffsetStep(images, i);
      out := WriteEntry(out, images[i], offset);
      offset := (offset + |images[i].png| % TWO32) % TWO32;
    }
    assert Directory(images)[..|images|] == Directory(images);
  }

  // ---------- the reader ----------

  function U16(f: seq<Byte>, at: nat): nat
    requires at + 2 <= |f|
  {
    f[at] as int + 256 * f[at + 1] as int
  }

  function U32(f: seq<Byte>, at: nat): nat
    requires at + 4 <= |f|
  {
    f[at] as int + 256 * f[at + 1] as int + 65536 * f[at + 2] as int + 16777216 * f[at + 3] as int
  }

  function Dimension(b: Byte): nat {
    if b == 0 then 256 else b
  }

  /** A directory entry: the image's size in pixels and where its blob lies. */
  datatype Entry = Entry(width: nat, height: nat, size: nat, offset: nat)

  predicate HasDirectory(f: seq<Byte>) {
    |f| >= HEADER_SIZE && f[..4] == [0, 0, 1, 0] && HEADER_SIZE + ENTRY_SIZE * U16(f, 4) <= |f|
  }

  function EntryAt(f: seq<Byte>, i: nat): Entry
    requires HEADER_SIZE + ENTRY_SIZE * (i + 1) <= |f|
  {
    var at := HEADER_SIZE + ENTRY_SIZE * i;
    Entry(Dimension(f[at]), Dimension(f[at + 1]), U32(f, at + 8), U32(f, at + 12))
  }

  function Entries(f: seq<Byte>): seq<Entry>
    requires HasDirectory(f)
  {
    seq(U16(f, 4), i requires 0 <= i < U16(f, 4) => EntryAt(f, i))
  }

  function Read(f: seq<Byte>): Option<seq<Image>> {
    if !HasDirectory(f) then None
    else
      var es := Entries(f);
      if exists i :: 0 <= i < |es| && es[i].offset + es[i].size > |f| then None
      else Some(seq(|es|, i requires 0 <= i < |es| =>
                      Image(es[i].width, es[i].height, f[es[i].offset..es[i].offset + es[i].size])))
  }

  // ---------- reading what was written ----------

  lemma Le32RoundTrip(n: nat)
    requires n < TWO32
    ensures U32(Le32(n), 0) == n
  {
    assert n / 256 / 256 == n / 65536;
    assert n / 65536 / 256 == n / 16777216;
  }

  lemma Le16Value(n: nat)
    ensures n % 256 + 256 * (n / 256 % 256) == n % TWO16
  {
    var high, low := n / 256, n % 256;
    var q, mid := high / 256, high % 256;
    assert n == 256 * high + low && high == 256 * q + mid;
    RemainderIs(n, q, 256 * mid + low);
  }

  lemma RemainderIs(n: nat, q: nat, m: nat)
    requires n == TWO16 * q + m && m < TWO16
    ensures n % TWO16 == m
  {
  }

  /** A dimension survives exactly when it is between 1 and 256. */
  lemma DimensionRoundTrip(d: nat)
    ensures Dimension(DimByte(d)) == d <==> 1 <= d <= 256
  {
  }

  predicate Fits(images: seq<Image>) {
    |images| < TWO16 && FirstOffset(images) + Total(Blobs(images)) < TWO32
  }

  // The parts of the file and where they lie.

  ghost predicate HasHeader(f: seq<Byte>, images: seq<Image>) {
    |f| == FirstOffset(images) + Total(Blobs(images)) && f[..HEADER_SIZE] == Header(|images|)
  }

  /** The bytes `block` lie at position `at` of the file. */
  ghost predicate LiesAt(f: seq<Byte>, at: nat, block: seq<Byte>) {
    at + |block| <= |f| && f[at..at + |block|] == block
  }

  ghost predicate HasEntries(f: seq<Byte>, images: seq<Image>) {
    forall i :: 0 <= i < |images| ==> LiesAt(f, HEADER_SIZE + ENTRY_SIZE * i, Directory(images)[i])
  }

  ghost predicate HasBlobs(f: seq<Byte>, images: seq<Image>) {
    forall i :: 0 <= i < |images| ==> LiesAt(f, OffsetOf(images, i), images[i].png)
  }

  lemma WrittenHeader(images: seq<Image>)
    ensures HasHeader(Written(images), images)
  {
    FlatLength(Directory(images));
    TotalUniform(Directory(images), ENTRY_SIZE);
    FlatLength(Blobs(images));
  }

  lemma WrittenEntries(images: seq<Image>)
    ensures HasEntries(Written(images), images)
  {
    EntriesLie(Header(|images|), Directory(images), Blobs(images));
  }

  lemma EntriesLie(header: seq<Byte>, entries: seq<seq<Byte>>, blobs: seq<seq<Byte>>)
    requires |header| == HEADER_SIZE && forall i :: 0 <= i < |entries| ==> |entries[i]| == ENTRY_SIZE
    ensures forall i :: 0 <= i < |entries| ==>
      LiesAt(header + Flat(entries) + Flat(blobs), HEADER_SIZE + ENTRY_SIZE * i, entries[i])
  {
    forall i | 0 <= i < |entries|
      ensures LiesAt(header + Flat(entries) + Flat(blobs), HEADER_SIZE + ENTRY_SIZE * i, entries[i])
    {
      TotalUniform(entries[..i], ENTRY_SIZE);
      FirstPart(header, entries, blobs, i);
    }
  }

  lemma WrittenBlobs(images: seq<Image>)
    ensures HasBlobs(Written(images), images)
  {
    var blobs := Blobs(images);
    TotalUniform(Directory(images), ENTRY_SIZE);
    forall i | 0 <= i < |images|
      ensures LiesAt(Written(images), OffsetOf(images, i), blobs[i])
    {
      SecondPart(Header(|images|), Directory(images), blobs, i);
    }
  }

  /** Entry `i` of the file gives the image's dimension bytes, its blob's length and an offset. */
  ghost predicate Describes(f: seq<Byte>, i: nat, img: Image, offset: nat) {
    HEADER_SIZE + ENTRY_SIZE * (i + 1) <= |f|
    && EntryAt(f, i) == Entry(Dimension(DimByte(img.width)), Dimension(DimByte(img.height)), |img.png|, offset)
  }

  /** Reading an entry only looks at its own sixteen bytes. */
  lemma EntryParts(f: seq<Byte>, at: nat, prefix: seq<Byte>, size: seq<Byte>, offset: seq<Byte>)
    requires |prefix| == 8 && |size| == 4 && |offset| == 4
    requires LiesAt(f, at, prefix + size + offset)
    ensures at + ENTRY_SIZE <= |f| && f[at] == prefix[0] && f[at + 1] == prefix[1]
    ensures U32(f, at + 8) == U32(size, 0) && U32(f, at + 12) == U32(offset, 0)
  {
    var e := prefix + size + offset;
    assert forall j :: 0 <= j < ENTRY_SIZE ==> f[at + j] == f[at..at + |e|][j] == e[j];
  }

  /** No palette, one plane and 32 bits per pixel in every entry, whatever the image. */
  lemma {:induction false} EntryConstants(images: seq<Image>, i: nat)
    requires i < |images|
    ensures var f, at := Written(images), 6 + 16 * i;
      at + 16 <= |f| && f[at + 2] == 0 && f[at + 3] == 0 && U16(f, at + 4) == 1 && U16(f, at + 6) == 32
  {
    WrittenEntries(images);
    var f, at := Written(images), HEADER_SIZE + ENTRY_SIZE * i;
    assert Directory(images)[i] == EntryBytes(images[i], OffsetOf(images, i) % TWO32);
    ConstantBytes(f, at, images[i], OffsetOf(images, i) % TWO32);
  }

  lemma ConstantBytes(f: seq<Byte>, at: nat, img: Image, offset: nat)
    requires LiesAt(f, at, EntryBytes(img, offset))
    ensures at + 16 <= |f| && f[at + 2] == 0 && f[at + 3] == 0 && U16(f, at + 4) == 1 && U16(f, at + 6) == 32
  {
    var e := EntryBytes(img, offset);
    assert forall j :: 2 <= j < 8 ==> f[at..at + |e|][j] == e[j] == EntryPrefix(img)[j];
    assert f[at + 4] == e[4] && f[at + 5] == e[5] && f[at + 6] == e[6] && f[at + 7] == e[7];
  }

  lemma EntryFromBytes(f: seq<Byte>, i: nat, img: Image, offset: nat)
    requires LiesAt(f, HEADER_SIZE + ENTRY_SIZE * i, EntryBytes(img, offset))
    requires |img.png| < TWO32 && offset < TWO32
    ensures Describes(f, i, img, offset)
  {
    EntryParts(f, HEADER_SIZE + ENTRY_SIZE * i, EntryPrefix(img), Le32(|img.png|), Le32(offset));
    Le32RoundTrip(|img.png|);
    Le32RoundTrip(offset);
  }

  ghost predicate HeaderCounts(f: seq<Byte>, count: nat) {
    |f| >= HEADER_SIZE && f[..4] == [0, 0, 1, 0] && U16(f, 4) == count
  }

  lemma HeaderOf(f: seq<Byte>, count: nat)
    requires |f| >= HEADER_SIZE && f[..HEADER_SIZE] == Header(count)
    ensures HeaderCounts(f, count % TWO16)
  {
    Le16Value(count);
    assert forall k :: 0 <= k < HEADER_SIZE ==> f[k] == f[..HEADER_SIZE][k];
  }

  /** The count field holds the number of images exactly when there are fewer than 65536. */
  lemma {:induction false} CountFits(images: seq<Image>)
    ensures HeaderCounts(Written(images), |images|) <==> |images| < TWO16
  {
    WrittenHeader(images);
    HeaderOf(Written(images), |images|);
    CountsOnce(Written(images), |images| % TWO16, |images|);
  }

  lemma CountsOnce(f: seq<Byte>, m: nat, n: nat)
    requires HeaderCounts(f, m)
    ensures HeaderCounts(f, n) <==> m == n
  {
  }

  /** What the reader finds in the directory of the file. */
  ghost predicate DirectoryDescribes(f: seq<Byte>, images: seq<Image>) {
    && HasDirectory(f) && |Entries(f)| == |images|
    && forall i :: 0 <= i < |images| ==>
         Entries(f)[i] == Entry(Dimension(DimByte(images[i].width)), Dimension(DimByte(images[i].height)),
                                |images[i].png|, OffsetOf(images, i))
  }

  ghost predicate EntriesDescribe(f: seq<Byte>, images: seq<Image>) {
    forall i :: 0 <= i < |images| ==> Describes(f, i, images[i], OffsetOf(images, i))
  }

  lemma EntriesOf(f: seq<Byte>, images: seq<Image>)
    requires HasEntries(f, images) && Fits(images)
    ensures EntriesDescribe(f, images)
  {
    forall i | 0 <= i < |images| ensures Describes(f, i, images[i], OffsetOf(images, i)) {
      EntryOf(f, images, i);
    }
  }

  lemma EntryOf(f: seq<Byte>, images: seq<Image>, i: nat)
    requires Fits(images) && i < |images|
    requires LiesAt(f, HEADER_SIZE + ENTRY_SIZE * i, Directory(images)[i])
    ensures Describes(f, i, images[i], OffsetOf(images, i))
  {
    DirectoryEntry(images, i);
    EntryFromBytes(f, i, images[i], OffsetOf(images, i));
  }

  lemma DirectoryEntry(images: seq<Image>, i: nat)
    requires Fits(images) && i < |images|
    ensures |images[i].png| < TWO32 && OffsetOf(images, i) < TWO32
    ensures Directory(images)[i] == EntryBytes(images[i], OffsetOf(images, i))
  {
    OffsetsStayInFile(images, i);
    SmallUnwrapped(OffsetOf(images, i));
  }

  lemma SmallUnwrapped(n: nat)
    requires n < TWO32
    ensures n % TWO32 == n
  {
  }

  lemma DirectoryOf(f: seq<Byte>, images: seq<Image>)
    requires HeaderCounts(f, |images|) && |f| >= FirstOffset(images) && EntriesDescribe(f, images)
    ensures DirectoryDescribes(f, images)
  {
  }

  lemma OffsetsStayInFile(images: seq<Image>, i: nat)
    requires i < |images|
    ensures OffsetOf(images, i) + |images[i].png| == OffsetOf(images, i + 1) <= OffsetOf(images, |images|)
    ensures OffsetOf(images, |images|) == FirstOffset(images) + Total(Blobs(images))
  {
    FlatSnoc(Blobs(images), i);
    TotalPrefix(Blobs(images), i + 1);
    assert Blobs(images)[..|images|] == Blobs(images);
  }

  /** The ranges a directory names follow each other without gap or overlap from the end of the
      directory to the last byte of the file. */
  ghost predicate RangesTile(f: seq<Byte>) {
    HasDirectory(f)
    && var es := Entries(f);
      && (es != [] ==> es[0].offset == HEADER_SIZE + ENTRY_SIZE * |es|)
      && (forall i :: 1 <= i < |es| ==> es[i].offset == es[i - 1].offset + es[i - 1].size)
      && (es != [] ==> es[|es| - 1].offset + es[|es| - 1].size == |f|)
  }

  lemma TilingOf(f: seq<Byte>, images: seq<Image>)
    requires DirectoryDescribes(f, images) && |f| == FirstOffset(images) + Total(Blobs(images))
    ensures RangesTile(f)
  {
    forall i | 0 <= i < |images|
      ensures OffsetOf(images, i) + |images[i].png| == OffsetOf(images, i + 1)
    {
      OffsetsStayInFile(images, i);
    }
    if images != [] {
      OffsetsStayInFile(images, |images| - 1);
    }
  }

  lemma WrittenDirectory(images: seq<Image>)
    requires Fits(images)
    ensures |Written(images)| == FirstOffset(images) + Total(Blobs(images))
    ensures DirectoryDescribes(Written(images), images) && HasBlobs(Written(images), images)
  {
    WrittenHeader(images);
    WrittenEntries(images);
    WrittenBlobs(images);
    CountFits(images);
    EntriesOf(Written(images), images);
    DirectoryOf(Written(images), images);
  }

  lemma {:induction false} WrittenRangesTile(images: seq<Image>)
    requires Fits(images)
    ensures RangesTile(Written(images))
  {
    WrittenDirectory(images);
    TilingOf(Written(images), images);
  }

  /** Reading the file yields the blobs of `images` in order, and each width and height that lies
      between 1 and 256; other dimensions are not recovered. */
  ghost predicate ReadsAs(f: seq<Byte>, images: seq<Image>) {
    && Read(f).Some? && |Read(f).value| == |images|
    && forall i :: 0 <= i < |images| ==>
         && Read(f).value[i].png == images[i].png
         && (Read(f).value[i].width == images[i].width <==> 1 <= images[i].width <= 256)
         && (Read(f).value[i].height == images[i].height <==> 1 <= images[i].height <= 256)
  }

  lemma ReadOfLaidOut(f: seq<Byte>, images: seq<Image>)
    requires HasBlobs(f, images) && DirectoryDescribes(f, images)
    ensures ReadsAs(f, images)
  {
    forall i | 0 <= i < |images|
      ensures Read(f).value[i].png == images[i].png
      ensures Read(f).value[i].width == images[i].width <==> 1 <= images[i].width <= 256
      ensures Read(f).value[i].height == images[i].height <==> 1 <= images[i].height <= 256
    {
      DimensionRoundTrip(images[i].width);
      DimensionRoundTrip(images[i].height);
    }
  }

  /** Reading a written file by its directory returns what was written. */
  lemma {:induction false} ReadOfWritten(images: seq<Image>)
    requires Fits(images)
    ensures ReadsAs(Written(images), images)
  {
    WrittenDirectory(images);
    ReadOfLaidOut(Written(images), images);
  }
}
