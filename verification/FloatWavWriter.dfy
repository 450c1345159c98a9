/**
 * What the reader makes of a written float WAV: the format and the samples that a writer of the file format
 * put there, whatever other chunks stand around them and however the stream is cut.
 */
module FloatWavWriter {
  import opened Division
  import opened FloatWav
  import opened FloatWavChunking
  import opened Wrappers

  // ----- the writer -----

  /** A chunk's name, as its characters' bytes. */
  function Tag(name: string): (bytes: seq<Byte>)
    requires forall i :: 0 <= i < |name| ==> name[i] as int < 256
    ensures |bytes| == |name| && forall i :: 0 <= i < |name| ==> bytes[i] == name[i] as int
  {
    seq(|name|, i requires 0 <= i < |name| => name[i] as int)
  }

  /** Little-endian, two bytes and four. */
  function Le16(n: nat): (bytes: seq<Byte>)
    requires n < 0x1_0000
    ensures |bytes| == 2
  {
    [n % 256, n / 256]
  }

  function Le32(n: nat): (bytes: seq<Byte>)
    requires n < 0x1_0000_0000
    ensures |bytes| == 4
  {
    Le16(n % 0x1_0000) + Le16(n / 0x1_0000)
  }

  /** A chunk that is neither format nor data. */
  datatype Other = Other(name: string, body: seq<Byte>)

  predicate Writable(c: Other) {
    && |c.name| == 4 && (forall i :: 0 <= i < 4 ==> c.name[i] as int < 256)
    && c.name != "fmt " && c.name != "data" && |c.body| < 0x1_0000_0000
  }

  function Pad(n: nat): seq<Byte> { if n % 2 == 1 then [0] else [] }

  function OtherBytes(c: Other): seq<Byte>
    requires Writable(c)
  {
    Tag(c.name) + (Le32(|c.body|) + (c.body + Pad(|c.body|)))
  }

  function OthersBytes(cs: seq<Other>): seq<Byte>
    requires forall i :: 0 <= i < |cs| ==> Writable(cs[i])
  {
    if cs == [] then [] else OtherBytes(cs[0]) + OthersBytes(cs[1..])
  }

  /** The fields of a format chunk; `extra` follows them, and holds the sub-format of an extensible one. */
  datatype Fields = Fields(tag: nat, channels: nat, rate: nat, byteRate: nat, align: nat, bits: nat, extra: seq<Byte>)

  predicate FieldsFit(f: Fields) {
    && f.tag < 0x1_0000 && f.channels < 0x1_0000 && f.rate < 0x1_0000_0000 && f.byteRate < 0x1_0000_0000
    && f.align < 0x1_0000 && f.bits < 0x1_0000 && |f.extra| < 0x1_0000_0000 - 16
  }

  function FieldBytes(f: Fields): (bytes: seq<Byte>)
    requires FieldsFit(f)
    ensures |bytes| == 16
  {
    Le16(f.tag) + (Le16(f.channels) + (Le32(f.rate) + (Le32(f.byteRate) + (Le16(f.align) + Le16(f.bits)))))
  }

  function FmtBytes(f: Fields): seq<Byte>
    requires FieldsFit(f)
  {
    Tag("fmt ") + (Le32(16 + |f.extra|) + (FieldBytes(f) + (f.extra + Pad(|f.extra|))))
  }

  /** A file: its size field, the chunks before and behind the format, the data chunk's size field, and the
    * data, which lasts to the end of the stream. */
  datatype Written = Written(size: nat, before: seq<Other>, fmt: Fields, behind: seq<Other>, dataSize: nat,
                             data: seq<Byte>)

  predicate WellWritten(w: Written) {
    && w.size < 0x1_0000_0000 && w.dataSize < 0x1_0000_0000 && FieldsFit(w.fmt)
    && (forall i :: 0 <= i < |w.before| ==> Writable(w.before[i]))
    && (forall i :: 0 <= i < |w.behind| ==> Writable(w.behind[i]))
  }

  function RiffBytes(size: nat): (bytes: seq<Byte>)
    requires size < 0x1_0000_0000
    ensures |bytes| == 12
  {
    Tag("RIFF") + (Le32(size) + Tag("WAVE"))
  }

  function DataBytes(size: nat): (bytes: seq<Byte>)
    requires size < 0x1_0000_0000
    ensures |bytes| == 8
  {
    Tag("data") + Le32(size)
  }

  function ChunkBytes(w: Written): seq<Byte>
    requires WellWritten(w)
  {
    OthersBytes(w.before) + (FmtBytes(w.fmt) + (OthersBytes(w.behind) + DataBytes(w.dataSize)))
  }

  function HeaderBytes(w: Written): seq<Byte>
    requires WellWritten(w)
  {
    RiffBytes(w.size) + ChunkBytes(w)
  }

  function FileBytes(w: Written): seq<Byte>
    requires WellWritten(w)
  {
    HeaderBytes(w) + w.data
  }

  /** What the format says: plain float, or extensible with the sub-format float. */
  predicate SaysFloat(f: Fields) {
    && f.bits == 32 && f.channels >= 1
    && (f.tag == 3 || (f.tag == 0xFFFE && |f.extra| >= 10 && f.extra[8] == 3 && f.extra[9] == 0))
  }

  // ----- reading it back -----

  predicate At(h: seq<Byte>, i: nat, bytes: seq<Byte>) {
    i + |bytes| <= |h| && h[i..i + |bytes|] == bytes
  }

  lemma AtByte(h: seq<Byte>, i: nat, bytes: seq<Byte>, k: nat)
    requires At(h, i, bytes) && k < |bytes|
    ensures h[i + k] == bytes[k]
  {
    assert h[i..i + |bytes|][k] == h[i + k];
  }

  lemma AtSplits(h: seq<Byte>, i: nat, a: seq<Byte>, b: seq<Byte>)
    requires At(h, i, a + b)
    ensures At(h, i, a) && At(h, i + |a|, b)
  {
    assert h[i..i + |a + b|][..|a|] == h[i..i + |a|] && (a + b)[..|a|] == a;
    assert h[i..i + |a + b|][|a|..] == h[i + |a|..i + |a| + |b|] && (a + b)[|a|..] == b;
  }

  lemma ReadsLe16(h: seq<Byte>, i: nat, n: nat)
    requires n < 0x1_0000 && At(h, i, Le16(n))
    ensures U16(h, i) == n
  {
    AtByte(h, i, Le16(n), 0);
    AtByte(h, i, Le16(n), 1);
  }

  lemma ReadsLe32(h: seq<Byte>, i: nat, n: nat)
    requires n < 0x1_0000_0000 && At(h, i, Le32(n))
    ensures U32(h, i) == n
  {
    AtSplits(h, i, Le16(n % 0x1_0000), Le16(n / 0x1_0000));
    ReadsLe16(h, i, n % 0x1_0000);
    ReadsLe16(h, i + 2, n / 0x1_0000);
  }

  lemma ReadsTag(h: seq<Byte>, i: nat, name: string, other: string)
    requires |name| == 4 && |other| == 4
    requires forall k :: 0 <= k < 4 ==> name[k] as int < 256 && other[k] as int < 256
    requires At(h, i, Tag(name))
    ensures TagAt(h, i, Tag(other)) <==> name == other
  {
    AtByte(h, i, Tag(name), 0);
    AtByte(h, i, Tag(name), 1);
    AtByte(h, i, Tag(name), 2);
    AtByte(h, i, Tag(name), 3);
    if TagAt(h, i, Tag(other)) {
      assert forall k :: 0 <= k < 4 ==> name[k] as int == other[k] as int;
    }
  }

  lemma Tags()
    ensures Tag("RIFF") == RIFF && Tag("WAVE") == WAVE && Tag("fmt ") == FMT && Tag("data") == DATA
  {
  }

  /** A chunk's size, with its pad byte. */
  lemma ReadsSize(h: seq<Byte>, o: nat, name: seq<Byte>, size: nat)
    requires |name| == 4 && size < 0x1_0000_0000 && At(h, o, name) && At(h, o + 4, Le32(size))
    ensures Padded(h, o) == size + size % 2 && |Pad(size)| == size % 2
  {
    ReadsLe32(h, o + 4, size);
  }

  /** Where a chunk's parts stand. */
  lemma OtherParts(h: seq<Byte>, o: nat, c: Other)
    requires Writable(c) && At(h, o, OtherBytes(c))
    ensures At(h, o, Tag(c.name)) && At(h, o + 4, Le32(|c.body|))
    ensures |OtherBytes(c)| == 8 + |c.body| + |Pad(|c.body|)| && o + |OtherBytes(c)| <= |h|
  {
    var rest := c.body + Pad(|c.body|);
    AtSplits(h, o, Tag(c.name), Le32(|c.body|) + rest);
    AtSplits(h, o + 4, Le32(|c.body|), rest);
  }

  lemma OtherIsNoFmt(h: seq<Byte>, o: nat, c: Other)
    requires Writable(c) && At(h, o, Tag(c.name))
    ensures !TagAt(h, o, DATA) && !TagAt(h, o, FMT)
  {
    ReadsTag(h, o, c.name, "data");
    ReadsTag(h, o, c.name, "fmt ");
    Tags();
  }

  /** A step of the walk over a chunk that is neither format nor data. */
  lemma StepsOver(h: seq<Byte>, o: nat, p: nat, fmt: Option<Format>)
    requires o + 8 <= |h| && !TagAt(h, o, DATA) && !TagAt(h, o, FMT) && p == o + 8 + Padded(h, o) <= |h|
    ensures WalkFrom(h, o, fmt) == WalkFrom(h, p, fmt) && ShortFmtFrom(h, o) == ShortFmtFrom(h, p)
  {
  }

  lemma OtherIsPassed(h: seq<Byte>, o: nat, c: Other, fmt: Option<Format>)
    requires Writable(c) && At(h, o, OtherBytes(c))
    ensures WalkFrom(h, o, fmt) == WalkFrom(h, o + |OtherBytes(c)|, fmt)
    ensures ShortFmtFrom(h, o) == ShortFmtFrom(h, o + |OtherBytes(c)|)
  {
    OtherParts(h, o, c);
    OtherIsNoFmt(h, o, c);
    ReadsSize(h, o, Tag(c.name), |c.body|);
    StepsOver(h, o, o + |OtherBytes(c)|, fmt);
  }

  /** What the walk makes of the stream from `i` on, and whether it comes upon a short format chunk. */
  function WalkAt(h: seq<Byte>, i: nat, fmt: Option<Format>): (Walk, bool) {
    (WalkFrom(h, i, fmt), ShortFmtFrom(h, i))
  }

  /** Bytes that the walk passes wherever they stand. */
  ghost predicate Passed(bytes: seq<Byte>) {
    forall h, o: nat, fmt :: At(h, o, bytes) ==> WalkAt(h, o, fmt) == WalkAt(h, o + |bytes|, fmt)
  }

  lemma OtherPassed(c: Other)
    requires Writable(c)
    ensures Passed(OtherBytes(c))
  {
    forall h, o: nat, fmt | At(h, o, OtherBytes(c))
      ensures WalkAt(h, o, fmt) == WalkAt(h, o + |OtherBytes(c)|, fmt)
    {
      OtherIsPassed(h, o, c, fmt);
    }
  }

  lemma BothPassed(a: seq<Byte>, b: seq<Byte>)
    requires Passed(a) && Passed(b)
    ensures Passed(a + b)
  {
    forall h, o: nat, fmt | At(h, o, a + b) ensures WalkAt(h, o, fmt) == WalkAt(h, o + |a + b|, fmt) {
      AtSplits(h, o, a, b);
      assert WalkAt(h, o, fmt) == WalkAt(h, o + |a|, fmt);
    }
  }

  lemma {:induction false} OthersPassed(cs: seq<Other>)
    requires forall i :: 0 <= i < |cs| ==> Writable(cs[i])
    ensures Passed(OthersBytes(cs))
    decreases |cs|
  {
    if cs != [] {
      OtherPassed(cs[0]);
      OthersPassed(cs[1..]);
      BothPassed(OtherBytes(cs[0]), OthersBytes(cs[1..]));
    }
  }

  /** The fields stand where the reader looks for them. */
  lemma FieldsAreRead(h: seq<Byte>, i: nat, f: Fields)
    requires FieldsFit(f) && At(h, i, FieldBytes(f))
    ensures U16(h, i) == f.tag && U16(h, i + 2) == f.channels && U32(h, i + 4) == f.rate && U16(h, i + 14) == f.bits
  {
    var bits := Le16(f.bits);
    var align := Le16(f.align) + bits;
    var byteRate := Le32(f.byteRate) + align;
    var rate := Le32(f.rate) + byteRate;
    AtSplits(h, i, Le16(f.tag), Le16(f.channels) + rate);
    AtSplits(h, i + 2, Le16(f.channels), rate);
    AtSplits(h, i + 4, Le32(f.rate), byteRate);
    AtSplits(h, i + 8, Le32(f.byteRate), align);
    AtSplits(h, i + 12, Le16(f.align), bits);
    ReadsLe16(h, i, f.tag);
    ReadsLe16(h, i + 2, f.channels);
    ReadsLe32(h, i + 4, f.rate);
    ReadsLe16(h, i + 14, f.bits);
  }

  /** Where a format chunk's parts stand. */
  lemma FmtParts(h: seq<Byte>, o: nat, f: Fields)
    requires FieldsFit(f) && At(h, o, FmtBytes(f))
    ensures At(h, o, Tag("fmt ")) && At(h, o + 4, Le32(16 + |f.extra|))
    ensures At(h, o + 8, FieldBytes(f)) && At(h, o + 24, f.extra)
    ensures |FmtBytes(f)| == 24 + |f.extra| + |Pad(|f.extra|)| && o + |FmtBytes(f)| <= |h|
  {
    var tail := f.extra + Pad(|f.extra|);
    AtSplits(h, o, Tag("fmt "), Le32(16 + |f.extra|) + (FieldBytes(f) + tail));
    AtSplits(h, o + 4, Le32(16 + |f.extra|), FieldBytes(f) + tail);
    AtSplits(h, o + 8, FieldBytes(f), tail);
    AtSplits(h, o + 24, f.extra, Pad(|f.extra|));
  }

  lemma FmtIsTagged(h: seq<Byte>, o: nat)
    requires At(h, o, Tag("fmt "))
    ensures TagAt(h, o, FMT) && !TagAt(h, o, DATA)
  {
    ReadsTag(h, o, "fmt ", "data");
    ReadsTag(h, o, "fmt ", "fmt ");
    Tags();
  }

  lemma SubFormatIsRead(h: seq<Byte>, o: nat, extra: seq<Byte>)
    requires At(h, o, extra) && |extra| >= 10
    ensures o + 10 <= |h| && (U16(h, o + 8) == 3 <==> extra[8] == 3 && extra[9] == 0)
  {
    AtByte(h, o, extra, 8);
    AtByte(h, o, extra, 9);
  }

  lemma FmtIsRead(h: seq<Byte>, o: nat, f: Fields)
    requires FieldsFit(f) && At(h, o + 8, FieldBytes(f)) && At(h, o + 24, f.extra)
    requires o + 8 + Padded(h, o) <= |h| && U32(h, o + 4) == 16 + |f.extra|
    ensures ReadFmt(h, o) == if SaysFloat(f) then Some(Format(f.channels, f.rate)) else None
  {
    FieldsAreRead(h, o + 8, f);
    if |f.extra| >= 10 {
      SubFormatIsRead(h, o + 24, f.extra);
    }
  }

  /** A step of the walk over a format chunk. */
  lemma StepsFmt(h: seq<Byte>, o: nat, p: nat, fmt: Option<Format>)
    requires o + 24 <= |h| && TagAt(h, o, FMT) && !TagAt(h, o, DATA)
    requires p == o + 8 + Padded(h, o) <= |h| && Padded(h, o) >= 16
    ensures WalkFrom(h, o, fmt)
         == if ReadFmt(h, o).Some? then WalkFrom(h, p, ReadFmt(h, o)) else Bad(NotFloatPcm)
    ensures ShortFmtFrom(h, o) == (ReadFmt(h, o).Some? && ShortFmtFrom(h, p))
  {
  }

  lemma FmtIsPassed(h: seq<Byte>, o: nat, f: Fields, fmt: Option<Format>)
    requires FieldsFit(f) && At(h, o, FmtBytes(f))
    ensures WalkFrom(h, o, fmt)
         == if SaysFloat(f) then WalkFrom(h, o + |FmtBytes(f)|, Some(Format(f.channels, f.rate))) else Bad(NotFloatPcm)
    ensures ShortFmtFrom(h, o) == (SaysFloat(f) && ShortFmtFrom(h, o + |FmtBytes(f)|))
  {
    FmtParts(h, o, f);
    FmtIsTagged(h, o);
    ReadsSize(h, o, Tag("fmt "), 16 + |f.extra|);
    ReadsLe32(h, o + 4, 16 + |f.extra|);
    FmtIsRead(h, o, f);
    StepsFmt(h, o, o + |FmtBytes(f)|, fmt);
  }

  lemma DataIsFound(h: seq<Byte>, o: nat, size: nat, fmt: Format)
    requires size < 0x1_0000_0000 && At(h, o, DataBytes(size))
    ensures WalkFrom(h, o, Some(fmt)) == InData(fmt, o + 8) && !ShortFmtFrom(h, o)
  {
    AtSplits(h, o, Tag("data"), Le32(size));
    ReadsTag(h, o, "data", "data");
    Tags();
  }

  // ----- the header, piece by piece -----

  /** What the walk makes of a format chunk that ends at `end`. */
  function Behind(h: seq<Byte>, f: Fields, end: nat): (Walk, bool) {
    if SaysFloat(f) then WalkAt(h, end, Some(Format(f.channels, f.rate))) else (Bad(NotFloatPcm), false)
  }

  ghost predicate FmtPassed(bytes: seq<Byte>, f: Fields) {
    forall h, o: nat, fmt :: At(h, o, bytes) ==> WalkAt(h, o, fmt) == Behind(h, f, o + |bytes|)
  }

  /** Bytes that lead from a known format to the data behind them. */
  ghost predicate DataFound(bytes: seq<Byte>) {
    forall h, o: nat, fmt :: At(h, o, bytes) ==> WalkAt(h, o, Some(fmt)) == (InData(fmt, o + |bytes|), false)
  }

  /** What the walk makes of a header whose data chunk's header ends at `end`. */
  function Verdict(f: Fields, end: nat): (Walk, bool) {
    (if SaysFloat(f) then InData(Format(f.channels, f.rate), end) else Bad(NotFloatPcm), false)
  }

  ghost predicate Read(bytes: seq<Byte>, f: Fields) {
    forall h, o: nat, fmt :: At(h, o, bytes) ==> WalkAt(h, o, fmt) == Verdict(f, o + |bytes|)
  }

  lemma FmtIsFmtPassed(f: Fields)
    requires FieldsFit(f)
    ensures FmtPassed(FmtBytes(f), f)
  {
    forall h, o: nat, fmt | At(h, o, FmtBytes(f)) ensures WalkAt(h, o, fmt) == Behind(h, f, o + |FmtBytes(f)|) {
      FmtIsPassed(h, o, f, fmt);
    }
  }

  lemma DataIsDataFound(size: nat)
    requires size < 0x1_0000_0000
    ensures DataFound(DataBytes(size))
  {
    forall h, o: nat, fmt | At(h, o, DataBytes(size))
      ensures WalkAt(h, o, Some(fmt)) == (InData(fmt, o + |DataBytes(size)|), false)
    {
      DataIsFound(h, o, size, fmt);
    }
  }

  lemma PassedThenFound(a: seq<Byte>, b: seq<Byte>)
    requires Passed(a) && DataFound(b)
    ensures DataFound(a + b)
  {
    forall h, o: nat, fmt | At(h, o, a + b) ensures WalkAt(h, o, Some(fmt)) == (InData(fmt, o + |a + b|), false) {
      AtSplits(h, o, a, b);
      assert WalkAt(h, o, Some(fmt)) == WalkAt(h, o + |a|, Some(fmt));
    }
  }

  lemma FmtThenFound(a: seq<Byte>, b: seq<Byte>, f: Fields)
    requires FmtPassed(a, f) && DataFound(b)
    ensures Read(a + b, f)
  {
    forall h, o: nat, fmt | At(h, o, a + b) ensures WalkAt(h, o, fmt) == Verdict(f, o + |a + b|) {
      AtSplits(h, o, a, b);
      assert WalkAt(h, o + |a|, Some(Format(f.channels, f.rate)))
          == (InData(Format(f.channels, f.rate), o + |a| + |b|), false);
    }
  }

  lemma PassedThenRead(a: seq<Byte>, b: seq<Byte>, f: Fields)
    requires Passed(a) && Read(b, f)
    ensures Read(a + b, f)
  {
    forall h, o: nat, fmt | At(h, o, a + b) ensures WalkAt(h, o, fmt) == Verdict(f, o + |a + b|) {
      AtSplits(h, o, a, b);
      assert WalkAt(h, o, fmt) == WalkAt(h, o + |a|, fmt);
    }
  }

  lemma ChunksAreRead(w: Written)
    requires WellWritten(w)
    ensures Read(ChunkBytes(w), w.fmt)
  {
    var behind := OthersBytes(w.behind) + DataBytes(w.dataSize);
    OthersPassed(w.behind);
    DataIsDataFound(w.dataSize);
    PassedThenFound(OthersBytes(w.behind), DataBytes(w.dataSize));
    FmtIsFmtPassed(w.fmt);
    FmtThenFound(FmtBytes(w.fmt), behind, w.fmt);
    OthersPassed(w.before);
    PassedThenRead(OthersBytes(w.before), FmtBytes(w.fmt) + behind, w.fmt);
  }

  lemma RiffIsRead(h: seq<Byte>, size: nat)
    requires size < 0x1_0000_0000 && At(h, 0, RiffBytes(size))
    ensures |h| >= 12 && TagAt(h, 0, RIFF) && TagAt(h, 8, WAVE)
  {
    AtSplits(h, 0, Tag("RIFF"), Le32(size) + Tag("WAVE"));
    AtSplits(h, 4, Le32(size), Tag("WAVE"));
    ReadsTag(h, 0, "RIFF", "RIFF");
    ReadsTag(h, 8, "WAVE", "WAVE");
    Tags();
  }

  /** Any stream that begins with the header walks to its end. */
  lemma HeaderWalks(h: seq<Byte>, w: Written)
    requires WellWritten(w) && At(h, 0, HeaderBytes(w))
    ensures (WalkHead(h), ShortFmt(h)) == Verdict(w.fmt, |HeaderBytes(w)|)
  {
    AtSplits(h, 0, RiffBytes(w.size), ChunkBytes(w));
    RiffIsRead(h, w.size);
    ChunksAreRead(w);
    assert WalkAt(h, 12, None) == Verdict(w.fmt, 12 + |ChunkBytes(w)|);
  }

  // ----- every cutting -----

  /** The chunks up to the one that completes a header of `n` bytes hold at most 1 MiB together. */
  predicate WithinCap(n: nat, read: nat, chunks: seq<seq<Byte>>)
    decreases |chunks|
  {
    chunks == [] ||
    (read + |chunks[0]| <= 1_048_576 &&
     (read + |chunks[0]| >= n || WithinCap(n, read + |chunks[0]|, chunks[1..])))
  }

  /** The walk over a part of a written file ends once the header is complete, and a float one no sooner. */
  lemma EndsWithHeader(w: Written, h: seq<Byte>)
    requires WellWritten(w) && h <= FileBytes(w)
    ensures |h| >= |HeaderBytes(w)| ==> WalkHead(h) != NeedMore
    ensures |h| < |HeaderBytes(w)| && SaysFloat(w.fmt) ==> WalkHead(h) == NeedMore
  {
    var all, n := FileBytes(w), |HeaderBytes(w)|;
    assert all[0..n] == HeaderBytes(w);
    if |h| >= n {
      assert h[0..n] == all[0..n];
      HeaderWalks(h, w);
    } else {
      HeaderWalks(all, w);
      StableExactly(all);
      WalkInData(h);
    }
  }

  lemma {:induction false} CapIsKept(w: Written, head: seq<Byte>, chunks: seq<seq<Byte>>)
    requires WellWritten(w) && head + Concat(chunks) == FileBytes(w) && |head| < |HeaderBytes(w)|
    ensures WithinCap(|HeaderBytes(w)|, |head|, chunks) ==> !Overflows(head, chunks)
    ensures !WithinCap(|HeaderBytes(w)|, |head|, chunks) && SaysFloat(w.fmt) ==> Overflows(head, chunks)
    decreases |chunks|
  {
    if chunks != [] {
      var h := head + chunks[0];
      assert h + Concat(chunks[1..]) == FileBytes(w);
      assert h <= FileBytes(w);
      EndsWithHeader(w, h);
      if |h| < |HeaderBytes(w)| {
        CapIsKept(w, h, chunks[1..]);
      }
    }
  }

  /** What the reader does with a stream that starts with a written header. */
  lemma WrittenWalks(w: Written, chunks: seq<seq<Byte>>)
    requires WellWritten(w) && Concat(chunks) == FileBytes(w) && !Overflows([], chunks)
    ensures !SaysFloat(w.fmt) ==> ReadHeader([], chunks) == Outcome([], Err(NotFloatPcm))
    ensures SaysFloat(w.fmt) ==> ReadHeader([], chunks) == ReadData(Format(w.fmt.channels, w.fmt.rate), w.data)
  {
    var all := FileBytes(w);
    assert [] + Concat(chunks) == all && all[0..|HeaderBytes(w)|] == HeaderBytes(w);
    HeaderWalks(all, w);
    StableExactly(all);
    ReadsTheWhole([], chunks);
    assert all[|HeaderBytes(w)|..] == w.data;
  }

  /** Whatever chunks stand around its format and however it is cut, a written float file is read as the
    * channels and the rate that its format says and as exactly the whole frames of its data, with a torn
    * frame at the end refused; only where the cap runs out before the header does, nothing is read. */
  lemma WrittenIsRead(w: Written, chunks: seq<seq<Byte>>, frames: nat, whole: seq<Byte>, torn: seq<Byte>)
    requires WellWritten(w) && SaysFloat(w.fmt) && Concat(chunks) == FileBytes(w)
    requires w.data == whole + torn && |whole| == frames * (4 * w.fmt.channels) && |torn| < 4 * w.fmt.channels
    ensures ReadHeader([], chunks)
         == if !WithinCap(|HeaderBytes(w)|, 0, chunks) then Outcome([], Err(NoDataChunk))
            else if torn != [] then Outcome(whole, Err(TornFrame))
            else Outcome(whole, Ok(WavFormat(Format(w.fmt.channels, w.fmt.rate), frames)))
  {
    assert [] + Concat(chunks) == FileBytes(w);
    CapIsKept(w, [], chunks);
    if Overflows([], chunks) {
      OverflowReads([], chunks);
    } else {
      WrittenWalks(w, chunks);
      DivModUnique(|whole|, 4 * w.fmt.channels, frames, 0);
      CutReads(Format(w.fmt.channels, w.fmt.rate), whole, torn, frames);
    }
  }

  /** Within the cap, a written file is refused as no float PCM exactly when its tag, bits or channels say so. */
  lemma RefusedExactly(w: Written, chunks: seq<seq<Byte>>)
    requires WellWritten(w) && Concat(chunks) == FileBytes(w) && WithinCap(|HeaderBytes(w)|, 0, chunks)
    ensures ReadHeader([], chunks).end == Err(NotFloatPcm) <==> !SaysFloat(w.fmt)
  {
    assert [] + Concat(chunks) == FileBytes(w);
    CapIsKept(w, [], chunks);
    WrittenWalks(w, chunks);
  }

  // ----- the other refusals -----

  /** A float file cut off within its header has no data chunk. */
  lemma CutOffIsRefused(w: Written, n: nat, chunks: seq<seq<Byte>>)
    requires WellWritten(w) && SaysFloat(w.fmt) && n < |HeaderBytes(w)| && Concat(chunks) == HeaderBytes(w)[..n]
    ensures ReadHeader([], chunks) == Outcome([], Err(NoDataChunk))
  {
    var all := HeaderBytes(w)[..n];
    assert [] + Concat(chunks) == all;
    forall h | h <= all ensures WalkHead(h) == NeedMore {
      assert h <= FileBytes(w);
      EndsWithHeader(w, h);
    }
    ReadsTheWhole([], chunks);
    if Overflows([], chunks) {
      OverflowReads([], chunks);
    }
  }

  lemma DataIsFirst(h: seq<Byte>, o: nat, size: nat)
    requires size < 0x1_0000_0000 && At(h, o, DataBytes(size))
    ensures WalkAt(h, o, None) == (Bad(DataBeforeFmt), false)
  {
    AtSplits(h, o, Tag("data"), Le32(size));
    ReadsTag(h, o, "data", "data");
    Tags();
  }

  lemma DataFirstWalks(h: seq<Byte>, bytes: seq<Byte>, size: nat)
    requires size < 0x1_0000_0000 && At(h, 12, bytes) && At(h, 12 + |bytes|, DataBytes(size)) && Passed(bytes)
    requires TagAt(h, 0, RIFF) && TagAt(h, 8, WAVE)
    ensures WalkHead(h) == Bad(DataBeforeFmt) && !ShortFmt(h)
  {
    DataIsFirst(h, 12 + |bytes|, size);
    assert WalkAt(h, 12, None) == WalkAt(h, 12 + |bytes|, None);
  }

  /** Data before any format is refused as such, whatever chunks come first. */
  lemma DataFirstIsRefused(size: nat, before: seq<Other>, dataSize: nat, data: seq<Byte>, chunks: seq<seq<Byte>>)
    requires size < 0x1_0000_0000 && dataSize < 0x1_0000_0000
    requires forall i :: 0 <= i < |before| ==> Writable(before[i])
    requires Concat(chunks) == RiffBytes(size) + (OthersBytes(before) + (DataBytes(dataSize) + data))
    requires |Concat(chunks)| <= 1_048_576
    ensures ReadHeader([], chunks) == Outcome([], Err(DataBeforeFmt))
  {
    var all, bytes := Concat(chunks), OthersBytes(before);
    assert [] + all == all && all[0..|all|] == all;
    AtSplits(all, 0, RiffBytes(size), bytes + (DataBytes(dataSize) + data));
    AtSplits(all, 12, bytes, DataBytes(dataSize) + data);
    AtSplits(all, 12 + |bytes|, DataBytes(dataSize), data);
    RiffIsRead(all, size);
    OthersPassed(before);
    DataFirstWalks(all, bytes, dataSize);
    StableExactly(all);
    NoOverflowUpToCap([], chunks);
    ReadsTheWhole([], chunks);
  }

  lemma {:induction false} NoChunkIsNotWav(h: seq<Byte>, o: nat, fmt: Option<Format>)
    ensures WalkFrom(h, o, fmt) != Bad(NotWav)
    decreases |h| + 8 - o
  {
    if |h| < o + 8 || TagAt(h, o, DATA) || |h| < o + 8 + Padded(h, o) {
    } else if !TagAt(h, o, FMT) {
      NoChunkIsNotWav(h, o + 8 + Padded(h, o), fmt);
    } else if |h| >= o + 24 && ReadFmt(h, o).Some? {
      NoChunkIsNotWav(h, o + 8 + Padded(h, o), ReadFmt(h, o));
    }
  }

  lemma BeginsAsWav(all: seq<Byte>)
    requires |all| >= 12
    ensures all[..4] == Tag("RIFF") && all[8..12] == Tag("WAVE") <==> TagAt(all, 0, RIFF) && TagAt(all, 8, WAVE)
  {
    Tags();
  }

  /** A stream of at least twelve bytes is refused as no WAV exactly when it does not begin as one. */
  lemma NotWavExactly(chunks: seq<seq<Byte>>)
    requires 12 <= |Concat(chunks)| <= 1_048_576
    ensures var all := Concat(chunks);
      ReadHeader([], chunks).end == Err(NotWav) <==> !(all[..4] == Tag("RIFF") && all[8..12] == Tag("WAVE"))
  {
    var all := Concat(chunks);
    assert [] + all == all;
    BeginsAsWav(all);
    NoOverflowUpToCap([], chunks);
    var h := ReadsAPrefix([], chunks);
    EndedTells(h, all);
    NoChunkIsNotWav(h, 12, None);
  }
}
