/**
 * The streaming reader of 32-bit float WAV: what it makes of a stream, and how far that depends on
 * where the stream was cut into chunks. A sample stays its four bytes.
 */
module FloatWav {
  import opened Division
  import opened Wrappers

  type Byte = b: int | 0 <= b < 256

  const MAX_HEADER_BYTES: nat := 0x10_0000

  const RIFF: seq<Byte> := [0x52, 0x49, 0x46, 0x46]
  const WAVE: seq<Byte> := [0x57, 0x41, 0x56, 0x45]
  const DATA: seq<Byte> := [0x64, 0x61, 0x74, 0x61]
  const FMT: seq<Byte> := [0x66, 0x6D, 0x74, 0x20]

  datatype WavError = NotWav | NoDataChunk | DataBeforeFmt | NotFloatPcm | OutOfRange | TornFrame

  datatype Format = Format(channels: nat, sampleRate: nat)

  datatype WavFormat = WavFormat(fmt: Format, frames: nat)

  /** The bytes of the samples handed over, and how the reading ended. */
  datatype Outcome = Outcome(samples: seq<Byte>, end: Result<WavFormat, WavError>)

  function U16(h: seq<Byte>, i: nat): nat
    requires i + 2 <= |h|
  {
    h[i] as int + 0x100 * h[i + 1] as int
  }

  function U32(h: seq<Byte>, i: nat): nat
    requires i + 4 <= |h|
  {
    U16(h, i) + 0x1_0000 * U16(h, i + 2)
  }

  predicate TagAt(h: seq<Byte>, i: nat, tag: seq<Byte>)
    requires i + 4 <= |h| && |tag| == 4
  {
    h[i] == tag[0] && h[i + 1] == tag[1] && h[i + 2] == tag[2] && h[i + 3] == tag[3]
  }

  /** A chunk's size as it lies in the stream, with its pad byte. */
  function Padded(h: seq<Byte>, o: nat): nat
    requires o + 8 <= |h|
  {
    U32(h, o + 4) + U32(h, o + 4) % 2
  }

  /** The format chunk at `o`, or None when it is not 32-bit float PCM. */
  function ReadFmt(h: seq<Byte>, o: nat): Option<Format>
    requires o + 8 <= |h| && o + 8 + Padded(h, o) <= |h| && o + 24 <= |h|
  {
    var tag, channels, sampleRate, bits := U16(h, o + 8), U16(h, o + 10), U32(h, o + 12), U16(h, o + 22);
    var sub := if tag == 0xFFFE && U32(h, o + 4) >= 26 then U16(h, o + 32) else tag;
    if sub != 3 || bits != 32 || channels < 1 then None else Some(Format(channels, sampleRate))
  }

  // ----- the header walk -----

  datatype Walk = NeedMore | Bad(error: WavError) | InData(fmt: Format, at: nat)

  /** Walks the chunks from `o` on, with the last format chunk seen. */
  function WalkFrom(h: seq<Byte>, o: nat, fmt: Option<Format>): Walk
    decreases |h| + 8 - o
  {
    if |h| < o + 8 then NeedMore
    else if TagAt(h, o, DATA) then
      if fmt.None? then Bad(DataBeforeFmt) else InData(fmt.value, o + 8)
    else if |h| < o + 8 + Padded(h, o) then NeedMore
    else if !TagAt(h, o, FMT) then WalkFrom(h, o + 8 + Padded(h, o), fmt)
    else if |h| < o + 24 then Bad(OutOfRange) // the fields of a short chunk are read past its end
    else if ReadFmt(h, o).None? then Bad(NotFloatPcm)
    else WalkFrom(h, o + 8 + Padded(h, o), ReadFmt(h, o))
  }

  function WalkHead(h: seq<Byte>): Walk {
    if |h| < 12 then NeedMore
    else if !TagAt(h, 0, RIFF) || !TagAt(h, 8, WAVE) then Bad(NotWav)
    else WalkFrom(h, 12, None)
  }

  /** What follows the data chunk's header: whole frames are handed over, a torn one is an error. */
  function ReadData(fmt: Format, data: seq<Byte>): Outcome
    requires fmt.channels >= 1
  {
    var frameBytes := 4 * fmt.channels;
    DivMod(|data|, frameBytes);
    Outcome(data[..|data| - |data| % frameBytes],
            if |data| % frameBytes == 0 then Ok(WavFormat(fmt, |data| / frameBytes)) else Err(TornFrame))
  }

  /** The reading of the rest of a stream whose header is still incomplete after `head`. */
  function ReadHeader(head: seq<Byte>, chunks: seq<seq<Byte>>): Outcome
    decreases |chunks|
  {
    if chunks == [] then Outcome([], Err(NoDataChunk))
    else
      var h := head + chunks[0];
      if |h| > MAX_HEADER_BYTES then Outcome([], Err(NoDataChunk))
      else match WalkHead(h)
           case NeedMore => ReadHeader(h, chunks[1..])
           case Bad(e) => Outcome([], Err(e))
           case InData(fmt, at) =>
             WalkInData(h);
             ReadData(fmt, h[at..] + Concat(chunks[1..]))
  }

  function Concat(chunks: seq<seq<Byte>>): seq<Byte> {
    if chunks == [] then [] else chunks[0] + Concat(chunks[1..])
  }

  lemma {:induction false} WalkFromInData(h: seq<Byte>, o: nat, fmt: Option<Format>)
    requires fmt.Some? ==> fmt.value.channels >= 1
    ensures WalkFrom(h, o, fmt).InData? ==>
              WalkFrom(h, o, fmt).fmt.channels >= 1 && WalkFrom(h, o, fmt).at <= |h|
    decreases |h| + 8 - o
  {
    if |h| < o + 8 || TagAt(h, o, DATA) || |h| < o + 8 + Padded(h, o) {
    } else if !TagAt(h, o, FMT) {
      WalkFromInData(h, o + 8 + Padded(h, o), fmt);
    } else if |h| >= o + 24 && ReadFmt(h, o).Some? {
      WalkFromInData(h, o + 8 + Padded(h, o), ReadFmt(h, o));
    }
  }

  lemma WalkInData(h: seq<Byte>)
    ensures WalkHead(h).InData? ==> WalkHead(h).fmt.channels >= 1 && WalkHead(h).at <= |h|
  {
    WalkFromInData(h, 12, None);
  }

  // ----- the reader -----

  lemma WholeFrames(buf: seq<Byte>, f: nat)
    requires f > 0
    ensures var n := |buf| - |buf| % f;
      0 <= n <= |buf| && buf[..n] + buf[n..] == buf && |buf[n..]| == |buf| % f && n % f == 0
  {
    WholeMultiple(|buf|, f);
  }

  /** One call of the reader's `feed`: whole frames go out, a torn frame is carried over. */
  method Feed(rest: seq<Byte>, chunk: seq<Byte>, frames: nat, channels: nat)
    returns (usable: seq<Byte>, rest': seq<Byte>, frames': nat)
    requires channels >= 1
    ensures usable + rest' == rest + chunk && |rest'| == |rest + chunk| % (4 * channels)
    ensures frames' == frames + |usable| / (4 * channels) && |usable| % (4 * channels) == 0
  {
    var buf := rest + chunk;
    var frameBytes := 4 * channels;
    WholeFrames(buf, frameBytes);
    var n := |buf| - |buf| % frameBytes;
    rest' := buf[n..];
    usable := buf[..n];
    frames' := frames + n / frameBytes;
  }

  /** The last format chunk that the walk from `o` on passes. */
  function LastFmt(h: seq<Byte>, o: nat, fmt: Option<Format>): Option<Format>
    decreases |h| + 8 - o
  {
    if |h| < o + 8 || TagAt(h, o, DATA) || |h| < o + 8 + Padded(h, o) then fmt
    else if !TagAt(h, o, FMT) then LastFmt(h, o + 8 + Padded(h, o), fmt)
    else if |h| < o + 24 || ReadFmt(h, o).None? then fmt
    else LastFmt(h, o + 8 + Padded(h, o), ReadFmt(h, o))
  }

  /** A chunk that lies whole in a prefix reads the same in the longer stream. */
  lemma SameChunk(h: seq<Byte>, all: seq<Byte>, o: nat)
    requires h <= all && o + 8 <= |h|
    ensures TagAt(h, o, DATA) == TagAt(all, o, DATA) && TagAt(h, o, FMT) == TagAt(all, o, FMT)
    ensures Padded(h, o) == Padded(all, o)
    ensures o + 8 + Padded(h, o) <= |h| && o + 24 <= |h| ==> ReadFmt(h, o) == ReadFmt(all, o)
  {
  }

  /** Walking again with more bytes, from the format already seen, is walking from none. */
  lemma {:induction false} WalkAgain(h: seq<Byte>, all: seq<Byte>, o: nat, fmt: Option<Format>)
    requires h <= all && WalkFrom(h, o, fmt) == NeedMore
    ensures WalkFrom(all, o, LastFmt(h, o, fmt)) == WalkFrom(all, o, fmt)
    ensures LastFmt(all, o, LastFmt(h, o, fmt)) == LastFmt(all, o, fmt)
    decreases |h| + 8 - o
  {
    if |h| >= o + 8 && |h| >= o + 8 + Padded(h, o) {
      SameChunk(h, all, o);
      if !TagAt(h, o, FMT) {
        WalkAgain(h, all, o + 8 + Padded(h, o), fmt);
      }
    }
  }

  /** The walk over the header read so far, as a loop; `fmt` is kept from walk to walk. */
  method WalkChunks(head: seq<Byte>, fmt: Option<Format>) returns (walk: Walk, last: Option<Format>)
    ensures walk == WalkFrom(head, 12, fmt)
    ensures last == LastFmt(head, 12, fmt)
  {
    last := fmt;
    var o := 12;
    while |head| >= o + 8
      invariant 12 <= o
      invariant WalkFrom(head, o, last) == WalkFrom(head, 12, fmt)
      invariant LastFmt(head, o, last) == LastFmt(head, 12, fmt)
      decreases |head| + 8 - o
    {
      if TagAt(head, o, DATA) {
        return if last.None? then Bad(DataBeforeFmt) else InData(last.value, o + 8), last;
      }
      var padded := Padded(head, o);
      if |head| < o + 8 + padded {
        break;
      }
      if TagAt(head, o, FMT) {
        if |head| < o + 24 {
          return Bad(OutOfRange), last;
        }
        var read := ReadFmt(head, o);
        if read.None? {
          return Bad(NotFloatPcm), last;
        }
        last := read;
      }
      o := o + 8 + padded;
    }
    walk := NeedMore;
  }

  /** What has been fed in, cut into the whole frames handed over and the torn rest. */
  predicate Cut(fmt: Format, samples: seq<Byte>, rest: seq<Byte>, frames: nat) {
    && fmt.channels >= 1 && |samples| % (4 * fmt.channels) == 0
    && |rest| < 4 * fmt.channels && frames == |samples| / (4 * fmt.channels)
  }

  lemma CutReads(fmt: Format, samples: seq<Byte>, rest: seq<Byte>, frames: nat)
    requires Cut(fmt, samples, rest, frames)
    ensures ReadData(fmt, samples + rest)
         == Outcome(samples, if rest != [] then Err(TornFrame) else Ok(WavFormat(fmt, frames)))
  {
    var f := 4 * fmt.channels;
    SumOfMultiples(|samples|, |rest|, f);
    DivModUnique(|rest|, f, 0, |rest|);
    assert (samples + rest)[..|samples|] == samples;
  }

  lemma FeedKeepsCut(fmt: Format, samples: seq<Byte>, usable: seq<Byte>, rest: seq<Byte>, frames: nat)
    requires fmt.channels >= 1 && |samples| % (4 * fmt.channels) == 0 && |usable| % (4 * fmt.channels) == 0
    requires |rest| < 4 * fmt.channels && frames == |samples| / (4 * fmt.channels)
    ensures Cut(fmt, samples + usable, rest, frames + |usable| / (4 * fmt.channels))
  {
    SumOfMultiples(|samples|, |usable|, 4 * fmt.channels);
  }

  /** Chunks that arrive inside the data chunk. */
  method ReadRest(fmt: Format, samples0: seq<Byte>, rest0: seq<Byte>, frames0: nat, chunks: seq<seq<Byte>>)
    returns (out: Outcome)
    requires Cut(fmt, samples0, rest0, frames0)
    ensures out == ReadData(fmt, samples0 + rest0 + Concat(chunks))
  {
    var samples, rest, frames := samples0, rest0, frames0;
    ghost var data := samples0 + rest0 + Concat(chunks);
    assert chunks[0..] == chunks;
    for i := 0 to |chunks|
      invariant Cut(fmt, samples, rest, frames)
      invariant samples + rest + Concat(chunks[i..]) == data
    {
      ghost var more := Concat(chunks[i + 1..]);
      assert chunks[i..][1..] == chunks[i + 1..];
      assert samples + rest + (chunks[i] + more) == samples + (rest + chunks[i]) + more;
      var usable, carried, counted := Feed(rest, chunks[i], frames, fmt.channels);
      FeedKeepsCut(fmt, samples, usable, carried, frames);
      assert samples + (usable + carried) + more == (samples + usable) + carried + more;
      samples, rest, frames := samples + usable, carried, counted;
    }
    CutReads(fmt, samples, rest, frames);
    assert samples + rest + [] == samples + rest;
    out := Outcome(samples, if rest != [] then Err(TornFrame) else Ok(WavFormat(fmt, frames)));
  }

  method ReadFloatWav(chunks: seq<seq<Byte>>) returns (out: Outcome)
    ensures out == ReadHeader([], chunks)
  {
    var head: seq<Byte>, fmt: Option<Format> := [], None;
    assert chunks[0..] == chunks;
    for i := 0 to |chunks|
      invariant ReadHeader(head, chunks[i..]) == ReadHeader([], chunks)
      invariant WalkHead(head) == NeedMore && (|head| < 12 ==> fmt == None)
      invariant |head| >= 12 ==> fmt == LastFmt(head, 12, None) && WalkFrom(head, 12, None) == NeedMore
    {
      ghost var before := head;
      head := head + chunks[i];
      assert chunks[i..][1..] == chunks[i + 1..];
      if |head| > MAX_HEADER_BYTES {
        return Outcome([], Err(NoDataChunk));
      }
      if |head| < 12 {
        continue;
      }
      if !TagAt(head, 0, RIFF) || !TagAt(head, 8, WAVE) {
        return Outcome([], Err(NotWav));
      }
      if |before| >= 12 {
        WalkAgain(before, head, 12, None);
      }
      var walk;
      walk, fmt := WalkChunks(head, fmt);
      match walk
      case NeedMore =>
      case Bad(e) => return Outcome([], Err(e));
      case InData(f, at) =>
        WalkInData(head);
        out := ReadRest(f, [], [], 0, [head[at..]] + chunks[i + 1..]);
        assert [] + [] + Concat([head[at..]] + chunks[i + 1..]) == head[at..] + Concat(chunks[i + 1..]);
        return;
    }
    out := Outcome([], Err(NoDataChunk));
  }
}
