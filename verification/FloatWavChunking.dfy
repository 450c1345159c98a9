/** How far the float-WAV reader's result depends on where its stream was cut. */
module FloatWavChunking {
  import opened Division
  import opened Wrappers
  import opened FloatWav

  /** The reading of a stream as one whole, without the cap on the header. */
  function Whole(all: seq<Byte>): Outcome {
    WalkInData(all);
    match WalkHead(all)
    case NeedMore => Outcome([], Err(NoDataChunk))
    case Bad(e) => Outcome([], Err(e))
    case InData(fmt, at) => ReadData(fmt, all[at..])
  }

  /** The reader is still in the header when it has more than the cap. */
  predicate Overflows(head: seq<Byte>, chunks: seq<seq<Byte>>)
    decreases |chunks|
  {
    chunks != [] &&
    (|head + chunks[0]| > MAX_HEADER_BYTES ||
     (WalkHead(head + chunks[0]) == NeedMore && Overflows(head + chunks[0], chunks[1..])))
  }

  /** Once the walk over a prefix comes to an end, it has come to the end of the whole walk. */
  ghost predicate PrefixStable(all: seq<Byte>) {
    forall h :: h <= all && WalkHead(h) != NeedMore ==> WalkHead(h) == WalkHead(all)
  }

  /** The walk passes a format chunk too short to hold the fields that are read from it. */
  predicate ShortFmtFrom(h: seq<Byte>, o: nat)
    decreases |h| + 8 - o
  {
    if |h| < o + 8 || TagAt(h, o, DATA) || |h| < o + 8 + Padded(h, o) then false
    else if !TagAt(h, o, FMT) then ShortFmtFrom(h, o + 8 + Padded(h, o))
    else if |h| < o + 24 then false
    else Padded(h, o) < 16 || (ReadFmt(h, o).Some? && ShortFmtFrom(h, o + 8 + Padded(h, o)))
  }

  predicate ShortFmt(all: seq<Byte>) {
    |all| >= 12 && TagAt(all, 0, RIFF) && TagAt(all, 8, WAVE) && ShortFmtFrom(all, 12)
  }

  // ----- when the walk is stable -----

  lemma {:induction false} PrefixWalk(h: seq<Byte>, all: seq<Byte>, o: nat, fmt: Option<Format>)
    requires h <= all && !ShortFmtFrom(all, o) && WalkFrom(h, o, fmt) != NeedMore
    ensures WalkFrom(h, o, fmt) == WalkFrom(all, o, fmt)
    decreases |h| + 8 - o
  {
    SameChunk(h, all, o);
    if !TagAt(h, o, DATA) {
      if !TagAt(h, o, FMT) {
        PrefixWalk(h, all, o + 8 + Padded(h, o), fmt);
      } else if |h| >= o + 24 && ReadFmt(h, o).Some? {
        PrefixWalk(h, all, o + 8 + Padded(h, o), ReadFmt(h, o));
      }
    }
  }

  /** A walk that ends by reading past its bytes, or not at all, reads past them on every prefix it ends
    * on. */
  lemma {:induction false} PrefixOutOfRange(h: seq<Byte>, all: seq<Byte>, o: nat, fmt: Option<Format>)
    requires WalkFrom(all, o, fmt) == Bad(OutOfRange) || WalkFrom(all, o, fmt) == NeedMore
    requires h <= all && WalkFrom(h, o, fmt) != NeedMore
    ensures WalkFrom(h, o, fmt) == Bad(OutOfRange)
    decreases |h| + 8 - o
  {
    SameChunk(h, all, o);
    if !TagAt(h, o, FMT) {
      PrefixOutOfRange(h, all, o + 8 + Padded(h, o), fmt);
    } else if |h| >= o + 24 {
      PrefixOutOfRange(h, all, o + 8 + Padded(h, o), ReadFmt(h, o));
    }
  }

  /** Cut inside a short format chunk's missing fields, the walk reads past its bytes. */
  lemma {:induction false} CutShortFmt(all: seq<Byte>, o: nat, fmt: Option<Format>) returns (n: nat)
    requires ShortFmtFrom(all, o)
    ensures n <= |all| && WalkFrom(all[..n], o, fmt) == Bad(OutOfRange)
    decreases |all| + 8 - o
  {
    if !TagAt(all, o, FMT) {
      n := CutShortFmt(all, o + 8 + Padded(all, o), fmt);
      CutAfter(all, o, fmt, n, fmt);
    } else if Padded(all, o) < 16 {
      n := o + 8 + Padded(all, o);
      SameChunk(all[..n], all, o);
    } else {
      n := CutShortFmt(all, o + 8 + Padded(all, o), ReadFmt(all, o));
      CutAfter(all, o, fmt, n, ReadFmt(all, o));
    }
  }

  /** A walk over a prefix that comes to an end after a chunk has that chunk whole. */
  lemma CutAfter(all: seq<Byte>, o: nat, fmt: Option<Format>, n: nat, next: Option<Format>)
    requires o + 8 <= |all| && n <= |all| && o + 8 + Padded(all, o) <= |all| && !TagAt(all, o, DATA)
    requires TagAt(all, o, FMT) ==> Padded(all, o) >= 16 && ReadFmt(all, o).Some? && next == ReadFmt(all, o)
    requires !TagAt(all, o, FMT) ==> next == fmt
    requires WalkFrom(all[..n], o + 8 + Padded(all, o), next) == Bad(OutOfRange)
    ensures WalkFrom(all[..n], o, fmt) == Bad(OutOfRange)
  {
    assert n >= o + 8 + Padded(all, o) + 8;
    SameChunk(all[..n], all, o);
  }

  /** Exactly when a stream can be cut anywhere: no format chunk is too short for its fields, or the
    * stream ends within such a chunk's fields. */
  lemma StableExactly(all: seq<Byte>)
    ensures PrefixStable(all) <==> (ShortFmt(all) ==> WalkHead(all) == Bad(OutOfRange))
  {
    if ShortFmt(all) && WalkHead(all) != Bad(OutOfRange) {
      var n := CutShortFmt(all, 12, None);
      assert all[..n] <= all && WalkHead(all[..n]) == Bad(OutOfRange);
    } else {
      forall h | h <= all && WalkHead(h) != NeedMore
        ensures WalkHead(h) == WalkHead(all)
      {
        if WalkFromHead(h) {
          if ShortFmt(all) {
            PrefixOutOfRange(h, all, 12, None);
          } else {
            PrefixWalk(h, all, 12, None);
          }
        }
      }
    }
  }

  predicate WalkFromHead(h: seq<Byte>) { |h| >= 12 && TagAt(h, 0, RIFF) && TagAt(h, 8, WAVE) }

  // ----- what the reader makes of a stream -----

  /** Every reading of a stable stream, however it was cut: the header ran over the cap, or the
    * result is that of the whole. */
  lemma {:induction false} ReadsTheWhole(head: seq<Byte>, chunks: seq<seq<Byte>>)
    requires PrefixStable(head + Concat(chunks)) && WalkHead(head) == NeedMore
    ensures ReadHeader(head, chunks)
         == if Overflows(head, chunks) then Outcome([], Err(NoDataChunk)) else Whole(head + Concat(chunks))
    decreases |chunks|
  {
    if chunks == [] {
      assert head + Concat(chunks) == head;
    } else {
      var h := head + chunks[0];
      var all := head + Concat(chunks);
      assert all == h + Concat(chunks[1..]);
      assert h <= all;
      if |h| <= MAX_HEADER_BYTES {
        if WalkHead(h) == NeedMore {
          ReadsTheWhole(h, chunks[1..]);
        } else {
          WalkInData(h);
          assert WalkHead(h).InData? ==> all[WalkHead(h).at..] == h[WalkHead(h).at..] + Concat(chunks[1..]);
        }
      }
    }
  }

  /** Two ways of cutting one stream give one outcome: the same format and frame count, the same
    * samples, or the same error. */
  lemma ChunkingIndependent(chunks: seq<seq<Byte>>, chunks': seq<seq<Byte>>)
    requires Concat(chunks) == Concat(chunks')
    requires ShortFmt(Concat(chunks)) ==> WalkHead(Concat(chunks)) == Bad(OutOfRange)
    requires Overflows([], chunks) == Overflows([], chunks')
    ensures ReadHeader([], chunks) == ReadHeader([], chunks')
  {
    StableExactly(Concat(chunks));
    assert [] + Concat(chunks) == Concat(chunks) && [] + Concat(chunks') == Concat(chunks');
    ReadsTheWhole([], chunks);
    ReadsTheWhole([], chunks');
  }

  /** A stream whose header ends within `n` bytes does not overflow in chunks that leave room for it. */
  lemma {:induction false} SmallChunksDoNotOverflow(head: seq<Byte>, chunks: seq<seq<Byte>>, n: nat)
    requires n <= |head + Concat(chunks)| && WalkHead((head + Concat(chunks))[..n]) != NeedMore
    requires forall c :: c in chunks ==> |c| + n <= MAX_HEADER_BYTES
    requires !ShortFmt(head + Concat(chunks)) && |head| < n
    ensures !Overflows(head, chunks)
    decreases |chunks|
  {
    if chunks != [] {
      var h := head + chunks[0];
      var all := head + Concat(chunks);
      assert all == h + Concat(chunks[1..]);
      if WalkHead(h) == NeedMore {
        if |h| >= n {
          LongerEndsToo(all[..n], h, all);
        }
        assert forall c :: c in chunks[1..] ==> c in chunks;
        SmallChunksDoNotOverflow(h, chunks[1..], n);
      }
    }
  }

  lemma {:induction false} ShortFmtStays(h: seq<Byte>, all: seq<Byte>, o: nat)
    requires h <= all && ShortFmtFrom(h, o)
    ensures ShortFmtFrom(all, o)
    decreases |h| + 8 - o
  {
    SameChunk(h, all, o);
    if !TagAt(h, o, FMT) || Padded(h, o) >= 16 {
      ShortFmtStays(h, all, o + 8 + Padded(h, o));
    }
  }

  /** A walk that has come to an end on a prefix has come to an end on every longer one. */
  lemma LongerEndsToo(g: seq<Byte>, h: seq<Byte>, all: seq<Byte>)
    requires g <= h <= all && WalkHead(g) != NeedMore && !ShortFmt(all)
    ensures WalkHead(h) != NeedMore
  {
    if WalkFromHead(g) {
      if ShortFmtFrom(h, 12) {
        ShortFmtStays(h, all, 12);
      }
      PrefixWalk(g, h, 12, None);
    }
  }

  // ----- one stream, over all the ways to cut it -----

  /** The outcome of a reading whose header ended with `h`. */
  function EndedAt(h: seq<Byte>, all: seq<Byte>): Outcome
    requires h <= all
  {
    WalkInData(h);
    match WalkHead(h)
    case NeedMore => Outcome([], Err(NoDataChunk))
    case Bad(e) => Outcome([], Err(e))
    case InData(fmt, at) => ReadData(fmt, all[at..])
  }

  /** Whatever the header ended with, the outcome tells whether it did, and that it did not read past
    * its bytes. */
  lemma EndedTells(h: seq<Byte>, all: seq<Byte>)
    requires h <= all
    ensures EndedAt(h, all) == Outcome([], Err(NoDataChunk)) <==> WalkHead(h) == NeedMore
    ensures EndedAt(h, all) == Outcome([], Err(OutOfRange)) <==> WalkHead(h) == Bad(OutOfRange)
  {
    WalkInData(h);
    NeverNoData(h, 12, None);
  }

  lemma {:induction false} NeverNoData(h: seq<Byte>, o: nat, fmt: Option<Format>)
    ensures WalkFrom(h, o, fmt) != Bad(NoDataChunk)
    decreases |h| + 8 - o
  {
    if |h| < o + 8 || TagAt(h, o, DATA) || |h| < o + 8 + Padded(h, o) {
    } else if !TagAt(h, o, FMT) {
      NeverNoData(h, o + 8 + Padded(h, o), fmt);
    } else if |h| >= o + 24 && ReadFmt(h, o).Some? {
      NeverNoData(h, o + 8 + Padded(h, o), ReadFmt(h, o));
    }
  }

  lemma {:induction false} OverflowReads(head: seq<Byte>, chunks: seq<seq<Byte>>)
    requires Overflows(head, chunks)
    ensures ReadHeader(head, chunks) == Outcome([], Err(NoDataChunk))
    decreases |chunks|
  {
    if |head + chunks[0]| <= MAX_HEADER_BYTES {
      OverflowReads(head + chunks[0], chunks[1..]);
    }
  }

  /** A reading that does not run over the cap ends its header with some prefix within the cap, and on
    * a longer stream that prefix comes to an end. */
  lemma {:induction false} ReadsAPrefix(head: seq<Byte>, chunks: seq<seq<Byte>>) returns (h: seq<Byte>)
    requires !Overflows(head, chunks) && WalkHead(head) == NeedMore && |head| <= MAX_HEADER_BYTES
    ensures h <= head + Concat(chunks) && |h| <= MAX_HEADER_BYTES
    ensures ReadHeader(head, chunks) == EndedAt(h, head + Concat(chunks))
    ensures WalkHead(h) != NeedMore || h == head + Concat(chunks)
    decreases |chunks|
  {
    var all := head + Concat(chunks);
    if chunks == [] {
      assert all == head;
      h := head;
    } else {
      h := head + chunks[0];
      assert all == h + Concat(chunks[1..]);
      assert h <= all;
      if WalkHead(h) == NeedMore {
        h := ReadsAPrefix(h, chunks[1..]);
      } else {
        WalkInData(h);
        assert WalkHead(h).InData? ==> all[WalkHead(h).at..] == h[WalkHead(h).at..] + Concat(chunks[1..]);
      }
    }
  }

  lemma TwoPieces(all: seq<Byte>, n: nat)
    requires n <= |all|
    ensures Concat([all[..n], all[n..]]) == all
  {
    assert [all[..n], all[n..]][1..] == [all[n..]] && [all[n..]][1..] == [];
    assert Concat([all[n..]]) == all[n..] + [] == all[n..];
  }

  /** Cut where the header ends, a stream reads as it does there. */
  lemma TwoChunks(all: seq<Byte>, n: nat)
    requires n <= |all| && n <= MAX_HEADER_BYTES && WalkHead(all[..n]) != NeedMore
    ensures Concat([all[..n], all[n..]]) == all && !Overflows([], [all[..n], all[n..]])
    ensures ReadHeader([], [all[..n], all[n..]]) == EndedAt(all[..n], all)
  {
    TwoPieces(all, n);
    assert [] + all[..n] == all[..n] && [all[..n], all[n..]][1..] == [all[n..]] && [all[n..]][1..] == [];
    assert Concat([all[n..]]) == all[n..] + [] == all[n..];
    WalkInData(all[..n]);
    assert WalkHead(all[..n]).InData?
      ==> all[WalkHead(all[..n]).at..] == all[..n][WalkHead(all[..n]).at..] + all[n..];
  }

  lemma OneChunk(all: seq<Byte>)
    ensures Concat([all]) == all && Overflows([], [all]) == (|all| > MAX_HEADER_BYTES)
    ensures ReadHeader([], [all])
         == if |all| > MAX_HEADER_BYTES then Outcome([], Err(NoDataChunk)) else EndedAt(all, all)
  {
    WalkInData(all);
    assert [] + all == all && [all][1..] == [];
    assert all + [] == all;
    assert ReadHeader(all, []) == Outcome([], Err(NoDataChunk));
    assert WalkHead(all).InData? ==> all[WalkHead(all).at..] + [] == all[WalkHead(all).at..];
  }

  /** What of a stream can be read as its header. */
  function Capped(all: seq<Byte>): seq<Byte> {
    if |all| > MAX_HEADER_BYTES then all[..MAX_HEADER_BYTES] else all
  }

  /** Two prefixes that the walk ends on tell it the same: no format chunk within the cap is too short
    * for its fields, or the walk gets past none of them. */
  predicate HeadStable(all: seq<Byte>) {
    ShortFmt(Capped(all)) ==>
      || WalkHead(Capped(all)) == Bad(OutOfRange)
      || (WalkHead(Capped(all)) == NeedMore && |all| > MAX_HEADER_BYTES)
  }

  lemma StableHeadsAgree(all: seq<Byte>, h: seq<Byte>)
    requires HeadStable(all) && h <= all && |h| <= MAX_HEADER_BYTES && WalkHead(h) != NeedMore
    ensures WalkHead(h) == if ShortFmt(Capped(all)) then Bad(OutOfRange) else WalkHead(Capped(all))
  {
    assert h <= Capped(all);
    if WalkFromHead(h) {
      if ShortFmt(Capped(all)) {
        PrefixOutOfRange(h, Capped(all), 12, None);
      } else {
        PrefixWalk(h, Capped(all), 12, None);
      }
    }
  }

  /** Cuttings on which the cap says the same read the same. */
  ghost predicate CutAlike(all: seq<Byte>) {
    forall c, d :: Concat(c) == all && Concat(d) == all && Overflows([], c) == Overflows([], d)
                   ==> ReadHeader([], c) == ReadHeader([], d)
  }

  ghost predicate CutAnywhere(all: seq<Byte>) {
    forall c, d :: Concat(c) == all && Concat(d) == all ==> ReadHeader([], c) == ReadHeader([], d)
  }

  /** Two cuttings of an unstable stream, on both of which the cap is kept. */
  lemma UnstableDiffers(all: seq<Byte>) returns (c: seq<seq<Byte>>, d: seq<seq<Byte>>)
    requires !HeadStable(all)
    ensures Concat(c) == all && Concat(d) == all && !Overflows([], c) && !Overflows([], d)
    ensures ReadHeader([], c) != ReadHeader([], d)
  {
    var head := Capped(all);
    var n := CutShortFmt(head, 12, None);
    assert head[..n] == all[..n] && |all[..n]| >= 12 && WalkHead(all[..n]) == Bad(OutOfRange);
    TwoChunks(all, n);
    EndedTells(all[..n], all);
    c := [all[..n], all[n..]];
    if |all| > MAX_HEADER_BYTES {
      TwoChunks(all, MAX_HEADER_BYTES);
      EndedTells(head, all);
      d := [all[..MAX_HEADER_BYTES], all[MAX_HEADER_BYTES..]];
    } else {
      OneChunk(all);
      EndedTells(all, all);
      d := [all];
    }
  }

  /** A stable stream has one outcome for the cuttings on which the cap is kept. */
  lemma StableReads(all: seq<Byte>, c: seq<seq<Byte>>)
    requires HeadStable(all) && Concat(c) == all && !Overflows([], c)
    ensures ReadHeader([], c)
         == if ShortFmt(Capped(all)) then Outcome([], Err(OutOfRange)) else EndedAt(Capped(all), all)
  {
    assert [] + all == all;
    var h := ReadsAPrefix([], c);
    EndedTells(h, all);
    if WalkHead(h) != NeedMore {
      StableHeadsAgree(all, h);
    }
  }

  /** Any stream reads the same in every cutting on which the cap says the same exactly when, within the
    * cap, no format chunk is too short for its fields, or the walk gets past none of them. */
  lemma CutAlikeExactly(all: seq<Byte>)
    ensures CutAlike(all) <==> HeadStable(all)
  {
    if !HeadStable(all) {
      var c, d := UnstableDiffers(all);
    } else {
      forall c, d | Concat(c) == all && Concat(d) == all && Overflows([], c) == Overflows([], d)
        ensures ReadHeader([], c) == ReadHeader([], d)
      {
        if Overflows([], c) {
          OverflowReads([], c);
          OverflowReads([], d);
        } else {
          StableReads(all, c);
          StableReads(all, d);
        }
      }
    }
  }

  lemma {:induction false} NoOverflowUpToCap(head: seq<Byte>, chunks: seq<seq<Byte>>)
    requires |head + Concat(chunks)| <= MAX_HEADER_BYTES
    ensures !Overflows(head, chunks)
    decreases |chunks|
  {
    if chunks != [] {
      assert head + Concat(chunks) == (head + chunks[0]) + Concat(chunks[1..]);
      NoOverflowUpToCap(head + chunks[0], chunks[1..]);
    }
  }

  /** Any stream reads the same however it is cut exactly when it is stable and, if it is longer than the
    * cap, its header does not come to an end within the cap. */
  lemma CutAnywhereExactly(all: seq<Byte>)
    ensures CutAnywhere(all)
       <==> if |all| <= MAX_HEADER_BYTES then HeadStable(all)
            else WalkHead(Capped(all)) == NeedMore && !ShortFmt(Capped(all))
  {
    CutAlikeExactly(all);
    if |all| <= MAX_HEADER_BYTES {
      forall c | Concat(c) == all
        ensures !Overflows([], c)
      {
        assert [] + all == all;
        NoOverflowUpToCap([], c);
      }
    } else if WalkHead(Capped(all)) == NeedMore && !ShortFmt(Capped(all)) {
      forall c | Concat(c) == all
        ensures Overflows([], c)
      {
        NeverEndingOverflows(all, c);
      }
    } else {
      var c := EndsWithinCap(all);
      OneChunk(all);
    }
  }

  lemma NeverEndingOverflows(all: seq<Byte>, c: seq<seq<Byte>>)
    requires |all| > MAX_HEADER_BYTES && WalkHead(Capped(all)) == NeedMore && !ShortFmt(Capped(all))
    requires Concat(c) == all
    ensures Overflows([], c)
  {
    if !Overflows([], c) {
      assert [] + all == all;
      var h := ReadsAPrefix([], c);
      StableHeadsAgree(all, h);
    }
  }

  /** A cutting of a long stream that does not run over the cap. */
  lemma EndsWithinCap(all: seq<Byte>) returns (c: seq<seq<Byte>>)
    requires |all| > MAX_HEADER_BYTES && (WalkHead(Capped(all)) != NeedMore || ShortFmt(Capped(all)))
    ensures Concat(c) == all && ReadHeader([], c) != Outcome([], Err(NoDataChunk))
  {
    var n := MAX_HEADER_BYTES;
    if WalkHead(Capped(all)) == NeedMore {
      n := CutShortFmt(Capped(all), 12, None);
      assert Capped(all)[..n] == all[..n] && |all[..n]| >= 12;
    }
    TwoChunks(all, n);
    EndedTells(all[..n], all);
    c := [all[..n], all[n..]];
  }

  /** Such a stream: its empty format chunk is followed by 16 zero bytes. In one piece it is no float
    * PCM; cut right behind the chunk it is read past its end. */
  lemma ShortFmtExample()
    ensures var all := RIFF + [0, 0, 0, 0] + WAVE + FMT + [0, 0, 0, 0] + seq(16, _ => 0);
            && ReadHeader([], [all]) == Outcome([], Err(NotFloatPcm))
            && ReadHeader([], [all[..20], all[20..]]) == Outcome([], Err(OutOfRange))
  {
    var all: seq<Byte> := RIFF + [0, 0, 0, 0] + WAVE + FMT + [0, 0, 0, 0] + seq(16, _ => 0);
    assert all[12] == 0x66 && all[13] == 0x6D && all[14] == 0x74 && all[15] == 0x20;
    assert U32(all, 16) == 0 && U16(all, 20) == 0;
    OneChunk(all);
    TwoChunks(all, 20);
  }

  /** The cap counts whole chunks: a stream over it is refused in one piece, though its header ends
    * early, and read when cut there. */
  lemma CapCountsChunks(all: seq<Byte>, n: nat)
    requires n <= MAX_HEADER_BYTES < |all| && WalkHead(all[..n]).InData? && !ShortFmt(all)
    ensures ReadHeader([], [all]) == Outcome([], Err(NoDataChunk))
    ensures ReadHeader([], [all[..n], all[n..]]) == Whole(all)
  {
    assert [] + all == all && [] + all[..n] == all[..n];
    TwoPieces(all, n);
    StableExactly(all);
    ReadsTheWhole([], [all[..n], all[n..]]);
  }

  /** A torn tail is refused exactly when the data is not a whole number of frames; what was handed
    * over is all the whole frames, and the count is theirs. */
  lemma FramesFill(fmt: Format, data: seq<Byte>)
    requires fmt.channels >= 1
    ensures var f := 4 * fmt.channels;
            var out := ReadData(fmt, data);
            && (out.end == Err(TornFrame) <==> |data| % f != 0)
            && (|data| % f == 0 ==> out.end.Ok? && out.samples == data && out.end.value.frames * f == |data|)
            && out.samples <= data && |data| - |out.samples| < f && |out.samples| % f == 0
  {
    DivMod(|data|, 4 * fmt.channels);
    WholeMultiple(|data|, 4 * fmt.channels);
  }
}
