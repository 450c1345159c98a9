/**
 * The walk over an MP4 file's top-level boxes (media-worker/src/sniff.ts): on the bytes of any list of
 * boxes, serialised as section 4.2 of ISO/IEC 14496-12 says, it answers what the list answers; and on
 * any bytes it never answers what no list of boxes there would.
 */
module Mp4Boxes {
  import opened Wrappers

  type Byte = b: int | 0 <= b < 256

  datatype MoovOrder = MoovFirst | MoovLast | NoMoov

  const MAX_BOXES: nat := 10_000
  const MAX_SAFE_INTEGER: nat := 0x1F_FFFF_FFFF_FFFF

  /** A box type is its four characters, read as one number. */
  const MOOV: nat := 0x6D6F_6F76
  const MDAT: nat := 0x6D64_6174

  // ---------- big-endian numbers ----------

  function U32(h: seq<Byte>, at: nat): (n: nat)
    requires at + 4 <= |h|
    ensures n < 0x1_0000_0000
  {
    ((h[at] as int * 256 + h[at + 1] as int) * 256 + h[at + 2] as int) * 256 + h[at + 3] as int
  }

  function U64(h: seq<Byte>, at: nat): nat
    requires at + 8 <= |h|
  {
    U32(h, at) * 0x1_0000_0000 + U32(h, at + 4)
  }

  // ---------- the walk ----------

  /** The length the header at `pos` states, none when it is malformed: 1 means a 64-bit length follows,
    * 0 that the box goes on to the end. */
  function LengthAt(data: seq<Byte>, pos: nat): Option<nat>
    requires pos + 8 <= |data|
  {
    var len := U32(data, pos);
    if len == 1 then
      if pos + 16 > |data| || U64(data, pos + 8) > MAX_SAFE_INTEGER || U64(data, pos + 8) < 16 then None
      else Some(U64(data, pos + 8))
    else if len == 0 then Some(|data| - pos)
    else if len < 8 then None
    else Some(len)
  }

  /** The box at `pos`: its type and length, none when there is no well-formed one within the file. */
  function BoxAt(data: seq<Byte>, pos: nat): (r: Option<(nat, nat)>)
    ensures r.Some? ==> r.value.0 < 0x1_0000_0000 && r.value.1 >= 8 && pos + r.value.1 <= |data|
  {
    if pos + 8 > |data| then None
    else
      var len := LengthAt(data, pos);
      if len.None? || pos + len.value > |data| then None else Some((U32(data, pos + 4), len.value))
  }

  /** The walk from `pos`, with `n` boxes still allowed. */
  function Walk(data: seq<Byte>, pos: nat, sawMdat: bool, n: nat): MoovOrder
    decreases n
  {
    if n == 0 then NoMoov
    else
      match BoxAt(data, pos)
      case None => NoMoov
      case Some((kind, len)) =>
        if kind == MOOV then (if sawMdat then MoovLast else MoovFirst)
        else Walk(data, pos + len, sawMdat || kind == MDAT, n - 1)
  }

  lemma WalkSteps(data: seq<Byte>, pos: nat, sawMdat: bool, n: nat, r: Option<(nat, nat)>)
    requires n > 0 && BoxAt(data, pos) == r
    ensures Walk(data, pos, sawMdat, n)
         == if r.None? then NoMoov
            else if r.value.0 == MOOV then (if sawMdat then MoovLast else MoovFirst)
            else Walk(data, pos + r.value.1, sawMdat || r.value.0 == MDAT, n - 1)
  {
  }

  /** One box header. */
  method ReadHeader(data: seq<Byte>, pos: nat) returns (r: Option<(nat, nat)>)
    requires pos + 8 <= |data|
    ensures r == BoxAt(data, pos)
  {
    var h := if pos + 16 <= |data| then data[pos..pos + 16] else data[pos..];
    var len := U32(h, 0);
    if len == 1 {
      if |h| < 16 { return None; }
      var big := U64(h, 8);
      if big > MAX_SAFE_INTEGER { return None; }
      len := big;
      if len < 16 { return None; }
    } else if len == 0 {
      len := |data| - pos;
    } else if len < 8 {
      return None;
    }
    if pos + len > |data| { return None; }
    return Some((U32(h, 4), len));
  }

  /** Ends because the position grows, whatever the bytes are. */
  method Mp4MoovOrder(data: seq<Byte>) returns (order: MoovOrder)
    ensures order == Walk(data, 0, false, MAX_BOXES)
  {
    var pos, sawMdat, boxes := 0, false, 0;
    ghost var answer := Walk(data, 0, false, MAX_BOXES);
    while pos + 8 <= |data| && boxes < MAX_BOXES
      invariant pos <= |data| && boxes <= MAX_BOXES
      invariant Walk(data, pos, sawMdat, MAX_BOXES - boxes) == answer
      decreases |data| - pos
    {
      var r := ReadHeader(data, pos);
      WalkSteps(data, pos, sawMdat, MAX_BOXES - boxes, r);
      if r.None? { return NoMoov; }
      if r.value.0 == MOOV { return if sawMdat then MoovLast else MoovFirst; }
      sawMdat := sawMdat || r.value.0 == MDAT;
      pos, boxes := pos + r.value.1, boxes + 1;
    }
    if boxes < MAX_BOXES { WalkSteps(data, pos, sawMdat, MAX_BOXES - boxes, None); }
    return NoMoov;
  }

  // ---------- boxes ----------

  datatype Form = Short | Long | ToEnd

  datatype Box = Box(kind: nat, form: Form, payload: seq<Byte>)

  function HeaderLength(b: Box): nat {
    if b.form.Long? then 16 else 8
  }

  function Length(b: Box): nat {
    HeaderLength(b) + |b.payload|
  }

  /** The box's bytes stand at `pos`: a 32-bit size, 1 and a 64-bit size after the type, or 0 for a box
    * that goes on to the end of the file; the type; the payload. */
  predicate BoxStands(data: seq<Byte>, pos: nat, b: Box) {
    && pos + Length(b) <= |data|
    && U32(data, pos + 4) == b.kind
    && data[pos + HeaderLength(b)..pos + Length(b)] == b.payload
    && match b.form
      case Short => U32(data, pos) == Length(b)
      case Long => U32(data, pos) == 1 && U64(data, pos + 8) == Length(b) <= MAX_SAFE_INTEGER
      case ToEnd => U32(data, pos) == 0 && pos + Length(b) == |data|
  }

  /** The boxes stand at `pos`, one after the other. */
  predicate BoxesStand(data: seq<Byte>, pos: nat, boxes: seq<Box>)
    decreases |boxes|
  {
    pos <= |data| &&
    (boxes != [] ==> BoxStands(data, pos, boxes[0]) && BoxesStand(data, pos + Length(boxes[0]), boxes[1..]))
  }

  function TotalLength(boxes: seq<Box>): nat {
    if boxes == [] then 0 else Length(boxes[0]) + TotalLength(boxes[1..])
  }

  /** The file is exactly these boxes. */
  predicate IsFileOf(data: seq<Byte>, boxes: seq<Box>) {
    BoxesStand(data, 0, boxes) && TotalLength(boxes) == |data|
  }

  /** What a list answers: the order of its first `moov` and the `mdat` boxes before it. */
  function Order(boxes: seq<Box>, sawMdat: bool): MoovOrder {
    if boxes == [] then NoMoov
    else if boxes[0].kind == MOOV then (if sawMdat then MoovLast else MoovFirst)
    else Order(boxes[1..], sawMdat || boxes[0].kind == MDAT)
  }

  function FirstBoxes(boxes: seq<Box>, n: nat): seq<Box> {
    if |boxes| <= n then boxes else boxes[..n]
  }

  // ---------- the walk and the boxes agree ----------

  lemma StandingBoxIsFound(data: seq<Byte>, pos: nat, b: Box)
    requires BoxStands(data, pos, b)
    ensures BoxAt(data, pos) == Some((b.kind, Length(b)))
  {
  }

  lemma FoundBoxStands(data: seq<Byte>, pos: nat) returns (b: Box)
    requires BoxAt(data, pos).Some?
    ensures BoxStands(data, pos, b) && BoxAt(data, pos) == Some((b.kind, Length(b)))
  {
    var len, kind := BoxAt(data, pos).value.1, U32(data, pos + 4);
    var form := if U32(data, pos) == 1 then Long else if U32(data, pos) == 0 then ToEnd else Short;
    b := Box(kind, form, data[pos + (if form.Long? then 16 else 8)..pos + len]);
  }

  /** `Order`, looking at `n` boxes only. */
  function OrderWithin(boxes: seq<Box>, sawMdat: bool, n: nat): MoovOrder
    decreases n
  {
    if n == 0 || boxes == [] then NoMoov
    else if boxes[0].kind == MOOV then (if sawMdat then MoovLast else MoovFirst)
    else OrderWithin(boxes[1..], sawMdat || boxes[0].kind == MDAT, n - 1)
  }

  lemma {:induction false} OrderWithinIsOrder(boxes: seq<Box>, sawMdat: bool, n: nat)
    ensures OrderWithin(boxes, sawMdat, n) == Order(FirstBoxes(boxes, n), sawMdat)
    decreases n
  {
    if n > 0 && boxes != [] {
      assert FirstBoxes(boxes, n)[0] == boxes[0];
      assert FirstBoxes(boxes, n)[1..] == FirstBoxes(boxes[1..], n - 1);
      OrderWithinIsOrder(boxes[1..], sawMdat || boxes[0].kind == MDAT, n - 1);
    }
  }

  lemma {:induction false} WalkIsOrder(data: seq<Byte>, pos: nat, boxes: seq<Box>, sawMdat: bool, n: nat)
    requires BoxesStand(data, pos, boxes) && pos + TotalLength(boxes) == |data|
    ensures Walk(data, pos, sawMdat, n) == OrderWithin(boxes, sawMdat, n)
    decreases n
  {
    if n > 0 {
      if boxes == [] {
        WalkSteps(data, pos, sawMdat, n, None);
      } else {
        StandingBoxIsFound(data, pos, boxes[0]);
        WalkSteps(data, pos, sawMdat, n, Some((boxes[0].kind, Length(boxes[0]))));
        WalkIsOrder(data, pos + Length(boxes[0]), boxes[1..], sawMdat || boxes[0].kind == MDAT, n - 1);
      }
    }
  }

  /** On a file that is a list of boxes the answer is the one of the list's first 10,000; so for a list
    * no longer than that, the list's own. */
  lemma MoovOrderIsOrder(data: seq<Byte>, boxes: seq<Box>)
    requires IsFileOf(data, boxes)
    ensures Walk(data, 0, false, MAX_BOXES) == Order(FirstBoxes(boxes, MAX_BOXES), false)
    ensures |boxes| <= MAX_BOXES ==> Walk(data, 0, false, MAX_BOXES) == Order(boxes, false)
  {
    WalkIsOrder(data, 0, boxes, false, MAX_BOXES);
    OrderWithinIsOrder(boxes, false, MAX_BOXES);
  }

  lemma {:induction false} AnswerFrom(data: seq<Byte>, pos: nat, sawMdat: bool, n: nat) returns (boxes: seq<Box>)
    requires pos <= |data|
    ensures BoxesStand(data, pos, boxes) && |boxes| <= n && Order(boxes, sawMdat) == Walk(data, pos, sawMdat, n)
    decreases n
  {
    boxes := [];
    if n > 0 {
      WalkSteps(data, pos, sawMdat, n, BoxAt(data, pos));
      if BoxAt(data, pos).Some? {
        var b := FoundBoxStands(data, pos);
        var more := AnswerFrom(data, pos + Length(b), sawMdat || b.kind == MDAT, n - 1);
        boxes := [b] + more;
        assert boxes[1..] == more;
      }
    }
  }

  /** On any bytes at all the answer is that of some boxes that stand at the front of the file, one after
    * the other: it is never made up. */
  lemma AnswerHasBoxes(data: seq<Byte>) returns (boxes: seq<Box>)
    ensures BoxesStand(data, 0, boxes) && |boxes| <= MAX_BOXES
    ensures Walk(data, 0, false, MAX_BOXES) == Order(boxes, false)
  {
    boxes := AnswerFrom(data, 0, false, MAX_BOXES);
  }

  // ---------- every list has its bytes ----------

  /** A 32-bit number as its four bytes. */
  function Bytes32(n: nat): (bytes: seq<Byte>)
    requires n < 0x1_0000_0000
    ensures |bytes| == 4
  {
    [n / 0x100_0000, n / 0x1_0000 % 256, n / 256 % 256, n % 256]
  }

  lemma Bytes32Read(n: nat)
    requires n < 0x1_0000_0000
    ensures U32(Bytes32(n), 0) == n
  {
    assert n == n / 256 * 256 + n % 256;
    assert n / 256 == n / 0x1_0000 * 256 + n / 256 % 256;
    assert n / 0x1_0000 == n / 0x100_0000 * 256 + n / 0x1_0000 % 256;
  }

  /** Reading does not depend on what stands before and after. */
  lemma U32Within(before: seq<Byte>, h: seq<Byte>, after: seq<Byte>, at: nat)
    requires at + 4 <= |h|
    ensures U32(before + h + after, |before| + at) == U32(h, at)
  {
    var all := before + h + after;
    assert all[|before| + at] == h[at] && all[|before| + at + 1] == h[at + 1];
    assert all[|before| + at + 2] == h[at + 2] && all[|before| + at + 3] == h[at + 3];
  }

  /** A box that the format can state: only the last of a file goes on to its end. */
  predicate Statable(boxes: seq<Box>) {
    forall i :: 0 <= i < |boxes| ==>
      && boxes[i].kind < 0x1_0000_0000
      && (boxes[i].form.Short? ==> Length(boxes[i]) < 0x1_0000_0000)
      && (boxes[i].form.Long? ==> Length(boxes[i]) <= MAX_SAFE_INTEGER)
      && (boxes[i].form.ToEnd? ==> i == |boxes| - 1)
  }

  /** The header's 32-bit words: size or mark, type, and the two halves of a 64-bit size. */
  function Header(b: Box): (bytes: seq<Byte>)
    requires Statable([b])
    ensures |bytes| == HeaderLength(b)
  {
    assert [b][0] == b;
    match b.form
    case Short => Bytes32(Length(b)) + Bytes32(b.kind)
    case ToEnd => Bytes32(0) + Bytes32(b.kind)
    case Long =>
      Bytes32(1) + Bytes32(b.kind) + (Bytes32(Length(b) / 0x1_0000_0000) + Bytes32(Length(b) % 0x1_0000_0000))
  }

  lemma HeaderRead(b: Box, after: seq<Byte>)
    requires Statable([b])
    ensures var data := Header(b) + after;
      && U32(data, 4) == b.kind
      && U32(data, 0) == (match b.form case Short => Length(b) case ToEnd => 0 case Long => 1)
      && (b.form.Long? ==> U64(data, 8) == Length(b))
  {
    assert [b][0] == b;
    var data := Header(b) + after;
    Bytes32Read(b.kind);
    if b.form.Long? {
      LongHeaderRead(b, after);
    } else {
      var size := if b.form.Short? then Length(b) else 0;
      Bytes32Read(size);
      assert data == [] + Bytes32(size) + (Bytes32(b.kind) + after);
      U32Within([], Bytes32(size), Bytes32(b.kind) + after, 0);
      assert data == Bytes32(size) + Bytes32(b.kind) + after;
      U32Within(Bytes32(size), Bytes32(b.kind), after, 0);
    }
  }

  lemma LongHeaderRead(b: Box, after: seq<Byte>)
    requires Statable([b]) && b.form.Long?
    ensures var data := Header(b) + after;
      U32(data, 0) == 1 && U32(data, 4) == b.kind && U64(data, 8) == Length(b)
  {
    assert [b][0] == b;
    var hi, lo := Length(b) / 0x1_0000_0000, Length(b) % 0x1_0000_0000;
    var one, kind := Bytes32(1), Bytes32(b.kind);
    var data := Header(b) + after;
    Bytes32Read(1);
    Bytes32Read(b.kind);
    Bytes32Read(hi);
    Bytes32Read(lo);
    assert data == [] + one + (kind + Bytes32(hi) + Bytes32(lo) + after);
    U32Within([], one, kind + Bytes32(hi) + Bytes32(lo) + after, 0);
    assert data == one + kind + (Bytes32(hi) + Bytes32(lo) + after);
    U32Within(one, kind, Bytes32(hi) + Bytes32(lo) + after, 0);
    assert data == (one + kind) + Bytes32(hi) + (Bytes32(lo) + after);
    U32Within(one + kind, Bytes32(hi), Bytes32(lo) + after, 0);
    assert data == (one + kind + Bytes32(hi)) + Bytes32(lo) + after;
    U32Within(one + kind + Bytes32(hi), Bytes32(lo), after, 0);
  }

  lemma StatableParts(boxes: seq<Box>)
    requires boxes != [] && Statable(boxes)
    ensures Statable([boxes[0]]) && Statable(boxes[1..]) && (boxes[0].form.ToEnd? ==> boxes[1..] == [])
  {
    assert boxes[0].form.ToEnd? ==> |boxes| == 1;
  }

  function FileBytes(boxes: seq<Box>): seq<Byte>
    requires Statable(boxes)
  {
    if boxes == [] then []
    else
      StatableParts(boxes);
      Header(boxes[0]) + (boxes[0].payload + FileBytes(boxes[1..]))
  }

  lemma BoxShifts(before: seq<Byte>, data: seq<Byte>, pos: nat, b: Box)
    requires BoxStands(data, pos, b)
    ensures BoxStands(before + data, |before| + pos, b)
  {
    var all := before + data;
    assert all == before + data + [];
    U32Within(before, data, [], pos);
    U32Within(before, data, [], pos + 4);
    if b.form.Long? {
      U32Within(before, data, [], pos + 8);
      U32Within(before, data, [], pos + 12);
    }
    assert all[|before| + pos + HeaderLength(b)..|before| + pos + Length(b)]
        == data[pos + HeaderLength(b)..pos + Length(b)];
  }

  lemma {:induction false} BoxesShift(before: seq<Byte>, data: seq<Byte>, pos: nat, boxes: seq<Box>)
    requires BoxesStand(data, pos, boxes)
    ensures BoxesStand(before + data, |before| + pos, boxes)
    decreases |boxes|
  {
    if boxes != [] {
      BoxShifts(before, data, pos, boxes[0]);
      BoxesShift(before, data, pos + Length(boxes[0]), boxes[1..]);
    }
  }

  lemma FirstStands(b: Box, rest: seq<Byte>)
    requires Statable([b]) && (b.form.ToEnd? ==> rest == [])
    ensures BoxStands(Header(b) + (b.payload + rest), 0, b)
  {
    assert [b][0] == b;
    var data := Header(b) + (b.payload + rest);
    HeaderRead(b, b.payload + rest);
    assert data[HeaderLength(b)..Length(b)] == b.payload;
  }

  /** Every list the format can state is some file: its own bytes. */
  lemma {:induction false} FileBytesAreFile(boxes: seq<Box>)
    requires Statable(boxes)
    ensures IsFileOf(FileBytes(boxes), boxes)
  {
    if boxes != [] {
      var b, rest := boxes[0], boxes[1..];
      StatableParts(boxes);
      FileBytesAreFile(rest);
      var front := Header(b) + b.payload;
      assert FileBytes(boxes) == front + FileBytes(rest);
      FirstStands(b, FileBytes(rest));
      BoxesShift(front, FileBytes(rest), 0, rest);
    }
  }
}
