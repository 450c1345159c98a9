/**
 * Disk space while WAVs are converted concurrently (server/scripts/convertWavToFlac.ts): each admitted
 * conversion reserves its WAV's size in the shared context until its FLAC is placed or discarded.
 *
 * A state machine over the conversions in flight, whose steps end where the code awaits; the shared
 * counter is also a class, whose methods make the steps.
 */
module SpaceReservation {

  /** The context all conversions share. */
  class ConvertCtx {
    var reserved: nat
    const minFreeBytes: nat

    constructor (minFreeBytes: nat)
      ensures reserved == 0 && this.minFreeBytes == minFreeBytes
    {
      reserved := 0;
      this.minFreeBytes := minFreeBytes;
    }

    /** The check and the reservation, with no await in between. */
    method Admit(free: nat, size: nat) returns (ok: bool)
      modifies this
      ensures ok <==> Admits(free, old(reserved), size, minFreeBytes)
      ensures reserved == if ok then old(reserved) + size else old(reserved)
    {
      if free - reserved - size < minFreeBytes {
        return false;
      }
      reserved := reserved + size;
      return true;
    }

    /** The `finally` of a conversion. */
    method Release(size: nat)
      requires size <= reserved
      modifies this
      ensures reserved == old(reserved) - size
    {
      reserved := reserved - size;
    }
  }

  predicate Admits(free: nat, reserved: nat, size: nat, min: nat) {
    free >= min + reserved + size
  }

  /** A conversion in flight: its WAV's size, and how much of its FLAC is written. */
  datatype Conversion = Conversion(size: nat, written: nat)

  /** `placed` is how much the placed FLACs exceed their WAVs, `admitted` whether any was ever let in. */
  datatype State = State(free: nat, reserved: int, running: seq<Conversion>, admitted: bool, placed: nat)

  datatype Event = Ask(size: nat) | Write(i: nat, n: nat) | Place(i: nat) | Discard(i: nat)

  predicate Enabled(s: State, e: Event) {
    match e
    case Ask(_) => true
    case Write(i, n) => i < |s.running| && n <= s.free
    case Place(i) => i < |s.running|
    case Discard(i) => i < |s.running|
  }

  function Excess(c: Conversion): nat {
    if c.written > c.size then c.written - c.size else 0
  }

  /** What a conversion may still write within its reservation. */
  function Ahead(c: Conversion): nat {
    if c.written > c.size then 0 else c.size - c.written
  }

  function Do(s: State, e: Event, min: nat): State
    requires Enabled(s, e)
  {
    match e
    case Ask(size) =>
      if s.reserved < 0 || !Admits(s.free, s.reserved, size, min) then s
      else s.(reserved := s.reserved + size, running := s.running + [Conversion(size, 0)], admitted := true)
    case Write(i, n) =>
      s.(free := s.free - n, running := s.running[i := s.running[i].(written := s.running[i].written + n)])
    case Place(i) =>
      s.(reserved := s.reserved - s.running[i].size, running := Without(s.running, i),
         placed := s.placed + Excess(s.running[i]))
    case Discard(i) =>
      s.(reserved := s.reserved - s.running[i].size, running := Without(s.running, i),
         free := s.free + s.running[i].written)
  }

  function Without(running: seq<Conversion>, i: nat): seq<Conversion>
    requires i < |running|
  {
    running[..i] + running[i + 1..]
  }

  predicate Legal(s: State, run: seq<Event>, min: nat)
    decreases |run|
  {
    run == [] || (Enabled(s, run[0]) && Legal(Do(s, run[0], min), run[1..], min))
  }

  function Final(s: State, run: seq<Event>, min: nat): State
    requires Legal(s, run, min)
    decreases |run|
  {
    if run == [] then s else Final(Do(s, run[0], min), run[1..], min)
  }

  function Start(free: nat): State {
    State(free, 0, [], false, 0)
  }

  // ---------- sums over the conversions in flight ----------

  /** The sizes, the bytes still ahead, and the excess already written. */
  datatype Sums = Sums(sizes: nat, ahead: nat, excess: nat)

  function Plus(a: Sums, b: Sums): Sums {
    Sums(a.sizes + b.sizes, a.ahead + b.ahead, a.excess + b.excess)
  }

  function One(c: Conversion): Sums {
    Sums(c.size, Ahead(c), Excess(c))
  }

  function Total(running: seq<Conversion>): Sums {
    if running == [] then Sums(0, 0, 0) else Plus(One(running[0]), Total(running[1..]))
  }

  lemma {:induction false} TotalJoins(a: seq<Conversion>, b: seq<Conversion>)
    ensures Total(a + b) == Plus(Total(a), Total(b))
  {
    if a == [] {
      assert a + b == b;
      assert Plus(Total(a), Total(b)) == Total(b);
    } else {
      assert a + b == [a[0]] + (a[1..] + b);
      TotalJoins(a[1..], b);
      TotalSplits(a + b, a[0], a[1..] + b);
      PlusAssoc(One(a[0]), Total(a[1..]), Total(b));
    }
  }

  lemma TotalSplits(running: seq<Conversion>, first: Conversion, rest: seq<Conversion>)
    requires running == [first] + rest
    ensures Total(running) == Plus(One(first), Total(rest))
  {
    assert running[1..] == rest;
  }

  lemma PlusAssoc(a: Sums, b: Sums, c: Sums)
    ensures Plus(Plus(a, b), c) == Plus(a, Plus(b, c))
  {
  }

  lemma TotalAt(running: seq<Conversion>, i: nat)
    requires i < |running|
    ensures Total(running) == Plus(One(running[i]), Total(Without(running, i)))
  {
    TotalJoins(running[..i], running[i..]);
    TotalJoins(running[..i], running[i + 1..]);
    assert running == running[..i] + running[i..];
    assert running[i..][1..] == running[i + 1..];
  }

  lemma TotalUpdates(running: seq<Conversion>, i: nat, c: Conversion)
    requires i < |running|
    ensures Total(running[i := c]) == Plus(One(c), Total(Without(running, i)))
  {
    TotalAt(running[i := c], i);
    assert Without(running[i := c], i) == Without(running, i);
  }

  // ---------- the invariant ----------

  /** The counter is the sum of the sizes in flight; and once anyone was let in, what is free covers the
    * minimum and all that is still ahead, short only by what was written over the WAVs' sizes. */
  predicate Inv(s: State, min: nat) {
    && s.reserved == Total(s.running).sizes
    && (s.admitted ==> s.free + Total(s.running).excess + s.placed >= min + Total(s.running).ahead)
    && (!s.admitted ==> s.running == [])
  }

  lemma AskKeeps(s: State, size: nat, min: nat)
    requires Inv(s, min)
    ensures Inv(Do(s, Ask(size), min), min)
  {
    TotalJoins(s.running, [Conversion(size, 0)]);
    AheadWithin(s.running);
  }

  /** No conversion has more ahead than its size. */
  lemma {:induction false} AheadWithin(running: seq<Conversion>)
    ensures Total(running).ahead <= Total(running).sizes
  {
    if running != [] { AheadWithin(running[1..]); }
  }

  lemma WriteKeeps(s: State, i: nat, n: nat, min: nat)
    requires Inv(s, min) && Enabled(s, Write(i, n))
    ensures Inv(Do(s, Write(i, n), min), min)
  {
    TotalAt(s.running, i);
    TotalUpdates(s.running, i, s.running[i].(written := s.running[i].written + n));
  }

  lemma LeaveKeeps(s: State, e: Event, min: nat)
    requires Inv(s, min) && Enabled(s, e) && (e.Place? || e.Discard?)
    ensures Inv(Do(s, e, min), min)
  {
    TotalAt(s.running, e.i);
  }

  lemma {:induction false} RunKeeps(s: State, run: seq<Event>, min: nat)
    requires Inv(s, min) && Legal(s, run, min)
    ensures Inv(Final(s, run, min), min)
    decreases |run|
  {
    if run != [] {
      match run[0] {
        case Ask(size) => AskKeeps(s, size, min);
        case Write(i, n) => WriteKeeps(s, i, n, min);
        case Place(_) => LeaveKeeps(s, run[0], min);
        case Discard(_) => LeaveKeeps(s, run[0], min);
      }
      RunKeeps(Do(s, run[0], min), run[1..], min);
    }
  }

  // ---------- the main results ----------

  /** In every interleaving the counter is the sum of the sizes in flight. */
  lemma ReservedIsSum(free: nat, run: seq<Event>, min: nat)
    requires Legal(Start(free), run, min)
    ensures Final(Start(free), run, min).reserved == Total(Final(Start(free), run, min).running).sizes
  {
    RunKeeps(Start(free), run, min);
  }

  /** Once any conversion was admitted, free space is below the minimum by no more than the FLACs
    * exceed their WAVs; so not at all while none does. */
  lemma FreeStaysAbove(free: nat, run: seq<Event>, min: nat)
    requires Legal(Start(free), run, min) && Final(Start(free), run, min).admitted
    ensures var s := Final(Start(free), run, min);
      && s.free + Total(s.running).excess + s.placed >= min + Total(s.running).ahead
      && (Total(s.running).excess == 0 && s.placed == 0 ==> s.free >= min)
  {
    RunKeeps(Start(free), run, min);
  }

  /** No write within a reservation can find the disk full. */
  lemma RoomToWrite(free: nat, run: seq<Event>, min: nat, i: nat, n: nat)
    requires Legal(Start(free), run, min)
    requires var s := Final(Start(free), run, min);
      i < |s.running| && n <= Ahead(s.running[i]) && Total(s.running).excess == 0 && s.placed == 0
    ensures Enabled(Final(Start(free), run, min), Write(i, n))
    ensures Do(Final(Start(free), run, min), Write(i, n), min).free >= min
  {
    RunKeeps(Start(free), run, min);
    TotalAt(Final(Start(free), run, min).running, i);
  }

  /** Admitted with no room to spare, a conversion takes free space below the minimum exactly when its
    * FLAC is larger than its WAV, and then by the excess. */
  lemma LargeFlacDips(min: nat, size: nat, written: nat)
    requires written <= min + size
    ensures var run, c := [Ask(size), Write(0, written)], Conversion(size, written);
      && Legal(Start(min + size), run, min) && Final(Start(min + size), run, min).running == [c]
      && Final(Start(min + size), run, min).free == min + Ahead(c) - Excess(c)
      && (Final(Start(min + size), run, min).free < min <==> Excess(c) > 0)
  {
    var run := [Ask(size), Write(0, written)];
    var s1 := Do(Start(min + size), run[0], min);
    assert s1.running == [Conversion(size, 0)];
    var s2 := Do(s1, run[1], min);
    assert run[1..] == [run[1]] && run[1..][1..] == [];
    assert Legal(s2, [], min) && Final(s2, [], min) == s2;
    assert Legal(s1, run[1..], min) && Final(s1, run[1..], min) == s2;
  }
}
