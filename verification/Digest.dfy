/** A table's digest: the hash of its sorted row hashes, whatever order the rows came in. */
module Digest {
  import opened CanonicalRow
  import opened LegacyValues
  import opened Sorting

  type Hash = string -> string

  const HASH_WIDTH: nat := 32

  /** Every hash is 32 characters, as the hex of MD5 is. */
  ghost predicate FixedWidth(hash: Hash) {
    forall s :: |hash(s)| == HASH_WIDTH
  }

  ghost predicate Collision(hash: Hash, x: string, y: string) {
    x != y && hash(x) == hash(y)
  }

  /** The order of strings by their characters. */
  predicate StringLe(a: string, b: string) {
    a == "" || (b != "" && (a[0] < b[0] || (a[0] == b[0] && StringLe(a[1..], b[1..]))))
  }

  lemma {:induction false} StringLeTotal(a: string, b: string)
    ensures StringLe(a, b) || StringLe(b, a)
    ensures StringLe(a, b) && StringLe(b, a) ==> a == b
  {
    if a != "" && b != "" {
      StringLeTotal(a[1..], b[1..]);
      assert a == [a[0]] + a[1..] && b == [b[0]] + b[1..];
    }
  }

  lemma {:induction false} StringLeTransitive(a: string, b: string, c: string)
    requires StringLe(a, b) && StringLe(b, c)
    ensures StringLe(a, c)
  {
    if a != "" && a[0] == b[0] == c[0] {
      StringLeTransitive(a[1..], b[1..], c[1..]);
    }
  }

  lemma StringLeOrders()
    ensures Orders(StringLe) && Antisymmetric(StringLe)
  {
    forall a: string, b: string
      ensures (StringLe(a, b) || StringLe(b, a)) && (StringLe(a, b) && StringLe(b, a) ==> a == b)
    {
      StringLeTotal(a, b);
    }
    forall a, b, c | StringLe(a, b) && StringLe(b, c)
      ensures StringLe(a, c)
    {
      StringLeTransitive(a, b, c);
    }
  }

  function Flat(parts: seq<string>): string {
    if parts == [] then "" else parts[0] + Flat(parts[1..])
  }

  function RowTexts(rows: seq<seq<Value>>): seq<string> { Map(CanonicalRow.CanonicalRow, rows) }

  function RowHashes(hash: Hash, rows: seq<seq<Value>>): seq<string> { Map(hash, RowTexts(rows)) }

  function SortedHashes(hash: Hash, rows: seq<seq<Value>>): string {
    Flat(Sort(RowHashes(hash, rows), StringLe))
  }

  function DigestOf(hash: Hash, rows: seq<seq<Value>>): string { hash(SortedHashes(hash, rows)) }

  /** The class that gathers a table's expectation. */
  class TableDigest {
    const hash: Hash
    var count: nat
    var hashes: seq<string>
    ghost var rows: seq<seq<Value>>

    ghost predicate Valid()
      reads this
    {
      count == |rows| && hashes == RowHashes(hash, rows)
    }

    constructor (hash: Hash)
      ensures Valid() && this.hash == hash && rows == []
    {
      this.hash, count, hashes, rows := hash, 0, [], [];
    }

    method Add(values: seq<Value>)
      requires Valid()
      modifies this
      ensures Valid() && rows == old(rows) + [values]
    {
      count := count + 1;
      hashes := hashes + [hash(CanonicalRow.CanonicalRow(values))];
      MapSum(CanonicalRow.CanonicalRow, rows, [values]);
      MapSum(hash, RowTexts(rows), [CanonicalRow.CanonicalRow(values)]);
      rows := rows + [values];
    }

    method Digest() returns (d: string)
      requires Valid()
      ensures d == DigestOf(hash, rows)
    {
      d := hash(Flat(Sort(hashes, StringLe)));
    }
  }

  predicate AllWide(parts: seq<string>, w: nat) { forall i :: 0 <= i < |parts| ==> |parts[i]| == w }

  lemma FlatEmpty(parts: seq<string>, w: nat)
    requires w > 0 && AllWide(parts, w)
    ensures Flat(parts) == "" <==> parts == []
  {
    assert parts != [] ==> |Flat(parts)| >= |parts[0]|;
  }

  /** Parts of one width can be told apart in their concatenation. */
  lemma {:induction false} FlatSplits(a: seq<string>, b: seq<string>, w: nat)
    requires w > 0 && AllWide(a, w) && AllWide(b, w) && Flat(a) == Flat(b)
    ensures a == b
  {
    FlatEmpty(a, w);
    FlatEmpty(b, w);
    if a != [] && b != [] {
      assert Flat(a)[..w] == a[0] && Flat(b)[..w] == b[0];
      assert Flat(a)[w..] == Flat(a[1..]) && Flat(b)[w..] == Flat(b[1..]);
      FlatSplits(a[1..], b[1..], w);
      assert a == [a[0]] + a[1..] && b == [b[0]] + b[1..];
    }
  }

  /** `a` is not behind `b`: it is a beginning of `b`, or smaller at the first character that differs. */
  ghost predicate NotBehind(a: string, b: string) {
    exists k: nat :: k <= |a| && k <= |b| && a[..k] == b[..k] && (k == |a| || (k < |b| && a[k] < b[k]))
  }

  lemma SameStart(a: string, b: string, k: nat)
    requires 0 < k <= |a| && k <= |b| && a[..k] == b[..k]
    ensures a[0] == b[0]
  {
    assert a[..k][0] == b[..k][0];
  }

  lemma {:induction false} StringLeExactly(a: string, b: string)
    ensures StringLe(a, b) <==> NotBehind(a, b)
  {
    if a == "" {
      assert a[..0] == b[..0];
    } else if b != "" && a[0] == b[0] {
      StringLeExactly(a[1..], b[1..]);
      if NotBehind(a[1..], b[1..]) {
        var k: nat :| k <= |a[1..]| && k <= |b[1..]| && a[1..][..k] == b[1..][..k]
                      && (k == |a[1..]| || (k < |b[1..]| && a[1..][k] < b[1..][k]));
        assert a[..k + 1] == [a[0]] + a[1..][..k] && b[..k + 1] == [b[0]] + b[1..][..k];
      }
      if NotBehind(a, b) {
        var k: nat :| k <= |a| && k <= |b| && a[..k] == b[..k] && (k == |a| || (k < |b| && a[k] < b[k]));
        assert a[1..][..k - 1] == a[..k][1..] && b[1..][..k - 1] == b[..k][1..];
      }
    } else if b != "" {
      assert a[..0] == b[..0];
      forall k: nat | 0 < k <= |a| && k <= |b| ensures a[..k] != b[..k] {
        if a[..k] == b[..k] {
          SameStart(a, b, k);
        }
      }
    }
  }

  /** The digest is the hash of the rows' hashes, smallest first and written one behind the other. */
  lemma DigestIs(hash: Hash, rows: seq<seq<Value>>, hashes: seq<string>)
    requires multiset(hashes)
          == multiset(seq(|rows|, i requires 0 <= i < |rows| => hash(CanonicalRow.CanonicalRow(rows[i]))))
    requires forall i, j :: 0 <= i < j < |hashes| ==> NotBehind(hashes[i], hashes[j])
    ensures DigestOf(hash, rows) == hash(Flat(hashes))
  {
    assert RowHashes(hash, rows)
        == seq(|rows|, i requires 0 <= i < |rows| => hash(CanonicalRow.CanonicalRow(rows[i])));
    var sorted := Sort(RowHashes(hash, rows), StringLe);
    StringLeOrders();
    SortSorts(RowHashes(hash, rows), StringLe);
    SortPermutes(RowHashes(hash, rows), StringLe);
    forall i, j | 0 <= i < j < |hashes| ensures StringLe(hashes[i], hashes[j]) {
      StringLeExactly(hashes[i], hashes[j]);
    }
    SortedIsUnique(hashes, sorted, StringLe);
  }

  lemma {:induction false} FlatIs(parts: seq<string>, more: seq<string>)
    ensures Flat([]) == "" && (forall part :: Flat([part]) == part) && Flat(parts + more) == Flat(parts) + Flat(more)
  {
    forall part ensures Flat([part]) == part {
      assert [part][1..] == [];
    }
    if parts == [] {
      assert parts + more == more;
    } else {
      FlatIs(parts[1..], more);
      assert (parts + more)[1..] == parts[1..] + more;
    }
  }

  /** Any order of adding the same rows gives the same digest. */
  lemma SameRowsSameDigest(hash: Hash, a: seq<seq<Value>>, b: seq<seq<Value>>)
    requires multiset(a) == multiset(b)
    ensures DigestOf(hash, a) == DigestOf(hash, b)
  {
    MapKeepsMultiset(CanonicalRow.CanonicalRow, a, b);
    MapKeepsMultiset(hash, RowTexts(a), RowTexts(b));
    SameHashesSameSorted(RowHashes(hash, a), RowHashes(hash, b));
  }

  lemma SameHashesSameSorted(a: seq<string>, b: seq<string>)
    requires multiset(a) == multiset(b)
    ensures Sort(a, StringLe) == Sort(b, StringLe)
  {
    StringLeOrders();
    SortSorts(a, StringLe);
    SortSorts(b, StringLe);
    SortPermutes(a, StringLe);
    SortPermutes(b, StringLe);
    SortedIsUnique(Sort(a, StringLe), Sort(b, StringLe), StringLe);
  }

  /** The texts that the comparison of two tables hashes. */
  ghost predicate Hashed(hash: Hash, a: seq<seq<Value>>, b: seq<seq<Value>>, x: string) {
    x in RowTexts(a) + RowTexts(b) || x == SortedHashes(hash, a) || x == SortedHashes(hash, b)
  }

  ghost predicate CollisionAmong(hash: Hash, a: seq<seq<Value>>, b: seq<seq<Value>>) {
    exists x, y :: Hashed(hash, a, b, x) && Hashed(hash, a, b, y) && Collision(hash, x, y)
  }

  lemma SameFlatSameHashes(hash: Hash, a: seq<seq<Value>>, b: seq<seq<Value>>)
    requires FixedWidth(hash) && SortedHashes(hash, a) == SortedHashes(hash, b)
    ensures multiset(RowHashes(hash, a)) == multiset(RowHashes(hash, b))
  {
    SortPermutes(RowHashes(hash, a), StringLe);
    SortPermutes(RowHashes(hash, b), StringLe);
    SortedWidths(hash, a);
    SortedWidths(hash, b);
    FlatSplits(Sort(RowHashes(hash, a), StringLe), Sort(RowHashes(hash, b), StringLe), HASH_WIDTH);
  }

  lemma SortedWidths(hash: Hash, a: seq<seq<Value>>)
    requires FixedWidth(hash)
    ensures AllWide(Sort(RowHashes(hash, a), StringLe), HASH_WIDTH)
  {
    var s := Sort(RowHashes(hash, a), StringLe);
    SortPermutes(RowHashes(hash, a), StringLe);
    forall i | 0 <= i < |s|
      ensures |s[i]| == HASH_WIDTH
    {
      InMultiset(s[i], s);
      InMultiset(s[i], RowHashes(hash, a));
      var j :| 0 <= j < |RowHashes(hash, a)| && RowHashes(hash, a)[j] == s[i];
      assert s[i] == hash(RowTexts(a)[j]);
    }
  }

  lemma CanonicalRowOneToOne(a: seq<seq<Value>>, b: seq<seq<Value>>)
    ensures OneToOne(CanonicalRow.CanonicalRow, a, b)
  {
    forall x, y | x in a + b && y in a + b && CanonicalRow.CanonicalRow(x) == CanonicalRow.CanonicalRow(y)
      ensures x == y
    {
      CanonicalRowInjective(x, y);
    }
  }

  /** Two digests are equal exactly when the tables hold the same rows, each as often, or else the
    * comparison has met two texts with one hash. */
  lemma DigestDecides(hash: Hash, a: seq<seq<Value>>, b: seq<seq<Value>>)
    requires FixedWidth(hash) && !CollisionAmong(hash, a, b)
    ensures DigestOf(hash, a) == DigestOf(hash, b) <==> multiset(a) == multiset(b)
  {
    if multiset(a) == multiset(b) {
      SameRowsSameDigest(hash, a, b);
    } else if DigestOf(hash, a) == DigestOf(hash, b) {
      assert Hashed(hash, a, b, SortedHashes(hash, a)) && Hashed(hash, a, b, SortedHashes(hash, b));
      assert !Collision(hash, SortedHashes(hash, a), SortedHashes(hash, b));
      SameFlatSameHashes(hash, a, b);
      HashOneToOne(hash, a, b);
      MapReflectsMultiset(hash, RowTexts(a), RowTexts(b));
      CanonicalRowOneToOne(a, b);
      MapReflectsMultiset(CanonicalRow.CanonicalRow, a, b);
    }
  }

  lemma HashOneToOne(hash: Hash, a: seq<seq<Value>>, b: seq<seq<Value>>)
    requires !CollisionAmong(hash, a, b)
    ensures OneToOne(hash, RowTexts(a), RowTexts(b))
  {
    forall x, y | x in RowTexts(a) + RowTexts(b) && y in RowTexts(a) + RowTexts(b) && hash(x) == hash(y)
      ensures x == y
    {
      assert Hashed(hash, a, b, x) && Hashed(hash, a, b, y);
      assert !Collision(hash, x, y);
    }
  }
}
