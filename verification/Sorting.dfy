/** A stable sort by a comparison, as JavaScript's and Python's library sorts are, and what it keeps. */
module Sorting {

  /** Any two elements compare, and comparing is transitive; equal elements need not be the same. */
  ghost predicate Orders<T(!new)>(le: (T, T) -> bool) {
    && (forall x, y :: le(x, y) || le(y, x))
    && (forall x, y, z :: le(x, y) && le(y, z) ==> le(x, z))
  }

  function Insert<T>(x: T, s: seq<T>, le: (T, T) -> bool): seq<T> {
    if s == [] || le(x, s[0]) then [x] + s else [s[0]] + Insert(x, s[1..], le)
  }

  /** Elements that compare equal stay in the order they were in. */
  function Sort<T>(s: seq<T>, le: (T, T) -> bool): seq<T> {
    if s == [] then [] else Insert(s[0], Sort(s[1..], le), le)
  }

  ghost predicate Sorted<T>(s: seq<T>, le: (T, T) -> bool) {
    forall i, j :: 0 <= i < j < |s| ==> le(s[i], s[j])
  }

  lemma {:induction false} InsertPermutes<T>(x: T, s: seq<T>, le: (T, T) -> bool)
    ensures multiset(Insert(x, s, le)) == multiset{x} + multiset(s)
    ensures |Insert(x, s, le)| == |s| + 1
  {
    if s != [] && !le(x, s[0]) {
      InsertPermutes(x, s[1..], le);
      assert s == [s[0]] + s[1..];
    }
  }

  lemma {:induction false} SortPermutes<T>(s: seq<T>, le: (T, T) -> bool)
    ensures multiset(Sort(s, le)) == multiset(s)
    ensures |Sort(s, le)| == |s|
  {
    if s != [] {
      SortPermutes(s[1..], le);
      InsertPermutes(s[0], Sort(s[1..], le), le);
      assert s == [s[0]] + s[1..];
    }
  }

  lemma InMultiset<T>(x: T, s: seq<T>)
    ensures x in s <==> x in multiset(s)
  {
  }

  lemma {:induction false} InsertSorts<T(!new)>(x: T, s: seq<T>, le: (T, T) -> bool)
    requires Orders(le) && Sorted(s, le)
    ensures Sorted(Insert(x, s, le), le)
  {
    if s != [] && !le(x, s[0]) {
      var more := Insert(x, s[1..], le);
      InsertSorts(x, s[1..], le);
      InsertPermutes(x, s[1..], le);
      forall y | y in more
        ensures le(s[0], y)
      {
        InMultiset(y, more);
        if y != x {
          InMultiset(y, s[1..]);
        }
      }
    }
  }

  lemma {:induction false} SortSorts<T(!new)>(s: seq<T>, le: (T, T) -> bool)
    requires Orders(le)
    ensures Sorted(Sort(s, le), le)
  {
    if s != [] {
      SortSorts(s[1..], le);
      InsertSorts(s[0], Sort(s[1..], le), le);
    }
  }

  ghost predicate Antisymmetric<T(!new)>(le: (T, T) -> bool) {
    forall x, y :: le(x, y) && le(y, x) ==> x == y
  }

  /** With an order in which equal elements are the same, the elements decide the sorted sequence. */
  lemma {:induction false} SortedIsUnique<T(!new)>(s: seq<T>, t: seq<T>, le: (T, T) -> bool)
    requires Antisymmetric(le) && Sorted(s, le) && Sorted(t, le) && multiset(s) == multiset(t)
    ensures s == t
  {
    if s == [] {
      assert |multiset(t)| == 0;
    } else {
      InMultiset(s[0], s);
      InMultiset(s[0], t);
      InMultiset(t[0], s);
      assert s[0] == t[0];
      assert s == [s[0]] + s[1..] && t == [t[0]] + t[1..];
      assert multiset(s[1..]) == multiset(s) - multiset{s[0]};
      assert multiset(t[1..]) == multiset(t) - multiset{t[0]};
      SortedIsUnique(s[1..], t[1..], le);
    }
  }

  function Map<A, B>(f: A -> B, s: seq<A>): (r: seq<B>)
    ensures |r| == |s| && forall i :: 0 <= i < |s| ==> r[i] == f(s[i])
  {
    if s == [] then [] else [f(s[0])] + Map(f, s[1..])
  }

  /** The images of equal multisets are equal multisets. */
  lemma {:induction false} MapKeepsMultiset<A, B>(f: A -> B, s: seq<A>, t: seq<A>)
    requires multiset(s) == multiset(t)
    ensures multiset(Map(f, s)) == multiset(Map(f, t))
  {
    if s == [] {
      assert |multiset(t)| == 0;
    } else {
      InMultiset(s[0], s);
      InMultiset(s[0], t);
      var j :| 0 <= j < |t| && t[j] == s[0];
      Without(s, 0);
      Without(t, j);
      MapKeepsMultiset(f, Drop(s, 0), Drop(t, j));
      MapDrop(f, s, 0);
      MapDrop(f, t, j);
    }
  }

  function Drop<T>(s: seq<T>, j: nat): seq<T>
    requires j < |s|
  {
    s[..j] + s[j + 1..]
  }

  lemma Without<T>(s: seq<T>, j: nat)
    requires j < |s|
    ensures multiset(s) == multiset(Drop(s, j)) + multiset{s[j]}
    ensures multiset(Drop(s, j)) == multiset(s) - multiset{s[j]}
  {
    assert s == s[..j] + [s[j]] + s[j + 1..];
  }

  lemma MapDrop<A, B>(f: A -> B, s: seq<A>, j: nat)
    requires j < |s|
    ensures multiset(Map(f, s)) == multiset(Map(f, Drop(s, j))) + multiset{f(s[j])}
    ensures multiset(Map(f, Drop(s, j))) == multiset(Map(f, s)) - multiset{f(s[j])}
  {
    DropMapped(f, s, j);
    Without(Map(f, s), j);
  }

  lemma Assoc<T>(a: seq<T>, b: seq<T>, c: seq<T>)
    ensures (a + b) + c == a + (b + c)
  {
  }

  lemma {:induction false} MapSum<A, B>(f: A -> B, s: seq<A>, t: seq<A>)
    ensures Map(f, s + t) == Map(f, s) + Map(f, t)
  {
    if s == [] {
      assert s + t == t;
    } else {
      MapSum(f, s[1..], t);
      assert (s + t)[0] == s[0] && (s + t)[1..] == s[1..] + t;
      Assoc([f(s[0])], Map(f, s[1..]), Map(f, t));
    }
  }

  lemma DropMapped<A, B>(f: A -> B, s: seq<A>, j: nat)
    requires j < |s|
    ensures Map(f, Drop(s, j)) == Drop(Map(f, s), j)
  {
    MapSum(f, s[..j], s[j + 1..]);
    MapSum(f, s[..j], s[j..]);
    assert s == s[..j] + s[j..] && s[j..][1..] == s[j + 1..];
  }

  ghost predicate OneToOne<A, B>(f: A -> B, s: seq<A>, t: seq<A>) {
    forall x, y :: x in s + t && y in s + t && f(x) == f(y) ==> x == y
  }

  lemma FindImage<A, B>(f: A -> B, x: A, s: seq<A>, t: seq<A>) returns (j: nat)
    requires OneToOne(f, s, t) && x in s && f(x) in multiset(Map(f, t))
    ensures j < |t| && t[j] == x
  {
    InMultiset(f(x), Map(f, t));
    j :| 0 <= j < |t| && Map(f, t)[j] == f(x);
    assert t[j] in s + t && x in s + t;
  }

  lemma DropKeepsOneToOne<A, B>(f: A -> B, s: seq<A>, t: seq<A>, i: nat, j: nat)
    requires OneToOne(f, s, t) && i < |s| && j < |t|
    ensures OneToOne(f, Drop(s, i), Drop(t, j))
  {
    forall x | x in Drop(s, i) + Drop(t, j)
      ensures x in s + t
    {
      if x in Drop(s, i) {
        assert x in s;
      } else {
        assert x in t;
      }
    }
  }

  /** Where the function is one to one, equal multisets of images come from equal multisets. */
  lemma {:induction false} MapReflectsMultiset<A, B>(f: A -> B, s: seq<A>, t: seq<A>)
    requires multiset(Map(f, s)) == multiset(Map(f, t)) && OneToOne(f, s, t)
    ensures multiset(s) == multiset(t)
  {
    if s == [] {
      assert |multiset(Map(f, t))| == 0;
      assert t == [];
    } else {
      MapDrop(f, s, 0);
      var j := FindImage(f, s[0], s, t);
      MapDrop(f, t, j);
      DropKeepsOneToOne(f, s, t, 0, j);
      MapReflectsMultiset(f, Drop(s, 0), Drop(t, j));
      Without(s, 0);
      Without(t, j);
    }
  }
}
