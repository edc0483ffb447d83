/** `Array.prototype.sort`: stable, and determined by its comparator alone.
    `le(x, y)` stands for a comparator result that is not positive. */
module StableSort {

  ghost predicate TotalPreorder<T(!new)>(le: (T, T) -> bool) {
    && (forall x, y :: le(x, y) || le(y, x))
    && (forall x, y, z :: le(x, y) && le(y, z) ==> le(x, z))
  }

  ghost predicate Sorted<T>(xs: seq<T>, le: (T, T) -> bool) {
    forall i, j :: 0 <= i < j < |xs| ==> le(xs[i], xs[j])
  }

  function Insert<T>(x: T, xs: seq<T>, le: (T, T) -> bool): seq<T> {
    if xs == [] || le(x, xs[0]) then [x] + xs else [xs[0]] + Insert(x, xs[1..], le)
  }

  function Sort<T>(xs: seq<T>, le: (T, T) -> bool): seq<T> {
    if xs == [] then [] else Insert(xs[0], Sort(xs[1..], le), le)
  }

  /** The elements that tie with `x`, in their order. */
  function Ties<T>(xs: seq<T>, x: T, le: (T, T) -> bool): seq<T> {
    if xs == [] then []
    else if le(x, xs[0]) && le(xs[0], x) then [xs[0]] + Ties(xs[1..], x, le)
    else Ties(xs[1..], x, le)
  }

  lemma {:induction false} InsertPermutes<T>(x: T, xs: seq<T>, le: (T, T) -> bool)
    ensures multiset(Insert(x, xs, le)) == multiset{x} + multiset(xs)
  {
    if xs != [] && !le(x, xs[0]) {
      InsertPermutes(x, xs[1..], le);
      assert xs == [xs[0]] + xs[1..];
    }
  }

  lemma {:induction false} SortPermutes<T>(xs: seq<T>, le: (T, T) -> bool)
    ensures multiset(Sort(xs, le)) == multiset(xs) && |Sort(xs, le)| == |xs|
  {
    if xs != [] {
      SortPermutes(xs[1..], le);
      InsertPermutes(xs[0], Sort(xs[1..], le), le);
      assert xs == [xs[0]] + xs[1..];
    }
    assert |multiset(Sort(xs, le))| == |Sort(xs, le)|;
  }

  lemma {:induction false} InsertSorted<T(!new)>(x: T, xs: seq<T>, le: (T, T) -> bool)
    requires TotalPreorder(le) && Sorted(xs, le)
    ensures Sorted(Insert(x, xs, le), le)
  {
    if xs != [] && !le(x, xs[0]) {
      var rest := Insert(x, xs[1..], le);
      InsertSorted(x, xs[1..], le);
      InsertPermutes(x, xs[1..], le);
      forall k | 0 <= k < |rest| ensures le(xs[0], rest[k]) {
        assert rest[k] in multiset(rest);
        assert rest[k] == x || rest[k] in xs[1..];
      }
    }
  }

  lemma {:induction false} SortSorted<T(!new)>(xs: seq<T>, le: (T, T) -> bool)
    requires TotalPreorder(le)
    ensures Sorted(Sort(xs, le), le)
  {
    if xs != [] {
      SortSorted(xs[1..], le);
      InsertSorted(xs[0], Sort(xs[1..], le), le);
    }
  }

  lemma TiesCons<T>(x: T, xs: seq<T>, y: T, le: (T, T) -> bool)
    ensures Ties([x] + xs, y, le) == (if le(y, x) && le(x, y) then [x] else []) + Ties(xs, y, le)
  {
    assert ([x] + xs)[1..] == xs;
  }

  lemma NotBothTie<T(!new)>(x: T, z: T, y: T, le: (T, T) -> bool)
    requires TotalPreorder(le) && !le(x, z)
    ensures !(le(x, y) && le(y, z))
  {}

  lemma {:induction false} InsertStable<T(!new)>(x: T, xs: seq<T>, y: T, le: (T, T) -> bool)
    requires TotalPreorder(le)
    ensures Ties(Insert(x, xs, le), y, le) == Ties([x] + xs, y, le)
  {
    if xs != [] && !le(x, xs[0]) {
      InsertStable(x, xs[1..], y, le);
      TiesCons(xs[0], Insert(x, xs[1..], le), y, le);
      TiesCons(x, xs[1..], y, le);
      TiesCons(x, xs, y, le);
      NotBothTie(x, xs[0], y, le);
    }
  }

  /** Elements that tie keep their order. */
  lemma {:induction false} SortStable<T(!new)>(xs: seq<T>, y: T, le: (T, T) -> bool)
    requires TotalPreorder(le)
    ensures Ties(Sort(xs, le), y, le) == Ties(xs, y, le)
  {
    if xs != [] {
      SortStable(xs[1..], y, le);
      InsertStable(xs[0], Sort(xs[1..], le), y, le);
      TiesCons(xs[0], Sort(xs[1..], le), y, le);
    }
  }

  lemma {:induction false} TiesMember<T(!new)>(xs: seq<T>, x: T, le: (T, T) -> bool)
    requires TotalPreorder(le) && x in xs
    ensures x in Ties(xs, x, le)
  {
    if xs[0] != x {
      TiesMember(xs[1..], x, le);
    }
  }

  lemma {:induction false} TiesSubset<T>(xs: seq<T>, x: T, z: T, le: (T, T) -> bool)
    requires z in Ties(xs, x, le)
    ensures z in xs && le(x, z) && le(z, x)
  {
    if !(le(x, xs[0]) && le(xs[0], x) && xs[0] == z) {
      TiesSubset(xs[1..], x, z, le);
    }
  }

  /** A sorted arrangement that keeps the order of ties is the only one there is. */
  lemma {:induction false} StableSortUnique<T(!new)>(a: seq<T>, b: seq<T>, le: (T, T) -> bool)
    requires TotalPreorder(le) && Sorted(a, le) && Sorted(b, le)
    requires forall y :: Ties(a, y, le) == Ties(b, y, le)
    ensures a == b
  {
    assert b != [] ==> Ties(b, b[0], le) != [];
    if a != [] {
      TiesMember(a, a[0], le);
      TiesSubset(b, a[0], a[0], le);
      TiesMember(b, b[0], le);
      TiesSubset(a, b[0], b[0], le);
      assert le(a[0], b[0]) && le(b[0], a[0]);
      assert Ties(a, a[0], le)[0] == a[0] && Ties(b, a[0], le)[0] == b[0];
      assert a == [a[0]] + a[1..] && b == [b[0]] + b[1..];
      forall y ensures Ties(a[1..], y, le) == Ties(b[1..], y, le) {
        assert Ties(a, y, le) == Ties(b, y, le);
        if le(y, a[0]) && le(a[0], y) {
          assert Ties(a[1..], y, le) == Ties(a, y, le)[1..];
          assert Ties(b[1..], y, le) == Ties(b, y, le)[1..];
        }
      }
      StableSortUnique(a[1..], b[1..], le);
    }
  }

  lemma SortedHead<T(!new)>(a: seq<T>, b: seq<T>, le: (T, T) -> bool)
    requires a != [] && Sorted(a, le) && multiset(a) == multiset(b)
    ensures b != [] && (b[0] == a[0] || le(a[0], b[0]))
  {
    assert |multiset(a)| == |multiset(b)|;
    assert b[0] in multiset(a);
    var k :| 0 <= k < |a| && a[k] == b[0];
  }

  lemma DropHead<T>(a: seq<T>, b: seq<T>)
    requires a != [] && b != [] && a[0] == b[0] && multiset(a) == multiset(b)
    ensures multiset(a[1..]) == multiset(b[1..])
  {
    assert a == [a[0]] + a[1..] && b == [b[0]] + b[1..];
    assert multiset(a[1..]) == multiset(a) - multiset{a[0]};
  }

  /** With a comparator that never ties distinct elements, a sorted permutation is unique. */
  lemma {:induction false} SortUnique<T(!new)>(a: seq<T>, b: seq<T>, le: (T, T) -> bool)
    requires Sorted(a, le) && Sorted(b, le) && multiset(a) == multiset(b)
    requires forall x, y :: x in a && y in a && le(x, y) && le(y, x) ==> x == y
    ensures a == b
  {
    if a == [] {
      assert |multiset(a)| == |multiset(b)|;
    } else {
      SortedHead(a, b, le);
      SortedHead(b, a, le);
      assert b[0] in multiset(b) && b[0] in a;
      DropHead(a, b);
      SortUnique(a[1..], b[1..], le);
      assert a == [a[0]] + a[1..] && b == [b[0]] + b[1..];
    }
  }
}
