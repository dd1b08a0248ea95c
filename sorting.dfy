/** Array.prototype.sort with a comparator, as ECMA-262 has required since
    its 2019 edition: a stable sort. The model is a stable insertion sort;
    StableSortIsUnique shows that every stable sort with a consistent
    comparator returns the same sequence, so nothing depends on the
    algorithm a JavaScript engine actually runs. */
module Sorting {
  import opened Seqs

  function Sign(n: int): int {
    if n < 0 then -1 else if n > 0 then 1 else 0
  }

  /** A consistent comparator (section 23.1.3.30.1 of ECMA-262): swapping
      the arguments flips the sign of the answer, and "a comes no later than
      b" is transitive. */
  ghost predicate Consistent<T(!new)>(cmp: (T, T) -> int) {
    && (forall a, b :: Flips(cmp, a, b))
    && (forall a, b, c :: Chains(cmp, a, b, c))
  }

  ghost predicate Flips<T>(cmp: (T, T) -> int, a: T, b: T) {
    Sign(cmp(a, b)) == -Sign(cmp(b, a))
  }

  ghost predicate Chains<T>(cmp: (T, T) -> int, a: T, b: T, c: T) {
    cmp(a, b) <= 0 && cmp(b, c) <= 0 ==> cmp(a, c) <= 0
  }

  lemma Flip<T(!new)>(cmp: (T, T) -> int, a: T, b: T)
    requires Consistent(cmp)
    ensures cmp(a, b) < 0 <==> cmp(b, a) > 0
    ensures cmp(a, b) == 0 <==> cmp(b, a) == 0
  {
    assert Flips(cmp, a, b);
  }

  lemma Chain<T(!new)>(cmp: (T, T) -> int, a: T, b: T, c: T)
    requires Consistent(cmp) && cmp(a, b) <= 0 && cmp(b, c) <= 0
    ensures cmp(a, c) <= 0
  {
    assert Chains(cmp, a, b, c);
  }

  /** No element is placed after one that the comparator puts before it. */
  ghost predicate Sorted<T>(cmp: (T, T) -> int, s: seq<T>) {
    forall i, j :: 0 <= i < j < |s| ==> cmp(s[i], s[j]) <= 0
  }

  /** The elements of s that the comparator ranks level with z, in their order. */
  function Ties<T>(cmp: (T, T) -> int, s: seq<T>, z: T): seq<T> {
    Filter(LevelWith(cmp, z), s)
  }

  function LevelWith<T>(cmp: (T, T) -> int, z: T): T -> bool {
    y => cmp(y, z) == 0
  }

  /** Puts x in front of the first element of t that does not come strictly
      before it. */
  function Insert<T>(cmp: (T, T) -> int, x: T, t: seq<T>): seq<T> {
    if t == [] then [x]
    else if cmp(t[0], x) < 0 then [t[0]] + Insert(cmp, x, t[1..])
    else [x] + t
  }

  /** Stable insertion sort: each element goes in front of the elements
      level with it, which all come later in the input. */
  function Sort<T>(cmp: (T, T) -> int, s: seq<T>): seq<T> {
    if s == [] then [] else Insert(cmp, s[0], Sort(cmp, s[1..]))
  }

  lemma {:induction false} InsertPermutes<T>(cmp: (T, T) -> int, x: T, t: seq<T>)
    ensures multiset(Insert(cmp, x, t)) == multiset{x} + multiset(t)
  {
    if t != [] && cmp(t[0], x) < 0 {
      InsertPermutes(cmp, x, t[1..]);
      assert t == [t[0]] + t[1..];
    }
  }

  /** sort returns a permutation of its input. */
  lemma {:induction false} SortPermutes<T>(cmp: (T, T) -> int, s: seq<T>)
    ensures multiset(Sort(cmp, s)) == multiset(s)
  {
    if s != [] {
      SortPermutes(cmp, s[1..]);
      InsertPermutes(cmp, s[0], Sort(cmp, s[1..]));
      assert s == [s[0]] + s[1..];
    }
  }

  lemma SelfTies<T(!new)>(cmp: (T, T) -> int, x: T)
    requires Consistent(cmp)
    ensures cmp(x, x) == 0
  {
    Flip(cmp, x, x);
  }

  lemma {:induction false} InsertSorted<T(!new)>(cmp: (T, T) -> int, x: T, t: seq<T>)
    requires Consistent(cmp) && Sorted(cmp, t)
    ensures Sorted(cmp, Insert(cmp, x, t))
  {
    if t == [] {
    } else if cmp(t[0], x) < 0 {
      var u := Insert(cmp, x, t[1..]);
      InsertSorted(cmp, x, t[1..]);
      InsertPermutes(cmp, x, t[1..]);
      forall k | 0 <= k < |u| ensures cmp(t[0], u[k]) <= 0 {
        assert u[k] in multiset(u);
        if u[k] != x {
          assert u[k] in t[1..];
          var m :| 0 <= m < |t[1..]| && t[1..][m] == u[k];
          assert t[m + 1] == u[k];
        }
      }
      assert Insert(cmp, x, t) == [t[0]] + u;
    } else {
      Flip(cmp, x, t[0]);
      forall i, j | 0 <= i < j < |[x] + t| ensures cmp(([x] + t)[i], ([x] + t)[j]) <= 0 {
        if i == 0 && j > 1 {
          Chain(cmp, x, t[0], t[j - 1]);
        }
      }
    }
  }

  /** sort orders its result by the comparator. */
  lemma {:induction false} SortSorted<T(!new)>(cmp: (T, T) -> int, s: seq<T>)
    requires Consistent(cmp)
    ensures Sorted(cmp, Sort(cmp, s))
  {
    if s != [] {
      SortSorted(cmp, s[1..]);
      InsertSorted(cmp, s[0], Sort(cmp, s[1..]));
    }
  }

  /** Two elements of which one comes strictly before the other are never
      both level with a third. */
  lemma StrictNotBothTie<T(!new)>(cmp: (T, T) -> int, a: T, b: T, z: T)
    requires Consistent(cmp) && cmp(a, b) < 0
    ensures !(cmp(a, z) == 0 && cmp(b, z) == 0)
  {
    if cmp(a, z) == 0 && cmp(b, z) == 0 {
      Flip(cmp, a, z);
      Flip(cmp, a, b);
      Chain(cmp, b, z, a);
    }
  }

  lemma {:induction false} InsertKeepsTies<T(!new)>(cmp: (T, T) -> int, x: T, t: seq<T>, z: T)
    requires Consistent(cmp)
    ensures Ties(cmp, Insert(cmp, x, t), z) == Ties(cmp, [x] + t, z)
  {
    if t != [] && cmp(t[0], x) < 0 {
      var p := LevelWith(cmp, z);
      var u := Insert(cmp, x, t[1..]);
      InsertKeepsTies(cmp, x, t[1..], z);
      StrictNotBothTie(cmp, t[0], x, z);
      FilterCons(p, t[0], u);
      FilterCons(p, x, t[1..]);
      FilterCons(p, t[0], t[1..]);
      FilterCons(p, x, t);
      assert t == [t[0]] + t[1..];
    }
  }

  /** sort is stable: elements level with one another keep their input order. */
  lemma {:induction false} SortStable<T(!new)>(cmp: (T, T) -> int, s: seq<T>, z: T)
    requires Consistent(cmp)
    ensures Ties(cmp, Sort(cmp, s), z) == Ties(cmp, s, z)
  {
    if s != [] {
      SortStable(cmp, s[1..], z);
      InsertKeepsTies(cmp, s[0], Sort(cmp, s[1..]), z);
      FilterCons(LevelWith(cmp, z), s[0], Sort(cmp, s[1..]));
      FilterCons(LevelWith(cmp, z), s[0], s[1..]);
      assert s == [s[0]] + s[1..];
    }
  }

  lemma HeadTies<T(!new)>(cmp: (T, T) -> int, s: seq<T>)
    requires Consistent(cmp) && s != []
    ensures Ties(cmp, s, s[0]) != []
  {
    SelfTies(cmp, s[0]);
  }

  /** Uniqueness of stable sorting: two sorted sequences in which every
      group of level elements appears in the same order are equal. */
  lemma {:induction false} StableSortIsUnique<T(!new)>(cmp: (T, T) -> int, r: seq<T>, r': seq<T>)
    requires Consistent(cmp) && Sorted(cmp, r) && Sorted(cmp, r')
    requires forall z :: Ties(cmp, r, z) == Ties(cmp, r', z)
    ensures r == r'
    decreases |r|
  {
    if r == [] || r' == [] {
      if r != [] {
        HeadTies(cmp, r);
      } else if r' != [] {
        HeadTies(cmp, r');
      }
    } else {
      var a, b := r[0], r'[0];
      SelfTies(cmp, a);
      SelfTies(cmp, b);
      FilterMembers(LevelWith(cmp, a), r);
      FilterMembers(LevelWith(cmp, a), r');
      FilterMembers(LevelWith(cmp, b), r);
      FilterMembers(LevelWith(cmp, b), r');
      assert a in Ties(cmp, r, a);
      assert b in Ties(cmp, r', b);
      assert cmp(b, a) <= 0 by {
        assert a in r';
        var k :| 0 <= k < |r'| && r'[k] == a;
        assert k == 0 || cmp(r'[0], r'[k]) <= 0;
      }
      assert cmp(a, b) <= 0 by {
        assert b in r;
        var k :| 0 <= k < |r| && r[k] == b;
        assert k == 0 || cmp(r[0], r[k]) <= 0;
      }
      Flip(cmp, a, b);
      assert Ties(cmp, r, a)[0] == a;
      assert Ties(cmp, r', a)[0] == b;
      forall z ensures Ties(cmp, r[1..], z) == Ties(cmp, r'[1..], z) {
        var lead := if cmp(a, z) == 0 then [a] else [];
        assert Ties(cmp, r, z) == lead + Ties(cmp, r[1..], z);
        assert Ties(cmp, r', z) == lead + Ties(cmp, r'[1..], z);
        assert Ties(cmp, r, z) == Ties(cmp, r', z);
        assert (lead + Ties(cmp, r[1..], z))[|lead|..] == Ties(cmp, r[1..], z);
        assert (lead + Ties(cmp, r'[1..], z))[|lead|..] == Ties(cmp, r'[1..], z);
      }
      StableSortIsUnique(cmp, r[1..], r'[1..]);
      assert r == [a] + r[1..] && r' == [a] + r'[1..];
    }
  }

  /** Any sequence that is sorted and keeps every group of level elements
      in input order is exactly Sort's result. */
  lemma StableArrangementIsSort<T(!new)>(cmp: (T, T) -> int, s: seq<T>, r: seq<T>)
    requires Consistent(cmp) && Sorted(cmp, r)
    requires forall z :: Ties(cmp, r, z) == Ties(cmp, s, z)
    ensures r == Sort(cmp, s)
  {
    SortSorted(cmp, s);
    forall z ensures Ties(cmp, r, z) == Ties(cmp, Sort(cmp, s), z) {
      SortStable(cmp, s, z);
    }
    StableSortIsUnique(cmp, r, Sort(cmp, s));
  }

  /** Sorting an already sorted result changes nothing. */
  lemma SortIdempotent<T(!new)>(cmp: (T, T) -> int, s: seq<T>)
    requires Consistent(cmp)
    ensures Sort(cmp, Sort(cmp, s)) == Sort(cmp, s)
  {
    SortSorted(cmp, s);
    StableArrangementIsSort(cmp, Sort(cmp, s), Sort(cmp, s));
  }

  /** A comparator that ranks everything level leaves the order alone. */
  lemma {:induction false} SortAllLevel<T>(cmp: (T, T) -> int, s: seq<T>)
    requires forall a, b :: cmp(a, b) == 0
    ensures Sort(cmp, s) == s
  {
    if s != [] {
      SortAllLevel(cmp, s[1..]);
      var t := Sort(cmp, s[1..]);
      assert t == [] || cmp(t[0], s[0]) == 0;
    }
  }
}
