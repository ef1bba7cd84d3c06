/** Sorting, as `sort.Ints` and `sort.Strings` do it. */
module Ordering {
  import opened MapRange

  ghost predicate TotalOrder<T(!new)>(le: (T, T) -> bool) {
    && (forall a, b :: le(a, b) || le(b, a))
    && (forall a, b :: le(a, b) && le(b, a) ==> a == b)
    && (forall a, b, c :: le(a, b) && le(b, c) ==> le(a, c))
  }

  ghost predicate Ascending<T>(s: seq<T>, le: (T, T) -> bool) {
    forall i, j :: 0 <= i < j < |s| ==> le(s[i], s[j])
  }

  /** `s` lists exactly `keys`, each once, in order. */
  ghost predicate Lists<T>(s: seq<T>, keys: set<T>, le: (T, T) -> bool) {
    IsOrder(s, keys) && Ascending(s, le)
  }

  function Insert<T>(s: seq<T>, x: T, le: (T, T) -> bool): (r: seq<T>)
    ensures multiset(r) == multiset(s) + multiset{x}
  {
    if s == [] then [x]
    else
      assert s == [s[0]] + s[1..];
      if le(x, s[0]) then [x] + s else [s[0]] + Insert(s[1..], x, le)
  }

  lemma {:induction false} InsertAscending<T(!new)>(s: seq<T>, x: T, le: (T, T) -> bool)
    requires TotalOrder(le) && Ascending(s, le)
    ensures Ascending(Insert(s, x, le), le)
  {
    if s != [] && !le(x, s[0]) {
      InsertAscending(s[1..], x, le);
      var r := Insert(s[1..], x, le);
      forall i | 0 <= i < |r| ensures le(s[0], r[i]) {
        assert r[i] in multiset(s[1..]) + multiset{x};
      }
    }
  }

  method Sort<T(!new)>(s: seq<T>, le: (T, T) -> bool) returns (r: seq<T>)
    requires TotalOrder(le)
    ensures Ascending(r, le) && multiset(r) == multiset(s)
  {
    r := [];
    for i := 0 to |s|
      invariant Ascending(r, le) && multiset(r) == multiset(s[..i])
    {
      InsertAscending(r, s[i], le);
      r := Insert(r, s[i], le);
      assert s[..i + 1] == s[..i] + [s[i]];
    }
    assert s[..|s|] == s;
  }

  lemma {:induction false} DistinctCounts<T>(s: seq<T>, x: T)
    requires Distinct(s)
    ensures multiset(s)[x] <= 1
  {
    if s != [] {
      DistinctCounts(s[1..], x);
      assert s == [s[0]] + s[1..];
      if s[0] == x {
        assert x !in s[1..];
      }
    }
  }

  lemma SameElements<T>(r: seq<T>, s: seq<T>)
    requires multiset(r) == multiset(s)
    ensures Elements(r) == Elements(s)
  {
    forall x ensures x in Elements(r) <==> x in Elements(s) {
      assert x in multiset(r) <==> x in multiset(s);
    }
  }

  lemma RepeatCounts<T>(s: seq<T>, i: nat, j: nat)
    requires i < j < |s| && s[i] == s[j]
    ensures multiset(s)[s[i]] >= 2
  {
    assert s == s[..i] + [s[i]] + s[i + 1..j] + [s[j]] + s[j + 1..];
  }

  /** Rearranging a list of distinct items keeps them distinct. */
  lemma PermutationIsOrder<T>(r: seq<T>, s: seq<T>, keys: set<T>)
    requires multiset(r) == multiset(s) && IsOrder(s, keys)
    ensures IsOrder(r, keys)
  {
    forall i, j | 0 <= i < j < |r| ensures r[i] != r[j] {
      DistinctCounts(s, r[i]);
      if r[i] == r[j] {
        RepeatCounts(r, i, j);
      }
    }
    SameElements(r, s);
  }

  lemma SameElementsOnce<T>(r: seq<T>, s: seq<T>)
    requires Distinct(r) && Distinct(s) && Elements(r) == Elements(s)
    ensures multiset(r) == multiset(s)
  {
    forall x ensures multiset(r)[x] == multiset(s)[x] {
      DistinctCounts(r, x);
      DistinctCounts(s, x);
      assert x in Elements(r) <==> x in multiset(r);
      assert x in Elements(s) <==> x in multiset(s);
    }
  }

  lemma NothingToVisit<T>(s: seq<T>)
    ensures Elements(s) == {} <==> s == []
  {
    if s != [] {
      assert s[0] in Elements(s);
    }
  }

  lemma {:induction false} ListingIsUnique<T(!new)>(r: seq<T>, s: seq<T>, keys: set<T>, le: (T, T) -> bool)
    requires TotalOrder(le) && Lists(r, keys, le) && Lists(s, keys, le)
    ensures r == s
  {
    if keys == {} {
      NothingToVisit(r);
      NothingToVisit(s);
    } else {
      var k :| k in keys;
      assert k in r && k in s;
      assert r[0] in Elements(s) && s[0] in Elements(r);
      assert le(r[0], s[0]) && le(s[0], r[0]);
      var rest := keys - {r[0]};
      Rest(r, keys, le);
      Rest(s, keys, le);
      ListingIsUnique(r[1..], s[1..], rest, le);
    }
  }

  lemma Rest<T(!new)>(s: seq<T>, keys: set<T>, le: (T, T) -> bool)
    requires TotalOrder(le) && Lists(s, keys, le) && s != []
    ensures Lists(s[1..], keys - {s[0]}, le)
  {
    assert s == [s[0]] + s[1..];
    forall x ensures x in Elements(s[1..]) <==> x in keys - {s[0]} {
      assert x in Elements(s) <==> x == s[0] || x in s[1..];
    }
  }

  lemma {:induction false} SomeListing<T(!new)>(keys: set<T>, le: (T, T) -> bool) returns (s: seq<T>)
    requires TotalOrder(le)
    ensures Lists(s, keys, le)
  {
    if keys == {} {
      s := [];
    } else {
      var k :| k in keys;
      var front := SomeListing(keys - {k}, le);
      InsertAscending(front, k, le);
      s := Insert(front, k, le);
      assert k !in Elements(front);
      Visit(front, k);
      PermutationIsOrder(s, front + [k], keys);
    }
  }

  lemma ListingExists<T(!new)>(keys: set<T>, le: (T, T) -> bool)
    requires TotalOrder(le)
    ensures exists s :: Lists(s, keys, le)
  {
    var s := SomeListing(keys, le);
  }

  /** The keys in ascending order. */
  ghost function Sorted<T(!new)>(keys: set<T>, le: (T, T) -> bool): (s: seq<T>)
    requires TotalOrder(le)
    ensures Lists(s, keys, le)
  {
    ListingExists(keys, le);
    var s :| Lists(s, keys, le);
    s
  }

  // ---------------------------------------------------------------- The two orders in use

  predicate IntLe(a: int, b: int) {
    a <= b
  }

  lemma IntLeTotal()
    ensures TotalOrder(IntLe)
  {
  }

  /** Lexicographic order on strings. */
  predicate StringLe(a: string, b: string) {
    a == "" || (b != "" && (a[0] < b[0] || (a[0] == b[0] && StringLe(a[1..], b[1..]))))
  }

  lemma {:induction false} StringLeTotalPair(a: string, b: string)
    ensures StringLe(a, b) || StringLe(b, a)
    ensures StringLe(a, b) && StringLe(b, a) ==> a == b
  {
    if a != "" && b != "" {
      StringLeTotalPair(a[1..], b[1..]);
      assert a == [a[0]] + a[1..] && b == [b[0]] + b[1..];
    }
  }

  lemma {:induction false} StringLeTransitive(a: string, b: string, c: string)
    requires StringLe(a, b) && StringLe(b, c)
    ensures StringLe(a, c)
  {
    if a != "" && a[0] == b[0] == c[0] {
      StringLeTransitive(a[1..], b[1..], c[1..]);
    }
  }

  lemma StringLeTotal()
    ensures TotalOrder(StringLe)
  {
    forall a, b ensures StringLe(a, b) || StringLe(b, a) { StringLeTotalPair(a, b); }
    forall a, b | StringLe(a, b) && StringLe(b, a) ensures a == b { StringLeTotalPair(a, b); }
    forall a, b, c | StringLe(a, b) && StringLe(b, c) ensures StringLe(a, c) { StringLeTransitive(a, b, c); }
  }

  /** Up to `i` the strings agree; there the first one ends, or has the smaller character. */
  ghost predicate FirstDifference(a: string, b: string, i: nat) {
    i <= |a| && i <= |b| && a[..i] == b[..i] && (i == |a| || (i < |b| && a[i] < b[i]))
  }

  /** A string comes before another if it is a beginning of it or smaller where they first differ. */
  lemma {:induction false} StringLeExactly(a: string, b: string)
    ensures StringLe(a, b) <==> exists i: nat :: FirstDifference(a, b, i)
  {
    if a == "" {
      assert FirstDifference(a, b, 0);
    } else if b != "" {
      if a[0] < b[0] {
        assert FirstDifference(a, b, 0);
      } else if a[0] == b[0] {
        StringLeExactly(a[1..], b[1..]);
        if i: nat :| FirstDifference(a[1..], b[1..], i) {
          assert a[..i + 1] == [a[0]] + a[1..][..i] && b[..i + 1] == [b[0]] + b[1..][..i];
          assert FirstDifference(a, b, i + 1);
        }
        if i: nat :| FirstDifference(a, b, i) {
          assert i > 0;
          assert a[1..][..i - 1] == a[..i][1..] && b[1..][..i - 1] == b[..i][1..];
          assert FirstDifference(a[1..], b[1..], i - 1);
        }
      } else {
        assert forall i: nat :: i > 0 && i <= |a| && i <= |b| ==> a[..i][0] != b[..i][0];
      }
    }
  }
}
