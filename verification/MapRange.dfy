/** Go ranges over a map in an unspecified order, visiting every key once. A run of such a
    loop is described by its order of visits; this module holds the theory of loops whose
    body assigns `result[target(key)] = m[key]`, for a target that may skip a key. */
module MapRange {
  import opened Wrappers

  ghost function Elements<T>(s: seq<T>): set<T> {
    set x | x in s
  }

  ghost predicate Distinct<T>(s: seq<T>) {
    forall i, j :: 0 <= i < j < |s| ==> s[i] != s[j]
  }

  /** `order` visits each of `keys` exactly once. */
  ghost predicate IsOrder<T>(order: seq<T>, keys: set<T>) {
    Distinct(order) && Elements(order) == keys
  }

  /** The map such a loop builds: later visits overwrite earlier ones. */
  ghost function Assign<K, S, V>(order: seq<K>, m: map<K, V>, target: K -> Option<S>): map<S, V>
    requires forall k :: k in order ==> k in m
  {
    if order == [] then map[]
    else
      var last := order[|order| - 1];
      var before := Assign(order[..|order| - 1], m, target);
      match target(last)
      case None => before
      case Some(s) => before[s := m[last]]
  }

  /** No two keys assign different values to the same target. */
  ghost predicate Consistent<K, S, V>(keys: set<K>, m: map<K, V>, target: K -> Option<S>)
    requires keys <= m.Keys
  {
    forall j, k :: j in keys && k in keys && target(j).Some? && target(j) == target(k) ==> m[j] == m[k]
  }

  lemma Visit<T>(order: seq<T>, k: T)
    requires Distinct(order) && k !in order
    ensures Distinct(order + [k])
    ensures Elements(order + [k]) == Elements(order) + {k}
  {
  }

  /** One more step of a loop whose unvisited keys are `todo`. */
  lemma VisitNext<T>(order: seq<T>, keys: set<T>, todo: set<T>, k: T)
    requires todo <= keys && IsOrder(order, keys - todo) && k in todo
    ensures k !in order && IsOrder(order + [k], keys - (todo - {k}))
  {
    assert k !in Elements(order);
    Visit(order, k);
    assert keys - (todo - {k}) == (keys - todo) + {k};
  }

  /** The loop that appends every key of a map to a slice. */
  method Collect<T(==)>(keys: set<T>) returns (order: seq<T>)
    ensures IsOrder(order, keys)
  {
    order := [];
    var todo := keys;
    while todo != {}
      invariant todo <= keys && IsOrder(order, keys - todo)
    {
      var k :| k in todo;
      VisitNext(order, keys, todo, k);
      todo := todo - {k};
      order := order + [k];
    }
  }

  lemma {:induction false} OrderLength<T>(order: seq<T>, keys: set<T>)
    requires IsOrder(order, keys)
    ensures |order| == |keys|
  {
    if order != [] {
      var n := |order| - 1;
      assert Elements(order[..n]) == keys - {order[n]};
      OrderLength(order[..n], keys - {order[n]});
    }
  }

  lemma AssignVisit<K, S, V>(order: seq<K>, k: K, m: map<K, V>, target: K -> Option<S>)
    requires k in m && forall j :: j in order ==> j in m
    ensures Assign(order + [k], m, target) ==
            match target(k) { case None => Assign(order, m, target)
                              case Some(s) => Assign(order, m, target)[s := m[k]] }
  {
    assert (order + [k])[..|order|] == order;
  }

  lemma {:induction false} AssignSubmap<K, S, V>(order: seq<K>, part: map<K, V>, m: map<K, V>, target: K -> Option<S>)
    requires forall k :: k in order ==> k in part && k in m && part[k] == m[k]
    ensures Assign(order, part, target) == Assign(order, m, target)
  {
    if order != [] {
      AssignSubmap(order[..|order| - 1], part, m, target);
    }
  }

  lemma SameMap<K, V>(a: map<K, V>, b: map<K, V>)
    requires forall k :: k in a ==> k in b && a[k] == b[k]
    requires forall k :: k in b ==> k in a
    ensures a == b
  {
  }

  /** Every entry comes from some visited key. */
  lemma {:induction false} AssignSource<K, S, V>(order: seq<K>, m: map<K, V>, target: K -> Option<S>, s: S)
      returns (k: K)
    requires forall k :: k in order ==> k in m
    requires s in Assign(order, m, target)
    ensures k in order && target(k) == Some(s) && Assign(order, m, target)[s] == m[k]
  {
    var last := order[|order| - 1];
    if target(last) == Some(s) {
      k := last;
    } else {
      k := AssignSource(order[..|order| - 1], m, target, s);
    }
  }

  /** Every visited key that has a target creates an entry. */
  lemma {:induction false} AssignCovers<K, S, V>(order: seq<K>, m: map<K, V>, target: K -> Option<S>, k: K)
    requires forall k :: k in order ==> k in m
    requires k in order && target(k).Some?
    ensures target(k).value in Assign(order, m, target)
  {
    if order[|order| - 1] != k {
      AssignCovers(order[..|order| - 1], m, target, k);
    }
  }

  lemma AssignLookup<K, S, V>(order: seq<K>, m: map<K, V>, target: K -> Option<S>, k: K)
    requires forall k :: k in order ==> k in m
    requires Consistent(Elements(order), m, target)
    requires k in order && target(k).Some?
    ensures target(k).value in Assign(order, m, target)
    ensures Assign(order, m, target)[target(k).value] == m[k]
  {
    AssignCovers(order, m, target, k);
    var j := AssignSource(order, m, target, target(k).value);
  }

  ghost predicate Lands<K, S, V>(k: K, m: map<K, V>, target: K -> Option<S>, r: map<S, V>)
    requires k in m
  {
    target(k).Some? ==> target(k).value in r && r[target(k).value] == m[k]
  }

  /** No value is lost exactly when no two keys compete for a target with different values. */
  lemma LandsExactly<K, S, V>(order: seq<K>, m: map<K, V>, target: K -> Option<S>)
    requires forall k :: k in order ==> k in m
    ensures (forall k :: k in order ==> Lands(k, m, target, Assign(order, m, target)))
            <==> Consistent(Elements(order), m, target)
  {
    var r := Assign(order, m, target);
    if forall k :: k in order ==> Lands(k, m, target, r) {
      forall j, k | j in Elements(order) && k in Elements(order) && target(j).Some? && target(j) == target(k)
        ensures m[j] == m[k]
      {
        assert Lands(j, m, target, r) && Lands(k, m, target, r);
      }
    }
    if Consistent(Elements(order), m, target) {
      forall k | k in order ensures Lands(k, m, target, r) {
        if target(k).Some? {
          AssignLookup(order, m, target, k);
        }
      }
    }
  }

  lemma SameResult<K, S, V>(o1: seq<K>, o2: seq<K>, m: map<K, V>, target: K -> Option<S>)
    requires Elements(o1) == Elements(o2) <= m.Keys
    requires Consistent(Elements(o1), m, target)
    ensures Assign(o1, m, target) == Assign(o2, m, target)
  {
    assert forall k :: k in o1 <==> k in Elements(o2);
    var r1, r2 := Assign(o1, m, target), Assign(o2, m, target);
    forall s | s in r1 ensures s in r2 && r2[s] == r1[s] {
      var k := AssignSource(o1, m, target, s);
      AssignLookup(o2, m, target, k);
    }
    forall s | s in r2 ensures s in r1 {
      var k := AssignSource(o2, m, target, s);
      AssignCovers(o1, m, target, k);
    }
  }

  lemma {:induction false} SomeOrder<T>(keys: set<T>) returns (order: seq<T>)
    ensures IsOrder(order, keys)
  {
    if keys == {} {
      order := [];
    } else {
      var k :| k in keys;
      order := SomeOrder(keys - {k});
      assert k !in Elements(order);
      Visit(order, k);
      order := order + [k];
    }
  }

  /** An order that visits `k` last leaves the value of `k` at its target. */
  lemma OrderEndingIn<K, S, V>(keys: set<K>, k: K, m: map<K, V>, target: K -> Option<S>) returns (order: seq<K>)
    requires k in keys && keys <= m.Keys && target(k).Some?
    ensures IsOrder(order, keys)
    ensures target(k).value in Assign(order, m, target)
    ensures Assign(order, m, target)[target(k).value] == m[k]
  {
    var front := SomeOrder(keys - {k});
    assert k !in Elements(front);
    assert forall j :: j in front ==> j in Elements(front);
    Visit(front, k);
    AssignVisit(front, k, m, target);
    order := front + [k];
  }

  ghost predicate OrderFree<K(!new), S(!new), V(!new)>(keys: set<K>, m: map<K, V>, target: K -> Option<S>)
    requires keys <= m.Keys
  {
    forall o1, o2 :: IsOrder(o1, keys) && IsOrder(o2, keys) ==> SameFor(o1, o2, keys, m, target)
  }

  ghost predicate SameFor<K, S, V>(o1: seq<K>, o2: seq<K>, keys: set<K>, m: map<K, V>, target: K -> Option<S>)
    requires keys <= m.Keys && IsOrder(o1, keys) && IsOrder(o2, keys)
  {
    assert forall k :: k in o1 ==> k in Elements(o1);
    assert forall k :: k in o2 ==> k in Elements(o2);
    Assign(o1, m, target) == Assign(o2, m, target)
  }

  /** The loop gives one result for every order exactly when its keys are consistent. */
  lemma OrderFreeExactly<K(!new), S(!new), V(!new)>(keys: set<K>, m: map<K, V>, target: K -> Option<S>)
    requires keys <= m.Keys
    ensures OrderFree(keys, m, target) <==> Consistent(keys, m, target)
  {
    if Consistent(keys, m, target) {
      forall o1, o2 | IsOrder(o1, keys) && IsOrder(o2, keys)
        ensures SameFor(o1, o2, keys, m, target)
      {
        SameResult(o1, o2, m, target);
      }
    }
    if OrderFree(keys, m, target) {
      forall j, k | j in keys && k in keys && target(j).Some? && target(j) == target(k)
        ensures m[j] == m[k]
      {
        var o1 := OrderEndingIn(keys, j, m, target);
        var o2 := OrderEndingIn(keys, k, m, target);
        assert SameFor(o1, o2, keys, m, target);
      }
    }
  }

  // ---------------------------------------------------------------- Injective relabelling

  ghost predicate Injective<S(!new), K>(key: S -> K) {
    forall a, b :: key(a) == key(b) ==> a == b
  }

  /** A map written out under other, pairwise different, keys. */
  ghost function Relabelled<S(!new), K, V>(m: map<S, V>, key: S -> K): map<K, V>
    requires Injective(key)
  {
    map s | s in m :: key(s) := m[s]
  }

  lemma OverrideUpdate<K, V>(base: map<K, V>, m: map<K, V>, k: K, v: V)
    ensures base + m[k := v] == (base + m)[k := v]
  {
  }

  lemma RelabelledUpdate<S(!new), K, V>(m: map<S, V>, s: S, v: V, key: S -> K)
    requires Injective(key)
    ensures Relabelled(m[s := v], key) == Relabelled(m, key)[key(s) := v]
  {
    var whole, r := Relabelled(m[s := v], key), Relabelled(m, key)[key(s) := v];
    forall k | k in whole ensures k in r && r[k] == whole[k] {
      var t :| t in m[s := v] && key(t) == k;
    }
    forall k | k in r ensures k in whole {
      if k != key(s) {
        var t :| t in m && key(t) == k;
        assert t in m[s := v];
      }
    }
  }
}
