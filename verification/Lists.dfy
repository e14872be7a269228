/** Lists up to order: removing an element, mapping, summing. */
module Lists {

  /** `splice(k, 1)`; nothing when there is no element k. */
  function Without<T>(items: seq<T>, k: nat): seq<T> {
    if k < |items| then items[..k] + items[k + 1..] else items
  }

  lemma {:induction false} WithoutMultiset<T>(items: seq<T>, k: nat)
    requires k < |items|
    ensures multiset(Without(items, k)) == multiset(items) - multiset{items[k]}
    ensures multiset(items) == multiset(Without(items, k)) + multiset{items[k]}
  {
    assert items == items[..k] + [items[k]] + items[k + 1..];
  }

  lemma AppendThen<T>(done: seq<T>, x: T, rest: seq<T>)
    ensures done + ([x] + rest) == (done + [x]) + rest
  {
  }

  lemma {:induction false} WithoutTail<T>(items: seq<T>, k: nat)
    requires 0 < k < |items|
    ensures Without(items, k) == [items[0]] + Without(items[1..], k - 1)
  {
  }

  lemma {:induction false} SameMembers<T>(a: seq<T>, b: seq<T>, x: T)
    requires multiset(a) == multiset(b)
    ensures x in a <==> x in b
  {
    assert x in a <==> x in multiset(a);
    assert x in b <==> x in multiset(b);
  }

  lemma {:induction false} SameSize<T>(a: seq<T>, b: seq<T>)
    requires multiset(a) == multiset(b)
    ensures |a| == |b|
  {
    assert |a| == |multiset(a)| == |multiset(b)| == |b|;
  }

  lemma {:induction false} TailMultiset<T>(a: seq<T>)
    requires a != []
    ensures Without(a, 0) == a[1..] && multiset(a[1..]) == multiset(a) - multiset{a[0]}
  {
    assert Without(a, 0) == a[1..];
    WithoutMultiset(a, 0);
  }

  lemma {:induction false} TailsAgree<T>(a: seq<T>, b: seq<T>, k: nat)
    requires multiset(a) == multiset(b) && a != [] && k < |b| && b[k] == a[0]
    ensures multiset(a[1..]) == multiset(Without(b, k))
  {
    TailMultiset(a);
    WithoutMultiset(b, k);
  }

  /** Lists equal up to order are both empty, or lose the same element and stay so. */
  lemma {:induction false} Pair<T>(a: seq<T>, b: seq<T>) returns (k: nat)
    requires multiset(a) == multiset(b)
    ensures |a| == |b|
    ensures a != [] ==> k < |b| && b[k] == a[0] && multiset(a[1..]) == multiset(Without(b, k))
  {
    SameSize(a, b);
    k := 0;
    if a != [] {
      SameMembers(a, b, a[0]);
      k :| 0 <= k < |b| && b[k] == a[0];
      TailsAgree(a, b, k);
    }
  }

  function Mapped<T, K>(f: T -> K, list: seq<T>): (r: seq<K>)
    ensures |r| == |list| && forall i | 0 <= i < |list| :: r[i] == f(list[i])
  {
    seq(|list|, i requires 0 <= i < |list| => f(list[i]))
  }

  lemma {:induction false} MappedWithout<T, K>(f: T -> K, list: seq<T>, k: nat)
    requires k < |list|
    ensures multiset(Mapped(f, Without(list, k))) == multiset(Mapped(f, list)) - multiset{f(list[k])}
    ensures multiset(Mapped(f, list)) == multiset(Mapped(f, Without(list, k))) + multiset{f(list[k])}
  {
    assert Mapped(f, Without(list, k)) == Without(Mapped(f, list), k);
    WithoutMultiset(Mapped(f, list), k);
  }

  lemma {:induction false} MappedPermuted<T, K>(f: T -> K, a: seq<T>, b: seq<T>)
    requires multiset(a) == multiset(b)
    ensures multiset(Mapped(f, a)) == multiset(Mapped(f, b))
  {
    var k := Pair(a, b);
    if a != [] {
      assert a[1..] == Without(a, 0);
      MappedPermuted(f, a[1..], Without(b, k));
      MappedWithout(f, a, 0);
      MappedWithout(f, b, k);
    }
  }

  function Sum<T>(f: T -> int, list: seq<T>): int {
    if list == [] then 0 else f(list[0]) + Sum(f, list[1..])
  }

  lemma {:induction false} SumAppend<T>(f: T -> int, a: seq<T>, b: seq<T>)
    ensures Sum(f, a + b) == Sum(f, a) + Sum(f, b)
  {
    if a == [] {
      assert a + b == b;
    } else {
      assert (a + b)[1..] == a[1..] + b;
      SumAppend(f, a[1..], b);
    }
  }

  lemma {:induction false} SumOne<T>(f: T -> int, x: T)
    ensures Sum(f, [x]) == f(x)
  {
  }

  lemma {:induction false} SumWithout<T>(f: T -> int, list: seq<T>, k: nat)
    requires k < |list|
    ensures Sum(f, list) == Sum(f, Without(list, k)) + f(list[k])
  {
    if k == 0 {
      assert Without(list, 0) == list[1..];
    } else {
      SumWithout(f, list[1..], k - 1);
      WithoutTail(list, k);
      assert Without(list, k)[1..] == Without(list[1..], k - 1);
    }
  }

  lemma {:induction false} SumPermuted<T>(f: T -> int, a: seq<T>, b: seq<T>)
    requires multiset(a) == multiset(b)
    ensures Sum(f, a) == Sum(f, b)
  {
    var k := Pair(a, b);
    if a != [] {
      SumPermuted(f, a[1..], Without(b, k));
      SumWithout(f, b, k);
    }
  }

  lemma {:induction false} SumSame<T>(f: T -> int, g: T -> int, list: seq<T>)
    requires forall x | x in list :: f(x) == g(x)
    ensures Sum(f, list) == Sum(g, list)
  {
    if list != [] { SumSame(f, g, list[1..]); }
  }

  lemma {:induction false} SumAtMost<T>(f: T -> int, g: T -> int, list: seq<T>)
    requires forall x | x in list :: f(x) <= g(x)
    ensures Sum(f, list) <= Sum(g, list)
  {
    if list != [] { SumAtMost(f, g, list[1..]); }
  }

  lemma {:induction false} SumNonNegative<T>(f: T -> int, list: seq<T>)
    requires forall x | x in list :: f(x) >= 0
    ensures Sum(f, list) >= 0
    ensures Sum(f, list) == 0 <==> forall x | x in list :: f(x) == 0
  {
    if list != [] {
      assert list == [list[0]] + list[1..];
      SumNonNegative(f, list[1..]);
    }
  }

  lemma {:induction false} SumAtLeast<T>(f: T -> int, list: seq<T>, x: T)
    requires x in list && forall y | y in list :: f(y) >= 0
    ensures Sum(f, list) >= f(x)
  {
    assert list == [list[0]] + list[1..];
    if x in list[1..] {
      SumAtLeast(f, list[1..], x);
    } else {
      SumNonNegative(f, list[1..]);
    }
  }

  function FlatMapped<T, K>(f: T -> seq<K>, list: seq<T>): seq<K> {
    if list == [] then [] else f(list[0]) + FlatMapped(f, list[1..])
  }

  lemma {:induction false} FlatMappedWithout<T, K>(f: T -> seq<K>, list: seq<T>, k: nat)
    requires k < |list|
    ensures multiset(FlatMapped(f, list)) == multiset(FlatMapped(f, Without(list, k))) + multiset(f(list[k]))
  {
    if k == 0 {
      assert Without(list, 0) == list[1..];
    } else {
      FlatMappedWithout(f, list[1..], k - 1);
      WithoutTail(list, k);
      assert Without(list, k)[1..] == Without(list[1..], k - 1);
    }
  }

  lemma {:induction false} FlatMappedPermuted<T, K>(f: T -> seq<K>, a: seq<T>, b: seq<T>)
    requires multiset(a) == multiset(b)
    ensures multiset(FlatMapped(f, a)) == multiset(FlatMapped(f, b))
  {
    var k := Pair(a, b);
    if a != [] {
      FlatMappedPermuted(f, a[1..], Without(b, k));
      FlatMappedWithout(f, b, k);
    }
  }

  lemma {:induction false} FlatMappedAppend<T, K>(f: T -> seq<K>, a: seq<T>, b: seq<T>)
    ensures FlatMapped(f, a + b) == FlatMapped(f, a) + FlatMapped(f, b)
  {
    if a == [] {
      assert a + b == b;
    } else {
      assert (a + b)[1..] == a[1..] + b;
      FlatMappedAppend(f, a[1..], b);
    }
  }

  lemma {:induction false} FlatMappedOne<T, K>(f: T -> seq<K>, x: T)
    ensures FlatMapped(f, [x]) == f(x)
  {
  }

  /** Dropping an element that maps to nothing changes nothing. */
  lemma {:induction false} FlatMappedSkip<T, K>(f: T -> seq<K>, list: seq<T>, k: nat)
    requires k < |list| && f(list[k]) == []
    ensures FlatMapped(f, Without(list, k)) == FlatMapped(f, list)
  {
    if k == 0 {
      assert Without(list, 0) == list[1..];
    } else {
      FlatMappedSkip(f, list[1..], k - 1);
      WithoutTail(list, k);
      assert Without(list, k)[1..] == Without(list[1..], k - 1);
    }
  }

  lemma {:induction false} InFlatMapped<T, K>(f: T -> seq<K>, list: seq<T>, y: K)
    ensures y in FlatMapped(f, list) <==> exists x | x in list :: y in f(x)
  {
    if list != [] {
      assert list == [list[0]] + list[1..];
      InFlatMapped(f, list[1..], y);
    }
  }

  ghost predicate Distinct<T>(list: seq<T>) {
    forall i, j | 0 <= i < j < |list| :: list[i] != list[j]
  }

  lemma {:induction false} DistinctWithout<T>(list: seq<T>, k: nat)
    requires Distinct(list) && k < |list|
    ensures Distinct(Without(list, k)) && forall x :: x in Without(list, k) <==> x in list && x != list[k]
  {
    var rest := Without(list, k);
    forall x ensures x in rest <==> x in list && x != list[k] {
      if x in list && x != list[k] {
        var i :| 0 <= i < |list| && list[i] == x;
        assert rest[if i < k then i else i - 1] == x;
      }
      if x in rest {
        var i :| 0 <= i < |rest| && rest[i] == x;
        assert list[if i < k then i else i + 1] == x;
      }
    }
  }

  /** A sum over a longer list is the same when the further elements count nothing. */
  lemma {:induction false} SumOverMore<T(!new)>(f: T -> int, part: seq<T>, whole: seq<T>)
    requires Distinct(part) && Distinct(whole) && forall x | x in part :: x in whole
    requires forall x | x in whole && x !in part :: f(x) == 0
    ensures Sum(f, part) == Sum(f, whole)
  {
    if part == [] {
      SumNonNegative(f, whole);
    } else {
      assert part[0] in part;
      var k :| 0 <= k < |whole| && whole[k] == part[0];
      DistinctWithout(part, 0);
      DistinctWithout(whole, k);
      TailMultiset(part);
      SumWithout(f, whole, k);
      SumOverMore(f, part[1..], Without(whole, k));
    }
  }

  lemma {:induction false} SumAdd<T>(f: T -> int, g: T -> int, both: T -> int, list: seq<T>)
    requires forall x | x in list :: both(x) == f(x) + g(x)
    ensures Sum(both, list) == Sum(f, list) + Sum(g, list)
  {
    if list != [] { SumAdd(f, g, both, list[1..]); }
  }

  /** Summing a table by columns and by rows is the same. */
  lemma {:induction false} SumSwap<T, K>(cell: T -> K -> int, col: K -> T -> int, byCol: K -> int, byRow: T -> int,
                                         rows: seq<T>, cols: seq<K>)
    requires forall r, k | r in rows && k in cols :: col(k)(r) == cell(r)(k)
    requires forall k | k in cols :: byCol(k) == Sum(col(k), rows)
    requires forall r | r in rows :: byRow(r) == Sum(cell(r), cols)
    ensures Sum(byCol, cols) == Sum(byRow, rows)
  {
    if rows == [] {
      SumNonNegative(byCol, cols);
    } else {
      var rest := (k: K) => Sum(col(k), rows[1..]);
      SumSwap(cell, col, rest, byRow, rows[1..], cols);
      SumAdd(cell(rows[0]), rest, byCol, cols);
    }
  }

  lemma {:induction false} SumMapped<T, K>(f: K -> int, g: T -> K, composed: T -> int, list: seq<T>)
    requires forall x | x in list :: composed(x) == f(g(x))
    ensures Sum(f, Mapped(g, list)) == Sum(composed, list)
  {
    if list != [] {
      SumMapped(f, g, composed, list[1..]);
      assert Mapped(g, list)[1..] == Mapped(g, list[1..]);
    }
  }

  lemma {:induction false} SubsetOfSameSize<T>(a: set<T>, b: set<T>)
    requires a <= b && |a| == |b|
    ensures a == b
  {
    assert |b - a| == |b| - |a|;
  }

  lemma {:induction false} SetOfList<T>(s: seq<T>)
    ensures |set x | x in s| <= |s|
    ensures Distinct(s) ==> |set x | x in s| == |s|
  {
    if s != [] {
      var rest := set x | x in s[1..];
      assert s == [s[0]] + s[1..];
      assert (set x | x in s) == rest + {s[0]};
      SetOfList(s[1..]);
    }
  }

  /** A list longer than the one its elements are from repeats one. */
  lemma {:induction false} Repeats<T>(list: seq<T>, pool: seq<T>) returns (i: nat, j: nat)
    requires |list| > |pool| && forall x | x in list :: x in pool
    ensures i < j < |list| && list[i] == list[j]
  {
    var a, b := set x | x in list, set x | x in pool;
    SetOfList(list);
    SetOfList(pool);
    assert a <= b;
    assert |b - a| == |b| - |a|;
    assert !Distinct(list);
    i, j :| 0 <= i < j < |list| && list[i] == list[j];
  }
}
