/** What rounding the parts of a sum down does to the whole. */
module Rounding {
  import opened Arith
  import opened Lists

  lemma {:induction false} RemainderStep(first: int, rest: int, downs: int, n: int, d: int)
    requires d > 0 && first >= 0 && 0 <= rest - downs * d <= n * (d - 1)
    ensures 0 <= (first + rest) - (first / d + downs) * d <= ((if first > 0 then 1 else 0) + n) * (d - 1)
  {
    assert first == (first / d) * d + first % d;
    assert (first / d + downs) * d == (first / d) * d + downs * d;
    assert (1 + n) * (d - 1) == (d - 1) + n * (d - 1);
  }

  lemma {:induction false} Remainders<T>(x: T -> int, down: T -> int, some: T -> int, d: int, list: seq<T>)
    requires d > 0 && forall y | y in list :: x(y) >= 0 && down(y) == x(y) / d && some(y) == if x(y) > 0 then 1 else 0
    ensures 0 <= Sum(x, list) - Sum(down, list) * d <= Sum(some, list) * (d - 1)
  {
    if list != [] {
      Remainders(x, down, some, d, list[1..]);
      RemainderStep(x(list[0]), Sum(x, list[1..]), Sum(down, list[1..]), Sum(some, list[1..]), d);
    }
  }

  lemma {:induction false} SomeNonNegative<T>(some: T -> int, list: seq<T>)
    requires forall y | y in list :: some(y) == 0 || some(y) == 1
    ensures Sum(some, list) >= 0
  {
    SumNonNegative(some, list);
  }

  /** Rounding parts down loses less than one for each part but the first. */
  lemma {:induction false} PartsRoundDown<T>(x: T -> int, down: T -> int, some: T -> int, d: int, list: seq<T>)
    requires d > 0 && forall y | y in list :: x(y) >= 0 && down(y) == x(y) / d && some(y) == if x(y) > 0 then 1 else 0
    ensures Sum(down, list) <= Sum(x, list) / d
    ensures Sum(x, list) / d <= Sum(down, list) + if Sum(some, list) > 0 then Sum(some, list) - 1 else 0
  {
    var total, parts, n := Sum(x, list), Sum(down, list), Sum(some, list);
    Remainders(x, down, some, d, list);
    SomeNonNegative(some, list);
    FloorIff(total, d, parts);
    var most := parts + if n > 0 then n - 1 else 0;
    FloorIff(total, d, most + 1);
    RemaindersFit(total, parts, n, d);
  }

  lemma {:induction false} RemaindersFit(total: int, parts: int, n: int, d: int)
    requires d > 0 && n >= 0 && total - parts * d <= n * (d - 1)
    ensures total < (parts + (if n > 0 then n - 1 else 0) + 1) * d
  {
    if n > 0 {
      assert (parts + (n - 1) + 1) * d == parts * d + n * d;
      assert n * (d - 1) == n * d - n;
    } else {
      assert (parts + 0 + 1) * d == parts * d + d;
    }
  }

  /** A function times a constant sums to the sum times the constant. */
  lemma {:induction false} SumTimes<T>(f: T -> int, g: T -> int, k: int, list: seq<T>)
    requires forall x | x in list :: g(x) == f(x) * k
    ensures Sum(g, list) == Sum(f, list) * k
  {
    if list != [] {
      SumTimes(f, g, k, list[1..]);
      assert (f(list[0]) + Sum(f, list[1..])) * k == f(list[0]) * k + Sum(f, list[1..]) * k;
    }
  }
}
