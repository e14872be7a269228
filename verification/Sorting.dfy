/** A stable sort of named entries, by an order in which different names may tie. */
module Sorting {

  datatype Field<+V> = Field(name: string, value: V)

  /** A strict order in which being tied is transitive. */
  ghost predicate WeakOrder(before: (string, string) -> bool) {
    && (forall a :: !before(a, a))
    && (forall a, b, c | before(a, b) && before(b, c) :: before(a, c))
    && (forall a, b, c | Tie(before, a, b) && Tie(before, b, c) :: Tie(before, a, c))
  }

  /** Neither of two names comes before the other. */
  predicate Tie(before: (string, string) -> bool, a: string, b: string) {
    !before(a, b) && !before(b, a)
  }

  lemma Between(before: (string, string) -> bool, a: string, b: string, c: string)
    requires WeakOrder(before) && before(a, c)
    ensures before(a, b) || before(b, c)
  {
    assert Tie(before, a, b) && Tie(before, b, c) ==> Tie(before, a, c);
  }

  /** No two different names of the entries tie. */
  ghost predicate NoTie<V>(before: (string, string) -> bool, entries: seq<Field<V>>) {
    forall i, j | 0 <= i < |entries| && 0 <= j < |entries| && entries[i].name != entries[j].name ::
      !Tie(before, entries[i].name, entries[j].name)
  }

  ghost predicate DistinctNames<V>(entries: seq<Field<V>>) {
    forall i, j | 0 <= i < j < |entries| :: entries[i].name != entries[j].name
  }

  ghost predicate Ascending<V>(before: (string, string) -> bool, entries: seq<Field<V>>) {
    forall i, j | 0 <= i < j < |entries| :: before(entries[i].name, entries[j].name)
  }

  /** Nothing comes before what precedes it. */
  ghost predicate InOrder<V>(before: (string, string) -> bool, entries: seq<Field<V>>) {
    forall i, j | 0 <= i < j < |entries| :: !before(entries[j].name, entries[i].name)
  }

  function Insert<V>(before: (string, string) -> bool, e: Field<V>, entries: seq<Field<V>>): seq<Field<V>> {
    if entries != [] && before(entries[0].name, e.name) then [entries[0]] + Insert(before, e, entries[1..])
    else [e] + entries
  }

  /** Entries that tie stay in the order they came in. */
  function Sort<V>(before: (string, string) -> bool, entries: seq<Field<V>>): seq<Field<V>> {
    if entries == [] then [] else Insert(before, entries[0], Sort(before, entries[1..]))
  }

  lemma {:induction false} InsertMembers<V(!new)>(before: (string, string) -> bool, e: Field<V>, entries: seq<Field<V>>)
    ensures forall x :: x in Insert(before, e, entries) <==> x == e || x in entries
    ensures |Insert(before, e, entries)| == |entries| + 1
  {
    if entries != [] && before(entries[0].name, e.name) {
      InsertMembers(before, e, entries[1..]);
    }
  }

  lemma {:induction false} SortMembers<V(!new)>(before: (string, string) -> bool, entries: seq<Field<V>>)
    ensures forall x :: x in Sort(before, entries) <==> x in entries
    ensures |Sort(before, entries)| == |entries|
  {
    if entries != [] {
      SortMembers(before, entries[1..]);
      InsertMembers(before, entries[0], Sort(before, entries[1..]));
    }
  }

  lemma {:induction false} InsertDistinct<V(!new)>(before: (string, string) -> bool, e: Field<V>,
                                                   entries: seq<Field<V>>)
    requires DistinctNames(entries) && forall x | x in entries :: x.name != e.name
    ensures DistinctNames(Insert(before, e, entries))
  {
    if entries != [] && before(entries[0].name, e.name) {
      var rest := entries[1..];
      InsertDistinct(before, e, rest);
      InsertMembers(before, e, rest);
      forall x | x in Insert(before, e, rest) ensures x.name != entries[0].name {
        if x != e {
          var i :| 0 <= i < |rest| && rest[i] == x;
          assert entries[i + 1] == x;
        }
      }
    }
  }

  lemma HeadApart<V(!new)>(entries: seq<Field<V>>)
    requires DistinctNames(entries) && entries != []
    ensures DistinctNames(entries[1..]) && forall x | x in entries[1..] :: x.name != entries[0].name
  {
    forall x | x in entries[1..] ensures x.name != entries[0].name {
      var i :| 0 <= i < |entries[1..]| && entries[1..][i] == x;
      assert entries[i + 1] == x;
    }
  }

  /** Sorting keeps names distinct, whatever the order. */
  lemma {:induction false} SortDistinct<V(!new)>(before: (string, string) -> bool, entries: seq<Field<V>>)
    requires DistinctNames(entries)
    ensures DistinctNames(Sort(before, entries))
  {
    if entries != [] {
      HeadApart(entries);
      SortDistinct(before, entries[1..]);
      SortMembers(before, entries[1..]);
      InsertDistinct(before, entries[0], Sort(before, entries[1..]));
    }
  }

  lemma {:induction false} InsertInOrder<V(!new)>(before: (string, string) -> bool, e: Field<V>, entries: seq<Field<V>>)
    requires WeakOrder(before) && InOrder(before, entries)
    ensures InOrder(before, Insert(before, e, entries))
  {
    if entries != [] && before(entries[0].name, e.name) {
      var rest := entries[1..];
      InsertInOrder(before, e, rest);
      InsertMembers(before, e, rest);
      forall x | x in Insert(before, e, rest) ensures !before(x.name, entries[0].name) {
        if x != e {
          var i :| 0 <= i < |rest| && rest[i] == x;
          assert entries[i + 1] == x;
        }
      }
    } else if entries != [] {
      forall j | 0 <= j < |entries| ensures !before(entries[j].name, e.name) {
        if j > 0 {
          assert !before(entries[j].name, entries[0].name);
          if before(entries[j].name, e.name) { Between(before, entries[j].name, entries[0].name, e.name); }
        }
      }
    }
  }

  lemma {:induction false} SortInOrder<V(!new)>(before: (string, string) -> bool, entries: seq<Field<V>>)
    requires WeakOrder(before)
    ensures InOrder(before, Sort(before, entries))
  {
    if entries != [] {
      SortInOrder(before, entries[1..]);
      InsertInOrder(before, entries[0], Sort(before, entries[1..]));
    }
  }

  /** What is in order already stays as it is. */
  lemma {:induction false} SortStays<V(!new)>(before: (string, string) -> bool, entries: seq<Field<V>>)
    requires InOrder(before, entries)
    ensures Sort(before, entries) == entries
  {
    if entries != [] {
      SortStays(before, entries[1..]);
      assert |entries| > 1 ==> !before(entries[1].name, entries[0].name);
      assert entries == [entries[0]] + entries[1..];
    }
  }

  /** Without ties in order means strictly ascending. */
  lemma {:induction false} SortAscends<V(!new)>(before: (string, string) -> bool, entries: seq<Field<V>>)
    requires WeakOrder(before) && DistinctNames(entries) && NoTie(before, entries)
    ensures Ascending(before, Sort(before, entries))
  {
    var sorted := Sort(before, entries);
    SortInOrder(before, entries);
    SortDistinct(before, entries);
    SortMembers(before, entries);
    forall i, j | 0 <= i < j < |sorted| ensures before(sorted[i].name, sorted[j].name) {
      assert sorted[i] in sorted && sorted[j] in sorted;
      var k :| 0 <= k < |entries| && entries[k] == sorted[i];
      var l :| 0 <= l < |entries| && entries[l] == sorted[j];
      assert !Tie(before, entries[k].name, entries[l].name);
    }
  }

  /** Ascending lists with the same members are the same list. */
  lemma {:induction false} AscendingUnique<V(!new)>(before: (string, string) -> bool, a: seq<Field<V>>,
                                             b: seq<Field<V>>)
    requires WeakOrder(before) && Ascending(before, a) && Ascending(before, b)
    requires |a| == |b| && forall x :: x in a <==> x in b
    ensures a == b
  {
    if a != [] {
      assert a[0] in b;
      assert b[0] in a;
      assert a[0] == b[0];
      forall x ensures x in a[1..] <==> x in b[1..] {
        TailMember(before, a, x);
        TailMember(before, b, x);
      }
      AscendingUnique(before, a[1..], b[1..]);
      assert a == [a[0]] + a[1..] && b == [b[0]] + b[1..];
    }
  }

  lemma TailMember<V(!new)>(before: (string, string) -> bool, a: seq<Field<V>>, x: Field<V>)
    requires WeakOrder(before) && Ascending(before, a) && a != []
    ensures x in a[1..] <==> x in a && x != a[0]
  {
    if x in a && x != a[0] {
      var i :| 0 <= i < |a| && a[i] == x;
      assert a[1..][i - 1] == x;
    }
    if x in a[1..] {
      var i :| 0 <= i < |a[1..]| && a[1..][i] == x;
      assert a[i + 1] == x;
      assert before(a[0].name, a[i + 1].name);
    }
  }

  lemma NoTieEither<V(!new)>(before: (string, string) -> bool, a: seq<Field<V>>, b: seq<Field<V>>)
    requires NoTie(before, a) && forall x | x in b :: x in a
    ensures NoTie(before, b)
  {
    forall i, j | 0 <= i < |b| && 0 <= j < |b| && b[i].name != b[j].name
      ensures !Tie(before, b[i].name, b[j].name)
    {
      assert b[i] in b && b[j] in b;
      var k :| 0 <= k < |a| && a[k] == b[i];
      var l :| 0 <= l < |a| && a[l] == b[j];
    }
  }

  /** Two orders of the same distinctly named entries sort to one list when none of them tie. */
  lemma SortIgnoresOrder<V(!new)>(before: (string, string) -> bool, a: seq<Field<V>>, b: seq<Field<V>>)
    requires WeakOrder(before) && DistinctNames(a) && DistinctNames(b) && NoTie(before, a)
    requires |a| == |b| && forall x :: x in a <==> x in b
    ensures Sort(before, a) == Sort(before, b)
  {
    NoTieEither(before, a, b);
    SortAscends(before, a);
    SortAscends(before, b);
    SortMembers(before, a);
    SortMembers(before, b);
    AscendingUnique(before, Sort(before, a), Sort(before, b));
  }

  /** A tie in a sorted list shows between neighbours. */
  lemma NeighboursTie<V(!new)>(before: (string, string) -> bool, list: seq<Field<V>>, i: nat, j: nat)
    requires WeakOrder(before) && InOrder(before, list)
    requires i < j < |list| && Tie(before, list[i].name, list[j].name)
    ensures Tie(before, list[i].name, list[i + 1].name)
  {
    var a, b, c := list[i].name, list[i + 1].name, list[j].name;
    if before(a, b) { Between(before, a, c, b); }
    assert i + 1 < j ==> !before(c, b);
  }

  /** Two neighbours exchanged. */
  function Exchanged<V>(list: seq<V>, k: nat): (swapped: seq<V>)
    requires k + 1 < |list|
    ensures |swapped| == |list|
    ensures forall i | 0 <= i < |list| ::
      swapped[i] == if i == k then list[k + 1] else if i == k + 1 then list[k] else list[i]
  {
    list[k := list[k + 1]][k + 1 := list[k]]
  }

  lemma {:induction false} ExchangedMembers<V(!new)>(list: seq<V>, k: nat)
    requires k + 1 < |list|
    ensures forall x :: x in Exchanged(list, k) <==> x in list
  {
    var swapped := Exchanged(list, k);
    forall x ensures x in swapped <==> x in list {
      if x in list {
        var i :| 0 <= i < |list| && list[i] == x;
        assert swapped[if i == k then k + 1 else if i == k + 1 then k else i] == x;
      }
      if x in swapped {
        var i :| 0 <= i < |swapped| && swapped[i] == x;
        assert list[if i == k then k + 1 else if i == k + 1 then k else i] == x;
      }
    }
  }

  lemma {:induction false} ExchangedDistinct<V(!new)>(list: seq<Field<V>>, k: nat)
    requires DistinctNames(list) && k + 1 < |list|
    ensures DistinctNames(Exchanged(list, k))
  {
  }

  lemma ExchangedInOrder<V(!new)>(before: (string, string) -> bool, list: seq<Field<V>>, k: nat)
    requires WeakOrder(before) && InOrder(before, list)
    requires k + 1 < |list| && Tie(before, list[k].name, list[k + 1].name)
    ensures InOrder(before, Exchanged(list, k))
  {
    var swapped := Exchanged(list, k);
    forall i, j | 0 <= i < j < |list| ensures !before(swapped[j].name, swapped[i].name) {
      var i0 := if i == k then k + 1 else if i == k + 1 then k else i;
      var j0 := if j == k then k + 1 else if j == k + 1 then k else j;
      if i0 < j0 { assert !before(list[j0].name, list[i0].name); }
    }
  }

  lemma {:induction false} DistinctCount<V(!new)>(a: seq<Field<V>>, b: seq<Field<V>>)
    requires DistinctNames(a) && forall f | f in a :: f in b
    ensures |a| <= |b|
  {
    if a != [] {
      assert a[0] in b;
      var i :| 0 <= i < |b| && b[i] == a[0];
      var b' := b[..i] + b[i + 1..];
      forall f | f in a[1..] ensures f in b' {
        var j :| 0 <= j < |a[1..]| && a[1..][j] == f;
        assert a[j + 1] == f && a[0].name != a[j + 1].name && f in b;
        var k :| 0 <= k < |b| && b[k] == f;
        if k < i { assert b'[k] == f; } else { assert b'[k - 1] == f; }
      }
      DistinctCount(a[1..], b');
    }
  }

  /** The language's own string order, character by character. */
  predicate TextBefore(a: string, b: string) {
    b != [] && (a == [] || a[0] < b[0] || (a[0] == b[0] && TextBefore(a[1..], b[1..])))
  }

  lemma {:induction false} TextIrreflexive(a: string)
    ensures !TextBefore(a, a)
  {
    if a != [] { TextIrreflexive(a[1..]); }
  }

  lemma {:induction false} TextTransitive(a: string, b: string, c: string)
    requires TextBefore(a, b) && TextBefore(b, c)
    ensures TextBefore(a, c)
  {
    if a != [] && a[0] == b[0] && b[0] == c[0] { TextTransitive(a[1..], b[1..], c[1..]); }
  }

  lemma {:induction false} TextTotal(a: string, b: string)
    requires a != b
    ensures TextBefore(a, b) || TextBefore(b, a)
  {
    if a != [] && b != [] && a[0] == b[0] {
      assert a == [a[0]] + a[1..] && b == [b[0]] + b[1..];
      TextTotal(a[1..], b[1..]);
    }
  }

  lemma TextBeforeIsWeak()
    ensures WeakOrder(TextBefore)
  {
    forall a ensures !TextBefore(a, a) { TextIrreflexive(a); }
    forall a, b, c | TextBefore(a, b) && TextBefore(b, c) ensures TextBefore(a, c) { TextTransitive(a, b, c); }
    forall a, b | Tie(TextBefore, a, b) ensures a == b {
      if a != b { TextTotal(a, b); }
    }
  }

  /** In that order different names never tie. */
  lemma TextNeverTies<V(!new)>(entries: seq<Field<V>>)
    ensures NoTie(TextBefore, entries)
  {
    forall i, j | 0 <= i < |entries| && 0 <= j < |entries| && entries[i].name != entries[j].name
      ensures !Tie(TextBefore, entries[i].name, entries[j].name)
    {
      TextTotal(entries[i].name, entries[j].name);
    }
  }

  lemma TextSortAscends<V(!new)>(entries: seq<Field<V>>)
    requires DistinctNames(entries)
    ensures Ascending(TextBefore, Sort(TextBefore, entries))
  {
    TextBeforeIsWeak();
    TextNeverTies(entries);
    SortAscends(TextBefore, entries);
  }

  lemma TextSortIgnoresOrder<V(!new)>(a: seq<Field<V>>, b: seq<Field<V>>)
    requires DistinctNames(a) && DistinctNames(b) && |a| == |b| && forall x :: x in a <==> x in b
    ensures Sort(TextBefore, a) == Sort(TextBefore, b)
  {
    TextBeforeIsWeak();
    TextNeverTies(a);
    SortIgnoresOrder(TextBefore, a, b);
  }
}
