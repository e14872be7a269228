/** The strings that separate one network, address and tenant from another. */
module ScopeKeys {
  import opened Wrappers
  import opened Sorting

  datatype Network = Mainnet | Testnet

  datatype Scope = Scope(network: Network, address: Option<string>, tenantId: Option<string>)

  function NetworkName(n: Network): string {
    match n case Mainnet => "mainnet" case Testnet => "testnet"
  }

  /** The address part: no address reads as "anonymous". */
  function AddressText(s: Scope): string {
    match s.address case Some(a) => a case None => "anonymous"
  }

  /** The tenant, when it is one: an empty tenant id is no tenant. */
  function Tenant(s: Scope): Option<string> {
    if s.tenantId == Some("") then None else s.tenantId
  }

  function ScopeKey(s: Scope): string {
    (match Tenant(s) case Some(t) => t + "|" case None => "") + NetworkName(s.network) + "|" + AddressText(s)
  }

  predicate SameScope(left: Scope, right: Scope) {
    left == right
  }

  /** `name=value` for each given parameter, joined with `&`. */
  function Query(params: seq<Field<string>>): string {
    if params == [] then ""
    else if |params| == 1 then params[0].name + "=" + params[0].value
    else params[0].name + "=" + params[0].value + "&" + Query(params[1..])
  }

  /** The entries whose value is not undefined. */
  function Given(params: seq<Field<Option<string>>>): seq<Field<string>> {
    if params == [] then []
    else (if params[0].value.Some? then [Field(params[0].name, params[0].value.value)] else []) + Given(params[1..])
  }

  function CacheKey(s: Scope, resource: string, params: seq<Field<Option<string>>>): string {
    var query := Query(Sort(TextBefore, Given(params)));
    ScopeKey(s) + "|" + resource + if query == "" then "" else "?" + query
  }

  /** Every key of a scope starts with this. */
  function Prefix(s: Scope): string {
    ScopeKey(s) + "|"
  }

  // ----- Parameters in any order -----

  lemma {:induction false} GivenMembers(params: seq<Field<Option<string>>>)
    ensures forall f :: f in Given(params) <==> Field(f.name, Some(f.value)) in params
  {
    if params != [] {
      GivenMembers(params[1..]);
      assert params == [params[0]] + params[1..];
      forall f ensures f in Given(params) <==> Field(f.name, Some(f.value)) in params {
        assert f in Given(params[1..]) <==> Field(f.name, Some(f.value)) in params[1..];
      }
    }
  }

  lemma {:induction false} GivenDistinct(params: seq<Field<Option<string>>>)
    requires DistinctNames(params)
    ensures DistinctNames(Given(params))
  {
    if params != [] {
      var rest := params[1..];
      GivenDistinct(rest);
      GivenMembers(rest);
      forall f | f in Given(rest) ensures f.name != params[0].name {
        var i :| 0 <= i < |rest| && rest[i] == Field(f.name, Some(f.value));
        assert params[i + 1] == rest[i];
      }
    }
  }

  /** A key does not depend on the order its parameters were written in, nor on undefined ones. */
  lemma KeyIgnoresOrder(s: Scope, resource: string, a: seq<Field<Option<string>>>, b: seq<Field<Option<string>>>)
    requires DistinctNames(a) && DistinctNames(b)
    requires forall f: Field<Option<string>> | f.value.Some? :: f in a <==> f in b
    ensures CacheKey(s, resource, a) == CacheKey(s, resource, b)
  {
    GivenMembers(a);
    GivenMembers(b);
    GivenDistinct(a);
    GivenDistinct(b);
    forall f ensures f in Given(a) <==> f in Given(b) {
      assert Field(f.name, Some(f.value)) in a <==> Field(f.name, Some(f.value)) in b;
    }
    DistinctCount(Given(a), Given(b));
    DistinctCount(Given(b), Given(a));
    TextSortIgnoresOrder(Given(a), Given(b));
  }

  // ----- Which keys a scope owns -----

  predicate NoBar(s: string) {
    '|' !in s
  }

  /** Tenant and address hold no separator. */
  predicate Plain(s: Scope) {
    NoBar(AddressText(s)) && (Tenant(s).Some? ==> NoBar(Tenant(s).value))
  }

  /** Scopes the key cannot tell apart: an absent address reads as "anonymous", an empty tenant as none. */
  predicate SameKeys(s: Scope, t: Scope) {
    s.network == t.network && AddressText(s) == AddressText(t) && Tenant(s) == Tenant(t)
  }

  /** The first field up to a separator is determined by the text. */
  lemma {:induction false} FieldSplits(a: string, x: string, b: string, y: string)
    requires NoBar(a) && NoBar(b)
    ensures a + "|" + x <= b + "|" + y <==> a == b && x <= y
  {
    var left, right := a + "|" + x, b + "|" + y;
    if a == [] {
      assert left[0] == '|';
      if b == [] {
        assert left[1..] == x && right[1..] == y;
        if x <= y { assert left == [left[0]] + left[1..] && right == [right[0]] + right[1..]; }
      } else {
        assert right[0] == b[0] && b[0] in b;
      }
    } else if b == [] {
      assert right[0] == '|' && left[0] == a[0] && a[0] in a;
    } else {
      assert left[1..] == a[1..] + "|" + x && right[1..] == b[1..] + "|" + y;
      assert left[0] == a[0] && right[0] == b[0];
      FieldSplits(a[1..], x, b[1..], y);
      assert a == [a[0]] + a[1..] && b == [b[0]] + b[1..];
      assert left == [left[0]] + left[1..] && right == [right[0]] + right[1..];
    }
  }

  /** Network and address, then whatever follows: a key without its tenant. */
  function Bare(s: Scope, tail: string): string {
    NetworkName(s.network) + "|" + (AddressText(s) + "|" + tail)
  }

  function Tail(resource: string, params: seq<Field<Option<string>>>): string {
    var query := Query(Sort(TextBefore, Given(params)));
    resource + if query == "" then "" else "?" + query
  }

  lemma KeyShape(s: Scope, resource: string, params: seq<Field<Option<string>>>)
    ensures CacheKey(s, resource, params)
         == (match Tenant(s) case Some(t) => t + "|" + Bare(s, Tail(resource, params))
                             case None => Bare(s, Tail(resource, params)))
  {
  }

  lemma PrefixShape(s: Scope)
    ensures Prefix(s) == (match Tenant(s) case Some(t) => t + "|" + Bare(s, "") case None => Bare(s, ""))
  {
  }

  /** A tenant named like the network of s, whose network is the address of s. */
  predicate NamedLike(s: Scope, t: Scope) {
    && Tenant(s).None?
    && Tenant(t) == Some(NetworkName(s.network)) && AddressText(s) == NetworkName(t.network)
  }

  /**
   * The prefix of s also starts a key of another scope t: read without its tenant, one of the two spells the
   * tenant and network of the other.
   */
  predicate Leaks(s: Scope, t: Scope, tail: string) {
    NamedLike(s, t) || (NamedLike(t, s) && AddressText(s) + "|" <= tail)
  }

  lemma BareSplits(s: Scope, t: Scope, tail: string)
    requires Plain(s) && Plain(t)
    ensures Bare(s, "") <= Bare(t, tail) <==> s.network == t.network && AddressText(s) == AddressText(t)
  {
    FieldSplits(AddressText(s), "", AddressText(t), tail);
    FieldSplits(NetworkName(s.network), AddressText(s) + "|" + "", NetworkName(t.network), AddressText(t) + "|" + tail);
  }

  /** Which keys a scope's prefix starts: those of the scope itself, and those it leaks into. */
  lemma PrefixOwnsKeysIff(s: Scope, t: Scope, resource: string, params: seq<Field<Option<string>>>)
    requires Plain(s) && Plain(t)
    ensures Prefix(s) <= CacheKey(t, resource, params) <==> SameKeys(s, t) || Leaks(s, t, Tail(resource, params))
  {
    var tail := Tail(resource, params);
    KeyShape(t, resource, params);
    PrefixShape(s);
    TenantSplits(s, t, CacheKey(t, resource, params), tail);
  }

  lemma TenantSplits(s: Scope, t: Scope, key: string, tail: string)
    requires Plain(s) && Plain(t)
    requires key == (match Tenant(t) case Some(a) => a + "|" + Bare(t, tail) case None => Bare(t, tail))
    ensures (match Tenant(s) case Some(a) => a + "|" + Bare(s, "") case None => Bare(s, "")) <= key
            <==> SameKeys(s, t) || Leaks(s, t, tail)
  {
    var restS, restT := AddressText(s) + "|" + "", AddressText(t) + "|" + tail;
    match (Tenant(s), Tenant(t)) {
      case (None, None) => BareSplits(s, t, tail);
      case (Some(a), Some(b)) =>
        FieldSplits(a, Bare(s, ""), b, Bare(t, tail));
        BareSplits(s, t, tail);
      case (Some(a), None) =>
        FieldSplits(a, Bare(s, ""), NetworkName(t.network), restT);
        FieldSplits(NetworkName(s.network), restS, AddressText(t), tail);
        assert restS == AddressText(s) + "|";
      case (None, Some(b)) =>
        FieldSplits(NetworkName(s.network), restS, b, Bare(t, tail));
        FieldSplits(AddressText(s), "", NetworkName(t.network), restT);
    }
  }

  /** The two spellings of no address and of no tenant. */
  predicate SpelledAlike(s: Scope, t: Scope) {
    && s.network == t.network
    && (s.address == t.address || {s.address, t.address} == {None, Some("anonymous")})
    && (s.tenantId == t.tenantId || {s.tenantId, t.tenantId} == {None, Some("")})
  }

  /** The same in terms of the scopes: a prefix owns the keys of its scope, however spelled, and those it leaks into. */
  lemma PrefixOwnsScopeIff(s: Scope, t: Scope, resource: string, params: seq<Field<Option<string>>>)
    requires Plain(s) && Plain(t)
    ensures SameScope(s, t) ==> Prefix(s) <= CacheKey(t, resource, params)
    ensures Prefix(s) <= CacheKey(t, resource, params) <==> SpelledAlike(s, t) || Leaks(s, t, Tail(resource, params))
  {
    PrefixOwnsKeysIff(s, t, resource, params);
    PairsAlike(s.address, t.address, "anonymous");
    PairsAlike(s.tenantId, t.tenantId, "");
  }

  lemma PairsAlike(a: Option<string>, b: Option<string>, absent: string)
    ensures a == b || {a, b} == {None, Some(absent)} <==>
            (if a.None? then absent else a.value) == (if b.None? then absent else b.value)
  {
    if a.None? && b == Some(absent) {
      assert {a, b} == {None, Some(absent)};
    } else if b.None? && a == Some(absent) {
      assert {a, b} == {None, Some(absent)};
    } else if a != b {
      assert a in {a, b} && b in {a, b};
    }
  }

  /** Names that leak: a tenant called "mainnet", and a wallet address spelled "mainnet". */
  lemma NetworkNamedTenantLeaks()
    ensures var s := Scope(Mainnet, Some("mainnet"), None);
      var t := Scope(Mainnet, Some("SP1"), Some("mainnet"));
      Prefix(s) <= CacheKey(t, "positions", []) && !SameKeys(s, t)
  {
    var s := Scope(Mainnet, Some("mainnet"), None);
    var t := Scope(Mainnet, Some("SP1"), Some("mainnet"));
    assert Prefix(s) == "mainnet|mainnet|";
    assert CacheKey(t, "positions", []) == "mainnet|mainnet|SP1|positions";
  }

  // ----- Which requests of a scope share a key -----

  /** Names hold neither `=` nor `&`, values no `&`. */
  predicate CleanList(params: seq<Field<string>>) {
    forall f | f in params :: '=' !in f.name && '&' !in f.name && '&' !in f.value
  }

  predicate CleanParams(params: seq<Field<Option<string>>>) {
    forall f | f in params && f.value.Some? :: '=' !in f.name && '&' !in f.name && '&' !in f.value.value
  }

  /** The text up to the first separator, and what follows, are determined by the whole. */
  lemma {:induction false} SplitsAt(c: char, a: string, x: string, b: string, y: string)
    requires c !in a && c !in b
    ensures a + [c] + x == b + [c] + y <==> a == b && x == y
  {
    var left, right := a + [c] + x, b + [c] + y;
    if a == [] {
      assert left[0] == c && left[1..] == x;
      if b == [] { assert right[1..] == y; } else { assert right[0] == b[0] && b[0] in b; }
    } else if b == [] {
      assert right[0] == c && left[0] == a[0] && a[0] in a;
    } else {
      assert left[1..] == a[1..] + [c] + x && right[1..] == b[1..] + [c] + y;
      assert left[0] == a[0] && right[0] == b[0];
      SplitsAt(c, a[1..], x, b[1..], y);
      assert a == [a[0]] + a[1..] && b == [b[0]] + b[1..];
    }
  }

  function Pair(f: Field<string>): string {
    f.name + "=" + f.value
  }

  lemma PairsDiffer(f: Field<string>, g: Field<string>)
    requires '=' !in f.name && '=' !in g.name
    ensures Pair(f) == Pair(g) <==> f == g
  {
    SplitsAt('=', f.name, f.value, g.name, g.value);
  }

  lemma {:induction false} QueryInjective(a: seq<Field<string>>, b: seq<Field<string>>)
    requires CleanList(a) && CleanList(b)
    ensures Query(a) == Query(b) <==> a == b
    decreases |a|
  {
    if a != [] && b != [] {
      assert a[0] in a && b[0] in b;
      PairsDiffer(a[0], b[0]);
      if |a| > 1 && |b| > 1 {
        SplitsAt('&', Pair(a[0]), Query(a[1..]), Pair(b[0]), Query(b[1..]));
        QueryInjective(a[1..], b[1..]);
        assert a == [a[0]] + a[1..] && b == [b[0]] + b[1..];
      } else if |a| > 1 {
        assert '&' in Query(a) by { assert Query(a)[|Pair(a[0])|] == '&'; }
        assert '&' !in Query(b);
      } else if |b| > 1 {
        assert '&' in Query(b) by { assert Query(b)[|Pair(b[0])|] == '&'; }
        assert '&' !in Query(a);
      }
    }
  }

  /** For resources without `?` and clean parameters, requests share a key exactly when they give the same. */
  lemma SameKeyIff(s: Scope, r: string, a: seq<Field<Option<string>>>, q: string, b: seq<Field<Option<string>>>)
    requires '?' !in r && '?' !in q && CleanParams(a) && CleanParams(b)
    requires DistinctNames(a) && DistinctNames(b)
    ensures CacheKey(s, r, a) == CacheKey(s, q, b) <==>
            r == q && forall f: Field<Option<string>> | f.value.Some? :: f in a <==> f in b
  {
    var same := forall f: Field<Option<string>> | f.value.Some? :: f in a <==> f in b;
    var listA, listB := Sort(TextBefore, Given(a)), Sort(TextBefore, Given(b));
    GivenMembers(a);
    GivenMembers(b);
    SortMembers(TextBefore, Given(a));
    SortMembers(TextBefore, Given(b));
    TailsEqualIff(s, r, a, q, b);
    QueryInjective(listA, listB);
    if same { KeyIgnoresOrder(s, r, a, b); }
    if listA == listB {
      forall f: Field<Option<string>> | f.value.Some? ensures f in a <==> f in b {
        assert f == Field(f.name, Some(f.value.value));
        assert Field(f.name, f.value.value) in listA <==> Field(f.name, f.value.value) in listB;
      }
    }
  }

  lemma TailsEqualIff(s: Scope, r: string, a: seq<Field<Option<string>>>, q: string, b: seq<Field<Option<string>>>)
    requires '?' !in r && '?' !in q
    ensures CacheKey(s, r, a) == CacheKey(s, q, b) <==>
            r == q && Query(Sort(TextBefore, Given(a))) == Query(Sort(TextBefore, Given(b)))
  {
    var x, y := Query(Sort(TextBefore, Given(a))), Query(Sort(TextBefore, Given(b)));
    assert CacheKey(s, r, a) == Prefix(s) + Tail(r, a) && CacheKey(s, q, b) == Prefix(s) + Tail(q, b);
    assert Tail(r, a) == CacheKey(s, r, a)[|Prefix(s)|..] && Tail(q, b) == CacheKey(s, q, b)[|Prefix(s)|..];
    if x != "" && y != "" {
      SplitsAt('?', r, x, q, y);
      assert Tail(r, a) == r + ['?'] + x && Tail(q, b) == q + ['?'] + y;
    } else if x != "" {
      assert Tail(r, a)[|r|] == '?' && Tail(q, b) == q;
    } else if y != "" {
      assert Tail(q, b)[|q|] == '?' && Tail(r, a) == r;
    } else {
      assert Tail(q, b) == q && Tail(r, a) == r;
    }
  }

  /** No defined name holds `=` or `&`. */
  predicate CleanNames(params: seq<Field<Option<string>>>) {
    forall f | f in params && f.value.Some? :: '=' !in f.name && '&' !in f.name
  }

  /** A request a caller may make: a resource without `?`, each name once, no name with `=` or `&`. */
  ghost predicate Request(resource: string, params: seq<Field<Option<string>>>) {
    '?' !in resource && DistinctNames(params) && CleanNames(params)
  }

  /** The same resource and the same defined parameters. */
  ghost predicate SameRequest(r: string, a: seq<Field<Option<string>>>, q: string, b: seq<Field<Option<string>>>) {
    r == q && forall f: Field<Option<string>> | f.value.Some? :: f in a <==> f in b
  }

  /** At position i the value goes on as one more parameter would, of a later name. */
  predicate GoesOnAs(f: Field<string>, i: nat, name: string) {
    && i < |f.value| && "&" + name + "=" <= f.value[i..]
    && '=' !in name && '&' !in name && TextBefore(f.name, name)
  }

  /** The value spells a further parameter of a later name. */
  ghost predicate SpellsAnother(f: Field<string>) {
    exists i: nat, name: string :: GoesOnAs(f, i, name)
  }

  /** At most one parameter is given, and its value spells no other. */
  ghost predicate Unambiguous(params: seq<Field<Option<string>>>) {
    |Given(params)| <= 1 && forall f | f in Given(params) :: !SpellsAnother(f)
  }

  /** No other request has the key. */
  ghost predicate OnlyOne(s: Scope, r: string, a: seq<Field<Option<string>>>) {
    forall q, b | Request(q, b) && CacheKey(s, r, a) == CacheKey(s, q, b) :: SameRequest(r, a, q, b)
  }

  lemma GivenClean(params: seq<Field<Option<string>>>)
    requires CleanNames(params)
    ensures forall f | f in Given(params) :: '=' !in f.name && '&' !in f.name
  {
    GivenMembers(params);
    forall f | f in Given(params) ensures '=' !in f.name && '&' !in f.name {
      assert Field(f.name, Some(f.value)) in params;
    }
  }

  /** Requests of one resource are the same when they give the same list. */
  lemma SameGivenSame(r: string, a: seq<Field<Option<string>>>, b: seq<Field<Option<string>>>)
    ensures SameRequest(r, a, r, b) <==> forall f :: f in Given(a) <==> f in Given(b)
  {
    GivenMembers(a);
    GivenMembers(b);
    if SameRequest(r, a, r, b) {
      forall f ensures f in Given(a) <==> f in Given(b) {
        assert Field(f.name, Some(f.value)) in a <==> Field(f.name, Some(f.value)) in b;
      }
    }
    if forall f :: f in Given(a) <==> f in Given(b) {
      forall f: Field<Option<string>> | f.value.Some? ensures f in a <==> f in b {
        assert f == Field(f.name, Some(f.value.value));
        assert Field(f.name, f.value.value) in Given(a) <==> Field(f.name, f.value.value) in Given(b);
      }
    }
  }

  /** The query of a list with names free of `=`, against that of a single parameter. */
  lemma OneOrSpelled(f: Field<string>, list: seq<Field<string>>)
    requires '=' !in f.name && list != [] && (forall g | g in list :: '=' !in g.name && '&' !in g.name)
    requires Query(list) == Pair(f) && Ascending(TextBefore, list)
    ensures list == [f] || SpellsAnother(f)
  {
    assert list[0] in list;
    if |list| == 1 {
      PairsDiffer(list[0], f);
    } else {
      var rest := list[0].value + "&" + Query(list[1..]);
      assert Query(list) == list[0].name + ['='] + rest;
      SplitsAt('=', list[0].name, rest, f.name, f.value);
      var i := |list[0].value|;
      assert f.value[i..] == "&" + Query(list[1..]);
      assert list[1] == list[1..][0] && list[1] in list;
      QueryStarts(list[1..]);
      assert GoesOnAs(f, i, list[1].name);
    }
  }

  lemma QueryStarts(list: seq<Field<string>>)
    requires list != []
    ensures list[0].name + "=" <= Query(list) && "&" + list[0].name + "=" <= "&" + Query(list)
  {
  }

  lemma {:induction false} UnambiguousIsOnly(s: Scope, r: string, a: seq<Field<Option<string>>>, q: string,
                                             b: seq<Field<Option<string>>>)
    requires Request(r, a) && Unambiguous(a) && Request(q, b) && CacheKey(s, r, a) == CacheKey(s, q, b)
    ensures SameRequest(r, a, q, b)
  {
    TailsEqualIff(s, r, a, q, b);
    SameGivenSame(r, a, b);
    SortMembers(TextBefore, Given(a));
    SortMembers(TextBefore, Given(b));
    GivenDistinct(b);
    GivenClean(a);
    GivenClean(b);
    TextSortAscends(Given(b));
    var listA, listB := Sort(TextBefore, Given(a)), Sort(TextBefore, Given(b));
    if Given(a) == [] {
      QueryEmptyIff(listB);
    } else {
      var f := Given(a)[0];
      assert Given(a) == [f] && listA == [f];
      QueryEmptyIff(listB);
      OneOrSpelled(f, listB);
    }
  }

  lemma QueryEmptyIff(list: seq<Field<string>>)
    ensures Query(list) == "" <==> list == []
  {
    if list != [] { assert "=" <= Query(list)[|list[0].name|..]; }
  }

  /** Two or more parameters read as one with a longer value. */
  lemma {:induction false} ManyReadAsOne(s: Scope, r: string, a: seq<Field<Option<string>>>)
    returns (b: seq<Field<Option<string>>>)
    requires Request(r, a) && |Given(a)| >= 2
    ensures Request(r, b) && CacheKey(s, r, a) == CacheKey(s, r, b) && !SameRequest(r, a, r, b)
  {
    var list := Sort(TextBefore, Given(a));
    SortMembers(TextBefore, Given(a));
    GivenClean(a);
    GivenDistinct(a);
    assert list[0] in list;
    var one := Field(list[0].name, list[0].value + "&" + Query(list[1..]));
    b := [Field(one.name, Some(one.value))];
    OneGiven(one);
    assert Query(list) == Query([one]);
    SameGivenSame(r, a, b);
    assert |one.value| > |list[0].value|;
    assert list[0] in Given(a) && list[0] !in Given(b);
  }

  lemma OneGiven(f: Field<string>)
    ensures var b := [Field(f.name, Some(f.value))];
      && Given(b) == [f] && Sort(TextBefore, Given(b)) == [f] && Query([f]) == Pair(f) && DistinctNames(b)
  {
    assert [Field(f.name, Some(f.value))][1..] == [];
    assert [f][1..] == [];
  }

  lemma TwoGiven(f: Field<string>, g: Field<string>)
    requires TextBefore(f.name, g.name)
    ensures var b := [Field(f.name, Some(f.value)), Field(g.name, Some(g.value))];
      && Given(b) == [f, g] && Sort(TextBefore, Given(b)) == [f, g]
      && Query([f, g]) == Pair(f) + "&" + Pair(g) && DistinctNames(b)
  {
    var b := [Field(f.name, Some(f.value)), Field(g.name, Some(g.value))];
    OneGiven(g);
    TextIrreflexive(f.name);
    if TextBefore(g.name, f.name) { TextTransitive(f.name, g.name, f.name); }
    assert b[1..] == [Field(g.name, Some(g.value))] && [f, g][1..] == [g];
    assert Given(b) == [f] + Given(b[1..]);
    assert Sort(TextBefore, [g]) == [g] by { assert [g][1..] == []; }
    assert Sort(TextBefore, [f, g]) == Insert(TextBefore, f, Sort(TextBefore, [f, g][1..]));
    assert Insert(TextBefore, f, [g]) == [f] + [g];
    assert Query([f, g]) == Pair(f) + "&" + Query([f, g][1..]);
    TextIrreflexive(f.name);
  }

  /** A value that spells another parameter reads as two. */
  lemma {:induction false} OneReadsAsTwo(s: Scope, r: string, a: seq<Field<Option<string>>>, f: Field<string>)
    returns (b: seq<Field<Option<string>>>)
    requires Request(r, a) && Given(a) == [f] && SpellsAnother(f)
    ensures Request(r, b) && CacheKey(s, r, a) == CacheKey(s, r, b) && !SameRequest(r, a, r, b)
  {
    GivenClean(a);
    assert f in Given(a);
    var i: nat, name: string :| GoesOnAs(f, i, name);
    var head := "&" + name + "=";
    var tail := f.value[i..][|head|..];
    assert f.value[i..] == head + tail;
    assert f.value == f.value[..i] + f.value[i..];
    var x, y := Field(f.name, f.value[..i]), Field(name, tail);
    b := [Field(x.name, Some(x.value)), Field(y.name, Some(y.value))];
    TwoGiven(x, y);
    SameQueries(f, x, y, i, tail);
    assert Sort(TextBefore, [f]) == [f] by { assert [f][1..] == []; }
    SameGivenSame(r, a, b);
    assert y in Given(b);
    TextIrreflexive(f.name);
    assert y !in Given(a);
  }

  lemma SameQueries(f: Field<string>, x: Field<string>, y: Field<string>, i: nat, tail: string)
    requires i <= |f.value| && f.value == f.value[..i] + ("&" + y.name + "=" + tail)
    requires x == Field(f.name, f.value[..i]) && y.value == tail
    ensures Pair(f) == Pair(x) + "&" + Pair(y)
  {
  }

  /**
   * A request is the only one with its key exactly when it gives at most one parameter, whose value spells no
   * other.
   */
  lemma KeyIsUniqueIff(s: Scope, r: string, a: seq<Field<Option<string>>>)
    requires Request(r, a)
    ensures OnlyOne(s, r, a) <==> Unambiguous(a)
  {
    if Unambiguous(a) {
      forall q, b | Request(q, b) && CacheKey(s, r, a) == CacheKey(s, q, b)
        ensures SameRequest(r, a, q, b)
      {
        UnambiguousIsOnly(s, r, a, q, b);
      }
    } else if |Given(a)| >= 2 {
      var b := ManyReadAsOne(s, r, a);
    } else {
      var f :| f in Given(a) && SpellsAnother(f);
      assert Given(a) == [f];
      var b := OneReadsAsTwo(s, r, a, f);
    }
  }

  /** Nothing is escaped: a value holding `&` spells the parameters of another request. */
  lemma UnescapedCollides(s: Scope, resource: string)
    ensures CacheKey(s, resource, [Field("a", Some("1&b=2"))])
         == CacheKey(s, resource, [Field("a", Some("1")), Field("b", Some("2"))])
  {
    var one := [Field("a", Some("1&b=2"))];
    var two := [Field("a", Some("1")), Field("b", Some("2"))];
    assert one[1..] == [] && two[1..] == [Field("b", Some("2"))] && two[1..][1..] == [];
    var a, b := Field("a", "1"), Field("b", "2");
    assert Given(one) == [Field("a", "1&b=2")] && Given(two) == [a, b];
    assert Sort(TextBefore, [Field("a", "1&b=2")]) == [Field("a", "1&b=2")];
    assert [a, b][1..] == [b] && [b][1..] == [];
    assert Sort(TextBefore, [b]) == [b];
    assert Sort(TextBefore, [a, b]) == [a, b];
    assert Query([b]) == "b=2";
    assert Query([a, b]) == "a=1&b=2";
  }
}
