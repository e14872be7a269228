/** Matching what a plan moves against what was quoted, one list element at a time. */
module Matching {
  import opened Wrappers
  import opened Text
  import opened ScopeKeys
  import opened AssetIds
  import opened Plans
  import opened Lists

  /** What two amounts are compared by: the asset's text and the quantity. */
  datatype AmountKey = AmountKey(asset: string, quantity: int)

  function Key(a: AssetAmount): AmountKey {
    AmountKey(FormatAssetId(a.asset), a.quantity)
  }

  function Keys(list: seq<AssetAmount>): seq<AmountKey> {
    Mapped(Key, list)
  }

  /** The amounts of a list, in no order. */
  function Bag(list: seq<AssetAmount>): multiset<AmountKey> {
    multiset(Keys(list))
  }

  predicate Includes(list: seq<AssetAmount>, target: AssetAmount) {
    exists i | 0 <= i < |list| :: Key(list[i]) == Key(target)
  }

  predicate NativeBtc(asset: AssetId) {
    asset.identity == Native(Btc)
  }

  /** Something a plan takes out of the quoted inputs. */
  datatype Claim = Send(amount: AssetAmount) | Deposit(quantity: int)

  predicate Covers(input: AssetAmount, claim: Claim) {
    match claim
    case Send(amount) => Key(input) == Key(amount)
    case Deposit(quantity) => NativeBtc(input.asset) && input.quantity == quantity
  }

  predicate Available(items: seq<AssetAmount>, claim: Claim) {
    exists i | 0 <= i < |items| :: Covers(items[i], claim)
  }

  /** `findIndex`, with the length for "not found". */
  function FirstIndex(items: seq<AssetAmount>, claim: Claim): (k: nat)
    ensures k <= |items| && (k < |items| ==> Covers(items[k], claim))
    ensures forall j | 0 <= j < k :: !Covers(items[j], claim)
  {
    if items == [] || Covers(items[0], claim) then 0 else 1 + FirstIndex(items[1..], claim)
  }

  /** The pool after a claim has taken what it can. */
  function Taken(items: seq<AssetAmount>, claim: Claim): seq<AssetAmount> {
    Without(items, FirstIndex(items, claim))
  }

  /** A list of amounts that are used up one by one. */
  class AmountPool {
    var items: seq<AssetAmount>

    constructor (items: seq<AssetAmount>)
      ensures this.items == items
    {
      this.items := items;
    }

    method Take(claim: Claim) returns (taken: bool)
      modifies this
      ensures taken <==> Available(old(items), claim)
      ensures items == Taken(old(items), claim)
    {
      var index := FirstIndex(items, claim);
      if index == |items| {
        return false;
      }
      items := Without(items, index);
      return true;
    }
  }

  lemma IncludesIff(items: seq<AssetAmount>, a: AssetAmount)
    ensures Includes(items, a) <==> Key(a) in Keys(items)
  {
    if Includes(items, a) {
      var i :| 0 <= i < |items| && Key(items[i]) == Key(a);
      assert Keys(items)[i] == Key(a);
    }
    if Key(a) in Keys(items) {
      var i :| 0 <= i < |Keys(items)| && Keys(items)[i] == Key(a);
      assert Key(items[i]) == Key(a);
    }
  }

  /** Taking an element out of a list takes its key out of the bag. */
  lemma {:induction false} BagWithout(items: seq<AssetAmount>, k: nat)
    requires k < |items|
    ensures Bag(Without(items, k)) == Bag(items) - multiset{Key(items[k])}
    ensures Bag(items) == Bag(Without(items, k)) + multiset{Key(items[k])}
  {
    MappedWithout(Key, items, k);
  }

  lemma BagWithoutAbsent(items: seq<AssetAmount>, key: AmountKey)
    requires key !in Keys(items)
    ensures Bag(items) == Bag(items) - multiset{key}
  {
  }

  lemma SendFound(items: seq<AssetAmount>, a: AssetAmount)
    ensures FirstIndex(items, Send(a)) < |items| <==> Key(a) in Keys(items)
    ensures Available(items, Send(a)) <==> Key(a) in Keys(items)
  {
    IncludesIff(items, a);
    var k := FirstIndex(items, Send(a));
    if k < |items| { assert Covers(items[k], Send(a)); }
    if Includes(items, a) {
      var i :| 0 <= i < |items| && Key(items[i]) == Key(a);
      assert Covers(items[i], Send(a));
    }
  }

  /** A send takes its own key out of the pool, when it is there. */
  lemma TakeSend(items: seq<AssetAmount>, a: AssetAmount)
    ensures Available(items, Send(a)) <==> Key(a) in Bag(items)
    ensures Bag(Taken(items, Send(a))) == Bag(items) - multiset{Key(a)}
  {
    var k := FirstIndex(items, Send(a));
    SendFound(items, a);
    if k < |items| {
      BagWithout(items, k);
    } else {
      BagWithoutAbsent(items, Key(a));
    }
  }

  // ----- A whole list of claims -----

  /** The pool after each claim in turn has taken what it can. */
  function Leftover(claims: seq<Claim>, pool: seq<AssetAmount>): seq<AssetAmount> {
    if claims == [] then pool else Taken(Leftover(claims[..|claims| - 1], pool), claims[|claims| - 1])
  }

  /** The claims that found nothing. */
  function Failures(claims: seq<Claim>, pool: seq<AssetAmount>): seq<Claim> {
    if claims == [] then []
    else
      var init, last := claims[..|claims| - 1], claims[|claims| - 1];
      Failures(init, pool) + if Available(Leftover(init, pool), last) then [] else [last]
  }

  lemma Unfold(claims: seq<Claim>, c: Claim, pool: seq<AssetAmount>)
    ensures Leftover(claims + [c], pool) == Taken(Leftover(claims, pool), c)
    ensures Failures(claims + [c], pool)
         == Failures(claims, pool) + if Available(Leftover(claims, pool), c) then [] else [c]
  {
    assert (claims + [c])[..|claims|] == claims;
  }

  lemma {:induction false} UnfoldAt(claims: seq<Claim>, k: nat, pool: seq<AssetAmount>)
    requires k < |claims|
    ensures Leftover(claims[..k + 1], pool) == Taken(Leftover(claims[..k], pool), claims[k])
    ensures Failures(claims[..k + 1], pool)
         == Failures(claims[..k], pool) + if Available(Leftover(claims[..k], pool), claims[k]) then [] else [claims[k]]
  {
    assert claims[..k + 1] == claims[..k] + [claims[k]];
    Unfold(claims[..k], claims[k], pool);
  }

  /** Every claim finds an amount of its own, and no amount is left. */
  predicate Fits(claims: seq<Claim>, pool: seq<AssetAmount>) {
    Failures(claims, pool) == [] && Leftover(claims, pool) == []
  }

  ghost predicate Serves(paid: seq<AssetAmount>, claims: seq<Claim>) {
    |paid| == |claims| && forall i | 0 <= i < |claims| :: Covers(paid[i], claims[i])
  }

  /** The amounts can be dealt out to the claims, one each, with none left: whatever the order. */
  ghost predicate Perfect(claims: seq<Claim>, pool: seq<AssetAmount>) {
    exists paid :: Serves(paid, claims) && multiset(paid) == multiset(pool)
  }

  /** Any two native bitcoin amounts of the same quantity are of the same asset. */
  ghost predicate OneBitcoin(pool: seq<AssetAmount>) {
    forall a, b | a in pool && b in pool && NativeBtc(a.asset) && NativeBtc(b.asset) && a.quantity == b.quantity ::
      Key(a) == Key(b)
  }

  lemma TakenMultiset(items: seq<AssetAmount>, claim: Claim)
    requires Available(items, claim)
    ensures var k := FirstIndex(items, claim);
      k < |items| && Covers(items[k], claim) && multiset(items) == multiset(Taken(items, claim)) + multiset{items[k]}
  {
    WithoutMultiset(items, FirstIndex(items, claim));
  }

  /** While no claim has failed, what was paid and what is left make up the pool. */
  lemma {:induction false} Paid(claims: seq<Claim>, pool: seq<AssetAmount>) returns (paid: seq<AssetAmount>)
    requires Failures(claims, pool) == []
    ensures Serves(paid, claims) && multiset(paid) + multiset(Leftover(claims, pool)) == multiset(pool)
  {
    if claims == [] {
      paid := [];
    } else {
      var init, last := claims[..|claims| - 1], claims[|claims| - 1];
      var before := Paid(init, pool);
      var left := Leftover(init, pool);
      TakenMultiset(left, last);
      var next := left[FirstIndex(left, last)];
      PaidMore(before, next, left, Taken(left, last), pool);
      paid := before + [next];
    }
  }

  lemma PaidMore<T>(before: seq<T>, x: T, left: seq<T>, rest: seq<T>, pool: seq<T>)
    requires multiset(before) + multiset(left) == multiset(pool) && multiset(left) == multiset(rest) + multiset{x}
    ensures multiset(before + [x]) + multiset(rest) == multiset(pool)
  {
  }

  lemma FitsIsPerfect(claims: seq<Claim>, pool: seq<AssetAmount>)
    requires Fits(claims, pool)
    ensures Perfect(claims, pool)
  {
    var paid := Paid(claims, pool);
    assert multiset(paid) == multiset(pool);
  }

  /** The text of an asset tells whether it is native bitcoin. */
  lemma TextTellsBitcoin(a: AssetId, b: AssetId)
    requires FormatAssetId(a) == FormatAssetId(b)
    ensures NativeBtc(a) == NativeBtc(b)
  {
    FormatShape(a);
    FormatShape(b);
    FixedFields(a, TailText(a));
    FixedFields(b, TailText(b));
    var parts := Split(FormatAssetId(a), ':');
    assert parts[2] == (if a.identity.Native? then "native" else "contract");
    assert parts[2] == (if b.identity.Native? then "native" else "contract");
    if a.identity.Native? && b.identity.Native? { SameAssetIsEqual(a, b); }
  }

  lemma KeyCovers(a: AssetAmount, b: AssetAmount, claim: Claim)
    requires Key(a) == Key(b)
    ensures Covers(a, claim) == Covers(b, claim)
  {
    TextTellsBitcoin(a.asset, b.asset);
  }

  lemma {:induction false} LeftoverWithin(claims: seq<Claim>, pool: seq<AssetAmount>)
    ensures forall a | a in Leftover(claims, pool) :: a in pool
  {
    if claims != [] { LeftoverWithin(claims[..|claims| - 1], pool); }
  }

  /** A claim takes the key that a perfect matching would have given it. */
  lemma {:induction false} TakesItsKey(left: seq<AssetAmount>, pool: seq<AssetAmount>, p: AssetAmount, claim: Claim)
    requires OneBitcoin(pool) && p in pool && (forall a | a in left :: a in pool)
    requires Covers(p, claim) && Key(p) in Keys(left)
    ensures Available(left, claim) && Bag(Taken(left, claim)) == Bag(left) - multiset{Key(p)}
  {
    IncludesIff(left, p);
    var i :| 0 <= i < |left| && Key(left[i]) == Key(p);
    KeyCovers(left[i], p, claim);
    var k := FirstIndex(left, claim);
    assert left[k] in left && Key(left[k]) == Key(p);
    BagWithout(left, k);
  }

  lemma {:induction false} BagTail(paid: seq<AssetAmount>, k: nat)
    requires k < |paid|
    ensures Bag(paid[k..]) - multiset{Key(paid[k])} == Bag(paid[k + 1..]) && Key(paid[k]) in Bag(paid[k..])
  {
    assert Keys(paid[k..]) == [Key(paid[k])] + Keys(paid[k + 1..]);
  }

  lemma {:induction false} PerfectFitsUpTo(claims: seq<Claim>, pool: seq<AssetAmount>, paid: seq<AssetAmount>, k: nat)
    requires Serves(paid, claims) && multiset(paid) == multiset(pool) && OneBitcoin(pool) && k <= |claims|
    ensures Failures(claims[..k], pool) == [] && Bag(Leftover(claims[..k], pool)) == Bag(paid[k..])
  {
    if k == 0 {
      assert paid[0..] == paid;
      MappedPermuted(Key, paid, pool);
    } else {
      PerfectFitsUpTo(claims, pool, paid, k - 1);
      var left := Leftover(claims[..k - 1], pool);
      LeftoverWithin(claims[..k - 1], pool);
      BagTail(paid, k - 1);
      assert paid[k - 1] in multiset(paid);
      TakesItsKey(left, pool, paid[k - 1], claims[k - 1]);
      UnfoldAt(claims, k - 1, pool);
    }
  }

  lemma BagSize(list: seq<AssetAmount>)
    ensures |Bag(list)| == |list|
  {
  }

  /** With one kind of bitcoin per quantity, taking greedily succeeds exactly when some assignment does. */
  lemma FitsIff(claims: seq<Claim>, pool: seq<AssetAmount>)
    requires OneBitcoin(pool)
    ensures Fits(claims, pool) <==> Perfect(claims, pool)
  {
    if Fits(claims, pool) { FitsIsPerfect(claims, pool); }
    if Perfect(claims, pool) {
      var paid :| Serves(paid, claims) && multiset(paid) == multiset(pool);
      PerfectFitsUpTo(claims, pool, paid, |claims|);
      assert claims[..|claims|] == claims;
      BagSize(Leftover(claims, pool));
      BagSize(paid[|claims|..]);
    }
  }

  // ----- And with two kinds it can miss an assignment -----

  function Sends(list: seq<AssetAmount>): seq<Claim> {
    Mapped(a => Send(a), list)
  }

  lemma {:induction false} SendsStep(list: seq<AssetAmount>, a: AssetAmount)
    ensures Sends(list + [a]) == Sends(list) + [Send(a)] && Bag(list + [a]) == Bag(list) + multiset{Key(a)}
  {
    assert Keys(list + [a]) == Keys(list) + [Key(a)];
  }

  /** Once `sent` is out of a pool, sending one more takes its key out of what is left. */
  lemma SendMore(left: seq<AssetAmount>, pool: multiset<AmountKey>, sent: multiset<AmountKey>, a: AssetAmount)
    requires Bag(left) == pool - sent
    ensures Bag(Taken(left, Send(a))) == pool - (sent + multiset{Key(a)})
  {
    TakeSend(left, a);
    MinusTwice(pool, sent, Key(a));
  }

  lemma {:induction false} OneMoreLeaves(init: seq<AssetAmount>, last: AssetAmount, pool: seq<AssetAmount>)
    requires Bag(Leftover(Sends(init), pool)) == Bag(pool) - Bag(init)
    ensures Bag(Leftover(Sends(init + [last]), pool)) == Bag(pool) - Bag(init + [last])
  {
    var left := Leftover(Sends(init), pool);
    SendsStep(init, last);
    Unfold(Sends(init), Send(last), pool);
    SendMore(left, Bag(pool), Bag(init), last);
    assert Leftover(Sends(init + [last]), pool) == Taken(left, Send(last));
  }

  lemma {:induction false} NothingLeaves(pool: seq<AssetAmount>)
    ensures Bag(Leftover(Sends([]), pool)) == Bag(pool) - Bag([])
  {
    assert Sends([]) == [] && Keys([]) == [];
    MinusNone(Bag(pool));
  }

  lemma MinusNone<T>(a: multiset<T>)
    ensures a - multiset{} == a
  {
  }

  lemma {:induction false} SendsLeave(list: seq<AssetAmount>, pool: seq<AssetAmount>)
    ensures Bag(Leftover(Sends(list), pool)) == Bag(pool) - Bag(list)
    decreases |list|
  {
    if list == [] {
      NothingLeaves(pool);
    } else {
      var init, last := list[..|list| - 1], list[|list| - 1];
      assert init + [last] == list;
      SendsLeave(init, pool);
      OneMoreLeaves(init, last, pool);
    }
  }

  lemma MinusTwice<T>(a: multiset<T>, b: multiset<T>, x: T)
    ensures a - b - multiset{x} == a - (b + multiset{x})
  {
  }

  lemma {:induction false} HeadFirst(c: Claim, claims: seq<Claim>, pool: seq<AssetAmount>)
    ensures Leftover([c] + claims, pool) == Leftover(claims, Taken(pool, c))
  {
    var all := [c] + claims;
    if claims == [] {
      assert all[..0] == [];
    } else {
      var init := claims[..|claims| - 1];
      assert all[..|all| - 1] == [c] + init;
      HeadFirst(c, init, pool);
    }
  }

  lemma {:induction false} StillLeft<T>(a: multiset<T>, x: T, y: T)
    requires x in a && y in a && x != y
    ensures y in a - multiset{x} - (a - multiset{y})
  {
  }

  lemma {:induction false} SendsServe(x: AssetAmount, c: Claim, others: seq<AssetAmount>)
    requires Covers(x, c)
    ensures Serves([x] + others, [c] + Sends(others))
  {
    var paid, claims := [x] + others, [c] + Sends(others);
    forall i | 0 <= i < |claims| ensures Covers(paid[i], claims[i]) {
      if i > 0 { assert paid[i] == others[i - 1] && claims[i] == Send(others[i - 1]); }
    }
  }

  lemma {:induction false} FirstOut<T>(pool: seq<T>, j: nat)
    requires j < |pool|
    ensures multiset([pool[j]] + Without(pool, j)) == multiset(pool)
  {
    WithoutMultiset(pool, j);
  }

  lemma {:induction false} DepositServed(pool: seq<AssetAmount>, j: nat, q: int)
    requires j < |pool| && Covers(pool[j], Deposit(q))
    ensures Perfect([Deposit(q)] + Sends(Without(pool, j)), pool)
  {
    var paid := [pool[j]] + Without(pool, j);
    SendsServe(pool[j], Deposit(q), Without(pool, j));
    FirstOut(pool, j);
    assert Serves(paid, [Deposit(q)] + Sends(Without(pool, j))) && multiset(paid) == multiset(pool);
  }

  /** A deposit and sends for every other amount: perfect, but the deposit takes a bitcoin that a send needs. */
  lemma {:induction false} DepositMisses(pool: seq<AssetAmount>, j: nat, q: int)
    requires j < |pool| && Covers(pool[j], Deposit(q)) && Key(pool[FirstIndex(pool, Deposit(q))]) != Key(pool[j])
    ensures var claims := [Deposit(q)] + Sends(Without(pool, j));
      Perfect(claims, pool) && !Fits(claims, pool)
  {
    var i, others := FirstIndex(pool, Deposit(q)), Without(pool, j);
    DepositServed(pool, j, q);
    HeadFirst(Deposit(q), Sends(others), pool);
    SendsLeave(others, Taken(pool, Deposit(q)));
    BagWithout(pool, i);
    BagWithout(pool, j);
    InBag(pool, i);
    InBag(pool, j);
    StillLeft(Bag(pool), Key(pool[i]), Key(pool[j]));
  }

  lemma InBag(items: seq<AssetAmount>, k: nat)
    requires k < |items|
    ensures Key(items[k]) in Bag(items)
  {
    assert Keys(items)[k] == Key(items[k]);
  }

  /** A deposit that goes wrong when two bitcoins of one quantity differ. */
  lemma {:induction false} MissedDeposit(pool: seq<AssetAmount>) returns (j: nat, q: int)
    requires !OneBitcoin(pool)
    ensures j < |pool| && |pool| > 1
    ensures var claims := [Deposit(q)] + Sends(Without(pool, j)); Perfect(claims, pool) && !Fits(claims, pool)
  {
    var a, b :| a in pool && b in pool && NativeBtc(a.asset) && NativeBtc(b.asset) && a.quantity == b.quantity
      && Key(a) != Key(b);
    var i: nat :| i < |pool| && pool[i] == a;
    j :| j < |pool| && pool[j] == b;
    q := a.quantity;
    assert Covers(pool[i], Deposit(q)) && Covers(pool[j], Deposit(q));
    if Key(pool[FirstIndex(pool, Deposit(q))]) == Key(b) { j := i; }
    DepositMisses(pool, j, q);
  }

  lemma {:induction false} TwoBitcoinsMiss(pool: seq<AssetAmount>)
    requires !OneBitcoin(pool)
    ensures exists claims :: Perfect(claims, pool) && !Fits(claims, pool)
  {
    var j, q := MissedDeposit(pool);
  }

  /** Exactly when greedy matching can be relied on for every list of claims. */
  lemma {:induction false} GreedyExactIff(pool: seq<AssetAmount>)
    ensures OneBitcoin(pool) <==> forall claims :: Fits(claims, pool) <==> Perfect(claims, pool)
  {
    if OneBitcoin(pool) {
      forall claims ensures Fits(claims, pool) <==> Perfect(claims, pool) { FitsIff(claims, pool); }
    } else {
      TwoBitcoinsMiss(pool);
    }
  }
}
