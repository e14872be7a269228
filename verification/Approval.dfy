/** What a plan may do on behalf of a quote, read off the plan step by step: the reference for the verdict. */
module Approval {
  import opened Wrappers
  import opened Sorting
  import opened ScopeKeys
  import opened AssetIds
  import opened Plans
  import opened Matching
  import opened Signing
  import Lists
  import Units

  /** An amount by its asset's text and its quantity. */
  datatype Named = Named(asset: string, quantity: int)

  function NameOf(a: AssetAmount): Named {
    Named(FormatAssetId(a.asset), a.quantity)
  }

  ghost function Total(amounts: seq<AssetAmount>): multiset<Named> {
    if amounts == [] then multiset{} else multiset{NameOf(amounts[0])} + Total(amounts[1..])
  }

  ghost predicate Listed(a: AssetAmount, amounts: seq<AssetAmount>) {
    exists b :: b in amounts && NameOf(b) == NameOf(a)
  }

  // ----- Addresses -----

  /** Digits and capital letters without I, L, O and U. */
  const ADDRESS_CHARS: set<char> := {
    '0', '1', '2', '3', '4', '5', '6', '7', '8', '9', 'A', 'B', 'C', 'D', 'E', 'F', 'G', 'H', 'J', 'K', 'M', 'N', 'P',
    'Q', 'R', 'S', 'T', 'V', 'W', 'X', 'Y', 'Z'}

  /** The second letter tells the network, and 36 to 40 characters of the alphabet follow. */
  ghost predicate AddressOf(address: string, network: Network) {
    && 38 <= |address| <= 42
    && address[0] == 'S' && address[1] in (if network == Mainnet then {'P', 'M'} else {'T', 'N'})
    && forall i | 2 <= i < |address| :: address[i] in ADDRESS_CHARS
  }

  lemma AlphabetIff(c: char)
    ensures IsC32(c) <==> c in ADDRESS_CHARS
  {
  }

  /** Every text is read as an address of the one network it belongs to, or of none. */
  lemma AddressNetworkIff(address: string, network: Network)
    ensures StacksAddressNetwork(address) == Some(network) <==> AddressOf(address, network)
  {
    forall i | 2 <= i < |address| ensures IsC32(address[i]) <==> address[i] in ADDRESS_CHARS {
      AlphabetIff(address[i]);
    }
  }

  // ----- What leaves the wallet -----

  /** All post-conditions but those that promise a receipt bound what is sent. */
  ghost function SentBy(conditions: seq<PostCondition>): multiset<Named> {
    if conditions == [] then multiset{}
    else
      var last := conditions[|conditions| - 1];
      SentBy(conditions[..|conditions| - 1])
        + if last.mode == ReceiveGte then multiset{} else multiset{NameOf(last.amount)}
  }

  ghost function SentIn(payload: Payload): multiset<Named> {
    match payload
    case StacksCall(_, _, _, conditions, _, _) => SentBy(conditions)
    case BitcoinDeposit(_, _, _, _, _, _) => multiset{}
  }

  ghost function DepositedIn(payload: Payload): multiset<int> {
    match payload
    case StacksCall(_, _, _, _, _, _) => multiset{}
    case BitcoinDeposit(Text(sats), _, _, _, _, _) =>
      var quantity := Units.ParseQuantity(sats);
      if quantity.Some? then multiset{quantity.value} else multiset{}
    case BitcoinDeposit(Number, _, _, _, _, _) => multiset{}
  }

  ghost function Outgoing(steps: seq<PlanStep>): multiset<Named> {
    if steps == [] then multiset{} else Outgoing(steps[..|steps| - 1]) + SentIn(steps[|steps| - 1].payload)
  }

  ghost function Deposits(steps: seq<PlanStep>): multiset<int> {
    if steps == [] then multiset{} else Deposits(steps[..|steps| - 1]) + DepositedIn(steps[|steps| - 1].payload)
  }

  ghost function Quantities(amounts: seq<AssetAmount>): multiset<int> {
    if amounts == [] then multiset{} else multiset{amounts[0].quantity} + Quantities(amounts[1..])
  }

  ghost predicate AllBitcoin(amounts: seq<AssetAmount>) {
    forall b | b in amounts :: b.asset.identity == Native(Btc)
  }

  /**
   * The inputs are exactly what the plan sends and deposits: the sends by asset and quantity, the deposits by
   * quantity, each with a native bitcoin input of its own.
   */
  ghost predicate SpendsExactly(steps: seq<PlanStep>, input: seq<AssetAmount>) {
    exists btc :: SpendsWith(steps, input, btc)
  }

  ghost predicate SpendsWith(steps: seq<PlanStep>, input: seq<AssetAmount>, btc: seq<AssetAmount>) {
    AllBitcoin(btc) && Quantities(btc) == Deposits(steps) && Total(input) == Outgoing(steps) + Total(btc)
  }

  // ----- The same of a list of claims -----

  ghost function ClaimedSends(claims: seq<Claim>): multiset<Named> {
    if claims == [] then multiset{}
    else (if claims[0].Send? then multiset{NameOf(claims[0].amount)} else multiset{}) + ClaimedSends(claims[1..])
  }

  ghost function ClaimedDeposits(claims: seq<Claim>): multiset<int> {
    if claims == [] then multiset{}
    else (if claims[0].Deposit? then multiset{claims[0].quantity} else multiset{}) + ClaimedDeposits(claims[1..])
  }

  lemma {:induction false} ClaimedAppend(a: seq<Claim>, b: seq<Claim>)
    ensures ClaimedSends(a + b) == ClaimedSends(a) + ClaimedSends(b)
    ensures ClaimedDeposits(a + b) == ClaimedDeposits(a) + ClaimedDeposits(b)
  {
    if a == [] {
      assert a + b == b;
    } else {
      assert (a + b)[1..] == a[1..] + b;
      ClaimedAppend(a[1..], b);
    }
  }

  lemma {:induction false} TotalAppend(a: seq<AssetAmount>, b: seq<AssetAmount>)
    ensures Total(a + b) == Total(a) + Total(b)
  {
    if a == [] {
      assert a + b == b;
    } else {
      assert (a + b)[1..] == a[1..] + b;
      TotalAppend(a[1..], b);
    }
  }

  lemma {:induction false} ClaimOfIsSent(c: PostCondition)
    ensures ClaimedSends(ClaimOf(c)) == if c.mode == ReceiveGte then multiset{} else multiset{NameOf(c.amount)}
    ensures ClaimedDeposits(ClaimOf(c)) == multiset{}
  {
    assert ClaimOf(c) == [] || ClaimOf(c)[1..] == [];
  }

  lemma {:induction false} SendClaimsAreSent(conditions: seq<PostCondition>)
    ensures ClaimedSends(SendClaims(conditions)) == SentBy(conditions)
    ensures ClaimedDeposits(SendClaims(conditions)) == multiset{}
  {
    if conditions != [] {
      var init, last := conditions[..|conditions| - 1], conditions[|conditions| - 1];
      SendClaimsAreSent(init);
      ClaimOfIsSent(last);
      ClaimedAppend(SendClaims(init), ClaimOf(last));
    }
  }

  lemma {:induction false} StepClaimsAreSpent(step: PlanStep)
    ensures ClaimedSends(StepClaims(step)) == SentIn(step.payload)
    ensures ClaimedDeposits(StepClaims(step)) == DepositedIn(step.payload)
  {
    if step.payload.StacksCall? {
      SendClaimsAreSent(step.payload.postConditions);
    } else {
      assert StepClaims(step) == [] || StepClaims(step)[1..] == [];
    }
  }

  /** The claims that are taken out of the inputs are what the plan sends and deposits. */
  lemma {:induction false} ClaimsAreSpent(steps: seq<PlanStep>)
    ensures ClaimedSends(Claims(steps)) == Outgoing(steps)
    ensures ClaimedDeposits(Claims(steps)) == Deposits(steps)
  {
    if steps != [] {
      var init, last := steps[..|steps| - 1], steps[|steps| - 1];
      ClaimsAreSpent(init);
      StepClaimsAreSpent(last);
      ClaimedAppend(Claims(init), StepClaims(last));
    }
  }

  // ----- Dealing the inputs out -----

  lemma {:induction false} ServedSplits(paid: seq<AssetAmount>, claims: seq<Claim>) returns (btc: seq<AssetAmount>)
    requires Serves(paid, claims)
    ensures AllBitcoin(btc) && Quantities(btc) == ClaimedDeposits(claims)
    ensures Total(paid) == ClaimedSends(claims) + Total(btc)
  {
    if claims == [] {
      btc := [];
    } else {
      assert Serves(paid[1..], claims[1..]);
      var rest := ServedSplits(paid[1..], claims[1..]);
      assert Covers(paid[0], claims[0]);
      if claims[0].Deposit? {
        btc := [paid[0]] + rest;
        assert btc[1..] == rest;
      } else {
        btc := rest;
      }
    }
  }

  lemma {:induction false} TotalMember(amounts: seq<AssetAmount>, n: Named) returns (k: nat)
    requires n in Total(amounts)
    ensures k < |amounts| && NameOf(amounts[k]) == n
  {
    if NameOf(amounts[0]) == n {
      k := 0;
    } else {
      var j := TotalMember(amounts[1..], n);
      k := j + 1;
    }
  }

  lemma {:induction false} TotalPermuted(a: seq<AssetAmount>, b: seq<AssetAmount>)
    requires multiset(a) == multiset(b)
    ensures Total(a) == Total(b)
  {
    var k := Lists.Pair(a, b);
    if a != [] {
      TotalPermuted(a[1..], Lists.Without(b, k));
      TotalWithout(b, k);
    }
  }

  lemma {:induction false} TotalWithout(a: seq<AssetAmount>, k: nat)
    requires k < |a|
    ensures Total(a) == multiset{NameOf(a[k])} + Total(Lists.Without(a, k))
  {
    assert a == a[..k] + a[k..] && a[k..][1..] == a[k + 1..];
    TotalAppend(a[..k], a[k..]);
    TotalAppend(a[..k], a[k + 1..]);
  }

  lemma {:induction false} QuantityMember(amounts: seq<AssetAmount>, q: int) returns (k: nat)
    requires q in Quantities(amounts)
    ensures k < |amounts| && amounts[k].quantity == q
  {
    if amounts[0].quantity == q {
      k := 0;
    } else {
      var j := QuantityMember(amounts[1..], q);
      k := j + 1;
    }
  }

  lemma {:induction false} QuantitiesWithout(a: seq<AssetAmount>, k: nat)
    requires k < |a|
    ensures Quantities(a) == multiset{a[k].quantity} + Quantities(Lists.Without(a, k))
  {
    if k == 0 {
      assert Lists.Without(a, 0) == a[1..];
    } else {
      Lists.WithoutTail(a, k);
      QuantitiesWithout(a[1..], k - 1);
      assert Lists.Without(a, k)[1..] == Lists.Without(a[1..], k - 1);
    }
  }

  lemma {:induction false} Sizes(amounts: seq<AssetAmount>)
    ensures |Quantities(amounts)| == |amounts| && |Total(amounts)| == |amounts|
  {
    if amounts != [] { Sizes(amounts[1..]); }
  }

  lemma OneOut<T>(total: multiset<T>, x: T, rest: multiset<T>, other: multiset<T>)
    requires total == multiset{x} + rest && total == multiset{x} + other
    ensures rest == other
  {
    assert total - multiset{x} == rest && total - multiset{x} == other;
  }

  lemma Regroup<T>(x: multiset<T>, a: multiset<T>, b: multiset<T>)
    ensures (x + a) + b == x + (a + b) && a + (x + b) == x + (a + b)
  {
  }

  /** A send is given an input of its own name. */
  lemma {:induction false} DealSend(amount: AssetAmount, sends: multiset<Named>, input: seq<AssetAmount>)
    returns (k: nat)
    requires Total(input) == multiset{NameOf(amount)} + sends
    ensures k < |input| && Covers(input[k], Send(amount)) && Total(Lists.Without(input, k)) == sends
  {
    k := TotalMember(input, NameOf(amount));
    TotalWithout(input, k);
    OneOut(Total(input), NameOf(amount), Total(Lists.Without(input, k)), sends);
  }

  /** A deposit is given an input named like one of the bitcoin amounts set aside for deposits. */
  lemma {:induction false} DealDeposit(q: int, deposits: multiset<int>, sends: multiset<Named>, input: seq<AssetAmount>,
                                       btc: seq<AssetAmount>)
    returns (k: nat, rest: seq<AssetAmount>)
    requires AllBitcoin(btc) && Quantities(btc) == multiset{q} + deposits && Total(input) == sends + Total(btc)
    ensures k < |input| && Covers(input[k], Deposit(q))
    ensures AllBitcoin(rest) && Quantities(rest) == deposits
    ensures Total(Lists.Without(input, k)) == sends + Total(rest)
  {
    var j := QuantityMember(btc, q);
    QuantitiesWithout(btc, j);
    TotalWithout(btc, j);
    rest := Lists.Without(btc, j);
    OneOut(Quantities(btc), q, Quantities(rest), deposits);
    Regroup(multiset{NameOf(btc[j])}, sends, Total(rest));
    k := DealSend(btc[j], sends + Total(rest), input);
    TextTellsBitcoin(input[k].asset, btc[j].asset);
  }

  lemma {:induction false} ServesMore(x: AssetAmount, paid: seq<AssetAmount>, claims: seq<Claim>)
    requires claims != [] && Covers(x, claims[0]) && Serves(paid, claims[1..])
    ensures Serves([x] + paid, claims)
  {
  }

  lemma HeadSend(claims: seq<Claim>, more: multiset<Named>)
    requires claims != [] && claims[0].Send?
    ensures ClaimedSends(claims) + more == multiset{NameOf(claims[0].amount)} + (ClaimedSends(claims[1..]) + more)
    ensures ClaimedDeposits(claims) == ClaimedDeposits(claims[1..])
  {
    Regroup(multiset{NameOf(claims[0].amount)}, ClaimedSends(claims[1..]), more);
    assert multiset{} + ClaimedDeposits(claims[1..]) == ClaimedDeposits(claims[1..]);
  }

  lemma HeadDeposit(claims: seq<Claim>)
    requires claims != [] && claims[0].Deposit?
    ensures ClaimedDeposits(claims) == multiset{claims[0].quantity} + ClaimedDeposits(claims[1..])
    ensures ClaimedSends(claims) == ClaimedSends(claims[1..])
  {
    assert multiset{} + ClaimedSends(claims[1..]) == ClaimedSends(claims[1..]);
  }

  lemma {:induction false} DealFirst(claims: seq<Claim>, input: seq<AssetAmount>, btc: seq<AssetAmount>)
    returns (k: nat, rest: seq<AssetAmount>)
    requires claims != [] && AllBitcoin(btc) && Quantities(btc) == ClaimedDeposits(claims)
    requires Total(input) == ClaimedSends(claims) + Total(btc)
    ensures k < |input| && Covers(input[k], claims[0])
    ensures AllBitcoin(rest) && Quantities(rest) == ClaimedDeposits(claims[1..])
    ensures Total(Lists.Without(input, k)) == ClaimedSends(claims[1..]) + Total(rest)
  {
    var sends, deposits := ClaimedSends(claims[1..]), ClaimedDeposits(claims[1..]);
    if claims[0].Send? {
      HeadSend(claims, Total(btc));
      k := DealSend(claims[0].amount, sends + Total(btc), input);
      rest := btc;
    } else {
      HeadDeposit(claims);
      k, rest := DealDeposit(claims[0].quantity, deposits, sends, input, btc);
    }
  }

  /** Each claim in turn is given an input of its own, and the others are left what is theirs. */
  lemma {:induction false} DealOut(claims: seq<Claim>, input: seq<AssetAmount>, btc: seq<AssetAmount>)
    returns (paid: seq<AssetAmount>)
    requires AllBitcoin(btc) && Quantities(btc) == ClaimedDeposits(claims)
    requires Total(input) == ClaimedSends(claims) + Total(btc)
    ensures Serves(paid, claims) && multiset(paid) == multiset(input)
    decreases |claims|
  {
    if claims == [] {
      Sizes(btc);
      Sizes(input);
      paid := [];
    } else {
      var k, rest := DealFirst(claims, input, btc);
      var others := DealOut(claims[1..], Lists.Without(input, k), rest);
      Lists.WithoutMultiset(input, k);
      ServesMore(input[k], others, claims);
      paid := [input[k]] + others;
    }
  }

  /** An assignment of inputs to claims exists exactly when the inputs are what the plan sends and deposits. */
  lemma {:induction false} PerfectIff(steps: seq<PlanStep>, input: seq<AssetAmount>)
    ensures Perfect(Claims(steps), input) <==> SpendsExactly(steps, input)
  {
    ClaimsAreSpent(steps);
    if Perfect(Claims(steps), input) {
      var paid :| Serves(paid, Claims(steps)) && multiset(paid) == multiset(input);
      var btc := ServedSplits(paid, Claims(steps));
      TotalPermuted(paid, input);
      assert SpendsWith(steps, input, btc);
    }
    if SpendsExactly(steps, input) {
      var btc :| SpendsWith(steps, input, btc);
      var paid := DealOut(Claims(steps), input, btc);
    }
  }

  lemma {:induction false} TakenTotal(items: seq<AssetAmount>, a: AssetAmount)
    ensures Available(items, Send(a)) <==> NameOf(a) in Total(items)
    ensures Total(Taken(items, Send(a))) == Total(items) - multiset{NameOf(a)}
  {
    var k := FirstIndex(items, Send(a));
    if NameOf(a) in Total(items) {
      var i := TotalMember(items, NameOf(a));
      assert Covers(items[i], Send(a));
    }
    if k < |items| {
      TotalWithout(items, k);
      OneLess(Total(items), NameOf(a), Total(Taken(items, Send(a))));
    } else {
      assert Total(items)[NameOf(a)] == 0;
    }
  }

  lemma OneLess<T>(total: multiset<T>, x: T, rest: multiset<T>)
    requires total == multiset{x} + rest
    ensures rest == total - multiset{x} && x in total
  {
  }

  lemma OneMoreTaken<T>(pool: multiset<T>, sent: multiset<T>, x: T)
    ensures pool - sent - multiset{x} == pool - (sent + multiset{x})
    ensures sent + multiset{x} <= pool <==> sent <= pool && x in pool - sent
  {
    if sent <= pool && x in pool - sent {
      forall y ensures (sent + multiset{x})[y] <= pool[y] {}
    }
    if sent + multiset{x} <= pool {
      assert (sent + multiset{x})[x] <= pool[x];
    }
  }

  /** Sends alone take their names out of the inputs. */
  lemma {:induction false} OnlySendsLeave(claims: seq<Claim>, pool: seq<AssetAmount>)
    requires ClaimedDeposits(claims) == multiset{}
    ensures Total(Leftover(claims, pool)) == Total(pool) - ClaimedSends(claims)
  {
    if claims != [] {
      var init, last := claims[..|claims| - 1], claims[|claims| - 1];
      assert claims == init + [last];
      ClaimedAppend(init, [last]);
      SendClaimed(last);
      OnlySendsLeave(init, pool);
      TakenTotal(Leftover(init, pool), last.amount);
      OneMoreTaken(Total(pool), ClaimedSends(init), NameOf(last.amount));
    }
  }

  /** And none fails exactly when the inputs hold them all. */
  lemma {:induction false} OnlySendsFail(claims: seq<Claim>, pool: seq<AssetAmount>)
    requires ClaimedDeposits(claims) == multiset{}
    ensures Failures(claims, pool) == [] <==> ClaimedSends(claims) <= Total(pool)
  {
    if claims != [] {
      var init, last := claims[..|claims| - 1], claims[|claims| - 1];
      assert claims == init + [last];
      ClaimedAppend(init, [last]);
      SendClaimed(last);
      OnlySendsFail(init, pool);
      OnlySendsLeave(init, pool);
      TakenTotal(Leftover(init, pool), last.amount);
      OneMoreTaken(Total(pool), ClaimedSends(init), NameOf(last.amount));
    }
  }

  lemma SendClaimed(claim: Claim)
    ensures claim.Send? ==> ClaimedSends([claim]) == multiset{NameOf(claim.amount)}
    ensures claim.Deposit? ==> ClaimedDeposits([claim]) == multiset{claim.quantity}
  {
    assert [claim][1..] == [];
  }

  lemma {:induction false} FailedWasClaimed(claims: seq<Claim>, pool: seq<AssetAmount>)
    requires ClaimedDeposits(claims) == multiset{}
    ensures forall f | f in Failures(claims, pool) :: f.Send?
  {
    if claims != [] {
      var init, last := claims[..|claims| - 1], claims[|claims| - 1];
      assert claims == init + [last];
      ClaimedAppend(init, [last]);
      SendClaimed(last);
      FailedWasClaimed(init, pool);
    }
  }

  // ----- The plan as a whole -----

  predicate Bound(plan: Plan, quote: Quote, ctx: SigningContext) {
    && plan.quoteId == quote.id
    && plan.network == quote.network == ctx.network
    && plan.registryVersion == quote.registryVersion == ctx.registryVersion
    && plan.adapterVersion == quote.adapterVersion
    && plan.expiresAt == quote.expiresAt && TextBefore(ctx.now, plan.expiresAt)
    && quote.executable && plan.steps != []
  }

  ghost predicate AddressesOwn(ctx: SigningContext, kindOf: string -> Option<BitcoinNetwork>) {
    && (ctx.sender.Some? ==> AddressOf(ctx.sender.value, ctx.network))
    && (forall a | a in ctx.bitcoinAddresses :: kindOf(a) == Some(AnchorOf(ctx.network)))
  }

  /** The bitcoin network a Stacks network is anchored to. */
  ghost function AnchorOf(network: Network): BitcoinNetwork {
    if network == Mainnet then BitcoinMainnet else Regtest
  }

  predicate DependsSoundly(step: PlanStep, steps: seq<PlanStep>) {
    forall d | d in step.dependsOn :: d != step.id && exists k | 0 <= k < |steps| :: steps[k].id == d
  }

  /** Step ids are distinct, and a step depends only on other steps of the plan. */
  predicate DependenciesSound(steps: seq<PlanStep>) {
    && (forall i, j | 0 <= i < j < |steps| :: steps[i].id != steps[j].id)
    && (forall i | 0 <= i < |steps| :: DependsSoundly(steps[i], steps))
  }

  ghost predicate OnQuote(a: AssetAmount, quote: Quote) {
    || Listed(a, quote.input) || Listed(a, quote.expectedOutput)
    || (quote.minimumOutput.Some? && NameOf(quote.minimumOutput.value) == NameOf(a))
  }

  ghost predicate Promised(a: AssetAmount, quote: Quote) {
    || Listed(a, quote.expectedOutput)
    || (quote.minimumOutput.Some? && NameOf(quote.minimumOutput.value) == NameOf(a))
  }

  ghost function EffectTotal(steps: seq<PlanStep>): multiset<Named> {
    if steps == [] then multiset{}
    else EffectTotal(steps[..|steps| - 1]) + Total(steps[|steps| - 1].expectedAssetEffects)
  }

  /** Every expected effect is an amount of the quote, and together they hold every quoted output. */
  ghost predicate EffectsFit(steps: seq<PlanStep>, quote: Quote) {
    && (forall i, a | 0 <= i < |steps| && a in steps[i].expectedAssetEffects :: OnQuote(a, quote))
    && Total(quote.expectedOutput) <= EffectTotal(steps)
  }

  ghost predicate Conditioned(payload: Payload, c: PostCondition) {
    payload.StacksCall? && c in payload.postConditions
  }

  ghost predicate ConditionFits(c: PostCondition, quote: Quote, ctx: SigningContext) {
    && AddressOf(c.principal, ctx.network)
    && (c.mode != ReceiveGte && ctx.sender.Some? ==> c.principal == ctx.sender.value)
    && (c.mode == ReceiveGte ==> Promised(c.amount, quote))
  }

  ghost predicate ConditionsFit(steps: seq<PlanStep>, quote: Quote, ctx: SigningContext) {
    forall i, c | 0 <= i < |steps| && Conditioned(steps[i].payload, c) :: ConditionFits(c, quote, ctx)
  }

  ghost predicate IsInteger(value: Scalar) {
    value.Text? && Units.ParseQuantity(value.text).Some?
  }

  predicate CallSafe(payload: Payload, network: Network, ctx: SigningContext)
    requires payload.StacksCall?
  {
    && ctx.allowedContracts.Some? && payload.contractId in ctx.allowedContracts.value
    && payload.denyMode && payload.postConditions != [] && payload.callNetwork == network && ctx.sender.Some?
  }

  /** Every amount the payload carries reads as an integer. */
  ghost predicate IsFinancial(payload: Payload) {
    match payload
    case BitcoinDeposit(sats, _, _, _, maxFee, _) => IsInteger(sats) && IsInteger(maxFee)
    case StacksCall(_, _, arguments, _, _, _) =>
      forall i, value | 0 <= i < |arguments| && arguments[i] == UintValue(value) :: IsInteger(value)
  }

  ghost predicate StepFits(step: PlanStep, network: Network, ctx: SigningContext) {
    && IsFinancial(step.payload)
    && match step.payload
       case BitcoinDeposit(_, recipient, bitcoinNetwork, _, _, _) =>
         bitcoinNetwork == AnchorOf(network) && AddressOf(recipient, network)
       case StacksCall(_, _, _, _, _, _) => CallSafe(step.payload, network, ctx)
  }

  /**
   * The plan does what the quote says: bound to it and fresh, no more is sent than quoted, no less is received, every
   * input is accounted for, and each step is one the user may sign.
   */
  ghost predicate Approved(plan: Plan, quote: Quote, ctx: SigningContext, kindOf: string -> Option<BitcoinNetwork>) {
    && Bound(plan, quote, ctx) && AddressesOwn(ctx, kindOf)
    && DependenciesSound(plan.steps) && EffectsFit(plan.steps, quote)
    && ConditionsFit(plan.steps, quote, ctx) && SpendsExactly(plan.steps, quote.input)
    && (forall i | 0 <= i < |plan.steps| :: StepFits(plan.steps[i], plan.network, ctx))
  }
}
