/** The whole verdict on a plan, and what an empty list of reasons means. */
module Validation {
  import opened Wrappers
  import opened Sorting
  import opened ScopeKeys
  import opened AssetIds
  import opened Plans
  import opened Matching
  import opened Signing
  import opened Approval
  import Decimal
  import Lists
  import Wire

  // ----- The plan as a whole -----

  /** The plan is of another quote, network or registry. */
  predicate IdentityHolds(r: Reason, plan: Plan, quote: Quote, ctx: SigningContext) {
    match r
    case QuoteMismatch => plan.quoteId != quote.id
    case NetworkMismatch => plan.network != ctx.network || quote.network != ctx.network
    case NetworksDisagree => plan.network != quote.network
    case RegistryMismatch => plan.registryVersion != ctx.registryVersion || quote.registryVersion != ctx.registryVersion
    case AdapterMismatch => plan.adapterVersion != quote.adapterVersion
    case _ => false
  }

  method IdentityReasons(plan: Plan, quote: Quote, ctx: SigningContext) returns (reasons: seq<Reason>)
    ensures forall r :: r in reasons <==> IdentityHolds(r, plan, quote, ctx)
  {
    reasons := When(plan.quoteId != quote.id, QuoteMismatch);
    reasons := reasons + When(plan.network != ctx.network || quote.network != ctx.network, NetworkMismatch);
    reasons := reasons + When(plan.network != quote.network, NetworksDisagree);
    var otherRegistry := plan.registryVersion != ctx.registryVersion || quote.registryVersion != ctx.registryVersion;
    reasons := reasons + When(otherRegistry, RegistryMismatch);
    reasons := reasons + When(plan.adapterVersion != quote.adapterVersion, AdapterMismatch);
  }

  predicate IsExpired(plan: Plan, quote: Quote, ctx: SigningContext) {
    !TextBefore(ctx.now, quote.expiresAt) || !TextBefore(ctx.now, plan.expiresAt)
  }

  /** The plan is stale, or there is nothing in it to sign. */
  predicate LifetimeHolds(r: Reason, plan: Plan, quote: Quote, ctx: SigningContext) {
    match r
    case ExpiryMismatch => plan.expiresAt != quote.expiresAt
    case Expired => IsExpired(plan, quote, ctx)
    case NotExecutable => !quote.executable
    case NoSteps => plan.steps == []
    case _ => false
  }

  method LifetimeReasons(plan: Plan, quote: Quote, ctx: SigningContext) returns (reasons: seq<Reason>)
    ensures forall r :: r in reasons <==> LifetimeHolds(r, plan, quote, ctx)
  {
    reasons := When(plan.expiresAt != quote.expiresAt, ExpiryMismatch);
    reasons := reasons + When(IsExpired(plan, quote, ctx), Expired);
    reasons := reasons + When(!quote.executable, NotExecutable);
    reasons := reasons + When(plan.steps == [], NoSteps);
  }

  /** `kindOf` classifies a bitcoin address by network. */
  predicate AddressHolds(r: Reason, ctx: SigningContext, kindOf: string -> Option<BitcoinNetwork>) {
    || (r == SenderNetwork && ctx.sender.Some? && StacksAddressNetwork(ctx.sender.value) != Some(ctx.network))
    || (r == BitcoinAddressNetwork
        && exists a | a in ctx.bitcoinAddresses :: kindOf(a) != Some(BitcoinFor(ctx.network)))
  }

  method AddressReasons(ctx: SigningContext, kindOf: string -> Option<BitcoinNetwork>) returns (reasons: seq<Reason>)
    ensures forall r :: r in reasons <==> AddressHolds(r, ctx, kindOf)
  {
    var sender := When(ctx.sender.Some? && StacksAddressNetwork(ctx.sender.value) != Some(ctx.network), SenderNetwork);
    reasons := sender;
    var list := ctx.bitcoinAddresses;
    for k := 0 to |list|
      invariant forall r :: r in reasons <==>
        || r in sender
        || (r == BitcoinAddressNetwork && exists i | 0 <= i < k :: kindOf(list[i]) != Some(BitcoinFor(ctx.network)))
    {
      if kindOf(list[k]) != Some(BitcoinFor(ctx.network)) {
        reasons := reasons + [BitcoinAddressNetwork];
      }
    }
  }

  // ----- Each step on its own -----

  /** Every amount the payload carries reads as an integer: both deposit amounts, or the call's own uint arguments. */
  predicate PayloadFinancial(payload: Payload) {
    match payload
    case BitcoinDeposit(amountSats, _, _, _, maxSignerFeeSats, _) =>
      FinancialInt(amountSats).Some? && FinancialInt(maxSignerFeeSats).Some?
    case StacksCall(_, _, functionArgs, _, _, _) =>
      forall i | 0 <= i < |functionArgs| :: functionArgs[i].UintValue? ==> FinancialInt(functionArgs[i].value).Some?
  }

  predicate CallHolds(r: Reason, payload: Payload, network: Network, ctx: SigningContext)
    requires payload.StacksCall?
  {
    match r
    case RegistryUnavailable => ctx.allowedContracts.None?
    case ContractNotApproved(contract) =>
      ctx.allowedContracts.Some? && contract == payload.contractId && contract !in ctx.allowedContracts.value
    case NotDenyMode => !payload.denyMode
    case NoPostConditions => payload.postConditions == []
    case CallNetwork => payload.callNetwork != network
    case SenderRequired => ctx.sender.None?
    case _ => false
  }

  method CallReasons(payload: Payload, network: Network, ctx: SigningContext) returns (reasons: seq<Reason>)
    requires payload.StacksCall?
    ensures forall r :: r in reasons <==> CallHolds(r, payload, network, ctx)
  {
    if ctx.allowedContracts.None? {
      reasons := [RegistryUnavailable];
    } else {
      reasons := When(payload.contractId !in ctx.allowedContracts.value, ContractNotApproved(payload.contractId));
    }
    reasons := reasons + When(!payload.denyMode, NotDenyMode);
    reasons := reasons + When(payload.postConditions == [], NoPostConditions);
    reasons := reasons + When(payload.callNetwork != network, CallNetwork);
    reasons := reasons + When(ctx.sender.None?, SenderRequired);
  }

  predicate DepositHolds(r: Reason, payload: Payload, network: Network)
    requires payload.BitcoinDeposit?
  {
    || (r == DepositNetwork && payload.bitcoinNetwork != BitcoinFor(network))
    || (r == RecipientNetwork && StacksAddressNetwork(payload.stacksRecipient) != Some(network))
  }

  predicate StepHolds(r: Reason, step: PlanStep, network: Network, ctx: SigningContext) {
    || (r == NotFinancial && !PayloadFinancial(step.payload))
    || (step.payload.StacksCall? && CallHolds(r, step.payload, network, ctx))
    || (step.payload.BitcoinDeposit? && DepositHolds(r, step.payload, network))
  }

  method StepReasons(step: PlanStep, network: Network, ctx: SigningContext) returns (reasons: seq<Reason>)
    ensures forall r :: r in reasons <==> StepHolds(r, step, network, ctx)
  {
    reasons := When(!PayloadFinancial(step.payload), NotFinancial);
    if step.payload.StacksCall? {
      var call := CallReasons(step.payload, network, ctx);
      reasons := reasons + call;
    } else {
      reasons := reasons + When(step.payload.bitcoinNetwork != BitcoinFor(network), DepositNetwork);
      reasons := reasons + When(StacksAddressNetwork(step.payload.stacksRecipient) != Some(network), RecipientNetwork);
    }
  }

  // ----- The verdict -----

  predicate EffectHolds(r: Reason, plan: Plan, quote: Quote) {
    || (r == ForeignEffect && Foreign(Effects(plan.steps), References(quote)) > 0)
    || (r == MissingOutput && Missing(quote.expectedOutput, Effects(plan.steps)) > 0)
  }

  predicate AnyStepHolds(r: Reason, steps: seq<PlanStep>, network: Network, ctx: SigningContext) {
    exists i | 0 <= i < |steps| :: StepHolds(r, steps[i], network, ctx)
  }

  /** When a reason is to be reported. */
  predicate Holds(r: Reason, plan: Plan, quote: Quote, ctx: SigningContext, kindOf: string -> Option<BitcoinNetwork>) {
    || IdentityHolds(r, plan, quote, ctx)
    || LifetimeHolds(r, plan, quote, ctx)
    || AddressHolds(r, ctx, kindOf)
    || DependencyHolds(r, plan.steps, plan.steps)
    || EffectHolds(r, plan, quote)
    || BindingHolds(r, plan.steps, quote, ctx)
    || AnyStepHolds(r, plan.steps, plan.network, ctx)
  }

  lemma {:induction false} InTimes(n: nat, r: Reason)
    ensures forall x :: x in Times(n, r) <==> n > 0 && x == r
  {
    if n > 0 { InTimes(n - 1, r); }
  }

  method AllStepReasons(plan: Plan, ctx: SigningContext) returns (reasons: seq<Reason>)
    ensures forall r :: r in reasons <==> AnyStepHolds(r, plan.steps, plan.network, ctx)
  {
    reasons := [];
    for k := 0 to |plan.steps|
      invariant forall r :: r in reasons <==> exists i | 0 <= i < k :: StepHolds(r, plan.steps[i], plan.network, ctx)
    {
      var own := StepReasons(plan.steps[k], plan.network, ctx);
      reasons := reasons + own;
    }
  }

  /** Reports exactly the reasons that hold; throws exactly when some deposit amount is not an integer. */
  method ValidatePlan(plan: Plan, quote: Quote, ctx: SigningContext, kindOf: string -> Option<BitcoinNetwork>)
    returns (result: Result<seq<Reason>, Thrown>)
    ensures result.Ok? <==> Readable(plan.steps)
    ensures result.Ok? ==> forall r :: r in result.value <==> Holds(r, plan, quote, ctx, kindOf)
  {
    var identity := IdentityReasons(plan, quote, ctx);
    var lifetime := LifetimeReasons(plan, quote, ctx);
    var addresses := AddressReasons(ctx, kindOf);
    var dependencies := DependsOnReasons(plan);
    var effects := EffectBindingReasons(plan, quote);
    var conditions := PostConditionBindingReasons(plan, quote, ctx);
    if conditions.Err? {
      return conditions;
    }
    var steps := AllStepReasons(plan, ctx);
    InTimes(Foreign(Effects(plan.steps), References(quote)), ForeignEffect);
    InTimes(Missing(quote.expectedOutput, Effects(plan.steps)), MissingOutput);
    result := Ok(identity + lifetime + addresses + dependencies + effects + conditions.value + steps);
  }

  // ----- What an empty verdict means -----

  ghost predicate NoReason(plan: Plan, quote: Quote, ctx: SigningContext, kindOf: string -> Option<BitcoinNetwork>) {
    forall r :: !Holds(r, plan, quote, ctx, kindOf)
  }

  predicate AddressesFit(ctx: SigningContext, kindOf: string -> Option<BitcoinNetwork>) {
    && (ctx.sender.Some? ==> StacksAddressNetwork(ctx.sender.value) == Some(ctx.network))
    && (forall a | a in ctx.bitcoinAddresses :: kindOf(a) == Some(BitcoinFor(ctx.network)))
  }

  predicate EffectsBound(plan: Plan, quote: Quote) {
    && (forall a | a in Effects(plan.steps) :: Includes(References(quote), a))
    && Bag(quote.expectedOutput) <= Bag(Effects(plan.steps))
  }

  predicate ConditionsBound(conditions: seq<PostCondition>, quote: Quote, ctx: SigningContext) {
    forall c | c in conditions ::
      && StacksAddressNetwork(c.principal) == Some(ctx.network)
      && (IsSend(c.mode) && ctx.sender.Some? ==> c.principal == ctx.sender.value)
      && (c.mode.ReceiveGte? ==> Includes(ReceivePool(quote), c.amount))
  }

  predicate StepSafe(step: PlanStep, network: Network, ctx: SigningContext) {
    && PayloadFinancial(step.payload)
    && (step.payload.StacksCall? ==> CallSafe(step.payload, network, ctx))
    && (step.payload.BitcoinDeposit? ==>
          && step.payload.bitcoinNetwork == BitcoinFor(network)
          && StacksAddressNetwork(step.payload.stacksRecipient) == Some(network))
  }

  /** The checks of the verdict, taken together. */
  ghost predicate Passable(plan: Plan, quote: Quote, ctx: SigningContext, kindOf: string -> Option<BitcoinNetwork>) {
    && Bound(plan, quote, ctx) && AddressesFit(ctx, kindOf)
    && DependenciesSound(plan.steps) && EffectsBound(plan, quote)
    && ConditionsBound(Conditions(plan.steps), quote, ctx) && Perfect(Claims(plan.steps), quote.input)
    && (forall i | 0 <= i < |plan.steps| :: StepSafe(plan.steps[i], plan.network, ctx))
  }

  lemma {:induction false} ListedIff(a: AssetAmount, amounts: seq<AssetAmount>)
    ensures Includes(amounts, a) <==> Listed(a, amounts)
  {
    if Includes(amounts, a) {
      var i :| 0 <= i < |amounts| && Key(amounts[i]) == Key(a);
      assert amounts[i] in amounts && NameOf(amounts[i]) == NameOf(a);
    }
    if Listed(a, amounts) {
      var b :| b in amounts && NameOf(b) == NameOf(a);
      var i :| 0 <= i < |amounts| && amounts[i] == b;
      assert Key(amounts[i]) == Key(a);
    }
  }

  lemma {:induction false} ListedAppend(a: AssetAmount, some: seq<AssetAmount>, more: seq<AssetAmount>)
    ensures Listed(a, some + more) <==> Listed(a, some) || Listed(a, more)
  {
    assert forall b :: b in some + more <==> b in some || b in more;
  }

  lemma {:induction false} MinimumListed(a: AssetAmount, quote: Quote)
    ensures Listed(a, Minimum(quote)) <==> quote.minimumOutput.Some? && NameOf(quote.minimumOutput.value) == NameOf(a)
  {
    if quote.minimumOutput.Some? { assert quote.minimumOutput.value in Minimum(quote); }
  }

  lemma {:induction false} OnQuoteIff(a: AssetAmount, quote: Quote)
    ensures Includes(References(quote), a) <==> OnQuote(a, quote)
    ensures Includes(ReceivePool(quote), a) <==> Promised(a, quote)
  {
    ListedIff(a, References(quote));
    ListedIff(a, ReceivePool(quote));
    MinimumListed(a, quote);
    ListedAppend(a, quote.expectedOutput, Minimum(quote));
    ListedAppend(a, quote.input, quote.expectedOutput);
    ListedAppend(a, quote.input + quote.expectedOutput, Minimum(quote));
  }

  lemma {:induction false} ConditionIn(steps: seq<PlanStep>, c: PostCondition)
    ensures c in Conditions(steps) <==> exists i | 0 <= i < |steps| :: Conditioned(steps[i].payload, c)
  {
    if steps != [] {
      var init, last := steps[..|steps| - 1], steps[|steps| - 1];
      ConditionIn(init, c);
      assert c in StepConditions(last) <==> Conditioned(last.payload, c);
      assert forall i | 0 <= i < |init| :: init[i] == steps[i];
    }
  }

  lemma {:induction false} ConditionsFitIff(steps: seq<PlanStep>, quote: Quote, ctx: SigningContext)
    ensures ConditionsBound(Conditions(steps), quote, ctx) <==> ConditionsFit(steps, quote, ctx)
  {
    forall c
      ensures c in Conditions(steps) <==> exists i | 0 <= i < |steps| :: Conditioned(steps[i].payload, c)
      ensures StacksAddressNetwork(c.principal) == Some(ctx.network) <==> AddressOf(c.principal, ctx.network)
      ensures Includes(ReceivePool(quote), c.amount) <==> Promised(c.amount, quote)
    {
      ConditionIn(steps, c);
      AddressNetworkIff(c.principal, ctx.network);
      OnQuoteIff(c.amount, quote);
    }
    if ConditionsFit(steps, quote, ctx) {
      forall c | c in Conditions(steps) ensures ConditionFits(c, quote, ctx) {
        var i :| 0 <= i < |steps| && Conditioned(steps[i].payload, c);
      }
    }
  }

  lemma {:induction false} EffectIn(steps: seq<PlanStep>, a: AssetAmount)
    ensures a in Effects(steps) <==> exists i | 0 <= i < |steps| :: a in steps[i].expectedAssetEffects
  {
    if steps != [] {
      var init := steps[..|steps| - 1];
      EffectIn(init, a);
      assert forall i | 0 <= i < |init| :: init[i] == steps[i];
    }
  }

  lemma {:induction false} EffectTotalIs(steps: seq<PlanStep>)
    ensures Total(Effects(steps)) == EffectTotal(steps)
  {
    if steps != [] {
      var init, last := steps[..|steps| - 1], steps[|steps| - 1];
      EffectTotalIs(init);
      TotalAppend(Effects(init), last.expectedAssetEffects);
    }
  }

  lemma {:induction false} BagFirst(amounts: seq<AssetAmount>)
    requires amounts != []
    ensures Bag(amounts) == multiset{Key(amounts[0])} + Bag(amounts[1..])
  {
    assert Keys(amounts) == [Key(amounts[0])] + Keys(amounts[1..]);
  }

  lemma {:induction false} BagIsTotal(amounts: seq<AssetAmount>, a: AssetAmount)
    ensures Bag(amounts)[Key(a)] == Total(amounts)[NameOf(a)]
  {
    if amounts != [] {
      BagFirst(amounts);
      BagIsTotal(amounts[1..], a);
    }
  }

  lemma {:induction false} WithinIff(some: seq<AssetAmount>, all: seq<AssetAmount>)
    ensures Bag(some) <= Bag(all) <==> Total(some) <= Total(all)
  {
    if Bag(some) <= Bag(all) {
      forall n ensures Total(some)[n] <= Total(all)[n] {
        if n in Total(some) {
          var k := TotalMember(some, n);
          BagIsTotal(some, some[k]);
          BagIsTotal(all, some[k]);
        }
      }
    }
    if Total(some) <= Total(all) {
      forall key ensures Bag(some)[key] <= Bag(all)[key] {
        if key in Bag(some) {
          var k :| 0 <= k < |some| && Keys(some)[k] == key;
          BagIsTotal(some, some[k]);
          BagIsTotal(all, some[k]);
        }
      }
    }
  }

  lemma {:induction false} EffectsFitIff(plan: Plan, quote: Quote)
    ensures EffectsBound(plan, quote) <==> EffectsFit(plan.steps, quote)
  {
    WithinIff(quote.expectedOutput, Effects(plan.steps));
    EffectTotalIs(plan.steps);
    forall a
      ensures a in Effects(plan.steps) <==> exists i | 0 <= i < |plan.steps| :: a in plan.steps[i].expectedAssetEffects
      ensures Includes(References(quote), a) <==> OnQuote(a, quote)
    {
      EffectIn(plan.steps, a);
      OnQuoteIff(a, quote);
    }
  }

  lemma {:induction false} AddressesFitIff(ctx: SigningContext, kindOf: string -> Option<BitcoinNetwork>)
    ensures AddressesFit(ctx, kindOf) <==> AddressesOwn(ctx, kindOf)
  {
    if ctx.sender.Some? { AddressNetworkIff(ctx.sender.value, ctx.network); }
  }

  lemma {:induction false} StepFitsIff(step: PlanStep, network: Network, ctx: SigningContext)
    ensures StepSafe(step, network, ctx) <==> StepFits(step, network, ctx)
  {
    if step.payload.BitcoinDeposit? { AddressNetworkIff(step.payload.stacksRecipient, network); }
  }

  /** The checks of the verdict say of a plan what its approval means. */
  lemma {:induction false} ApprovedIff(plan: Plan, quote: Quote, ctx: SigningContext,
                                       kindOf: string -> Option<BitcoinNetwork>)
    ensures Passable(plan, quote, ctx, kindOf) <==> Approved(plan, quote, ctx, kindOf)
  {
    AddressesFitIff(ctx, kindOf);
    EffectsFitIff(plan, quote);
    ConditionsFitIff(plan.steps, quote, ctx);
    PerfectIff(plan.steps, quote.input);
    forall i | 0 <= i < |plan.steps| {
      StepFitsIff(plan.steps[i], plan.network, ctx);
    }
  }

  lemma {:induction false} BoundIff(plan: Plan, quote: Quote, ctx: SigningContext)
    ensures Bound(plan, quote, ctx)
            <==> forall r :: !IdentityHolds(r, plan, quote, ctx) && !LifetimeHolds(r, plan, quote, ctx)
  {
    if forall r :: !IdentityHolds(r, plan, quote, ctx) && !LifetimeHolds(r, plan, quote, ctx) {
      assert !IdentityHolds(QuoteMismatch, plan, quote, ctx) && !IdentityHolds(NetworkMismatch, plan, quote, ctx);
      assert !IdentityHolds(RegistryMismatch, plan, quote, ctx) && !IdentityHolds(AdapterMismatch, plan, quote, ctx);
      assert !LifetimeHolds(ExpiryMismatch, plan, quote, ctx) && !LifetimeHolds(Expired, plan, quote, ctx);
      assert !LifetimeHolds(NotExecutable, plan, quote, ctx) && !LifetimeHolds(NoSteps, plan, quote, ctx);
    }
  }

  lemma {:induction false} AddressesIff(ctx: SigningContext, kindOf: string -> Option<BitcoinNetwork>)
    ensures AddressesFit(ctx, kindOf) <==> forall r :: !AddressHolds(r, ctx, kindOf)
  {
    if forall r :: !AddressHolds(r, ctx, kindOf) {
      assert !AddressHolds(SenderNetwork, ctx, kindOf) && !AddressHolds(BitcoinAddressNetwork, ctx, kindOf);
    }
  }

  lemma {:induction false} DependenciesIff(steps: seq<PlanStep>)
    ensures DependenciesSound(steps) <==> forall r :: !DependencyHolds(r, steps, steps)
  {
    if forall r :: !DependencyHolds(r, steps, steps) {
      forall i, j | 0 <= i < j < |steps| ensures steps[i].id != steps[j].id {
        assert !DependencyHolds(DuplicateStep(steps[i].id), steps, steps);
      }
      forall i | 0 <= i < |steps| ensures DependsSoundly(steps[i], steps) {
        forall d | d in steps[i].dependsOn ensures d != steps[i].id && HasStep(steps, d) {
          assert !DependencyHolds(SelfDependency(steps[i].id), steps, steps);
          assert !DependencyHolds(UnknownDependency(steps[i].id, d), steps, steps);
        }
      }
    }
  }

  lemma {:induction false} EffectsIff(plan: Plan, quote: Quote)
    ensures EffectsBound(plan, quote) <==> forall r :: !EffectHolds(r, plan, quote)
  {
    EffectsBoundIff(plan, quote);
    if forall r :: !EffectHolds(r, plan, quote) {
      assert !EffectHolds(ForeignEffect, plan, quote) && !EffectHolds(MissingOutput, plan, quote);
    }
  }

  lemma {:induction false} ConditionsIff(conditions: seq<PostCondition>, failed: seq<Claim>, quote: Quote,
                                         ctx: SigningContext)
    ensures ConditionsBound(conditions, quote, ctx) && failed == []
            <==> forall r :: !ConditionHolds(r, conditions, failed, quote, ctx)
  {
    if forall r :: !ConditionHolds(r, conditions, failed, quote, ctx) {
      assert !ConditionHolds(PrincipalNetwork, conditions, failed, quote, ctx);
      assert !ConditionHolds(PrincipalNotSender, conditions, failed, quote, ctx);
      assert !ConditionHolds(ReceiveNotQuoted, conditions, failed, quote, ctx);
      assert !ConditionHolds(SendNotQuoted, conditions, failed, quote, ctx)
          && !ConditionHolds(DepositNotQuoted, conditions, failed, quote, ctx);
      assert failed != [] ==> failed[0] in failed;
    }
  }

  lemma {:induction false} BindingIff(steps: seq<PlanStep>, quote: Quote, ctx: SigningContext)
    ensures ConditionsBound(Conditions(steps), quote, ctx) && Fits(Claims(steps), quote.input)
       <==> forall r :: !BindingHolds(r, steps, quote, ctx)
  {
    var failed := Failures(Claims(steps), quote.input);
    ConditionsIff(Conditions(steps), failed, quote, ctx);
    if forall r :: !BindingHolds(r, steps, quote, ctx) {
      assert !BindingHolds(UnprotectedInput, steps, quote, ctx);
      forall r ensures !ConditionHolds(r, Conditions(steps), failed, quote, ctx) {
        assert !BindingHolds(r, steps, quote, ctx);
      }
    }
  }

  lemma {:induction false} CallIff(payload: Payload, network: Network, ctx: SigningContext)
    requires payload.StacksCall?
    ensures CallSafe(payload, network, ctx) <==> forall r :: !CallHolds(r, payload, network, ctx)
  {
    if forall r :: !CallHolds(r, payload, network, ctx) {
      assert !CallHolds(RegistryUnavailable, payload, network, ctx);
      assert !CallHolds(ContractNotApproved(payload.contractId), payload, network, ctx);
      assert !CallHolds(NotDenyMode, payload, network, ctx) && !CallHolds(NoPostConditions, payload, network, ctx);
      assert !CallHolds(CallNetwork, payload, network, ctx) && !CallHolds(SenderRequired, payload, network, ctx);
    }
  }

  lemma {:induction false} StepIff(step: PlanStep, network: Network, ctx: SigningContext)
    ensures StepSafe(step, network, ctx) <==> forall r :: !StepHolds(r, step, network, ctx)
  {
    if step.payload.StacksCall? { CallIff(step.payload, network, ctx); }
    if forall r :: !StepHolds(r, step, network, ctx) {
      assert !StepHolds(NotFinancial, step, network, ctx);
      if step.payload.StacksCall? {
        forall r ensures !CallHolds(r, step.payload, network, ctx) { assert !StepHolds(r, step, network, ctx); }
      } else {
        assert !StepHolds(DepositNetwork, step, network, ctx) && !StepHolds(RecipientNetwork, step, network, ctx);
      }
    }
  }

  lemma {:induction false} StepsIff(steps: seq<PlanStep>, network: Network, ctx: SigningContext)
    ensures (forall i | 0 <= i < |steps| :: StepSafe(steps[i], network, ctx))
            <==> forall r :: !AnyStepHolds(r, steps, network, ctx)
  {
    forall i | 0 <= i < |steps|
      ensures StepSafe(steps[i], network, ctx) <==> forall r :: !StepHolds(r, steps[i], network, ctx)
    {
      StepIff(steps[i], network, ctx);
    }
    if forall r :: !AnyStepHolds(r, steps, network, ctx) {
      forall i, r | 0 <= i < |steps| ensures !StepHolds(r, steps[i], network, ctx) {
        assert !AnyStepHolds(r, steps, network, ctx);
      }
    }
  }

  lemma {:induction false} NoReasonSplits(plan: Plan, quote: Quote, ctx: SigningContext,
                                          kindOf: string -> Option<BitcoinNetwork>)
    ensures NoReason(plan, quote, ctx, kindOf) <==>
      && (forall r :: !IdentityHolds(r, plan, quote, ctx) && !LifetimeHolds(r, plan, quote, ctx))
      && (forall r :: !AddressHolds(r, ctx, kindOf)) && (forall r :: !DependencyHolds(r, plan.steps, plan.steps))
      && (forall r :: !EffectHolds(r, plan, quote)) && (forall r :: !BindingHolds(r, plan.steps, quote, ctx))
      && (forall r :: !AnyStepHolds(r, plan.steps, plan.network, ctx))
  {
    if NoReason(plan, quote, ctx, kindOf) {
      forall r ensures !IdentityHolds(r, plan, quote, ctx) && !LifetimeHolds(r, plan, quote, ctx)
        && !AddressHolds(r, ctx, kindOf) && !DependencyHolds(r, plan.steps, plan.steps)
        && !EffectHolds(r, plan, quote) && !BindingHolds(r, plan.steps, quote, ctx)
        && !AnyStepHolds(r, plan.steps, plan.network, ctx)
      {
        assert !Holds(r, plan, quote, ctx, kindOf);
      }
    }
  }

  /**
   * A plan without reasons against it is approved; an approved one has none, when its quote holds one kind of
   * bitcoin per quantity.
   */
  lemma {:induction false} VerdictMeaning(plan: Plan, quote: Quote, ctx: SigningContext,
                                          kindOf: string -> Option<BitcoinNetwork>)
    ensures NoReason(plan, quote, ctx, kindOf) ==> Approved(plan, quote, ctx, kindOf)
    ensures Approved(plan, quote, ctx, kindOf) && OneBitcoin(quote.input) ==>
            NoReason(plan, quote, ctx, kindOf) && Readable(plan.steps)
  {
    ApprovedIff(plan, quote, ctx, kindOf);
    NoReasonSplits(plan, quote, ctx, kindOf);
    BoundIff(plan, quote, ctx);
    AddressesIff(ctx, kindOf);
    DependenciesIff(plan.steps);
    EffectsIff(plan, quote);
    BindingIff(plan.steps, quote, ctx);
    StepsIff(plan.steps, plan.network, ctx);
    ReadableIff(plan.steps);
    if Fits(Claims(plan.steps), quote.input) { FitsIsPerfect(Claims(plan.steps), quote.input); }
    if OneBitcoin(quote.input) { FitsIff(Claims(plan.steps), quote.input); }
  }

  // ----- What each reason means -----

  /** When a plan is foreign to the quote or the context, stale, or empty. */
  lemma {:induction false} PlanReasonsRead(plan: Plan, quote: Quote, ctx: SigningContext)
    ensures IdentityHolds(NetworkMismatch, plan, quote, ctx) <==> !(plan.network == quote.network == ctx.network)
    ensures IdentityHolds(NetworksDisagree, plan, quote, ctx) <==> plan.network != quote.network
    ensures IdentityHolds(RegistryMismatch, plan, quote, ctx) <==>
      !(plan.registryVersion == quote.registryVersion == ctx.registryVersion)
    ensures IdentityHolds(QuoteMismatch, plan, quote, ctx) <==> plan.quoteId != quote.id
    ensures IdentityHolds(AdapterMismatch, plan, quote, ctx) <==> plan.adapterVersion != quote.adapterVersion
    ensures LifetimeHolds(Expired, plan, quote, ctx) <==>
      !(TextBefore(ctx.now, plan.expiresAt) && TextBefore(ctx.now, quote.expiresAt))
    ensures LifetimeHolds(ExpiryMismatch, plan, quote, ctx) <==> plan.expiresAt != quote.expiresAt
    ensures LifetimeHolds(NotExecutable, plan, quote, ctx) <==> !quote.executable
    ensures LifetimeHolds(NoSteps, plan, quote, ctx) <==> |plan.steps| == 0
  {
  }

  /** What is held against a contract call, each by its own name. */
  lemma {:induction false} CallReasonsRead(payload: Payload, network: Network, ctx: SigningContext, contract: string)
    requires payload.StacksCall?
    ensures CallHolds(RegistryUnavailable, payload, network, ctx) <==> ctx.allowedContracts == None
    ensures CallHolds(ContractNotApproved(contract), payload, network, ctx) <==>
      contract == payload.contractId && exists list :: ctx.allowedContracts == Some(list) && contract !in list
    ensures CallHolds(NotDenyMode, payload, network, ctx) <==> !payload.denyMode
    ensures CallHolds(NoPostConditions, payload, network, ctx) <==> |payload.postConditions| == 0
    ensures CallHolds(CallNetwork, payload, network, ctx) <==> payload.callNetwork != network
    ensures CallHolds(SenderRequired, payload, network, ctx) <==> ctx.sender == None
  {
  }

  lemma {:induction false} PrincipalsRead(steps: seq<PlanStep>, quote: Quote, ctx: SigningContext)
    ensures BindingHolds(PrincipalNetwork, steps, quote, ctx) <==>
      exists i, c | 0 <= i < |steps| && Conditioned(steps[i].payload, c) :: !AddressOf(c.principal, ctx.network)
  {
    forall c
      ensures c in Conditions(steps) <==> exists i | 0 <= i < |steps| :: Conditioned(steps[i].payload, c)
      ensures StacksAddressNetwork(c.principal) == Some(ctx.network) <==> AddressOf(c.principal, ctx.network)
    {
      ConditionIn(steps, c);
      AddressNetworkIff(c.principal, ctx.network);
    }
  }

  lemma {:induction false} SendersRead(steps: seq<PlanStep>, quote: Quote, ctx: SigningContext)
    ensures BindingHolds(PrincipalNotSender, steps, quote, ctx) <==>
      exists i, c | 0 <= i < |steps| && Conditioned(steps[i].payload, c) ::
        c.mode != ReceiveGte && ctx.sender.Some? && c.principal != ctx.sender.value
  {
    forall c
      ensures c in Conditions(steps) <==> exists i | 0 <= i < |steps| :: Conditioned(steps[i].payload, c)
    {
      ConditionIn(steps, c);
    }
  }

  lemma {:induction false} ReceiptsRead(steps: seq<PlanStep>, quote: Quote, ctx: SigningContext)
    ensures BindingHolds(ReceiveNotQuoted, steps, quote, ctx) <==>
      exists i, c | 0 <= i < |steps| && Conditioned(steps[i].payload, c) ::
        c.mode == ReceiveGte && !Promised(c.amount, quote)
  {
    forall c
      ensures c in Conditions(steps) <==> exists i | 0 <= i < |steps| :: Conditioned(steps[i].payload, c)
      ensures Includes(ReceivePool(quote), c.amount) <==> Promised(c.amount, quote)
    {
      ConditionIn(steps, c);
      OnQuoteIff(c.amount, quote);
    }
  }

  /** Which post-conditions are reported: one of a foreign principal, of another sender, or receiving too much. */
  lemma {:induction false} ConditionReasonsRead(steps: seq<PlanStep>, quote: Quote, ctx: SigningContext)
    ensures BindingHolds(PrincipalNetwork, steps, quote, ctx) <==>
      exists i, c | 0 <= i < |steps| && Conditioned(steps[i].payload, c) :: !AddressOf(c.principal, ctx.network)
    ensures BindingHolds(PrincipalNotSender, steps, quote, ctx) <==>
      exists i, c | 0 <= i < |steps| && Conditioned(steps[i].payload, c) ::
        c.mode != ReceiveGte && ctx.sender.Some? && c.principal != ctx.sender.value
    ensures BindingHolds(ReceiveNotQuoted, steps, quote, ctx) <==>
      exists i, c | 0 <= i < |steps| && Conditioned(steps[i].payload, c) ::
        c.mode == ReceiveGte && !Promised(c.amount, quote)
  {
    PrincipalsRead(steps, quote, ctx);
    SendersRead(steps, quote, ctx);
    ReceiptsRead(steps, quote, ctx);
  }

  lemma {:induction false} ForeignRead(plan: Plan, quote: Quote)
    ensures EffectHolds(ForeignEffect, plan, quote) <==>
      exists i, a | 0 <= i < |plan.steps| && a in plan.steps[i].expectedAssetEffects :: !OnQuote(a, quote)
  {
    NoneForeignIff(Effects(plan.steps), References(quote));
    forall a
      ensures a in Effects(plan.steps) <==> exists i | 0 <= i < |plan.steps| :: a in plan.steps[i].expectedAssetEffects
      ensures Includes(References(quote), a) <==> OnQuote(a, quote)
    {
      EffectIn(plan.steps, a);
      OnQuoteIff(a, quote);
    }
  }

  lemma {:induction false} MissingRead(plan: Plan, quote: Quote)
    ensures EffectHolds(MissingOutput, plan, quote) <==> !(Total(quote.expectedOutput) <= EffectTotal(plan.steps))
  {
    NoneMissingIff(Bag(quote.expectedOutput), Bag(Effects(plan.steps)));
    WithinIff(quote.expectedOutput, Effects(plan.steps));
    EffectTotalIs(plan.steps);
  }

  /** An effect is reported when the quote does not know it, and an output when the effects do not hold it. */
  lemma {:induction false} EffectReasonsRead(plan: Plan, quote: Quote)
    ensures EffectHolds(ForeignEffect, plan, quote) <==>
      exists i, a | 0 <= i < |plan.steps| && a in plan.steps[i].expectedAssetEffects :: !OnQuote(a, quote)
    ensures EffectHolds(MissingOutput, plan, quote) <==> !(Total(quote.expectedOutput) <= EffectTotal(plan.steps))
  {
    ForeignRead(plan, quote);
    MissingRead(plan, quote);
  }

  /** A step's own amounts and networks. */
  lemma {:induction false} StepReasonsRead(step: PlanStep, network: Network, ctx: SigningContext)
    ensures StepHolds(NotFinancial, step, network, ctx) <==> !IsFinancial(step.payload)
    ensures StepHolds(DepositNetwork, step, network, ctx) <==>
      step.payload.BitcoinDeposit? && step.payload.bitcoinNetwork != AnchorOf(network)
    ensures StepHolds(RecipientNetwork, step, network, ctx) <==>
      step.payload.BitcoinDeposit? && !AddressOf(step.payload.stacksRecipient, network)
  {
    if step.payload.BitcoinDeposit? { AddressNetworkIff(step.payload.stacksRecipient, network); }
  }

  lemma SendFailed(failed: seq<Claim>, conditions: seq<PostCondition>, quote: Quote, ctx: SigningContext)
    requires forall f | f in failed :: f.Send?
    ensures ConditionHolds(SendNotQuoted, conditions, failed, quote, ctx) <==> failed != []
  {
    if failed != [] { assert failed[0] in failed; }
  }

  lemma {:induction false} SendsRead(steps: seq<PlanStep>, quote: Quote, ctx: SigningContext)
    requires Deposits(steps) == multiset{}
    ensures BindingHolds(SendNotQuoted, steps, quote, ctx) <==> !(Outgoing(steps) <= Total(quote.input))
  {
    ClaimsAreSpent(steps);
    OnlySendsFail(Claims(steps), quote.input);
    FailedWasClaimed(Claims(steps), quote.input);
    SendFailed(Failures(Claims(steps), quote.input), Conditions(steps), quote, ctx);
  }

  lemma NoneLeft(left: seq<AssetAmount>, input: multiset<Named>, sent: multiset<Named>)
    requires Total(left) == input - sent
    ensures left == [] <==> input <= sent
  {
    Sizes(left);
    NoneMissingIff(input, sent);
  }

  lemma {:induction false} InputsLeft(steps: seq<PlanStep>, input: seq<AssetAmount>)
    requires Deposits(steps) == multiset{}
    ensures Leftover(Claims(steps), input) == [] <==> Total(input) <= Outgoing(steps)
  {
    ClaimsAreSpent(steps);
    OnlySendsLeave(Claims(steps), input);
    NoneLeft(Leftover(Claims(steps), input), Total(input), Outgoing(steps));
  }

  lemma {:induction false} InputsRead(steps: seq<PlanStep>, quote: Quote, ctx: SigningContext)
    requires Deposits(steps) == multiset{}
    ensures BindingHolds(UnprotectedInput, steps, quote, ctx) <==> !(Total(quote.input) <= Outgoing(steps))
  {
    InputsLeft(steps, quote.input);
  }

  /** A plan without deposits: sends beyond the quote are reported, and so are inputs no send accounts for. */
  lemma {:induction false} SendReasonsRead(steps: seq<PlanStep>, quote: Quote, ctx: SigningContext)
    requires Deposits(steps) == multiset{}
    ensures BindingHolds(SendNotQuoted, steps, quote, ctx) <==> !(Outgoing(steps) <= Total(quote.input))
    ensures BindingHolds(UnprotectedInput, steps, quote, ctx) <==> !(Total(quote.input) <= Outgoing(steps))
  {
    SendsRead(steps, quote, ctx);
    InputsRead(steps, quote, ctx);
  }

  // ----- When the verdict is exact -----

  const SENDER := "SP00000000000000000000000000000000000000"

  const CONTEXT := SigningContext("a", Mainnet, "1", Some(["pool"]), Some(SENDER), [])

  function Sending(amount: AssetAmount): PostCondition {
    PostCondition(SENDER, SendEq, amount)
  }

  /** A plan of two steps that pays a quote: a deposit, and one call that sends all other amounts. */
  function Paying(q: int, others: seq<AssetAmount>): Plan {
    var deposit :=
      BitcoinDeposit(Text(Decimal.FormatInteger(q)), SENDER, BitcoinMainnet, 0, Text(Decimal.FormatInteger(0)), "");
    var call := StacksCall("pool", "supply", [], Lists.Mapped(Sending, others), true, Mainnet);
    Plan("plan", "quote", Mainnet, "1", "1", [PlanStep("1", deposit, [], []), PlanStep("2", call, [], [])], "b", "")
  }

  function Asking(input: seq<AssetAmount>): Quote {
    Quote("quote", DepositSbtc, "market", Mainnet, input, [], [], [], "b", true, [], "1", "1", None)
  }

  lemma {:induction false} SendingClaims(others: seq<AssetAmount>)
    ensures SendClaims(Lists.Mapped(Sending, others)) == Sends(others)
  {
    if others != [] {
      var init, last := others[..|others| - 1], others[|others| - 1];
      SendingClaims(init);
      assert others == init + [last];
      SendsStep(init, last);
      assert Lists.Mapped(Sending, others)[..|others| - 1] == Lists.Mapped(Sending, init);
    }
  }

  lemma {:induction false} PayingClaims(q: int, others: seq<AssetAmount>)
    ensures var steps := Paying(q, others).steps;
      && Claims(steps) == [Deposit(q)] + Sends(others)
      && Conditions(steps) == Lists.Mapped(Sending, others) && Effects(steps) == []
  {
    var steps := Paying(q, others).steps;
    Decimal.ParseFormatInteger(q);
    SendingClaims(others);
    assert steps[..1] == [steps[0]] && steps[..0] == [] && [steps[0]][..0] == [];
    assert Claims([steps[0]]) == [Deposit(q)] && Conditions([steps[0]]) == [] && Effects([steps[0]]) == [];
  }

  lemma {:induction false} PayingIsBound(q: int, others: seq<AssetAmount>, input: seq<AssetAmount>,
                                         kindOf: string -> Option<BitcoinNetwork>)
    ensures Bound(Paying(q, others), Asking(input), CONTEXT) && AddressesFit(CONTEXT, kindOf)
    ensures DependenciesSound(Paying(q, others).steps)
  {
    SenderIsMainnet();
    assert TextBefore("a", "b");
    assert Paying(q, others).steps[0].id == "1" && Paying(q, others).steps[1].id == "2";
  }

  lemma SenderIsMainnet()
    ensures StacksAddressNetwork(SENDER) == Some(Mainnet)
  {
  }

  lemma {:induction false} PayingIsSafe(q: int, others: seq<AssetAmount>)
    requires others != []
    ensures forall i | 0 <= i < |Paying(q, others).steps| :: StepSafe(Paying(q, others).steps[i], Mainnet, CONTEXT)
  {
    SenderIsMainnet();
    Decimal.ParseFormatInteger(q);
    Decimal.ParseFormatInteger(0);
    assert Lists.Mapped(Sending, others)[0] == Sending(others[0]);
    assert "pool" == CONTEXT.allowedContracts.value[0];
  }

  lemma {:induction false} SendingIsBound(others: seq<AssetAmount>, input: seq<AssetAmount>)
    ensures ConditionsBound(Lists.Mapped(Sending, others), Asking(input), CONTEXT)
  {
    SenderIsMainnet();
    var conditions := Lists.Mapped(Sending, others);
    forall c | c in conditions ensures c.principal == SENDER && c.mode == SendEq {
      var i :| 0 <= i < |conditions| && conditions[i] == c;
      assert c == Sending(others[i]);
    }
  }

  lemma {:induction false} PayingIsApproved(q: int, others: seq<AssetAmount>, input: seq<AssetAmount>,
                                            kindOf: string -> Option<BitcoinNetwork>)
    requires others != [] && Perfect([Deposit(q)] + Sends(others), input)
    ensures Approved(Paying(q, others), Asking(input), CONTEXT, kindOf)
  {
    PayingClaims(q, others);
    PayingIsBound(q, others, input, kindOf);
    PayingIsSafe(q, others);
    SendingIsBound(others, input);
    assert EffectsBound(Paying(q, others), Asking(input));
    ApprovedIff(Paying(q, others), Asking(input), CONTEXT, kindOf);
  }

  /** Some plan for the input list is approved, and turned down all the same. */
  ghost predicate TurnsDown(input: seq<AssetAmount>) {
    exists plan, quote: Quote, ctx, kindOf :: quote.input == input
      && Approved(plan, quote, ctx, kindOf) && !NoReason(plan, quote, ctx, kindOf)
  }

  lemma {:induction false} TurnedDown(plan: Plan, quote: Quote, ctx: SigningContext,
                                      kindOf: string -> Option<BitcoinNetwork>)
    requires Approved(plan, quote, ctx, kindOf) && !Fits(Claims(plan.steps), quote.input)
    ensures TurnsDown(quote.input)
  {
    if NoReason(plan, quote, ctx, kindOf) { NoReasonFits(plan, quote, ctx, kindOf); }
    assert !NoReason(plan, quote, ctx, kindOf);
  }

  lemma {:induction false} TwoBitcoinsTurnDown(input: seq<AssetAmount>)
    requires !OneBitcoin(input)
    ensures TurnsDown(input)
  {
    var j, q := MissedDeposit(input);
    var others, kindOf := Lists.Without(input, j), (address: string) => None;
    PayingIsApproved(q, others, input, kindOf);
    PayingClaims(q, others);
    assert Asking(input).input == input;
    TurnedDown(Paying(q, others), Asking(input), CONTEXT, kindOf);
  }

  /**
   * For the quotes of an input list the verdict never turns down an approved plan exactly when any two native
   * bitcoin amounts of one quantity are of one asset.
   */
  lemma {:induction false} VerdictExactIff(input: seq<AssetAmount>)
    ensures OneBitcoin(input) <==> !TurnsDown(input)
  {
    if !OneBitcoin(input) {
      TwoBitcoinsTurnDown(input);
    } else if TurnsDown(input) {
      var plan, quote: Quote, ctx, kindOf :| quote.input == input
        && Approved(plan, quote, ctx, kindOf) && !NoReason(plan, quote, ctx, kindOf);
      VerdictMeaning(plan, quote, ctx, kindOf);
    }
  }

  lemma {:induction false} NoReasonFits(plan: Plan, quote: Quote, ctx: SigningContext,
                                        kindOf: string -> Option<BitcoinNetwork>)
    requires NoReason(plan, quote, ctx, kindOf)
    ensures Fits(Claims(plan.steps), quote.input)
  {
    NoReasonSplits(plan, quote, ctx, kindOf);
    BindingIff(plan.steps, quote, ctx);
  }

  /** A plan and a quote that survive the wire get the same verdict on the other side. */
  lemma WireKeepsVerdict(plan: Plan, quote: Quote, ctx: SigningContext, kindOf: string -> Option<BitcoinNetwork>)
    requires Wire.QuoteColonFree(quote) && forall i | 0 <= i < |plan.steps| :: Wire.StepClean(plan.steps[i])
    ensures var plan', quote' := Wire.ParsePlan(Wire.SerializePlan(plan)), Wire.ParseQuote(Wire.SerializeQuote(quote));
      && plan'.Ok? && quote'.Ok?
      && forall r :: Holds(r, plan, quote, ctx, kindOf) <==> Holds(r, plan'.value, quote'.value, ctx, kindOf)
  {
    Wire.PlanRoundTripIff(plan);
    Wire.QuoteRoundTripIff(quote);
  }
}
