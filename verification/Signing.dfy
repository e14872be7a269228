/** The gate before a wallet opens: is this plan bound to this quote? */
module Signing {
  import opened Wrappers
  import opened Text
  import opened Sorting
  import opened ScopeKeys
  import opened AssetIds
  import opened Plans
  import opened Lists
  import opened Matching
  import Units

  datatype SigningContext = SigningContext(
    now: string, network: Network, registryVersion: string, allowedContracts: Option<seq<string>>,
    sender: Option<string>, bitcoinAddresses: seq<string>)

  datatype Reason =
    | QuoteMismatch | NetworkMismatch | NetworksDisagree | RegistryMismatch | AdapterMismatch | ExpiryMismatch
    | Expired | NotExecutable | NoSteps | SenderNetwork | BitcoinAddressNetwork
    | DuplicateStep(id: string) | SelfDependency(id: string) | UnknownDependency(id: string, dependency: string)
    | ForeignEffect | MissingOutput
    | PrincipalNetwork | PrincipalNotSender | SendNotQuoted | ReceiveNotQuoted | DepositNotQuoted | UnprotectedInput
    | NotFinancial | RegistryUnavailable | ContractNotApproved(contract: string) | NotDenyMode | NoPostConditions
    | CallNetwork | SenderRequired | DepositNetwork | RecipientNetwork

  datatype Thrown = DepositNotAnInteger

  // ----- Addresses and amounts -----

  /** `[0-9A-HJKMNP-TV-Z]`. */
  predicate IsC32(c: char) {
    '0' <= c <= '9' || ('A' <= c <= 'Z' && c !in {'I', 'L', 'O', 'U'})
  }

  function StacksAddressNetwork(address: string): Option<Network> {
    if 38 <= |address| <= 42 && address[0] == 'S' && (forall i | 2 <= i < |address| :: IsC32(address[i])) then
      if address[1] in {'P', 'M'} then Some(Mainnet) else if address[1] in {'T', 'N'} then Some(Testnet) else None
    else None
  }

  function BitcoinFor(network: Network): BitcoinNetwork {
    match network case Mainnet => BitcoinMainnet case Testnet => Regtest
  }

  function FinancialInt(value: Scalar): Option<int> {
    match value case Number => None case Text(text) => Units.ParseQuantity(text)
  }

  function When(condition: bool, reason: Reason): (reasons: seq<Reason>)
    ensures forall r :: r in reasons <==> condition && r == reason
  {
    if condition then [reason] else []
  }

  // ----- Dependencies -----

  predicate HasStep(steps: seq<PlanStep>, id: string) {
    exists i | 0 <= i < |steps| :: steps[i].id == id
  }

  predicate DependencyHolds(r: Reason, steps: seq<PlanStep>, all: seq<PlanStep>) {
    match r
    case DuplicateStep(id) => exists i, j | 0 <= i < j < |steps| :: steps[i].id == id && steps[j].id == id
    case SelfDependency(id) => exists i | 0 <= i < |steps| :: steps[i].id == id && id in steps[i].dependsOn
    case UnknownDependency(id, d) =>
      exists i | 0 <= i < |steps| :: steps[i].id == id && d in steps[i].dependsOn && !HasStep(all, d)
    case _ => false
  }

  method StepDependencyReasons(step: PlanStep, ids: set<string>) returns (reasons: seq<Reason>)
    ensures forall r :: r in reasons <==>
      || (r == SelfDependency(step.id) && step.id in step.dependsOn)
      || (r.UnknownDependency? && r.id == step.id && r.dependency in step.dependsOn && r.dependency !in ids)
  {
    reasons := [];
    for k := 0 to |step.dependsOn|
      invariant forall r :: r in reasons <==>
        || (r == SelfDependency(step.id) && step.id in step.dependsOn[..k])
        || (r.UnknownDependency? && r.id == step.id && r.dependency in step.dependsOn[..k] && r.dependency !in ids)
    {
      var dependency := step.dependsOn[k];
      assert step.dependsOn[..k + 1] == step.dependsOn[..k] + [dependency];
      reasons := reasons + When(dependency == step.id, SelfDependency(step.id));
      reasons := reasons + When(dependency !in ids, UnknownDependency(step.id, dependency));
    }
    assert step.dependsOn[..|step.dependsOn|] == step.dependsOn;
  }

  lemma DependencyStep(r: Reason, steps: seq<PlanStep>, k: nat)
    requires k < |steps|
    ensures DependencyHolds(r, steps[..k + 1], steps) <==>
      || DependencyHolds(r, steps[..k], steps)
      || (r == DuplicateStep(steps[k].id) && HasStep(steps[..k], steps[k].id))
      || (r == SelfDependency(steps[k].id) && steps[k].id in steps[k].dependsOn)
      || (r.UnknownDependency? && r.id == steps[k].id && r.dependency in steps[k].dependsOn
          && !HasStep(steps, r.dependency))
  {
    var longer, shorter := steps[..k + 1], steps[..k];
    assert forall i | 0 <= i < k :: longer[i] == shorter[i];
    assert longer[k] == steps[k];
  }

  /** Every broken dependency and nothing else is reported. */
  method DependsOnReasons(plan: Plan) returns (reasons: seq<Reason>)
    ensures forall r :: r in reasons <==> DependencyHolds(r, plan.steps, plan.steps)
  {
    reasons := [];
    var ids := set i | 0 <= i < |plan.steps| :: plan.steps[i].id;
    assert forall id :: id in ids <==> HasStep(plan.steps, id);
    var seen: set<string> := {};
    for k := 0 to |plan.steps|
      invariant forall id :: id in seen <==> HasStep(plan.steps[..k], id)
      invariant forall r :: r in reasons <==> DependencyHolds(r, plan.steps[..k], plan.steps)
    {
      var step := plan.steps[k];
      reasons := reasons + When(step.id in seen, DuplicateStep(step.id));
      seen := seen + {step.id};
      var own := StepDependencyReasons(step, ids);
      reasons := reasons + own;
      forall r { DependencyStep(r, plan.steps, k); }
      assert plan.steps[..k + 1] == plan.steps[..k] + [step];
    }
    assert plan.steps[..|plan.steps|] == plan.steps;
  }

  // ----- Effects -----

  function References(quote: Quote): seq<AssetAmount> {
    quote.input + quote.expectedOutput + Minimum(quote)
  }

  function ReceivePool(quote: Quote): seq<AssetAmount> {
    quote.expectedOutput + Minimum(quote)
  }

  function Minimum(quote: Quote): seq<AssetAmount> {
    match quote.minimumOutput case Some(a) => [a] case None => []
  }

  function Effects(steps: seq<PlanStep>): seq<AssetAmount> {
    if steps == [] then [] else Effects(steps[..|steps| - 1]) + steps[|steps| - 1].expectedAssetEffects
  }

  lemma EffectsStep(steps: seq<PlanStep>, k: nat)
    requires k < |steps|
    ensures Effects(steps[..k + 1]) == Effects(steps[..k]) + steps[k].expectedAssetEffects
  {
    assert steps[..k + 1][..k] == steps[..k];
  }

  /** How many of the amounts are not on the list. */
  function Foreign(amounts: seq<AssetAmount>, list: seq<AssetAmount>): nat {
    SumNonNegative(Stranger(list), amounts);
    Sum(Stranger(list), amounts)
  }

  function Stranger(list: seq<AssetAmount>): (f: AssetAmount -> int)
    ensures forall a :: f(a) == if Includes(list, a) then 0 else 1
  {
    a => if Includes(list, a) then 0 else 1
  }

  /** How many of the wanted amounts the given ones do not provide. */
  function Missing(wanted: seq<AssetAmount>, given: seq<AssetAmount>): nat {
    |Bag(wanted) - Bag(given)|
  }

  function Times(n: nat, r: Reason): seq<Reason> {
    if n == 0 then [] else Times(n - 1, r) + [r]
  }

  lemma CountForeign(amounts: seq<AssetAmount>, a: AssetAmount, list: seq<AssetAmount>)
    ensures Times(Foreign(amounts + [a], list), ForeignEffect)
         == if Includes(list, a) then Times(Foreign(amounts, list), ForeignEffect)
            else Times(Foreign(amounts, list), ForeignEffect) + [ForeignEffect]
  {
    SumAppend(Stranger(list), amounts, [a]);
    SumOne(Stranger(list), a);
  }

  lemma BagStep(wanted: seq<AssetAmount>, k: nat)
    requires k < |wanted|
    ensures Bag(wanted[..k + 1]) == Bag(wanted[..k]) + multiset{Key(wanted[k])}
  {
    assert Keys(wanted[..k + 1]) == Keys(wanted[..k]) + [Key(wanted[k])];
  }

  /** Asking for one more: it is there, or one more is missing. */
  lemma OneMoreWanted<T>(w: multiset<T>, g: multiset<T>, x: T)
    ensures |(w + multiset{x}) - g| == |w - g| + if x in g - w then 0 else 1
  {
    if x in g - w {
      assert (w + multiset{x}) - g == w - g;
    } else {
      assert (w + multiset{x}) - g == (w - g) + multiset{x};
    }
  }

  lemma OneMoreMissing(items: seq<AssetAmount>, outputs: seq<AssetAmount>, k: nat, effects: seq<AssetAmount>)
    requires k < |outputs| && Bag(items) == Bag(effects) - Bag(outputs[..k])
    ensures Missing(outputs[..k + 1], effects)
         == Missing(outputs[..k], effects) + if Available(items, Send(outputs[k])) then 0 else 1
  {
    SendFound(items, outputs[k]);
    assert Available(items, Send(outputs[k])) <==> Key(outputs[k]) in Bag(items);
    BagStep(outputs, k);
    OneMoreWanted(Bag(outputs[..k]), Bag(effects), Key(outputs[k]));
  }

  lemma TakeWanted(items: seq<AssetAmount>, outputs: seq<AssetAmount>, k: nat, effects: multiset<AmountKey>)
    requires k < |outputs| && Bag(items) == effects - Bag(outputs[..k])
    ensures Bag(Taken(items, Send(outputs[k]))) == effects - Bag(outputs[..k + 1])
  {
    BagStep(outputs, k);
    SendMore(items, effects, Bag(outputs[..k]), outputs[k]);
  }

  /** One reason more when one more is missing. */
  lemma ReasonsMore(before: nat, after: nat, found: bool, r: Reason)
    requires after == before + if found then 0 else 1
    ensures Times(after, r) == if found then Times(before, r) else Times(before, r) + [r]
  {
  }

  /** The second loop of the effect check: each output is taken out of a copy of the effects. */
  method MissingOutputReasons(outputs: seq<AssetAmount>, effects: seq<AssetAmount>) returns (reasons: seq<Reason>)
    ensures reasons == Times(Missing(outputs, effects), MissingOutput)
  {
    reasons := [];
    var remaining := new AmountPool(effects);
    for k := 0 to |outputs|
      invariant Bag(remaining.items) == Bag(effects) - Bag(outputs[..k])
      invariant reasons == Times(Missing(outputs[..k], effects), MissingOutput)
    {
      TakeWanted(remaining.items, outputs, k, Bag(effects));
      OneMoreMissing(remaining.items, outputs, k, effects);
      ReasonsMore(Missing(outputs[..k], effects), Missing(outputs[..k + 1], effects),
                  Available(remaining.items, Send(outputs[k])), MissingOutput);
      var taken := remaining.Take(Send(outputs[k]));
      if !taken {
        reasons := reasons + [MissingOutput];
      }
    }
    assert outputs[..|outputs|] == outputs;
  }

  /** One reason per effect that is foreign to the quote, one per quoted output without an effect of its own. */
  method EffectBindingReasons(plan: Plan, quote: Quote) returns (reasons: seq<Reason>)
    ensures var effects := Effects(plan.steps);
      reasons == Times(Foreign(effects, References(quote)), ForeignEffect)
          + Times(Missing(quote.expectedOutput, effects), MissingOutput)
  {
    reasons := [];
    var references := References(quote);
    var effects: seq<AssetAmount> := [];
    for i := 0 to |plan.steps|
      invariant effects == Effects(plan.steps[..i])
      invariant reasons == Times(Foreign(effects, references), ForeignEffect)
    {
      var own := plan.steps[i].expectedAssetEffects;
      ghost var before := effects;
      for j := 0 to |own|
        invariant effects == before + own[..j]
        invariant reasons == Times(Foreign(effects, references), ForeignEffect)
      {
        CountForeign(effects, own[j], references);
        Extend(before, own, j);
        effects := effects + [own[j]];
        if !Includes(references, own[j]) {
          reasons := reasons + [ForeignEffect];
        }
      }
      assert own[..|own|] == own;
      EffectsStep(plan.steps, i);
    }
    assert plan.steps[..|plan.steps|] == plan.steps;

    var missing := MissingOutputReasons(quote.expectedOutput, effects);
    reasons := reasons + missing;
  }

  lemma Extend<T>(before: seq<T>, own: seq<T>, j: nat)
    requires j < |own|
    ensures before + own[..j] + [own[j]] == before + own[..j + 1]
  {
  }

  lemma {:induction false} NoneForeignIff(amounts: seq<AssetAmount>, list: seq<AssetAmount>)
    ensures Foreign(amounts, list) == 0 <==> forall a | a in amounts :: Includes(list, a)
  {
    SumNonNegative(Stranger(list), amounts);
  }

  lemma NoneMissingIff<T>(w: multiset<T>, g: multiset<T>)
    ensures |w - g| == 0 <==> w <= g
  {
    if w - g == multiset{} {
      forall k ensures w[k] <= g[k] { assert (w - g)[k] == 0; }
    }
    if w <= g { assert w - g == multiset{}; }
  }

  /** The effects are bound exactly when each is on the quote and together they hold every quoted output. */
  lemma EffectsBoundIff(plan: Plan, quote: Quote)
    ensures var effects := Effects(plan.steps);
      Foreign(effects, References(quote)) == 0 && Missing(quote.expectedOutput, effects) == 0
      <==> (forall a | a in effects :: Includes(References(quote), a)) && Bag(quote.expectedOutput) <= Bag(effects)
  {
    NoneForeignIff(Effects(plan.steps), References(quote));
    NoneMissingIff(Bag(quote.expectedOutput), Bag(Effects(plan.steps)));
  }

  lemma {:induction false} IncludesByBag(list: seq<AssetAmount>, other: seq<AssetAmount>, a: AssetAmount)
    requires multiset(list) == multiset(other)
    ensures Includes(list, a) == Includes(other, a)
  {
    MappedPermuted(Key, list, other);
    IncludesIff(list, a);
    IncludesIff(other, a);
    assert Key(a) in Keys(list) <==> Key(a) in Bag(list);
    assert Key(a) in Keys(other) <==> Key(a) in Bag(other);
  }

  lemma {:induction false} ForeignPermuted(a: seq<AssetAmount>, b: seq<AssetAmount>, list: seq<AssetAmount>,
                                           other: seq<AssetAmount>)
    requires multiset(a) == multiset(b) && multiset(list) == multiset(other)
    ensures Foreign(a, list) == Foreign(b, other)
  {
    SumPermuted(Stranger(list), a, b);
    forall x ensures Stranger(list)(x) == Stranger(other)(x) { IncludesByBag(list, other, x); }
    SumSame(Stranger(list), Stranger(other), b);
  }

  /** The effect check reports the same list whatever the order of effects, inputs and outputs. */
  lemma EffectReasonsIgnoreOrder(plan: Plan, quote: Quote, plan': Plan, quote': Quote)
    requires multiset(Effects(plan.steps)) == multiset(Effects(plan'.steps))
    requires multiset(quote.input) == multiset(quote'.input)
             && multiset(quote.expectedOutput) == multiset(quote'.expectedOutput)
    requires quote.minimumOutput == quote'.minimumOutput
    ensures Foreign(Effects(plan.steps), References(quote)) == Foreign(Effects(plan'.steps), References(quote'))
    ensures Missing(quote.expectedOutput, Effects(plan.steps)) == Missing(quote'.expectedOutput, Effects(plan'.steps))
  {
    ForeignPermuted(Effects(plan.steps), Effects(plan'.steps), References(quote), References(quote'));
    MappedPermuted(Key, Effects(plan.steps), Effects(plan'.steps));
    MappedPermuted(Key, quote.expectedOutput, quote'.expectedOutput);
  }

  // ----- Post-conditions and deposits -----

  predicate IsSend(mode: Mode) {
    mode.SendLte? || mode.SendEq? || mode.SendGte?
  }

  function SendClaims(conditions: seq<PostCondition>): seq<Claim> {
    if conditions == [] then []
    else SendClaims(conditions[..|conditions| - 1]) + ClaimOf(conditions[|conditions| - 1])
  }

  predicate BadDeposit(step: PlanStep) {
    step.payload.BitcoinDeposit? && FinancialInt(step.payload.amountSats).None?
  }

  /** Every deposit's amount is an integer. */
  predicate Readable(steps: seq<PlanStep>) {
    steps == [] || (Readable(steps[..|steps| - 1]) && !BadDeposit(steps[|steps| - 1]))
  }

  lemma {:induction false} ReadableIff(steps: seq<PlanStep>)
    ensures Readable(steps) <==> forall i | 0 <= i < |steps| :: !BadDeposit(steps[i])
  {
    if steps != [] { ReadableIff(steps[..|steps| - 1]); }
  }

  function StepClaims(step: PlanStep): seq<Claim> {
    match step.payload
    case BitcoinDeposit(amountSats, _, _, _, _, _) =>
      (match FinancialInt(amountSats) case Some(quantity) => [Deposit(quantity)] case None => [])
    case StacksCall(_, _, _, postConditions, _, _) => SendClaims(postConditions)
  }

  /** What the wallet may send: the send post-conditions and the deposits, in plan order. */
  function Claims(steps: seq<PlanStep>): seq<Claim> {
    if steps == [] then [] else Claims(steps[..|steps| - 1]) + StepClaims(steps[|steps| - 1])
  }

  function StepConditions(step: PlanStep): seq<PostCondition> {
    if step.payload.StacksCall? then step.payload.postConditions else []
  }

  function Conditions(steps: seq<PlanStep>): seq<PostCondition> {
    if steps == [] then [] else Conditions(steps[..|steps| - 1]) + StepConditions(steps[|steps| - 1])
  }

  predicate ConditionHolds(r: Reason, conditions: seq<PostCondition>, failed: seq<Claim>, quote: Quote,
                           ctx: SigningContext)
  {
    match r
    case PrincipalNetwork => exists c | c in conditions :: StacksAddressNetwork(c.principal) != Some(ctx.network)
    case PrincipalNotSender =>
      ctx.sender.Some? && exists c | c in conditions :: IsSend(c.mode) && c.principal != ctx.sender.value
    case ReceiveNotQuoted => exists c | c in conditions :: c.mode.ReceiveGte? && !Includes(ReceivePool(quote), c.amount)
    case SendNotQuoted => exists f | f in failed :: f.Send?
    case DepositNotQuoted => exists f | f in failed :: f.Deposit?
    case _ => false
  }

  /** What one condition gives rise to, when its amount is in the pool or not. */
  predicate OneConditionHolds(r: Reason, c: PostCondition, available: bool, quote: Quote, ctx: SigningContext) {
    match r
    case PrincipalNetwork => StacksAddressNetwork(c.principal) != Some(ctx.network)
    case PrincipalNotSender => ctx.sender.Some? && IsSend(c.mode) && c.principal != ctx.sender.value
    case ReceiveNotQuoted => c.mode.ReceiveGte? && !Includes(ReceivePool(quote), c.amount)
    case SendNotQuoted => IsSend(c.mode) && !available
    case _ => false
  }

  ghost predicate Reported(reasons: seq<Reason>, conditions: seq<PostCondition>, claims: seq<Claim>, quote: Quote,
                           ctx: SigningContext)
  {
    forall r :: r in reasons <==> ConditionHolds(r, conditions, Failures(claims, quote.input), quote, ctx)
  }

  ghost predicate ReportedOne(reasons: seq<Reason>, c: PostCondition, available: bool, quote: Quote,
                              ctx: SigningContext)
  {
    forall r :: r in reasons <==> OneConditionHolds(r, c, available, quote, ctx)
  }

  lemma {:induction false} ReportsOne(c: PostCondition, available: bool, quote: Quote, ctx: SigningContext)
    ensures ReportedOne(
      When(StacksAddressNetwork(c.principal) != Some(ctx.network), PrincipalNetwork)
      + (if IsSend(c.mode) then
           When(ctx.sender.Some? && c.principal != ctx.sender.value, PrincipalNotSender)
               + When(!available, SendNotQuoted)
         else if c.mode.ReceiveGte? then When(!Includes(ReceivePool(quote), c.amount), ReceiveNotQuoted)
         else []), c, available, quote, ctx)
  {
  }

  /** The claim of one condition, if it is a send. */
  function ClaimOf(c: PostCondition): seq<Claim> {
    if IsSend(c.mode) then [Send(c.amount)] else []
  }

  method ConditionReasons(pool: AmountPool, c: PostCondition, quote: Quote, ctx: SigningContext)
    returns (reasons: seq<Reason>)
    modifies pool
    ensures pool.items == if IsSend(c.mode) then Taken(old(pool.items), Send(c.amount)) else old(pool.items)
    ensures ReportedOne(reasons, c, Available(old(pool.items), Send(c.amount)), quote, ctx)
  {
    ReportsOne(c, Available(pool.items, Send(c.amount)), quote, ctx);
    reasons := When(StacksAddressNetwork(c.principal) != Some(ctx.network), PrincipalNetwork);
    if IsSend(c.mode) {
      var wrongSender := When(ctx.sender.Some? && c.principal != ctx.sender.value, PrincipalNotSender);
      var taken := pool.Take(Send(c.amount));
      reasons := reasons + (wrongSender + When(!taken, SendNotQuoted));
    } else if c.mode.ReceiveGte? {
      reasons := reasons + When(!Includes(ReceivePool(quote), c.amount), ReceiveNotQuoted);
    } else {
      reasons := reasons + [];
    }
  }

  lemma {:induction false} ConditionStep(r: Reason, conditions: seq<PostCondition>, failed: seq<Claim>,
                                         c: PostCondition, available: bool, quote: Quote, ctx: SigningContext)
    ensures ConditionHolds(r, conditions + [c],
                           failed + (if IsSend(c.mode) && !available then [Send(c.amount)] else []), quote, ctx)
       <==> ConditionHolds(r, conditions, failed, quote, ctx) || OneConditionHolds(r, c, available, quote, ctx)
  {
    var conditions' := conditions + [c];
    var failed' := failed + if IsSend(c.mode) && !available then [Send(c.amount)] else [];
    assert c in conditions';
    assert forall x :: x in conditions' <==> x in conditions || x == c;
    assert IsSend(c.mode) && !available ==> Send(c.amount) in failed';
    assert forall f :: f in failed' <==> f in failed || (IsSend(c.mode) && !available && f == Send(c.amount));
  }

  lemma {:induction false} FailuresStep(claims: seq<Claim>, c: PostCondition, input: seq<AssetAmount>)
    ensures Failures(claims + ClaimOf(c), input) == Failures(claims, input)
      + if IsSend(c.mode) && !Available(Leftover(claims, input), Send(c.amount)) then [Send(c.amount)] else []
  {
    assert Failures(claims, input) + [] == Failures(claims, input);
    if IsSend(c.mode) {
      Unfold(claims, Send(c.amount), input);
    } else {
      assert claims + [] == claims;
    }
  }

  lemma {:induction false} ReportedStep(reasons: seq<Reason>, own: seq<Reason>, conditions: seq<PostCondition>,
                                        claims: seq<Claim>, c: PostCondition, quote: Quote, ctx: SigningContext)
    requires Reported(reasons, conditions, claims, quote, ctx)
    requires ReportedOne(own, c, Available(Leftover(claims, quote.input), Send(c.amount)), quote, ctx)
    ensures Reported(reasons + own, conditions + [c], claims + ClaimOf(c), quote, ctx)
  {
    var failed, available := Failures(claims, quote.input), Available(Leftover(claims, quote.input), Send(c.amount));
    FailuresStep(claims, c, quote.input);
    var failed' := failed + if IsSend(c.mode) && !available then [Send(c.amount)] else [];
    forall r ensures r in reasons + own <==> ConditionHolds(r, conditions + [c], failed', quote, ctx) {
      ConditionStep(r, conditions, failed, c, available, quote, ctx);
    }
  }

  lemma {:induction false} LeftoverStep(claims: seq<Claim>, c: PostCondition, input: seq<AssetAmount>)
    ensures Leftover(claims + ClaimOf(c), input)
         == if IsSend(c.mode) then Taken(Leftover(claims, input), Send(c.amount)) else Leftover(claims, input)
  {
    if IsSend(c.mode) {
      Unfold(claims, Send(c.amount), input);
    } else {
      assert claims + [] == claims;
    }
  }

  /** The conditions of one call, after those of the steps before it. */
  method CallConditionReasons(pool: AmountPool, conditions: seq<PostCondition>, quote: Quote, ctx: SigningContext,
                              ghost before: seq<PostCondition>, ghost claims: seq<Claim>, earlier: seq<Reason>)
    returns (reasons: seq<Reason>)
    requires pool.items == Leftover(claims, quote.input) && Reported(earlier, before, claims, quote, ctx)
    modifies pool
    ensures pool.items == Leftover(claims + SendClaims(conditions), quote.input)
    ensures Reported(reasons, before + conditions, claims + SendClaims(conditions), quote, ctx)
  {
    reasons := earlier;
    ghost var seen, sent := before, claims;
    for j := 0 to |conditions|
      invariant seen == before + conditions[..j] && sent == claims + SendClaims(conditions[..j])
      invariant pool.items == Leftover(sent, quote.input) && Reported(reasons, seen, sent, quote, ctx)
    {
      var own := ConditionReasons(pool, conditions[j], quote, ctx);
      ReportedStep(reasons, own, seen, sent, conditions[j], quote, ctx);
      LeftoverStep(sent, conditions[j], quote.input);
      NextCondition(before, claims, conditions, j);
      reasons := reasons + own;
      seen, sent := seen + [conditions[j]], sent + ClaimOf(conditions[j]);
    }
    assert conditions[..|conditions|] == conditions;
  }

  lemma {:induction false} NextCondition(before: seq<PostCondition>, claims: seq<Claim>, conditions: seq<PostCondition>,
                                         j: nat)
    requires j < |conditions|
    ensures before + conditions[..j + 1] == before + conditions[..j] + [conditions[j]]
    ensures claims + SendClaims(conditions[..j + 1]) == claims + SendClaims(conditions[..j]) + ClaimOf(conditions[j])
  {
    assert conditions[..j + 1][..j] == conditions[..j];
  }

  lemma {:induction false} StepUnfold(steps: seq<PlanStep>, k: nat)
    requires k < |steps|
    ensures Claims(steps[..k + 1]) == Claims(steps[..k]) + StepClaims(steps[k])
    ensures Conditions(steps[..k + 1]) == Conditions(steps[..k]) + StepConditions(steps[k])
    ensures Readable(steps[..k + 1]) <==> Readable(steps[..k]) && !BadDeposit(steps[k])
  {
    assert steps[..k + 1][..k] == steps[..k];
  }

  lemma {:induction false} DepositStep(r: Reason, conditions: seq<PostCondition>, failed: seq<Claim>, quantity: int,
                                       quote: Quote, ctx: SigningContext)
    ensures ConditionHolds(r, conditions, failed + [Deposit(quantity)], quote, ctx)
       <==> ConditionHolds(r, conditions, failed, quote, ctx) || r == DepositNotQuoted
  {
    var failed' := failed + [Deposit(quantity)];
    assert Deposit(quantity) in failed';
    assert forall f :: f in failed' <==> f in failed || f == Deposit(quantity);
  }

  lemma {:induction false} ReportedDeposit(reasons: seq<Reason>, conditions: seq<PostCondition>, claims: seq<Claim>,
                                           quantity: int, quote: Quote, ctx: SigningContext)
    requires Reported(reasons, conditions, claims, quote, ctx)
    ensures Reported(reasons + When(!Available(Leftover(claims, quote.input), Deposit(quantity)), DepositNotQuoted),
                     conditions, claims + [Deposit(quantity)], quote, ctx)
  {
    var failed, available := Failures(claims, quote.input), Available(Leftover(claims, quote.input), Deposit(quantity));
    Unfold(claims, Deposit(quantity), quote.input);
    if available {
      assert failed + [] == failed;
    } else {
      forall r
        ensures r in reasons + [DepositNotQuoted]
                <==> ConditionHolds(r, conditions, failed + [Deposit(quantity)], quote, ctx)
      {
        DepositStep(r, conditions, failed, quantity, quote, ctx);
      }
    }
  }

  /** One step of the plan against the inputs not yet covered. */
  method StepConditionReasons(uncovered: AmountPool, step: PlanStep, quote: Quote, ctx: SigningContext,
                              ghost conditions: seq<PostCondition>, ghost claims: seq<Claim>, earlier: seq<Reason>)
    returns (result: Result<seq<Reason>, Thrown>)
    requires uncovered.items == Leftover(claims, quote.input) && Reported(earlier, conditions, claims, quote, ctx)
    modifies uncovered
    ensures result.Err? <==> BadDeposit(step)
    ensures result.Ok? ==> uncovered.items == Leftover(claims + StepClaims(step), quote.input)
    ensures result.Ok? ==>
            Reported(result.value, conditions + StepConditions(step), claims + StepClaims(step), quote, ctx)
  {
    match step.payload {
      case BitcoinDeposit(amountSats, _, _, _, _, _) =>
        match FinancialInt(amountSats) {
          case None => return Err(DepositNotAnInteger);
          case Some(quantity) =>
            assert conditions + [] == conditions;
            Unfold(claims, Deposit(quantity), quote.input);
            ReportedDeposit(earlier, conditions, claims, quantity, quote, ctx);
            var taken := uncovered.Take(Deposit(quantity));
            return Ok(earlier + When(!taken, DepositNotQuoted));
        }
      case StacksCall(_, _, _, postConditions, _, _) =>
        var reasons := CallConditionReasons(uncovered, postConditions, quote, ctx, conditions, claims, earlier);
        return Ok(reasons);
    }
  }

  /** Conditions and deposits, and whether an input was left uncovered. */
  predicate BindingHolds(r: Reason, steps: seq<PlanStep>, quote: Quote, ctx: SigningContext) {
    || ConditionHolds(r, Conditions(steps), Failures(Claims(steps), quote.input), quote, ctx)
    || (r == UnprotectedInput && Leftover(Claims(steps), quote.input) != [])
  }

  lemma {:induction false} UnreadablePrefix(steps: seq<PlanStep>, k: nat)
    requires k < |steps| && BadDeposit(steps[k])
    ensures !Readable(steps)
  {
    ReadableIff(steps);
  }

  /** What is reported about conditions and deposits; throws on a deposit whose amount is not an integer. */
  method PostConditionBindingReasons(plan: Plan, quote: Quote, ctx: SigningContext)
    returns (result: Result<seq<Reason>, Thrown>)
    ensures result.Ok? <==> Readable(plan.steps)
    ensures result.Ok? ==> forall r :: r in result.value <==> BindingHolds(r, plan.steps, quote, ctx)
  {
    var reasons: seq<Reason> := [];
    var uncovered := new AmountPool(quote.input);
    for k := 0 to |plan.steps|
      invariant Readable(plan.steps[..k])
      invariant uncovered.items == Leftover(Claims(plan.steps[..k]), quote.input)
      invariant Reported(reasons, Conditions(plan.steps[..k]), Claims(plan.steps[..k]), quote, ctx)
    {
      ghost var conditions, claims := Conditions(plan.steps[..k]), Claims(plan.steps[..k]);
      StepUnfold(plan.steps, k);
      var longer := StepConditionReasons(uncovered, plan.steps[k], quote, ctx, conditions, claims, reasons);
      if longer.Err? {
        UnreadablePrefix(plan.steps, k);
        return longer;
      }
      reasons := longer.value;
    }
    assert plan.steps[..|plan.steps|] == plan.steps;
    result := Ok(reasons + When(|uncovered.items| > 0, UnprotectedInput));
  }
}
