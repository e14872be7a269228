/** The wire form of quotes and plans: amounts as text, everything else as it is. */
module Wire {
  import opened Wrappers
  import opened Sorting
  import opened Decimal
  import opened ScopeKeys
  import opened AssetIds
  import opened Plans
  import Units

  datatype WireError = NumberNotAllowed | NotAnAsset | NotAnInteger | UnknownAction

  datatype AmountWire = AmountWire(asset: string, quantity: Scalar)
  datatype FeeWire = FeeWire(kind: FeeKind, amount: AmountWire, max: Option<AmountWire>)
  datatype PostConditionWire = PostConditionWire(principal: string, mode: Mode, amount: AmountWire)

  datatype QuoteWire = QuoteWire(
    id: string, action: string, marketId: string, network: Network,
    input: seq<AmountWire>, expectedOutput: seq<AmountWire>, fees: seq<FeeWire>,
    snapshots: seq<string>, expiresAt: string, executable: bool, warnings: seq<string>,
    registryVersion: string, adapterVersion: string, minimumOutput: Option<AmountWire>)

  datatype PayloadWire =
    | DepositWire(deposit: Payload)
    | CallWire(contractId: string, functionName: string, functionArgs: seq<ClarityValue>,
               postConditions: seq<PostConditionWire>, denyMode: bool, callNetwork: Network)

  datatype PlanStepWire = PlanStepWire(
    id: string, dependsOn: seq<string>, expectedAssetEffects: seq<AmountWire>, payload: PayloadWire)

  datatype PlanWire = PlanWire(
    id: string, quoteId: string, network: Network, registryVersion: string, adapterVersion: string,
    expiresAt: string, reviewSummary: string, steps: seq<PlanStepWire>)

  // ----- Mapping over lists -----

  function MapAll<A, B>(f: A -> B, xs: seq<A>): seq<B> {
    if xs == [] then [] else [f(xs[0])] + MapAll(f, xs[1..])
  }

  /** `map` with a function that may throw: the first failure ends it. */
  function TryAll<A, B>(f: A -> Result<B, WireError>, xs: seq<A>): Result<seq<B>, WireError> {
    if xs == [] then Ok([])
    else match f(xs[0])
    case Err(e) => Err(e)
    case Ok(first) =>
      match TryAll(f, xs[1..])
      case Err(e) => Err(e)
      case Ok(rest) => Ok([first] + rest)
  }

  /** A list survives exactly when each of its elements does. */
  lemma {:induction false} TryMapIff<A, B>(write: A -> B, read: B -> Result<A, WireError>, xs: seq<A>)
    ensures TryAll(read, MapAll(write, xs)) == Ok(xs) <==> forall i | 0 <= i < |xs| :: read(write(xs[i])) == Ok(xs[i])
  {
    if xs != [] {
      var wired := MapAll(write, xs);
      assert wired[1..] == MapAll(write, xs[1..]);
      TryMapIff(write, read, xs[1..]);
      assert xs == [xs[0]] + xs[1..];
      assert forall i | 0 <= i < |xs[1..]| :: xs[1..][i] == xs[i + 1];
      assert forall i | 1 <= i < |xs| :: xs[i] == xs[1..][i - 1];
      var rest := TryAll(read, MapAll(write, xs[1..]));
      if read(write(xs[0])) == Ok(xs[0]) && rest.Ok? {
        assert ([xs[0]] + rest.value)[1..] == rest.value;
      } else if read(write(xs[0])).Ok? && rest.Ok? {
        assert ([read(write(xs[0])).value] + rest.value)[0] != xs[0];
      }
    }
  }

  // ----- Amounts -----

  function JsonAmount(a: AssetAmount): AmountWire {
    AmountWire(FormatAssetId(a.asset), Text(FormatInteger(a.quantity)))
  }

  function ParseAmount(w: AmountWire): Result<AssetAmount, WireError> {
    match w.quantity
    case Number => Err(NumberNotAllowed)
    case Text(text) =>
      match ParseAssetId(w.asset)
      case Err(_) => Err(NotAnAsset)
      case Ok(asset) =>
        match Units.ParseQuantity(text)
        case None => Err(NotAnInteger)
        case Some(quantity) => Ok(AssetAmount(asset, quantity))
  }

  lemma AmountRoundTripIff(a: AssetAmount)
    ensures ParseAmount(JsonAmount(a)) == Ok(a) <==> ColonFree(a.asset)
  {
    ParseFormatIff(a.asset);
    ParseFormatInteger(a.quantity);
  }

  /** Why an amount is refused: a number first, then its asset, then a quantity that is no integer. */
  lemma {:induction false} AmountThrowsIff(w: AmountWire)
    ensures ParseAmount(w) == Err(NumberNotAllowed) <==> w.quantity == Number
    ensures ParseAmount(w) == Err(NotAnAsset) <==> w.quantity != Number && ParseAssetId(w.asset).Err?
    ensures ParseAmount(w) == Err(NotAnInteger) <==>
      w.quantity != Number && ParseAssetId(w.asset).Ok? && Units.ParseQuantity(w.quantity.text).None?
  {
  }

  predicate AllColonFree(amounts: seq<AssetAmount>) {
    forall i | 0 <= i < |amounts| :: ColonFree(amounts[i].asset)
  }

  lemma AmountsRoundTripIff(amounts: seq<AssetAmount>)
    ensures TryAll(ParseAmount, MapAll(JsonAmount, amounts)) == Ok(amounts) <==> AllColonFree(amounts)
  {
    TryMapIff(JsonAmount, ParseAmount, amounts);
    forall i | 0 <= i < |amounts|
      ensures ParseAmount(JsonAmount(amounts[i])) == Ok(amounts[i]) <==> ColonFree(amounts[i].asset)
    {
      AmountRoundTripIff(amounts[i]);
    }
  }

  function JsonMaybe(a: Option<AssetAmount>): Option<AmountWire> {
    match a case None => None case Some(x) => Some(JsonAmount(x))
  }

  function ParseMaybe(w: Option<AmountWire>): Result<Option<AssetAmount>, WireError> {
    match w
    case None => Ok(None)
    case Some(x) => match ParseAmount(x) case Ok(a) => Ok(Some(a)) case Err(e) => Err(e)
  }

  predicate MaybeColonFree(a: Option<AssetAmount>) {
    a.Some? ==> ColonFree(a.value.asset)
  }

  lemma MaybeRoundTripIff(a: Option<AssetAmount>)
    ensures ParseMaybe(JsonMaybe(a)) == Ok(a) <==> MaybeColonFree(a)
  {
    if a.Some? { AmountRoundTripIff(a.value); }
  }

  // ----- Quotes -----

  function ActionName(a: Action): string {
    match a
    case DepositSbtc => "deposit_sbtc"
    case WithdrawSbtc => "withdraw_sbtc"
    case Supply => "supply"
    case WithdrawSupply => "withdraw_supply"
    case Borrow => "borrow"
    case Repay => "repay"
    case Swap => "swap"
    case Stake => "stake"
  }

  function ParseAction(name: string): Option<Action> {
    if name == "deposit_sbtc" then Some(DepositSbtc)
    else if name == "withdraw_sbtc" then Some(WithdrawSbtc)
    else if name == "supply" then Some(Supply)
    else if name == "withdraw_supply" then Some(WithdrawSupply)
    else if name == "borrow" then Some(Borrow)
    else if name == "repay" then Some(Repay)
    else if name == "swap" then Some(Swap)
    else if name == "stake" then Some(Stake)
    else None
  }

  function SerializeFee(fee: Fee): FeeWire {
    FeeWire(fee.kind, JsonAmount(fee.amount), JsonMaybe(fee.max))
  }

  function ParseFee(w: FeeWire): Result<Fee, WireError> {
    match ParseAmount(w.amount)
    case Err(e) => Err(e)
    case Ok(amount) => match ParseMaybe(w.max) case Err(e) => Err(e) case Ok(max) => Ok(Fee(w.kind, amount, max))
  }

  predicate FeeColonFree(fee: Fee) {
    ColonFree(fee.amount.asset) && MaybeColonFree(fee.max)
  }

  lemma FeeRoundTripIff(fee: Fee)
    ensures ParseFee(SerializeFee(fee)) == Ok(fee) <==> FeeColonFree(fee)
  {
    AmountRoundTripIff(fee.amount);
    MaybeRoundTripIff(fee.max);
  }

  lemma FeesRoundTripIff(fees: seq<Fee>)
    ensures TryAll(ParseFee, MapAll(SerializeFee, fees)) == Ok(fees)
            <==> forall i | 0 <= i < |fees| :: FeeColonFree(fees[i])
  {
    TryMapIff(SerializeFee, ParseFee, fees);
    forall i | 0 <= i < |fees| ensures ParseFee(SerializeFee(fees[i])) == Ok(fees[i]) <==> FeeColonFree(fees[i]) {
      FeeRoundTripIff(fees[i]);
    }
  }

  function SerializeQuote(q: Quote): QuoteWire {
    QuoteWire(q.id, ActionName(q.action), q.marketId, q.network, MapAll(JsonAmount, q.input),
              MapAll(JsonAmount, q.expectedOutput), MapAll(SerializeFee, q.fees), q.snapshots, q.expiresAt,
              q.executable, q.warnings, q.registryVersion, q.adapterVersion, JsonMaybe(q.minimumOutput))
  }

  function ParseQuote(w: QuoteWire): Result<Quote, WireError> {
    match ParseAction(w.action)
    case None => Err(UnknownAction)
    case Some(action) =>
      var input := TryAll(ParseAmount, w.input);
      var output := TryAll(ParseAmount, w.expectedOutput);
      var fees := TryAll(ParseFee, w.fees);
      var minimum := ParseMaybe(w.minimumOutput);
      if input.Err? then Err(input.error)
      else if output.Err? then Err(output.error)
      else if fees.Err? then Err(fees.error)
      else if minimum.Err? then Err(minimum.error)
      else Ok(Quote(w.id, action, w.marketId, w.network, input.value, output.value, fees.value, w.snapshots,
                    w.expiresAt, w.executable, w.warnings, w.registryVersion, w.adapterVersion, minimum.value))
  }

  predicate QuoteColonFree(q: Quote) {
    && AllColonFree(q.input) && AllColonFree(q.expectedOutput)
    && (forall i | 0 <= i < |q.fees| :: FeeColonFree(q.fees[i]))
    && MaybeColonFree(q.minimumOutput)
  }

  lemma ActionReads(a: Action)
    ensures ParseAction(ActionName(a)) == Some(a)
  {
  }

  /** What a wire quote parses to, field by field. */
  lemma QuoteReads(w: QuoteWire, q: Quote)
    ensures ParseQuote(w) == Ok(q) <==>
      && ParseAction(w.action) == Some(q.action) && TryAll(ParseAmount, w.input) == Ok(q.input)
      && TryAll(ParseAmount, w.expectedOutput) == Ok(q.expectedOutput) && TryAll(ParseFee, w.fees) == Ok(q.fees)
      && ParseMaybe(w.minimumOutput) == Ok(q.minimumOutput)
      && w.id == q.id && w.marketId == q.marketId && w.network == q.network && w.snapshots == q.snapshots
      && w.expiresAt == q.expiresAt && w.executable == q.executable && w.warnings == q.warnings
      && w.registryVersion == q.registryVersion && w.adapterVersion == q.adapterVersion
  {
  }

  /** A quote survives the wire exactly when none of its principals holds a separator. */
  lemma QuoteRoundTripIff(q: Quote)
    ensures ParseQuote(SerializeQuote(q)) == Ok(q) <==> QuoteColonFree(q)
  {
    ActionReads(q.action);
    QuoteReads(SerializeQuote(q), q);
    AmountsRoundTripIff(q.input);
    AmountsRoundTripIff(q.expectedOutput);
    FeesRoundTripIff(q.fees);
    MaybeRoundTripIff(q.minimumOutput);
  }

  // ----- Plans -----

  /** No number hides in the arguments, however deep. */
  predicate ArgHasText(arg: ClarityValue) {
    match arg
    case UintValue(value) => value.Text?
    case SomeValue(inner) => ArgHasText(inner)
    case TupleValue(fields) => forall f | f in fields :: ArgHasText(f.value)
    case _ => true
  }

  predicate ArgsHaveText(args: seq<ClarityValue>) {
    forall i | 0 <= i < |args| :: ArgHasText(args[i])
  }

  function SerializeCondition(c: PostCondition): PostConditionWire {
    PostConditionWire(c.principal, c.mode, JsonAmount(c.amount))
  }

  function ParseCondition(w: PostConditionWire): Result<PostCondition, WireError> {
    match ParseAmount(w.amount)
    case Err(e) => Err(e)
    case Ok(amount) => Ok(PostCondition(w.principal, w.mode, amount))
  }

  lemma ConditionsRoundTripIff(conditions: seq<PostCondition>)
    ensures TryAll(ParseCondition, MapAll(SerializeCondition, conditions)) == Ok(conditions)
       <==> forall i | 0 <= i < |conditions| :: ColonFree(conditions[i].amount.asset)
  {
    TryMapIff(SerializeCondition, ParseCondition, conditions);
    forall i | 0 <= i < |conditions|
      ensures ParseCondition(SerializeCondition(conditions[i])) == Ok(conditions[i])
              <==> ColonFree(conditions[i].amount.asset)
    {
      ConditionRoundTripIff(conditions[i]);
    }
  }

  lemma ConditionRoundTripIff(c: PostCondition)
    ensures ParseCondition(SerializeCondition(c)) == Ok(c) <==> ColonFree(c.amount.asset)
  {
    AmountRoundTripIff(c.amount);
  }

  function SerializePayload(p: Payload): PayloadWire {
    match p
    case BitcoinDeposit(_, _, _, _, _, _) => DepositWire(p)
    case StacksCall(contractId, functionName, functionArgs, postConditions, denyMode, callNetwork) =>
      CallWire(contractId, functionName, functionArgs, MapAll(SerializeCondition, postConditions), denyMode,
               callNetwork)
  }

  function ParsePayload(w: PayloadWire): Result<Payload, WireError> {
    match w
    case DepositWire(deposit) =>
      if deposit.BitcoinDeposit? && (deposit.amountSats.Number? || deposit.maxSignerFeeSats.Number?) then
        Err(NumberNotAllowed)
      else Ok(deposit)
    case CallWire(contractId, functionName, functionArgs, postConditions, denyMode, callNetwork) =>
      if !ArgsHaveText(functionArgs) then Err(NumberNotAllowed)
      else match TryAll(ParseCondition, postConditions)
      case Err(e) => Err(e)
      case Ok(conditions) => Ok(StacksCall(contractId, functionName, functionArgs, conditions, denyMode, callNetwork))
  }

  /** Amounts are text all through, and principals hold no separator. */
  predicate PayloadClean(p: Payload) {
    match p
    case BitcoinDeposit(amountSats, _, _, _, maxSignerFeeSats, _) => amountSats.Text? && maxSignerFeeSats.Text?
    case StacksCall(_, _, functionArgs, postConditions, _, _) =>
      ArgsHaveText(functionArgs) && forall i | 0 <= i < |postConditions| :: ColonFree(postConditions[i].amount.asset)
  }

  /** Somewhere in the argument. */
  ghost predicate Inside(part: ClarityValue, arg: ClarityValue) {
    || part == arg
    || match arg
       case SomeValue(inner) => Inside(part, inner)
       case TupleValue(fields) => exists f | f in fields :: Inside(part, f.value)
       case _ => false
  }

  lemma {:induction false} ArgHasTextIff(arg: ClarityValue)
    ensures ArgHasText(arg) <==> !Inside(UintValue(Number), arg)
  {
    match arg {
      case SomeValue(inner) => ArgHasTextIff(inner);
      case TupleValue(fields) => forall f | f in fields { ArgHasTextIff(f.value); }
      case _ =>
    }
  }

  /** What keeps a payload from surviving: a number for an amount anywhere in it, or a principal with a separator. */
  lemma {:induction false} CleanIff(p: Payload)
    ensures PayloadClean(p) <==>
      match p
      case BitcoinDeposit(sats, _, _, _, maxFee, _) => sats != Number && maxFee != Number
      case StacksCall(_, _, args, conditions, _, _) =>
        && (forall i | 0 <= i < |args| :: !Inside(UintValue(Number), args[i]))
        && (forall i | 0 <= i < |conditions| :: ColonFree(conditions[i].amount.asset))
  {
    if p.StacksCall? {
      forall i | 0 <= i < |p.functionArgs| { ArgHasTextIff(p.functionArgs[i]); }
    }
  }

  lemma PayloadRoundTripIff(p: Payload)
    ensures ParsePayload(SerializePayload(p)) == Ok(p) <==> PayloadClean(p)
  {
    if p.StacksCall? { ConditionsRoundTripIff(p.postConditions); }
  }

  function SerializeStep(s: PlanStep): PlanStepWire {
    PlanStepWire(s.id, s.dependsOn, MapAll(JsonAmount, s.expectedAssetEffects), SerializePayload(s.payload))
  }

  function ParseStep(w: PlanStepWire): Result<PlanStep, WireError> {
    match TryAll(ParseAmount, w.expectedAssetEffects)
    case Err(e) => Err(e)
    case Ok(effects) =>
      match ParsePayload(w.payload)
      case Err(e) => Err(e)
      case Ok(payload) => Ok(PlanStep(w.id, payload, effects, w.dependsOn))
  }

  predicate StepClean(s: PlanStep) {
    AllColonFree(s.expectedAssetEffects) && PayloadClean(s.payload)
  }

  lemma StepRoundTripIff(s: PlanStep)
    ensures ParseStep(SerializeStep(s)) == Ok(s) <==> StepClean(s)
  {
    AmountsRoundTripIff(s.expectedAssetEffects);
    PayloadRoundTripIff(s.payload);
  }

  function SerializePlan(p: Plan): PlanWire {
    PlanWire(p.id, p.quoteId, p.network, p.registryVersion, p.adapterVersion, p.expiresAt, p.reviewSummary,
             MapAll(SerializeStep, p.steps))
  }

  function ParsePlan(w: PlanWire): Result<Plan, WireError> {
    match TryAll(ParseStep, w.steps)
    case Err(e) => Err(e)
    case Ok(steps) =>
        Ok(Plan(w.id, w.quoteId, w.network, w.registryVersion, w.adapterVersion, steps, w.expiresAt, w.reviewSummary))
  }

  /** An amount on the wire: the asset's text, and decimal digits that read as the quantity. */
  ghost predicate Says(w: AmountWire, a: AssetAmount) {
    && w.asset == FormatAssetId(a.asset)
    && w.quantity.Text? && Units.ParseQuantity(w.quantity.text) == Some(a.quantity)
  }

  ghost predicate AllSay(wired: seq<AmountWire>, amounts: seq<AssetAmount>) {
    |wired| == |amounts| && forall i | 0 <= i < |amounts| :: Says(wired[i], amounts[i])
  }

  lemma {:induction false} AmountSays(a: AssetAmount)
    ensures Says(JsonAmount(a), a)
  {
    ParseFormatInteger(a.quantity);
    DigitsOnly(ToDigits(if a.quantity < 0 then -a.quantity else a.quantity));
  }

  lemma {:induction false} AmountsSay(amounts: seq<AssetAmount>)
    ensures AllSay(MapAll(JsonAmount, amounts), amounts)
  {
    if amounts != [] {
      AmountSays(amounts[0]);
      AmountsSay(amounts[1..]);
    }
  }

  /** A quote on the wire says what the quote says, field by field, with its action by name. */
  lemma {:induction false} QuoteOnWire(q: Quote)
    ensures var w := SerializeQuote(q);
      && w.id == q.id && w.marketId == q.marketId && w.network == q.network && w.expiresAt == q.expiresAt
      && w.snapshots == q.snapshots && w.executable == q.executable && w.warnings == q.warnings
      && w.registryVersion == q.registryVersion && w.adapterVersion == q.adapterVersion
      && AllSay(w.input, q.input) && AllSay(w.expectedOutput, q.expectedOutput)
      && (w.minimumOutput.Some? <==> q.minimumOutput.Some?)
      && (q.minimumOutput.Some? ==> Says(w.minimumOutput.value, q.minimumOutput.value))
      && w.action == match q.action
                     case DepositSbtc => "deposit_sbtc"
                     case WithdrawSbtc => "withdraw_sbtc"
                     case Supply => "supply"
                     case WithdrawSupply => "withdraw_supply"
                     case Borrow => "borrow"
                     case Repay => "repay"
                     case Swap => "swap"
                     case Stake => "stake"
  {
    AmountsSay(q.input);
    AmountsSay(q.expectedOutput);
    if q.minimumOutput.Some? { AmountSays(q.minimumOutput.value); }
  }

  /** A plan survives the wire exactly when its amounts are text and its principals hold no separator. */
  lemma PlanRoundTripIff(p: Plan)
    ensures ParsePlan(SerializePlan(p)) == Ok(p) <==> forall i | 0 <= i < |p.steps| :: StepClean(p.steps[i])
  {
    TryMapIff(SerializeStep, ParseStep, p.steps);
    forall i | 0 <= i < |p.steps|
      ensures ParseStep(SerializeStep(p.steps[i])) == Ok(p.steps[i]) <==> StepClean(p.steps[i])
    {
      StepRoundTripIff(p.steps[i]);
    }
  }
}
