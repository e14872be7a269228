/** Quotes and plans: what a user reviews and what a wallet is asked to sign. */
module Plans {
  import opened Wrappers
  import opened ScopeKeys
  import opened AssetIds
  import opened Sorting

  datatype AssetAmount = AssetAmount(asset: AssetId, quantity: int)

  datatype FeeKind = Miner | Signer | Protocol | NetworkFee
  datatype Fee = Fee(kind: FeeKind, amount: AssetAmount, max: Option<AssetAmount>)

  datatype Action = DepositSbtc | WithdrawSbtc | Supply | WithdrawSupply | Borrow | Repay | Swap | Stake

  datatype Quote = Quote(
    id: string, action: Action, marketId: string, network: Network,
    input: seq<AssetAmount>, expectedOutput: seq<AssetAmount>, fees: seq<Fee>,
    snapshots: seq<string>, expiresAt: string, executable: bool, warnings: seq<string>,
    registryVersion: string, adapterVersion: string, minimumOutput: Option<AssetAmount>)

  /** A value that should be a base-10 string, and at run time may be a number. */
  datatype Scalar = Text(text: string) | Number

  datatype ClarityValue =
    | UintValue(value: Scalar)
    | PrincipalValue(principal: string)
    | BuffValue(hex: string)
    | TupleValue(fields: seq<Field<ClarityValue>>)
    | NoneValue
    | SomeValue(inner: ClarityValue)

  datatype Mode = SendLte | SendEq | SendGte | ReceiveGte
  datatype PostCondition = PostCondition(principal: string, mode: Mode, amount: AssetAmount)

  datatype BitcoinNetwork = BitcoinMainnet | BitcoinTest | Regtest

  datatype Payload =
    | BitcoinDeposit(amountSats: Scalar, stacksRecipient: string, bitcoinNetwork: BitcoinNetwork,
                     reclaimLockTime: int, maxSignerFeeSats: Scalar, emilyNotifyPath: string)
    | StacksCall(contractId: string, functionName: string, functionArgs: seq<ClarityValue>,
                 postConditions: seq<PostCondition>, denyMode: bool, callNetwork: Network)

  datatype PlanStep = PlanStep(
    id: string, payload: Payload, expectedAssetEffects: seq<AssetAmount>, dependsOn: seq<string>)

  datatype Plan = Plan(
    id: string, quoteId: string, network: Network, registryVersion: string, adapterVersion: string,
    steps: seq<PlanStep>, expiresAt: string, reviewSummary: string)
}
