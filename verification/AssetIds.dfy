/** Asset identifiers and their text form. */
module AssetIds {
  import opened Wrappers
  import opened Text
  import opened ScopeKeys

  datatype Chain = Bitcoin | Stacks
  datatype Symbol = Btc | Stx
  datatype Identity = Native(symbol: Symbol) | Contract(principal: string, assetName: string)
  datatype AssetId = AssetId(chain: Chain, network: Network, identity: Identity)

  datatype IdError = NotAnIdentifier | UnknownNative

  function ChainName(c: Chain): string {
    match c case Bitcoin => "bitcoin" case Stacks => "stacks"
  }

  function SymbolName(s: Symbol): string {
    match s case Btc => "btc" case Stx => "stx"
  }

  function FormatAssetId(a: AssetId): string {
    match a.identity
    case Native(symbol) => Join([ChainName(a.chain), NetworkName(a.network), "native", SymbolName(symbol)], ':')
    case Contract(principal, assetName) =>
      Join([ChainName(a.chain), NetworkName(a.network), "contract", principal, assetName], ':')
  }

  function ParseAssetId(value: string): Result<AssetId, IdError> {
    ParseFields(Split(value, ':'))
  }

  function ParseFields(parts: seq<string>): Result<AssetId, IdError> {
    if |parts| < 2 || parts[0] !in {"bitcoin", "stacks"} || parts[1] !in {"mainnet", "testnet"} then
      Err(NotAnIdentifier)
    else
      var chain := if parts[0] == "bitcoin" then Bitcoin else Stacks;
      var network := if parts[1] == "mainnet" then Mainnet else Testnet;
      if |parts| > 2 && parts[2] == "native" then
        if |parts| > 3 && parts[3] in {"btc", "stx"} then
          Ok(AssetId(chain, network, Native(if parts[3] == "btc" then Btc else Stx)))
        else Err(UnknownNative)
      else if |parts| > 4 && parts[2] == "contract" then
        Ok(AssetId(chain, network, Contract(parts[3], Join(parts[4..], ':'))))
      else Err(NotAnIdentifier)
  }

  function SameAsset(left: AssetId, right: AssetId): bool {
    FormatAssetId(left) == FormatAssetId(right)
  }

  /** The principal holds no separator; a native asset has no principal. */
  predicate ColonFree(a: AssetId) {
    a.identity.Contract? ==> ':' !in a.identity.principal
  }

  lemma SplitFields(first: string, rest: string)
    requires ':' !in first
    ensures Split(first + ":" + rest, ':') == [first] + Split(rest, ':')
  {
    SplitFirst(first, ':', rest);
  }

  lemma Three(x: string, y: string, z: string, rest: seq<string>)
    ensures [x] + ([y] + ([z] + rest)) == [x, y, z] + rest
  {
  }

  lemma FixedFields(a: AssetId, tail: string)
    ensures var kind := if a.identity.Native? then "native" else "contract";
      Split(ChainName(a.chain) + ":" + (NetworkName(a.network) + ":" + (kind + ":" + tail)), ':')
        == [ChainName(a.chain), NetworkName(a.network), kind] + Split(tail, ':')
  {
    var kind := if a.identity.Native? then "native" else "contract";
    SplitFields(kind, tail);
    SplitFields(NetworkName(a.network), kind + ":" + tail);
    SplitFields(ChainName(a.chain), NetworkName(a.network) + ":" + (kind + ":" + tail));
    Three(ChainName(a.chain), NetworkName(a.network), kind, Split(tail, ':'));
  }

  function TailText(a: AssetId): string {
    match a.identity
    case Native(symbol) => SymbolName(symbol)
    case Contract(principal, assetName) => principal + ":" + assetName
  }

  lemma FormatShape(a: AssetId)
    ensures var kind := if a.identity.Native? then "native" else "contract";
      FormatAssetId(a) == ChainName(a.chain) + ":" + (NetworkName(a.network) + ":" + (kind + ":" + TailText(a)))
  {
    var c, n := ChainName(a.chain), NetworkName(a.network);
    match a.identity {
      case Native(symbol) =>
        var parts := [c, n, "native", SymbolName(symbol)];
        assert parts[1..] == [n, "native", SymbolName(symbol)] && parts[1..][1..] == ["native", SymbolName(symbol)];
        assert parts[1..][1..][1..] == [SymbolName(symbol)];
      case Contract(principal, assetName) =>
        var parts := [c, n, "contract", principal, assetName];
        assert parts[1..] == [n, "contract", principal, assetName];
        assert parts[1..][1..] == ["contract", principal, assetName];
        assert parts[1..][1..][1..] == [principal, assetName];
        assert [principal, assetName][1..] == [assetName];
    }
  }

  lemma NativeReads(a: AssetId, rest: seq<string>)
    requires a.identity.Native? && rest == [SymbolName(a.identity.symbol)]
    ensures ParseFields([ChainName(a.chain), NetworkName(a.network), "native"] + rest) == Ok(a)
  {
    var parts := [ChainName(a.chain), NetworkName(a.network), "native"] + rest;
    assert parts[3] == SymbolName(a.identity.symbol);
  }

  lemma ContractReads(a: AssetId, rest: seq<string>)
    requires a.identity.Contract? && |rest| >= 1
    ensures var r := ParseFields([ChainName(a.chain), NetworkName(a.network), "contract"] + rest);
      if |rest| == 1 then r.Err?
      else r == Ok(AssetId(a.chain, a.network, Contract(rest[0], Join(rest[1..], ':'))))
  {
    var parts := [ChainName(a.chain), NetworkName(a.network), "contract"] + rest;
    if |rest| > 1 { assert parts[4..] == rest[1..]; }
  }

  /** The part after the kind splits into principal and name exactly when the principal holds no separator. */
  lemma TailReads(principal: string, assetName: string)
    ensures var rest := Split(principal + ":" + assetName, ':');
      |rest| >= 1 && (|rest| > 1 && rest[0] == principal && Join(rest[1..], ':') == assetName <==> ':' !in principal)
  {
    SplitParts(principal + ":" + assetName, ':');
    if ':' !in principal {
      SplitFields(principal, assetName);
      JoinSplit(assetName, ':');
    }
  }

  /** The text form is read back exactly when the principal holds no separator. */
  lemma ParseFormatIff(a: AssetId)
    ensures ParseAssetId(FormatAssetId(a)) == Ok(a) <==> ColonFree(a)
  {
    FormatShape(a);
    FixedFields(a, TailText(a));
    match a.identity {
      case Native(symbol) =>
        SplitNone(SymbolName(symbol), ':');
        NativeReads(a, Split(TailText(a), ':'));
      case Contract(principal, assetName) =>
        TailReads(principal, assetName);
        ContractReads(a, Split(TailText(a), ':'));
    }
  }

  lemma {:induction false} SplitParts(s: string, c: char)
    ensures forall i | 0 <= i < |Split(s, c)| :: c !in Split(s, c)[i]
  {
    if s != [] { SplitParts(s[1..], c); }
  }

  /** Between identifiers without separators in their principals, same text means same asset. */
  lemma SameAssetIsEqual(left: AssetId, right: AssetId)
    requires ColonFree(left) && ColonFree(right)
    ensures SameAsset(left, right) <==> left == right
  {
    ParseFormatIff(left);
    ParseFormatIff(right);
  }

  /** Whatever parses has a principal without separators. */
  lemma ParsedIsColonFree(value: string)
    requires ParseAssetId(value).Ok?
    ensures ColonFree(ParseAssetId(value).value)
  {
    SplitParts(value, ':');
  }

  lemma Flat(a: string, b: string, c: string, d: string)
    ensures a + ":" + (b + ":" + (c + ":" + d)) == a + ":" + b + ":" + c + ":" + d
  {
  }

  /** The text of an asset, spelled out. */
  lemma {:induction false} SpelledNative(network: Network)
    ensures var name := if network == Mainnet then "mainnet" else "testnet";
      && FormatAssetId(AssetId(Bitcoin, network, Native(Btc))) == "bitcoin" + ":" + name + ":" + "native" + ":" + "btc"
      && FormatAssetId(AssetId(Stacks, network, Native(Stx))) == "stacks" + ":" + name + ":" + "native" + ":" + "stx"
  {
    FormatShape(AssetId(Bitcoin, network, Native(Btc)));
    FormatShape(AssetId(Stacks, network, Native(Stx)));
    Flat("bitcoin", NetworkName(network), "native", "btc");
    Flat("stacks", NetworkName(network), "native", "stx");
  }

  lemma {:induction false} SpelledContract(chain: Chain, network: Network, principal: string, assetName: string)
    ensures FormatAssetId(AssetId(chain, network, Contract(principal, assetName)))
         == (if chain == Bitcoin then "bitcoin" else "stacks") + ":"
            + (if network == Mainnet then "mainnet" else "testnet") + ":" + "contract" + ":"
            + (principal + ":" + assetName)
  {
    FormatShape(AssetId(chain, network, Contract(principal, assetName)));
    Flat(ChainName(chain), NetworkName(network), "contract", principal + ":" + assetName);
  }
}
