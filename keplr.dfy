/** The conversion of a chain's registry record into the chain description
    the Keplr wallet extension expects: identifiers, endpoints, the bech32
    address prefixes, and the primary asset as the wallet's currencies. */
module Keplr {
  import opened Wrappers

  /** The BIP-44 coin types the conversion accepts: 118 for Cosmos chains and
      60 for chains with Ethereum-style keys. */
  type CoinType = c: int | c == 118 || c == 60 witness 118

  const DEFAULT_COIN_TYPE: CoinType := 118
  const ETH_COIN_TYPE: CoinType := 60

  /** An RPC or REST endpoint of the chain record. */
  datatype Node = Node(address: string, provider: string)

  /** An asset of the chain record; `exponent` is the number of decimals. */
  datatype Asset = Asset(symbol: string, base: string, exponent: int, coingeckoId: Option<string>)

  /** The parts of a chain record the conversion reads. Absent fields are `None`. */
  datatype ChainData = ChainData(
    chainName: string,
    chainId: Option<string>,
    addrPrefix: Option<string>,
    rpc: Option<seq<Node>>,
    api: Option<seq<Node>>,
    assets: Option<seq<Asset>>)

  datatype Currency = Currency(coinDenom: string, coinMinimalDenom: string, coinDecimals: int,
                               coinGeckoId: Option<string>)

  datatype Bech32Config = Bech32Config(
    bech32PrefixAccAddr: string,
    bech32PrefixAccPub: string,
    bech32PrefixValAddr: string,
    bech32PrefixValPub: string,
    bech32PrefixConsAddr: string,
    bech32PrefixConsPub: string)

  datatype KeplrChainInfo = KeplrChainInfo(
    chainId: string,
    chainName: string,
    rpc: string,
    rest: string,
    coinType: CoinType,
    bech32Config: Bech32Config,
    currencies: seq<Currency>,
    feeCurrencies: seq<Currency>,
    stakeCurrency: Currency,
    features: Option<seq<string>>)

  /** JavaScript's `a || b` on an optional string: the empty string counts as absent. */
  function OrElse(a: Option<string>, b: string): string {
    if a.Some? && a.value != "" then a.value else b
  }

  /** The address of the first node, or "" when there is none. */
  function FirstAddress(nodes: Option<seq<Node>>): string {
    if nodes.Some? && |nodes.value| > 0 then nodes.value[0].address else ""
  }

  /** The first asset, when the record lists any. */
  function PrimaryAsset(chain: ChainData): Option<Asset> {
    if chain.assets.Some? && |chain.assets.value| > 0 then Some(chain.assets.value[0]) else None
  }

  function AsCurrency(a: Asset): Currency {
    Currency(a.symbol, a.base, a.exponent, a.coingeckoId)
  }

  /** The six bech32 prefixes derived from the account prefix. */
  function Bech32For(prefix: string): Bech32Config {
    Bech32Config(prefix, prefix + "pub", prefix + "valoper", prefix + "valoperpub",
                 prefix + "valcons", prefix + "valconspub")
  }

  /** The staking currency used when the record lists no asset. */
  const DEFAULT_STAKE_CURRENCY: Currency := Currency("ATOM", "uatom", 6, None)

  const ETH_FEATURES: seq<string> := ["eth-address-gen", "eth-key-sign"]

  /** The Keplr chain description of `chain` under the given coin type. */
  function ConvertChainToKeplr(chain: ChainData, coinType: CoinType := DEFAULT_COIN_TYPE): (info: KeplrChainInfo)
    ensures info.chainName == chain.chainName
    ensures info.chainId == (if chain.chainId.Some? && chain.chainId.value != "" then chain.chainId.value
                             else chain.chainName)
    ensures info.rpc == (if chain.rpc.Some? && |chain.rpc.value| > 0 then chain.rpc.value[0].address else "")
    ensures info.rest == (if chain.api.Some? && |chain.api.value| > 0 then chain.api.value[0].address else "")
    ensures info.coinType == coinType
    ensures info.bech32Config.bech32PrefixAccAddr ==
            (if chain.addrPrefix.Some? && chain.addrPrefix.value != "" then chain.addrPrefix.value else "cosmos")
    ensures |info.currencies| == |info.feeCurrencies| <= 1
    ensures info.currencies == [] <==> chain.assets.None? || chain.assets.value == []
    ensures info.currencies != [] ==>
      var a := chain.assets.value[0];
      info.currencies[0] == info.feeCurrencies[0] == info.stakeCurrency ==
      Currency(a.symbol, a.base, a.exponent, a.coingeckoId)
    ensures info.currencies == [] ==> info.stakeCurrency == Currency("ATOM", "uatom", 6, None)
    ensures info.features.Some? <==> coinType == 60
    ensures info.features.Some? ==> info.features.value == ["eth-address-gen", "eth-key-sign"]
  {
    var prefix := OrElse(chain.addrPrefix, "cosmos");
    var primary := PrimaryAsset(chain);
    KeplrChainInfo(
      OrElse(chain.chainId, chain.chainName),
      chain.chainName,
      FirstAddress(chain.rpc),
      FirstAddress(chain.api),
      coinType,
      Bech32For(prefix),
      if primary.Some? then [AsCurrency(primary.value)] else [],
      if primary.Some? then [AsCurrency(primary.value)] else [],
      if primary.Some? then AsCurrency(primary.value) else DEFAULT_STAKE_CURRENCY,
      if coinType == ETH_COIN_TYPE then Some(ETH_FEATURES) else None)
  }

  // ---------------------------------------------------------------------------
  // Properties

  /** The bech32 prefixes of a Keplr description, in the config's order. */
  function Prefixes(b: Bech32Config): seq<string> {
    [b.bech32PrefixAccAddr, b.bech32PrefixAccPub, b.bech32PrefixValAddr,
     b.bech32PrefixValPub, b.bech32PrefixConsAddr, b.bech32PrefixConsPub]
  }

  const SUFFIXES: seq<string> := ["", "pub", "valoper", "valoperpub", "valcons", "valconspub"]

  lemma AppendCancel(p: string, s: string, t: string)
    requires p + s == p + t
    ensures s == t
  {
    assert s == (p + s)[|p|..];
    assert t == (p + t)[|p|..];
  }

  /** Every prefix in the bech32 config is the account prefix followed by
      its role's fixed suffix, so the config determines the account prefix
      and the six prefixes are pairwise distinct: no two address kinds of a
      converted chain can be confused. */
  lemma Bech32Roles(chain: ChainData, coinType: CoinType)
    ensures var b := ConvertChainToKeplr(chain, coinType).bech32Config;
      forall r :: 0 <= r < 6 ==> Prefixes(b)[r] == b.bech32PrefixAccAddr + SUFFIXES[r]
    ensures var ps := Prefixes(ConvertChainToKeplr(chain, coinType).bech32Config);
      forall r, q :: 0 <= r < q < 6 ==> ps[r] != ps[q]
  {
    var b := ConvertChainToKeplr(chain, coinType).bech32Config;
    var p := b.bech32PrefixAccAddr;
    assert p + SUFFIXES[0] == p;
    assert Prefixes(b) == [p + SUFFIXES[0], p + SUFFIXES[1], p + SUFFIXES[2],
                           p + SUFFIXES[3], p + SUFFIXES[4], p + SUFFIXES[5]];
    forall r, q | 0 <= r < q < 6 ensures Prefixes(b)[r] != Prefixes(b)[q] {
      if Prefixes(b)[r] == Prefixes(b)[q] {
        AppendCancel(p, SUFFIXES[r], SUFFIXES[q]);
        assert false;
      }
    }
  }

  /** The account prefix is never empty: an absent or empty `addr_prefix`
      becomes "cosmos". */
  lemma AccountPrefixNonEmpty(chain: ChainData, coinType: CoinType)
    ensures |ConvertChainToKeplr(chain, coinType).bech32Config.bech32PrefixAccAddr| > 0
  {
  }

  /** The coin type alone decides the Ethereum features; the other fields do
      not depend on it. */
  lemma CoinTypeOnlyChangesKeys(chain: ChainData)
    ensures var cosmos, eth := ConvertChainToKeplr(chain), ConvertChainToKeplr(chain, ETH_COIN_TYPE);
      cosmos.coinType == 118 && cosmos.features.None? &&
      eth.coinType == 60 && eth.features == Some(["eth-address-gen", "eth-key-sign"]) &&
      cosmos.(coinType := 60, features := eth.features) == eth
  {
  }
}
