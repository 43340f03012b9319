/** Classification of a loaded pool: which coin variant its hook marks, which
    application it belongs to, and which of its currencies the record describes. */
module Classifier {
  import opened PoolTypes
  import DecimalText

  /** Hook of pools created for creator coins. */
  const CreatorCoinHook: Address := "0xd61A675F8a0c67A73DC3B54FB7318B4D91409040"
  /** Hook of pools created for v4 content coins. */
  const V4CoinHook: Address := "0x9ea932730A7787000042e34390B8E435dD839040"

  const Usdc: Address := "0x833589fCD6eDb6E08f4c7C32D4f71b54bdA02913"
  const Weth: Address := "0x4200000000000000000000000000000000000006"
  /** The base-pairing set, in the order the script lists it. */
  const TbaPairings: seq<Address> := [Usdc, Weth]

  /** `TBA_PAIRINGS.includes(a)`: exact membership in the base-pairing list. */
  predicate IsTbaPairing(a: Address) {
    a in TbaPairings
  }

  /** The coin type a hook address marks; None means the pool is not tracked.
      The comparison is exact and case-sensitive. */
  function ClassifyHook(hooks: Address): (r: Option<CoinType>)
    ensures r == Some(ZoraCreatorCoin) <==> hooks == CreatorCoinHook
    ensures r == Some(ZoraV4Coin) <==> hooks == V4CoinHook
    ensures r == None <==> hooks != CreatorCoinHook && hooks != V4CoinHook
  {
    assert CreatorCoinHook[2] != V4CoinHook[2];
    if hooks == CreatorCoinHook then Some(ZoraCreatorCoin)
    else if hooks == V4CoinHook then Some(ZoraV4Coin)
    else None
  }

  /** The same hooks written in lower case are not recognised. */
  lemma HookMatchIsCaseSensitive()
    ensures ClassifyHook("0xd61a675f8a0c67a73dc3b54fb7318b4d91409040") == None
    ensures ClassifyHook("0x9ea932730a7787000042e34390b8e435dd839040") == None
  {
    assert "0xd61a675f8a0c67a73dc3b54fb7318b4d91409040"[5] != CreatorCoinHook[5];
    assert "0x9ea932730a7787000042e34390b8e435dd839040"[11] != V4CoinHook[11];
  }

  /** TBA when either currency's wrapped address is a base pairing, else ZORA. */
  function ClassifyApp(address0: Address, address1: Address): (r: AppType)
    ensures r == Tba <==> address0 in {Usdc, Weth} || address1 in {Usdc, Weth}
    ensures r == Zora <==> address0 !in {Usdc, Weth} && address1 !in {Usdc, Weth}
  {
    var appType := if IsTbaPairing(address0) || IsTbaPairing(address1) then Tba else Zora;
    appType
  }

  /** The currency the record describes and its price string: currency1 (priced
      in currency0) when currency0 is a base pairing, otherwise currency0. */
  function Subject(pool: PoolState): (r: (Currency, string))
    ensures IsTbaPairing(pool.currency0.wrappedAddress) ==> r == (pool.currency1, pool.currency1Price)
    ensures !IsTbaPairing(pool.currency0.wrappedAddress) ==> r == (pool.currency0, pool.currency0Price)
  {
    if IsTbaPairing(pool.currency0.wrappedAddress) then (pool.currency1, pool.currency1Price)
    else (pool.currency0, pool.currency0Price)
  }

  /** When exactly one side is a base pairing, the record describes the other one. */
  lemma SubjectIsTheNonBaseCurrency(pool: PoolState)
    requires IsTbaPairing(pool.currency0.wrappedAddress) != IsTbaPairing(pool.currency1.wrappedAddress)
    ensures !IsTbaPairing(Subject(pool).0.wrappedAddress)
    ensures ClassifyApp(pool.currency0.wrappedAddress, pool.currency1.wrappedAddress) == Tba
  {
  }

  /** Tie-break: with no base pairing the subject is currency0; with two, currency1. */
  lemma SubjectTieBreak(pool: PoolState)
    requires IsTbaPairing(pool.currency0.wrappedAddress) == IsTbaPairing(pool.currency1.wrappedAddress)
    ensures !IsTbaPairing(pool.currency0.wrappedAddress) ==> Subject(pool).0 == pool.currency0
    ensures IsTbaPairing(pool.currency0.wrappedAddress) ==> Subject(pool).0 == pool.currency1
  {
  }

  /** The record for a loaded pool of the given coin type. */
  function AssembleRecord(pool: PoolState, coinType: CoinType): (r: MetadataRecord)
    ensures r.id == pool.poolId && r.tick == pool.tickCurrent
    ensures DecimalText.AllDigits(r.sqrtPriceX96) && DecimalText.DecimalValue(r.sqrtPriceX96) == pool.sqrtRatioX96
    ensures r.coinType == coinType
    ensures r.appType == ClassifyApp(pool.currency0.wrappedAddress, pool.currency1.wrappedAddress)
    ensures var c := if IsTbaPairing(pool.currency0.wrappedAddress) then pool.currency1 else pool.currency0;
      r.name == c.name && r.symbol == c.symbol && r.decimals == c.decimals && r.address == c.wrappedAddress
    ensures r.price == if IsTbaPairing(pool.currency0.wrappedAddress) then pool.currency1Price else pool.currency0Price
  {
    var (tokenCurrency, price) := Subject(pool);
    DecimalText.DecimalRoundTrip(pool.sqrtRatioX96);
    MetadataRecord(
      pool.poolId,
      tokenCurrency.name,
      tokenCurrency.symbol,
      tokenCurrency.decimals,
      tokenCurrency.wrappedAddress,
      pool.tickCurrent,
      DecimalText.NatToDecimal(pool.sqrtRatioX96),
      price,
      coinType,
      ClassifyApp(pool.currency0.wrappedAddress, pool.currency1.wrappedAddress))
  }

  /** Name, symbol, decimals, address and price all come from one and the same currency. */
  lemma RecordDescribesOneCurrency(pool: PoolState, coinType: CoinType)
    ensures var r := AssembleRecord(pool, coinType);
      (r.name, r.symbol, r.decimals, r.address, r.price)
        == (pool.currency0.name, pool.currency0.symbol, pool.currency0.decimals, pool.currency0.wrappedAddress, pool.currency0Price)
      || (r.name, r.symbol, r.decimals, r.address, r.price)
        == (pool.currency1.name, pool.currency1.symbol, pool.currency1.decimals, pool.currency1.wrappedAddress, pool.currency1Price)
  {
  }
}
