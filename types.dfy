/** Data model of the pool scanner: the Initialize logs it reads, the pool keys
    it derives from them, the pool state the loader returns, and the metadata
    record it emits for every pool of the tracked coin protocol. */
module PoolTypes {

  datatype Option<+T> = None | Some(value: T)

  /** A contract address as the chain client writes it: a checksummed hex string. */
  type Address = string

  /** The decoded arguments of one Initialize event that the scanner reads. */
  datatype InitializeArgs = InitializeArgs(
    currency0: Address,
    currency1: Address,
    fee: int,
    tickSpacing: int,
    hooks: Address)

  /** One log entry returned by the event query. */
  datatype Log = Log(args: InitializeArgs, blockNumber: nat)

  /** Identifies a pool before it is loaded. */
  datatype PoolKey = PoolKey(
    currency0: Address,
    currency1: Address,
    fee: int,
    tickSpacing: int,
    hooks: Address)

  /** Descriptive metadata of one currency of a loaded pool; `wrappedAddress`
      is the address of its wrapped form (the native coin's is WETH). */
  datatype Currency = Currency(
    name: string,
    symbol: string,
    decimals: nat,
    wrappedAddress: Address)

  /** What the loader returns for a key. The two prices are already formatted
      to six significant digits and are opaque here. */
  datatype PoolState = PoolState(
    poolId: string,
    sqrtRatioX96: nat,
    tickCurrent: int,
    currency0: Currency,
    currency1: Currency,
    currency0Price: string,
    currency1Price: string)

  /** Outcome of loading one key: the loaded state, or any exception thrown
      while loading it or formatting its prices. */
  datatype LoadOutcome = Loaded(pool: PoolState) | LoadFailed

  datatype CoinType = ZoraCreatorCoin | ZoraV4Coin {
    /** The tag written into the emitted record. */
    function Tag(): string {
      match this
      case ZoraCreatorCoin => "ZORA_CREATOR_COIN"
      case ZoraV4Coin => "ZORA_V4_COIN"
    }
  }

  datatype AppType = Tba | Zora {
    /** The tag written into the emitted record. */
    function Tag(): string {
      match this
      case Tba => "TBA"
      case Zora => "ZORA"
    }
  }

  /** The record emitted for one pool of the tracked protocol. */
  datatype MetadataRecord = MetadataRecord(
    id: string,
    name: string,
    symbol: string,
    decimals: nat,
    address: Address,
    tick: int,
    sqrtPriceX96: string,
    price: string,
    coinType: CoinType,
    appType: AppType)
}
