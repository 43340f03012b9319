/** The per-pool loop: paced, sequential, with each pool's failure isolated,
    and the whole run from the log query on. Waits are accumulated in a
    counter of milliseconds instead of being slept. */
module Pipeline {
  import opened PoolTypes
  import opened Classifier
  import Decoding
  import DecimalText

  /** Wait before every pool except the first. */
  const PacingMs: nat := 10000
  /** Extra wait after a pool whose loading failed. */
  const FailureBackoffMs: nat := 15000

  /** What happened to one pool. */
  datatype Outcome =
    | Emitted(record: MetadataRecord)
    | SkippedUndefinedKey
    | SkippedUnknownHook
    | Failed

  /** A pool that yields a record: its key is present, it loads, and its hook is recognised. */
  predicate Qualifies(key: Option<PoolKey>, load: LoadOutcome) {
    key.Some? && load.Loaded? && ClassifyHook(key.value.hooks).Some?
  }

  /** One iteration of the loop. Loading comes before classification, so a
      pool whose load fails takes the failure path whatever its hook. */
  function Step(key: Option<PoolKey>, load: LoadOutcome): (o: Outcome)
    ensures o == SkippedUndefinedKey <==> key.None?
    ensures o == Failed <==> key.Some? && load.LoadFailed?
    ensures o == SkippedUnknownHook <==> key.Some? && load.Loaded? && ClassifyHook(key.value.hooks).None?
    ensures o.Emitted? <==> Qualifies(key, load)
    ensures o.Emitted? ==> o.record == AssembleRecord(load.pool, ClassifyHook(key.value.hooks).value)
  {
    match key
    case None => SkippedUndefinedKey
    case Some(k) =>
      match load
      case LoadFailed => Failed
      case Loaded(pool) =>
        match ClassifyHook(k.hooks)
        case None => SkippedUnknownHook
        case Some(coinType) => Emitted(AssembleRecord(pool, coinType))
  }

  /** The records an outcome contributes: one for an emitted pool, none otherwise. */
  function RecordsOf(o: Outcome): (rs: seq<MetadataRecord>)
    ensures |rs| == if o.Emitted? then 1 else 0
  {
    if o.Emitted? then [o.record] else []
  }

  /** Milliseconds waited in iteration `i` with outcome `o`. */
  function StepWait(i: nat, o: Outcome): (ms: nat)
    ensures ms == (if i > 0 then 10000 else 0) + (if o.Failed? then 15000 else 0)
  {
    (if i > 0 then PacingMs else 0) + (if o.Failed? then FailureBackoffMs else 0)
  }

  /** Records emitted by the loop over `keys`, in order. */
  function EmittedRecords(keys: seq<Option<PoolKey>>, loads: seq<LoadOutcome>): seq<MetadataRecord>
    requires |loads| == |keys|
  {
    if keys == [] then []
    else
      var n := |keys| - 1;
      EmittedRecords(keys[..n], loads[..n]) + RecordsOf(Step(keys[n], loads[n]))
  }

  /** Milliseconds waited by the loop over `keys`. */
  function TotalWait(keys: seq<Option<PoolKey>>, loads: seq<LoadOutcome>): nat
    requires |loads| == |keys|
  {
    if keys == [] then 0
    else
      var n := |keys| - 1;
      TotalWait(keys[..n], loads[..n]) + StepWait(n, Step(keys[n], loads[n]))
  }

  /** Number of present keys whose load failed. */
  function FailureCount(keys: seq<Option<PoolKey>>, loads: seq<LoadOutcome>): nat
    requires |loads| == |keys|
  {
    if keys == [] then 0
    else
      var n := |keys| - 1;
      FailureCount(keys[..n], loads[..n]) + (if keys[n].Some? && loads[n].LoadFailed? then 1 else 0)
  }

  /** Indices of the pools that qualify, in increasing order. */
  function QualifyingIndices(keys: seq<Option<PoolKey>>, loads: seq<LoadOutcome>): seq<nat>
    requires |loads| == |keys|
  {
    if keys == [] then []
    else
      var n := |keys| - 1;
      QualifyingIndices(keys[..n], loads[..n]) + (if Qualifies(keys[n], loads[n]) then [n] else [])
  }

  /** Milliseconds elapsed when iteration `i` has done its pacing wait and
      starts on its key. */
  function AttemptTime(keys: seq<Option<PoolKey>>, loads: seq<LoadOutcome>, i: nat): nat
    requires |loads| == |keys| && i < |keys|
  {
    TotalWait(keys[..i], loads[..i]) + (if i > 0 then PacingMs else 0)
  }

  /** The loop of the script: for each index, pace, skip an absent key, load,
      classify, and emit a record or record the failure and back off. */
  method ProcessPools(keys: seq<Option<PoolKey>>, loads: seq<LoadOutcome>)
    returns (records: seq<MetadataRecord>, waitedMs: nat)
    requires |loads| == |keys|
    ensures records == EmittedRecords(keys, loads)
    ensures waitedMs == TotalWait(keys, loads)
    ensures waitedMs == PacingMs * (if |keys| == 0 then 0 else |keys| - 1) + FailureBackoffMs * FailureCount(keys, loads)
  {
    records, waitedMs := [], 0;
    for i := 0 to |keys|
      invariant records == EmittedRecords(keys[..i], loads[..i])
      invariant waitedMs == TotalWait(keys[..i], loads[..i])
    {
      assert keys[..i + 1][..i] == keys[..i] && loads[..i + 1][..i] == loads[..i];
      var key := keys[i];
      if i > 0 {
        waitedMs := waitedMs + PacingMs;
      }
      if key.None? {
        continue;
      }
      match loads[i]
      case LoadFailed =>
        waitedMs := waitedMs + FailureBackoffMs;
      case Loaded(pool) =>
        var coinType: Option<CoinType> := None;
        var appType := Zora;
        if key.value.hooks == CreatorCoinHook {
          coinType := Some(ZoraCreatorCoin);
        } else if key.value.hooks == V4CoinHook {
          coinType := Some(ZoraV4Coin);
        }
        if coinType.None? {
          continue;
        }
        if IsTbaPairing(pool.currency0.wrappedAddress) || IsTbaPairing(pool.currency1.wrappedAddress) {
          appType := Tba;
        }
        var tokenCurrency, price;
        if IsTbaPairing(pool.currency0.wrappedAddress) {
          tokenCurrency, price := pool.currency1, pool.currency1Price;
        } else {
          tokenCurrency, price := pool.currency0, pool.currency0Price;
        }
        var metadata := MetadataRecord(
          pool.poolId, tokenCurrency.name, tokenCurrency.symbol, tokenCurrency.decimals,
          tokenCurrency.wrappedAddress, pool.tickCurrent,
          DecimalText.NatToDecimal(pool.sqrtRatioX96), price, coinType.value, appType);
        records := records + [metadata];
    }
    assert keys[..|keys|] == keys && loads[..|loads|] == loads;
    TotalWaitClosedForm(keys, loads);
  }

  /** Total wait = 10000 per pool after the first, plus 15000 per failure. */
  lemma {:induction false} TotalWaitClosedForm(keys: seq<Option<PoolKey>>, loads: seq<LoadOutcome>)
    requires |loads| == |keys|
    ensures TotalWait(keys, loads)
      == PacingMs * (if |keys| == 0 then 0 else |keys| - 1) + FailureBackoffMs * FailureCount(keys, loads)
  {
    if keys != [] {
      var n := |keys| - 1;
      TotalWaitClosedForm(keys[..n], loads[..n]);
    }
  }

  /** Consecutive attempts are at least one pacing interval apart, and a
      failure adds the back-off interval before the next key is attempted. */
  lemma AttemptSpacing(keys: seq<Option<PoolKey>>, loads: seq<LoadOutcome>, i: nat)
    requires |loads| == |keys| && i + 1 < |keys|
    ensures AttemptTime(keys, loads, i + 1) == AttemptTime(keys, loads, i) + PacingMs
      + (if Step(keys[i], loads[i]).Failed? then FailureBackoffMs else 0)
  {
    assert keys[..i + 1][..i] == keys[..i] && loads[..i + 1][..i] == loads[..i];
  }

  /** QualifyingIndices lists exactly the qualifying indices, each once, in order. */
  lemma {:induction false} QualifyingIndicesExact(keys: seq<Option<PoolKey>>, loads: seq<LoadOutcome>)
    requires |loads| == |keys|
    ensures forall j :: 0 <= j < |QualifyingIndices(keys, loads)| ==>
      QualifyingIndices(keys, loads)[j] < |keys|
    ensures forall j, j' :: 0 <= j < j' < |QualifyingIndices(keys, loads)| ==>
      QualifyingIndices(keys, loads)[j] < QualifyingIndices(keys, loads)[j']
    ensures forall i :: 0 <= i < |keys| ==> (i in QualifyingIndices(keys, loads) <==> Qualifies(keys[i], loads[i]))
  {
    if keys != [] {
      var n := |keys| - 1;
      QualifyingIndicesExact(keys[..n], loads[..n]);
    }
  }

  /** The j-th emitted record is the record of the j-th qualifying pool; in
      particular there are exactly as many records as qualifying pools. */
  lemma {:induction false} EmittedRecordsAreQualifyingPools(keys: seq<Option<PoolKey>>, loads: seq<LoadOutcome>)
    requires |loads| == |keys|
    ensures |EmittedRecords(keys, loads)| == |QualifyingIndices(keys, loads)|
    ensures forall j :: 0 <= j < |QualifyingIndices(keys, loads)| ==>
      QualifyingIndices(keys, loads)[j] < |keys| &&
      RecordsOf(Step(keys[QualifyingIndices(keys, loads)[j]], loads[QualifyingIndices(keys, loads)[j]]))
        == [EmittedRecords(keys, loads)[j]]
  {
    QualifyingIndicesExact(keys, loads);
    if keys != [] {
      var n := |keys| - 1;
      EmittedRecordsAreQualifyingPools(keys[..n], loads[..n]);
    }
  }

  /** Appending one pool appends that pool's records. */
  lemma EmittedRecordsSnoc(
    keys: seq<Option<PoolKey>>, loads: seq<LoadOutcome>, key: Option<PoolKey>, load: LoadOutcome)
    requires |loads| == |keys|
    ensures EmittedRecords(keys + [key], loads + [load]) == EmittedRecords(keys, loads) + RecordsOf(Step(key, load))
  {
    assert (keys + [key])[..|keys|] == keys && (loads + [load])[..|loads|] == loads;
  }

  /** The loop over a concatenation emits the two loops' records one after the other. */
  lemma {:induction false} EmittedRecordsAppend(
    keys1: seq<Option<PoolKey>>, loads1: seq<LoadOutcome>,
    keys2: seq<Option<PoolKey>>, loads2: seq<LoadOutcome>)
    requires |loads1| == |keys1| && |loads2| == |keys2|
    ensures EmittedRecords(keys1 + keys2, loads1 + loads2)
      == EmittedRecords(keys1, loads1) + EmittedRecords(keys2, loads2)
    decreases |keys2|
  {
    if keys2 == [] {
      assert keys1 + keys2 == keys1 && loads1 + loads2 == loads1;
    } else {
      var n := |keys2| - 1;
      var init, initL := keys2[..n], loads2[..n];
      var key, load := keys2[n], loads2[n];
      assert keys2 == init + [key] && loads2 == initL + [load];
      assert keys1 + keys2 == (keys1 + init) + [key];
      assert loads1 + loads2 == (loads1 + initL) + [load];
      EmittedRecordsAppend(keys1, loads1, init, initL);
      EmittedRecordsSnoc(keys1 + init, loads1 + initL, key, load);
      EmittedRecordsSnoc(init, initL, key, load);
    }
  }

  /** A failure emits nothing for its pool, and the pools after it are
      processed exactly as if the run had started right after it. */
  lemma FailureIsIsolated(
    before: seq<Option<PoolKey>>, loadsBefore: seq<LoadOutcome>,
    key: PoolKey,
    after: seq<Option<PoolKey>>, loadsAfter: seq<LoadOutcome>)
    requires |loadsBefore| == |before| && |loadsAfter| == |after|
    ensures EmittedRecords(before + [Some(key)] + after, loadsBefore + [LoadFailed] + loadsAfter)
      == EmittedRecords(before, loadsBefore) + EmittedRecords(after, loadsAfter)
  {
    var upTo, loadsUpTo := before + [Some(key)], loadsBefore + [LoadFailed];
    EmittedRecordsSnoc(before, loadsBefore, Some(key), LoadFailed);
    assert EmittedRecords(upTo, loadsUpTo) == EmittedRecords(before, loadsBefore);
    EmittedRecordsAppend(upTo, loadsUpTo, after, loadsAfter);
  }

  /** A USDC-paired creator coin pool followed by a pool with an unknown hook:
      one record, for the first pool, describing its non-USDC currency. */
  lemma ScenarioCreatorCoinPairedWithUsdc(
    token: Currency, usdc: Currency, pool: PoolState, other: PoolState,
    first: PoolKey, second: PoolKey)
    requires usdc.wrappedAddress == Usdc && token.wrappedAddress != Usdc && token.wrappedAddress != Weth
    requires pool.currency0 == usdc && pool.currency1 == token
    requires first.hooks == CreatorCoinHook
    requires second.hooks != CreatorCoinHook && second.hooks != V4CoinHook
    ensures var records := EmittedRecords([Some(first), Some(second)], [Loaded(pool), Loaded(other)]);
      |records| == 1 && records[0].coinType == ZoraCreatorCoin && records[0].appType == Tba
      && records[0].address == token.wrappedAddress && records[0].price == pool.currency1Price
  {
    EmittedRecordsSnoc([], [], Some(first), Loaded(pool));
    EmittedRecordsSnoc([Some(first)], [Loaded(pool)], Some(second), Loaded(other));
  }

  /** A loader failure on the first pool does not keep the second from being emitted. */
  lemma ScenarioFailureThenSuccess(first: PoolKey, second: PoolKey, pool: PoolState)
    requires second.hooks == V4CoinHook
    ensures EmittedRecords([Some(first), Some(second)], [LoadFailed, Loaded(pool)])
      == [AssembleRecord(pool, ZoraV4Coin)]
    ensures TotalWait([Some(first), Some(second)], [LoadFailed, Loaded(pool)]) == FailureBackoffMs + PacingMs
  {
    FailureIsIsolated([], [], first, [Some(second)], [Loaded(pool)]);
    EmittedRecordsSnoc([], [], Some(second), Loaded(pool));
    assert [Some(first), Some(second)][..1] == [Some(first)] && [LoadFailed, Loaded(pool)][..1] == [LoadFailed];
    assert [Some(first)][..0] == [] && [LoadFailed][..0] == [];
    assert TotalWait([Some(first)], [LoadFailed]) == FailureBackoffMs;
  }

  /** Result of the log query (or of the block-number query before it). */
  datatype FetchResult = Fetched(logs: seq<Log>) | FetchFailed

  /** Result of a whole run. */
  datatype RunResult = Completed(records: seq<MetadataRecord>, waitedMs: nat) | Fatal

  /** A whole run: a failed query is fatal with no records; otherwise the logs
      are decoded in order and every key goes through the loop. */
  method Run(fetch: FetchResult, loads: seq<LoadOutcome>) returns (r: RunResult)
    requires fetch.Fetched? ==> |loads| == |fetch.logs|
    ensures r.Fatal? <==> fetch.FetchFailed?
    ensures r.Completed? ==>
      var keys := Decoding.AsEntries(Decoding.DecodeLogs(fetch.logs));
      r.records == EmittedRecords(keys, loads) && r.waitedMs == TotalWait(keys, loads)
  {
    match fetch
    case FetchFailed =>
      r := Fatal;
    case Fetched(logs) =>
      var poolKeys := Decoding.DecodeLogs(logs);
      var records, waitedMs := ProcessPools(Decoding.AsEntries(poolKeys), loads);
      r := Completed(records, waitedMs);
  }
}
