# base-app-coins pool scanner, modelled in Dafny

`base-app-coins/index.ts` is a one-shot job. It asks the chain for every
`Initialize` event of the Uniswap v4 pool manager in a fixed block range and
turns each log into a pool key. Then it walks the keys one at a time. For each
key it loads the pool state, keeps only pools whose hook is one of the two Zora
hooks, decides whether the pool belongs to the TBA app or to Zora, picks the
currency to describe, and logs one metadata record. Between pools it sleeps
10 s to respect rate limits. A pool that throws is logged, followed by 15 s
more of sleep, and the loop moves on.

The model has five modules:

- `PoolTypes` (types.dfy): logs, pool keys, loaded pool state, coin and app types, the metadata record.
- `Decoding` (decoding.dfy): the log-to-key `map`.
- `Classifier` (classifier.dfy): the hook registry, the TBA pairing list, subject selection and record assembly, as pure functions.
- `DecimalText` (decimal.dfy): the decimal `toString` of `sqrtPriceX96`.
- `Pipeline` (pipeline.dfy): the loop as a method, `ProcessPools`. It is proved against the functions `EmittedRecords` and `TotalWait`, which specify it. `Run` models the whole job.

Waiting is modelled as adding milliseconds to a counter. The
loader's result for each index is an input. Every emitted record is returned
in a sequence rather than logged.

Hook, pairing and subject tests look at different data. The hook test reads
the key decoded from the log. The TBA test and subject selection read the
*wrapped* addresses of the currencies in the loaded pool state. For a pool
of the native coin those are not the key's addresses, because the wrapped
native coin is WETH. The model keeps the two apart: a `PoolState` is not tied
to its key.

The script computes a block range ending at the latest block, but never uses
it. The event query uses the constants `32964917` to `32964917 + 1000`. The
model takes the query's result as an input (`FetchResult`), so either range
fits. The computed range is not modelled.

## Model

| member | source | states |
|---|---|---|
| `Decoding.DecodeLog` | base-app-coins/index.ts:36-43 | the key's currency0, currency1, fee, tickSpacing and hooks are exactly the log's argument fields |
| `Decoding.DecodeLogFaithful` | base-app-coins/index.ts:36-43 | two logs give the same key iff their arguments are equal (nothing but the block number is dropped) |
| `Decoding.DecodeLogs` | base-app-coins/index.ts:36-44 | one key per log, same length, key i decoded from log i (order preserved) |
| `Decoding.AsEntries` | base-app-coins/index.ts:44 | the keys as the loop indexes them: same length, every entry present |
| `Classifier.ClassifyHook` | base-app-coins/index.ts:110-118 | ZORA_CREATOR_COIN iff hooks equals 0xd61A…9040; ZORA_V4_COIN iff it equals 0x9ea9…9040; no coin type iff it equals neither |
| `Classifier.HookMatchIsCaseSensitive` | base-app-coins/index.ts:112-116 | the two hook addresses in lower case are not recognised (exact, case-sensitive comparison) |
| `Classifier.ClassifyApp` | base-app-coins/index.ts:120-125 | TBA iff either wrapped address is USDC or WETH (the TBA_PAIRINGS of lines 11-14), ZORA iff neither is |
| `Classifier.Subject` | base-app-coins/index.ts:127-139 | currency0 a TBA pairing: currency1 with currency1Price; otherwise currency0 with currency0Price |
| `Classifier.SubjectIsTheNonBaseCurrency` | base-app-coins/index.ts:127-139 | when exactly one side is a TBA pairing, the subject is the other side and the app type is TBA |
| `Classifier.SubjectTieBreak` | base-app-coins/index.ts:131-139 | neither side a pairing: subject is currency0; both sides: subject is currency1 |
| `Classifier.AssembleRecord` | base-app-coins/index.ts:141-152 | id, tick and sqrtPriceX96 come from the pool (sqrtPriceX96 as digits denoting sqrtRatioX96); coinType is the given one; appType is ClassifyApp of the two wrapped addresses; name, symbol, decimals, address and price come from the subject side |
| `Classifier.RecordDescribesOneCurrency` | base-app-coins/index.ts:141-152 | name, symbol, decimals, address and price all belong to currency0, or all to currency1 |
| `DecimalText.NatToDecimal` | base-app-coins/index.ts:148 | the rendering is a non-empty string of decimal digits with no leading zero unless the value is 0 |
| `DecimalText.DecimalRoundTrip` | base-app-coins/index.ts:148 | reading the rendered digits back gives the original number |
| `DecimalText.DecimalInjective` | base-app-coins/index.ts:148 | distinct square-root prices render to distinct strings |
| `Pipeline.Step` | base-app-coins/index.ts:101-118 | absent key: skip; present key with failed load: failure, whatever the hook; loaded with unknown hook: skip; loaded with a known hook: emits exactly AssembleRecord of the pool and that coin type |
| `Pipeline.StepWait` | base-app-coins/index.ts:96-159 | an iteration waits 10000 ms if it is not the first, plus 15000 ms if it failed |
| `Pipeline.ProcessPools` | base-app-coins/index.ts:89-161 | the loop's records are EmittedRecords of the inputs; its wait is TotalWait, which equals 10000·(n−1) (0 when n = 0) plus 15000 per failure |
| `Pipeline.TotalWaitClosedForm` | base-app-coins/index.ts:96-159 | total wait = 10000·max(n−1, 0) + 15000·(number of present keys whose load failed) |
| `Pipeline.AttemptSpacing` | base-app-coins/index.ts:96-104 | key i+1 is attempted 10000 ms after key i, or 25000 ms after it when key i failed |
| `Pipeline.QualifyingIndicesExact` | base-app-coins/index.ts:101-118 | the qualifying-index list is strictly increasing and within bounds, and contains i iff key i is present, loads and has a known hook |
| `Pipeline.EmittedRecordsAreQualifyingPools` | base-app-coins/index.ts:89-154 | exactly as many records as qualifying pools, and record j is the record of the j-th qualifying pool |
| `Pipeline.EmittedRecordsSnoc` | base-app-coins/index.ts:89-161 | one more pool appends exactly that pool's records to what came before |
| `Pipeline.EmittedRecordsAppend` | base-app-coins/index.ts:89-161 | the records of a concatenated run are the first part's followed by the second part's (no state carried between pools) |
| `Pipeline.FailureIsIsolated` | base-app-coins/index.ts:155-160 | a failed pool emits nothing, and the pools after it give the records they would give in a fresh run |
| `Pipeline.ScenarioCreatorCoinPairedWithUsdc` | base-app-coins/index.ts:110-152 | USDC/token creator-coin pool then unknown-hook pool: one record, creator coin, TBA, describing the token at currency1Price |
| `Pipeline.ScenarioFailureThenSuccess` | base-app-coins/index.ts:92-160 | first load fails, second is a v4 coin: one record, from the second pool; 25000 ms waited |
| `Pipeline.Run` | base-app-coins/index.ts:21-44 | fatal iff the chain query fails; otherwise the logs are decoded in order and the records and wait are those of the loop over the decoded keys |

## Left out

- The RPC calls (`getBlockNumber`, `getContractEvents`) are network I/O. Their combined result is the input `FetchResult`, and a failure of either is `FetchFailed`.
- `loadData` lives in `./utils`, which is not part of this model. Neither are the token metadata lookups behind it. Its result for each index is an input `LoadOutcome`.
- Any exception thrown while formatting the two prices also counts as `LoadFailed`, because it is caught by the same handler.
- Price derivation from the square-root price and `toSignificant(6)` formatting are SDK fixed-point maths. The two price strings are opaque fields of `PoolState`, so the six-significant-digit format is not modelled.
- `Classifier.AssembleRecord`: the `sqrtPriceX96` string is stated to be digits that read back as the number. The SDK's own `toString` is not modelled beyond that.
- The pool's liquidity is not modelled. The active code never reads it.
- The commented-out liquidity and amount code is dead.
- `console.log` and `console.error` are output. The emitted records are returned instead, and the other messages are dropped.
- `setTimeout` timing and `async` scheduling are not modelled. Each sleep adds its milliseconds to a counter.
- `process.exit(1)` is modelled only as the `Fatal` result of `Run`. No error can escape the loop's `try`/`catch`.
- The computed block range is dead code.
- Currency `name` and `symbol` may be undefined in the SDK. Here they are plain strings, copied verbatim.
- The canonical ordering of currency0 and currency1 is not re-checked. The source does not check it either.
- The script always decodes a present key, so the undefined-key skip never happens in `Run`. `ProcessPools` still models that branch for the general input `seq<Option<PoolKey>>`.
