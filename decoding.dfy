/** Pool key decoding: every Initialize log becomes one pool key. */
module Decoding {
  import opened PoolTypes

  /** Copies the five key fields of a log's arguments. */
  function DecodeLog(log: Log): (k: PoolKey)
    ensures k.currency0 == log.args.currency0 && k.currency1 == log.args.currency1
    ensures k.fee == log.args.fee && k.tickSpacing == log.args.tickSpacing
    ensures k.hooks == log.args.hooks
  {
    PoolKey(log.args.currency0, log.args.currency1, log.args.fee, log.args.tickSpacing, log.args.hooks)
  }

  /** Only the block number is lost: two logs give the same key exactly when
      their arguments agree. */
  lemma DecodeLogFaithful(a: Log, b: Log)
    ensures DecodeLog(a) == DecodeLog(b) <==> a.args == b.args
  {
  }

  /** Decodes the logs one for one, in log order. */
  function DecodeLogs(logs: seq<Log>): (keys: seq<PoolKey>)
    ensures |keys| == |logs|
    ensures forall i :: 0 <= i < |logs| ==> keys[i] == DecodeLog(logs[i])
  {
    if logs == [] then [] else [DecodeLog(logs[0])] + DecodeLogs(logs[1..])
  }

  /** The decoded keys as the loop sees them: every entry is present. */
  function AsEntries(keys: seq<PoolKey>): (entries: seq<Option<PoolKey>>)
    ensures |entries| == |keys|
    ensures forall i :: 0 <= i < |keys| ==> entries[i] == Some(keys[i])
  {
    if keys == [] then [] else [Some(keys[0])] + AsEntries(keys[1..])
  }
}
