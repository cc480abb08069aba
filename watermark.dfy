/**
 * The watermark: how the catch-up loop turns the last processed nonce of a
 * shard and the shard's current nonce into "skip" or "fetch the next block",
 * and the measure that shows the loop stops.
 */
module Watermark {
  import opened Wrappers

  /** A stored nonce this far above the current one means the network was reset. */
  const NETWORK_RESET_NONCE_THRESHOLD: int := 10000

  /** What one pass of the catch-up loop does with a shard. */
  datatype Decision =
    | AtTip                       // the stored nonce is the current one
    | AheadOfTip                  // the stored nonce is above the current one, within the reset threshold
    | Fetch(lastProcessed: int)   // process block `lastProcessed + 1`

  /**
   * The checks of the catch-up loop, in order, on the resolved last processed
   * nonce `last`: equal to the current nonce, network reset, ahead of the tip,
   * look-behind clamp (`maxLookBehind` 0 stands for "not set").
   */
  function Decide(last: int, current: int, maxLookBehind: nat): (r: Decision)
    ensures r == AtTip <==> last == current
    ensures r == AheadOfTip <==> current < last <= current + NETWORK_RESET_NONCE_THRESHOLD
    ensures r.Fetch? <==> last < current || last > current + NETWORK_RESET_NONCE_THRESHOLD
    ensures r.Fetch? ==> r.lastProcessed <= current
    ensures r.Fetch? && last > current ==> r.lastProcessed == current
    ensures r.Fetch? && last < current ==> last <= r.lastProcessed < current
    ensures r.Fetch? && last < current && maxLookBehind != 0 ==> current - r.lastProcessed <= maxLookBehind
    ensures r.Fetch? && last < current && (maxLookBehind == 0 || current - last <= maxLookBehind) ==> r.lastProcessed == last
    ensures r.Fetch? && last < current && maxLookBehind != 0 && current - last > maxLookBehind ==> r.lastProcessed == current - maxLookBehind
  {
    if last == current then AtTip
    else
      var reset := if last > current + NETWORK_RESET_NONCE_THRESHOLD then current else last;
      if reset > current then AheadOfTip
      else if maxLookBehind != 0 && current - reset > maxLookBehind then Fetch(current - maxLookBehind)
      else Fetch(reset)
  }

  /** The last processed nonce when the store has none: the one before the current nonce. */
  function Resolve(stored: Option<int>, current: int): (r: int)
    ensures stored.None? ==> r == current - 1
    ensures stored.Some? ==> r == stored.value
  {
    stored.GetOr(current - 1)
  }

  /**
   * How far a shard is from rest, given what the store holds for it: a missing
   * value costs one step to initialise, a reset value one fetch, a value behind
   * the tip one fetch per missing block, and a value at or ahead of the tip nothing.
   */
  function Distance(stored: Option<int>, current: int): nat {
    match stored
    case None => 2
    case Some(v) =>
      if v > current + NETWORK_RESET_NONCE_THRESHOLD then 1
      else if v >= current then 0
      else current - v
  }

  /** Storing the fetched nonce brings the shard strictly closer to rest. */
  lemma FetchProgress(stored: Option<int>, current: int, maxLookBehind: nat)
    requires Decide(Resolve(stored, current), current, maxLookBehind).Fetch?
    ensures var p := Decide(Resolve(stored, current), current, maxLookBehind).lastProcessed;
            Distance(Some(p + 1), current) < Distance(stored, current)
  {
  }

  /** Initialising a missing value brings the shard closer to rest. */
  lemma InitProgress(current: int)
    ensures Distance(Some(current - 1), current) < Distance(None, current)
  {
  }

  /** A shard at rest is one the loop skips. */
  lemma RestIsSkipped(v: int, current: int, maxLookBehind: nat)
    ensures Distance(Some(v), current) == 0 <==> !Decide(v, current, maxLookBehind).Fetch?
  {
  }

  /** The integer fields of `TransactionStatistics`: nonces done in this run and nonces left. */
  datatype Statistics = Statistics(processedNonces: int, noncesLeft: int)

  function BlockStatistics(lastProcessed: int, startLastProcessed: int, current: int): (s: Statistics)
    ensures s.processedNonces + s.noncesLeft == current - startLastProcessed
  {
    Statistics(lastProcessed - startLastProcessed, current - lastProcessed)
  }

  /** For a block the loop fetches, the nonces left are never negative, and bounded by the look-behind when set. */
  lemma NoncesLeftBounds(last: int, current: int, maxLookBehind: nat, start: int)
    requires Decide(last, current, maxLookBehind).Fetch?
    ensures var p := Decide(last, current, maxLookBehind).lastProcessed;
            var s := BlockStatistics(p, start, current);
            0 <= s.noncesLeft && (maxLookBehind != 0 && last < current ==> s.noncesLeft <= maxLookBehind)
  {
  }
}
