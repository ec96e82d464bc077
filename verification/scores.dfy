/** The backup index: its key and its scores. A score packs the time a message entered the queue (high
    bits) and its retry count (the low byte): `(timestamp << 8) + retryCount`.
    The count saturates at 255. Integers here are unbounded; the 64-bit width
    of PHP integers is never reached by a realistic timestamp. */
module Backup {

  /** The key of a channel's backup index: `channel . ':BAK'`. It never
      coincides with the channel's own key. */
  function BackupKey(channel: string): (k: string)
    ensures k != channel
    ensures |k| == |channel| + 4 && k[..|channel|] == channel
  {
    channel + ":BAK"
  }

  /** Distinct channels have distinct backup keys. */
  lemma BackupKeyInjective(a: string, b: string)
    requires BackupKey(a) == BackupKey(b)
    ensures a == b
  {
    assert a == BackupKey(a)[..|a|] && b == BackupKey(b)[..|b|];
  }

  /** Largest retry count the low byte holds. */
  const RetryMax := 255

  /** `1 << 8`: the weight of one second in a score. */
  const Second := 256

  /** `(stamp << 8) + retry`. */
  function Pack(stamp: int, retry: int): int {
    stamp * Second + retry
  }

  /** `score & 255`. On two's complement integers this is the Euclidean
      remainder by 256, which is Dafny's `%`. */
  function RetryOf(score: int): (r: int)
    ensures 0 <= r <= RetryMax
  {
    score % Second
  }

  /** `score >> 8`, the arithmetic shift: Dafny's Euclidean division by 256. */
  function StampOf(score: int): int {
    score / Second
  }

  /** Unpacking a packed score gives back its two parts. */
  lemma UnpackPack(stamp: int, retry: int)
    requires 0 <= retry <= RetryMax
    ensures RetryOf(Pack(stamp, retry)) == retry
    ensures StampOf(Pack(stamp, retry)) == stamp
  {
  }

  /** Every score is the packing of its two parts. */
  lemma PackUnpack(score: int)
    ensures Pack(StampOf(score), RetryOf(score)) == score
  {
  }

  /** Scores order messages by timestamp first, then by retry count. */
  lemma PackOrder(t1: int, r1: int, t2: int, r2: int)
    requires 0 <= r1 <= RetryMax && 0 <= r2 <= RetryMax
    ensures Pack(t1, r1) < Pack(t2, r2) <==> t1 < t2 || (t1 == t2 && r1 < r2)
  {
  }

  /** `value` confined to `[0, 255]`, as reserve confines a recomputed count. */
  function ClampRetry(value: int): (r: int)
    ensures 0 <= r <= RetryMax
    ensures 0 <= value <= RetryMax ==> r == value
    ensures value < 0 ==> r == 0
    ensures value > RetryMax ==> r == RetryMax
  {
    if value < 0 then 0 else if value > RetryMax then RetryMax else value
  }

  /** The score nack (and `reserve(true)`) writes: one more retry, unless the
      count already stands at 255. */
  function Bumped(score: int, retry: int): int {
    if retry < RetryMax then score + 1 else score
  }

  /** A bump keeps the timestamp and adds one to the count up to 255. */
  lemma BumpKeepsStamp(score: int)
    ensures StampOf(Bumped(score, RetryOf(score))) == StampOf(score)
    ensures RetryOf(Bumped(score, RetryOf(score))) ==
              if RetryOf(score) < RetryMax then RetryOf(score) + 1 else RetryMax
  {
  }

  /** The score after `n` nack cycles. */
  function BumpedTimes(score: int, n: nat): int
    decreases n
  {
    if n == 0 then score else BumpedTimes(Bumped(score, RetryOf(score)), n - 1)
  }

  /** After `n` nack cycles the count is the old count plus `n`, saturating at
      255, and the timestamp has not moved. */
  lemma {:induction false} RepeatedBumps(score: int, n: nat)
    ensures RetryOf(BumpedTimes(score, n)) == ClampRetry(RetryOf(score) + n)
    ensures StampOf(BumpedTimes(score, n)) == StampOf(score)
    decreases n
  {
    if n > 0 {
      var next := Bumped(score, RetryOf(score));
      BumpKeepsStamp(score);
      RepeatedBumps(next, n - 1);
    }
  }
}
