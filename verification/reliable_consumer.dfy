/** The reliable consumer (src/ReliablyConsumer.php). Each consumer holds at
    most one unacknowledged message, its in-flight slot; an element popped from
    the channel's list counts only while its encoding still has a score in the
    backup index `<channel>:BAK`. The caller resolves the held message with ack
    (drop it from the index), nack (bump its retry count and queue it again) or
    reserve (keep it in the index only, for a later recover). */
module ReliableConsumers {
  import opened Mq
  import opened Redis
  import opened Backup
  import opened Consumers

  /** The consumer's in-flight slot: the fields ackExpected, msgBin, msgScore
      and msgRetryCount. */
  datatype InFlight = InFlight(ackExpected: bool, msgBin: Bin, msgScore: int, msgRetryCount: int)
  {
    /** The slot as ack, nack and reserve leave it; msgScore is not reset. */
    function Cleared(): InFlight {
      this.(ackExpected := false, msgBin := "", msgRetryCount := 0)
    }
  }

  /** What every operation keeps: the count lies in 0..255 and is 0 while
      nothing is held. */
  predicate SlotValid(s: InFlight) {
    0 <= s.msgRetryCount <= RetryMax && (!s.ackExpected ==> s.msgRetryCount == 0)
  }

  /** The count agrees with the score's low byte, as consume leaves it. */
  predicate SlotConsistent(s: InFlight) {
    s.ackExpected ==> s.msgRetryCount == RetryOf(s.msgScore)
  }

  /** An operation's result, the slot after it and the keyspace after it. */
  datatype Outcome<T> = Outcome(result: Result<T>, slot: InFlight, data: Data)

  // ---------------------------------------------------------------------
  // The pop loop of consume and waitMessage

  /** What the pop loop ends with: the list left behind and the live element
      it stopped at, if any. */
  datatype Scan = Scan(rest: seq<Bin>, found: Option<Bin>)

  /** An element the loop pops and throws away: it has no backup score (it
      was acknowledged already) and did not end the loop as PHP-empty. */
  predicate Discarded(x: Bin, live: map<Bin, int>, stopOnEmpty: bool) {
    x !in live && !(stopOnEmpty && PhpEmpty(x))
  }

  /** Pop from the right of `items` until an element with a score in `live`
      turns up, or the list runs out. With `stopOnEmpty` (consume's rPop) a
      PHP-empty element also ends the loop, with no message. */
  function ScanForLive(items: seq<Bin>, live: map<Bin, int>, stopOnEmpty: bool): (s: Scan)
    ensures |s.rest| <= |items| && s.rest == items[..|s.rest|]
    ensures forall i :: |s.rest| < i < |items| ==> Discarded(items[i], live, stopOnEmpty)
    ensures s.found.Some? ==>
              && |s.rest| < |items|
              && s.found.value == items[|s.rest|]
              && s.found.value in live
              && !(stopOnEmpty && PhpEmpty(s.found.value))
    ensures s.found.None? ==>
              || (s.rest == [] && forall i :: 0 <= i < |items| ==> Discarded(items[i], live, stopOnEmpty))
              || (|s.rest| < |items| && stopOnEmpty && PhpEmpty(items[|s.rest|]))
    decreases |items|
  {
    if items == [] then Scan([], None)
    else
      var last := items[|items| - 1];
      var init := items[..|items| - 1];
      if stopOnEmpty && PhpEmpty(last) then Scan(init, None)
      else if last in live then Scan(init, Some(last))
      else
        var s := ScanForLive(init, live, stopOnEmpty);
        assert forall i :: 0 <= i < |init| ==> init[i] == items[i];
        s
  }

  /** One turn of the loop: pop the last element and look at it. */
  lemma ScanStep(items: seq<Bin>, live: map<Bin, int>, stopOnEmpty: bool)
    requires items != []
    ensures var last := items[|items| - 1];
            var init := items[..|items| - 1];
            ScanForLive(items, live, stopOnEmpty) ==
              if stopOnEmpty && PhpEmpty(last) then Scan(init, None)
              else if last in live then Scan(init, Some(last))
              else ScanForLive(init, live, stopOnEmpty)
  {
  }

  // ---------------------------------------------------------------------
  // The operations as functions of the slot and the keyspace

  /** consume (`blocking` false) and waitMessage (`blocking` true). */
  function ConsumeSpec(slot: InFlight, d: Data, up: bool, channel: Bin, protocol: Protocol, blocking: bool)
    : Outcome<Option<Message>>
  {
    if slot.ackExpected then Outcome(Err(MqException(MustAck)), slot, d)
    else if !up then Outcome(Err(MqException(RedisError)), slot, d)
    else
      var live := ZSetAt(d, BackupKey(channel));
      var s := ScanForLive(ListAt(d, channel), live, !blocking);
      var d' := KeepLeft(d, channel, |s.rest|);
      match s.found
      case None => Outcome(Ok(None), slot, d')
      case Some(b) =>
        var held := slot.(msgBin := b, msgScore := live[b]);
        match protocol.decode(b)
        case Ok(m) => Outcome(Ok(Some(m)), held.(ackExpected := true, msgRetryCount := RetryOf(live[b])), d')
        case Err(f) => Outcome(Err(f), held, d')
  }

  function AckSpec(slot: InFlight, d: Data, up: bool, channel: Bin): Outcome<bool> {
    if !slot.ackExpected then Outcome(Err(MqException(NeedNotAck)), slot, d)
    else if !up then Outcome(Err(MqException(RedisError)), slot, d)
    else Outcome(Ok(true), slot.Cleared(), ZRemReply(d, BackupKey(channel), [slot.msgBin]).data)
  }

  /** nack: the index gets the bumped score first (its reply, refused or not,
      is ignored), then the element is pushed back, at the right (pop) end
      when `insert`, else at the left. A push that reports less than 1
      returns false with the slot still held. */
  function NackSpec(slot: InFlight, d: Data, up: bool, admits: Data -> bool, channel: Bin, insert: bool)
    : Outcome<bool>
  {
    if !slot.ackExpected then Outcome(Err(MqException(NeedNotAck)), slot, d)
    else if !up then Outcome(Err(MqException(RedisError)), slot, d)
    else
      var score := Bumped(slot.msgScore, slot.msgRetryCount);
      var d1 := Gated(admits(d), d, ZAddReply(d, BackupKey(channel), score, slot.msgBin)).data;
      var reply := if insert then RPushReply(d1, channel, slot.msgBin) else LPushReply(d1, channel, slot.msgBin);
      var push := Gated(admits(d1), d1, reply);
      if push.value < 1 then Outcome(Ok(false), slot, push.data)
      else Outcome(Ok(true), slot.Cleared(), push.data)
  }

  /** reserve's argument: a boolean, or a number (PHP `is_numeric`). */
  datatype PlusCount = Flag(on: bool) | Count(n: int)

  /** The score reserve writes, if any: with a number, the current time and the
      count moved by it and clamped; with true, one more retry unless at 255. */
  function ReserveScore(slot: InFlight, plus: PlusCount, now: int): Option<int> {
    match plus
    case Count(n) => Some(Pack(now, ClampRetry(slot.msgRetryCount + n)))
    case Flag(on) => if on && slot.msgRetryCount < RetryMax then Some(slot.msgScore + 1) else None
  }

  /** reserve: no push; the index is written only when there is a new score,
      and the write's reply is ignored. With a number, msgRetryCount is set to
      the clamped count before the write, so it stays changed when the write
      raises. */
  function ReserveSpec(slot: InFlight, d: Data, up: bool, admits: Data -> bool, channel: Bin, plus: PlusCount,
                       now: int): Outcome<bool>
  {
    if !slot.ackExpected then Outcome(Err(MqException(NeedNotAck)), slot, d)
    else
      var counted := if plus.Count? then slot.(msgRetryCount := ClampRetry(slot.msgRetryCount + plus.n)) else slot;
      match ReserveScore(slot, plus, now)
      case None => Outcome(Ok(true), counted.Cleared(), d)
      case Some(score) =>
        if !up then Outcome(Err(MqException(RedisError)), counted, d)
        else Outcome(Ok(true), counted.Cleared(), Gated(admits(d), d, ZAddReply(d, BackupKey(channel), score, slot.msgBin)).data)
  }

  /** reserve with the count committed only once the write has gone through:
      a store failure leaves the slot exactly as it was. */
  function FixedReserveSpec(slot: InFlight, d: Data, up: bool, admits: Data -> bool, channel: Bin, plus: PlusCount,
                            now: int): Outcome<bool>
  {
    if !slot.ackExpected then Outcome(Err(MqException(NeedNotAck)), slot, d)
    else
      var counted := if plus.Count? then slot.(msgRetryCount := ClampRetry(slot.msgRetryCount + plus.n)) else slot;
      match ReserveScore(slot, plus, now)
      case None => Outcome(Ok(true), counted.Cleared(), d)
      case Some(score) =>
        if !up then Outcome(Err(MqException(RedisError)), slot, d)
        else Outcome(Ok(true), counted.Cleared(), Gated(admits(d), d, ZAddReply(d, BackupKey(channel), score, slot.msgBin)).data)
  }

  // ---------------------------------------------------------------------
  // Properties of the operations

  /** consume and waitMessage refuse to run while a message is held, and then
      change neither the slot nor the store. */
  lemma ConsumeRefusedWhileHeld(slot: InFlight, d: Data, up: bool, channel: Bin, protocol: Protocol, blocking: bool)
    requires slot.ackExpected
    ensures ConsumeSpec(slot, d, up, channel, protocol, blocking) == Outcome(Err(MqException(MustAck)), slot, d)
  {
  }

  /** ack, nack and reserve refuse to run when nothing is held, and then
      change neither the slot nor the store. */
  lemma ResolveRefusedWhenIdle(slot: InFlight, d: Data, up: bool, admits: Data -> bool, channel: Bin, insert: bool,
                               plus: PlusCount, now: int)
    requires !slot.ackExpected
    ensures AckSpec(slot, d, up, channel) == Outcome(Err(MqException(NeedNotAck)), slot, d)
    ensures NackSpec(slot, d, up, admits, channel, insert) == Outcome(Err(MqException(NeedNotAck)), slot, d)
    ensures ReserveSpec(slot, d, up, admits, channel, plus, now) == Outcome(Err(MqException(NeedNotAck)), slot, d)
  {
  }

  /** A pop loop only ever shortens the channel's list from the right: the
      backup index and every other key are left as they were, and of the
      elements it removed, all but the one it stopped at had no backup score. */
  lemma ConsumeOnlyPops(slot: InFlight, d: Data, up: bool, channel: Bin, protocol: Protocol, blocking: bool)
    ensures var o := ConsumeSpec(slot, d, up, channel, protocol, blocking);
            var l := ListAt(d, channel);
            var n := |ListAt(o.data, channel)|;
            && n <= |l| && ListAt(o.data, channel) == l[..n]
            && o.data - {channel} == d - {channel}
            && ZSetAt(o.data, BackupKey(channel)) == ZSetAt(d, BackupKey(channel))
            && (forall i :: n < i < |l| ==> l[i] !in ZSetAt(d, BackupKey(channel)))
  {
    var o := ConsumeSpec(slot, d, up, channel, protocol, blocking);
    SameElsewhere(o.data, d, channel, BackupKey(channel));
  }

  /** A delivered message was live: it is the element the loop stopped at, it
      still has its backup score, the slot holds its encoding and that score,
      and the count is the score's low byte, so it lies in 0..255. */
  lemma ConsumeDeliversLive(slot: InFlight, d: Data, up: bool, channel: Bin, protocol: Protocol, blocking: bool)
    requires !slot.ackExpected && up
    ensures var o := ConsumeSpec(slot, d, up, channel, protocol, blocking);
            var live := ZSetAt(d, BackupKey(channel));
            o.result.Ok? && o.result.value.Some? ==>
              && o.slot.ackExpected
              && o.slot.msgBin in live
              && o.slot.msgBin == ListAt(d, channel)[|ListAt(o.data, channel)|]
              && o.slot.msgScore == live[o.slot.msgBin]
              && o.slot.msgRetryCount == RetryOf(o.slot.msgScore)
              && 0 <= o.slot.msgRetryCount <= RetryMax
              && protocol.decode(o.slot.msgBin) == Ok(o.result.value.value)
  {
  }

  /** A waitMessage that comes back empty-handed has drained the whole list,
      and none of what it drained was live. consume does the same unless it
      stopped at a PHP-empty element. */
  lemma NoMessageMeansNoneLive(slot: InFlight, d: Data, channel: Bin, protocol: Protocol, blocking: bool)
    requires !slot.ackExpected
    ensures var o := ConsumeSpec(slot, d, true, channel, protocol, blocking);
            var l := ListAt(d, channel);
            o.result == Ok(None) ==>
              && o.slot == slot
              && ((ListAt(o.data, channel) == [] && forall i :: 0 <= i < |l| ==> l[i] !in ZSetAt(d, BackupKey(channel)))
                  || (!blocking && PhpEmpty(l[|ListAt(o.data, channel)|])))
  {
  }

  /** Stale entries are never delivered: an encoding without a backup score
      is not what consume or waitMessage hands out. */
  lemma StaleNeverDelivered(slot: InFlight, d: Data, up: bool, channel: Bin, protocol: Protocol, blocking: bool, m: Bin)
    requires m !in ZSetAt(d, BackupKey(channel))
    ensures var o := ConsumeSpec(slot, d, up, channel, protocol, blocking);
            o.slot.ackExpected && !slot.ackExpected ==> o.slot.msgBin != m
  {
  }

  /** ack removes the held encoding from the backup index and nothing else,
      leaves the list alone, clears the slot and returns true. */
  lemma AckRemovesBackup(slot: InFlight, d: Data, channel: Bin)
    requires slot.ackExpected
    ensures var o := AckSpec(slot, d, true, channel);
            var bak := BackupKey(channel);
            && o.result == Ok(true)
            && o.slot == slot.Cleared() && !o.slot.ackExpected && o.slot.msgRetryCount == 0
            && ZSetAt(o.data, bak) == ZSetAt(d, bak) - {slot.msgBin}
            && slot.msgBin !in ZSetAt(o.data, bak)
            && ListAt(o.data, channel) == ListAt(d, channel)
            && o.data - {bak} == d - {bak}
  {
    var o := AckSpec(slot, d, true, channel);
    var bak := BackupKey(channel);
    assert (set m | m in [slot.msgBin]) == {slot.msgBin};
    SameElsewhere(o.data, d, bak, channel);
  }

  /** nack's score keeps the timestamp and adds one retry up to 255, when the
      count agrees with the score. */
  lemma NackScoreKeepsStamp(slot: InFlight)
    requires SlotConsistent(slot) && slot.ackExpected
    ensures var score := Bumped(slot.msgScore, slot.msgRetryCount);
            && StampOf(score) == StampOf(slot.msgScore)
            && RetryOf(score) == ClampRetry(slot.msgRetryCount + 1)
  {
    BumpKeepsStamp(slot.msgScore);
  }

  /** nack writes the bumped score and then pushes the encoding back, at the
      right (pop) end when `insert` and at the left end otherwise. The score
      is written when the server admits it and the index is a sorted set;
      the push goes through when the server admits it after that write and
      the channel's key is a list. When the push is refused nack returns
      false with the message still held, the new score possibly written. */
  lemma NackRequeues(slot: InFlight, d: Data, admits: Data -> bool, channel: Bin, insert: bool)
    requires slot.ackExpected
    ensures var o := NackSpec(slot, d, true, admits, channel, insert);
            var bak := BackupKey(channel);
            var l := ListAt(d, channel);
            var score := Bumped(slot.msgScore, slot.msgRetryCount);
            var d1 := Gated(admits(d), d, ZAddReply(d, bak, score, slot.msgBin)).data;
            && (admits(d) && TakesZSet(d, bak) ==> ZSetAt(o.data, bak) == ZSetAt(d, bak)[slot.msgBin := score])
            && (!(admits(d) && TakesZSet(d, bak)) ==> ZSetAt(o.data, bak) == ZSetAt(d, bak))
            && (admits(d1) && TakesList(d, channel) ==>
                  && o.result == Ok(true) && o.slot == slot.Cleared()
                  && ListAt(o.data, channel) == if insert then l + [slot.msgBin] else [slot.msgBin] + l)
            && (!(admits(d1) && TakesList(d, channel)) ==>
                  o.result == Ok(false) && o.slot == slot && ListAt(o.data, channel) == l)
            && o.data - {channel, bak} == d - {channel, bak}
  {
    var bak := BackupKey(channel);
    var d1 := Gated(admits(d), d, ZAddReply(d, bak, Bumped(slot.msgScore, slot.msgRetryCount), slot.msgBin)).data;
    SameElsewhere(d1, d, bak, channel);
    var o := NackSpec(slot, d, true, admits, channel, insert);
    SameElsewhere(o.data, d1, channel, bak);
  }

  /** reserve never pushes: whatever the keyspace, it returns true, clears
      the slot and leaves the list and every key but the index alone. When
      the server admits the write and the index is a sorted set, a number
      refreshes the timestamp to `now` and moves the count, clamped to
      0..255, and true adds one retry unless the count is 255. A refused
      write still returns true, with the index as it was; false writes
      nothing. */
  lemma ReserveParks(slot: InFlight, d: Data, admits: Data -> bool, channel: Bin, plus: PlusCount, now: int)
    requires slot.ackExpected
    ensures var o := ReserveSpec(slot, d, true, admits, channel, plus, now);
            var bak := BackupKey(channel);
            var written := admits(d) && TakesZSet(d, bak);
            && o.result == Ok(true)
            && o.slot == slot.Cleared()
            && ListAt(o.data, channel) == ListAt(d, channel)
            && o.data - {bak} == d - {bak}
            && (!written ==> o.data == d)
            && (written && plus.Count? ==>
                  var score := ZSetAt(o.data, bak)[slot.msgBin];
                  && ZSetAt(o.data, bak) == ZSetAt(d, bak)[slot.msgBin := score]
                  && StampOf(score) == now
                  && RetryOf(score) == ClampRetry(slot.msgRetryCount + plus.n))
            && (written && plus == Flag(true) && slot.msgRetryCount < RetryMax ==>
                  ZSetAt(o.data, bak) == ZSetAt(d, bak)[slot.msgBin := slot.msgScore + 1])
            && (plus == Flag(false) || (plus.Flag? && slot.msgRetryCount >= RetryMax) ==> o.data == d)
  {
    var o := ReserveSpec(slot, d, true, admits, channel, plus, now);
    var bak := BackupKey(channel);
    SameElsewhere(o.data, d, bak, channel);
    if plus.Count? {
      UnpackPack(now, ClampRetry(slot.msgRetryCount + plus.n));
    }
  }

  /** Every operation keeps the slot invariant: the count lies in 0..255 and
      is 0 whenever nothing is held. */
  lemma OperationsKeepSlotValid(slot: InFlight, d: Data, up: bool, admits: Data -> bool, channel: Bin, protocol: Protocol,
                                blocking: bool, insert: bool, plus: PlusCount, now: int)
    requires SlotValid(slot)
    ensures SlotValid(ConsumeSpec(slot, d, up, channel, protocol, blocking).slot)
    ensures SlotValid(AckSpec(slot, d, up, channel).slot)
    ensures SlotValid(NackSpec(slot, d, up, admits, channel, insert).slot)
    ensures SlotValid(ReserveSpec(slot, d, up, admits, channel, plus, now).slot)
  {
  }

  /** consume, ack and nack keep the count equal to the held score's low
      byte, and so does a reserve whose write goes through. */
  lemma OperationsKeepSlotConsistent(slot: InFlight, d: Data, up: bool, admits: Data -> bool, channel: Bin, protocol: Protocol,
                                     blocking: bool, insert: bool, plus: PlusCount, now: int)
    requires SlotConsistent(slot)
    ensures SlotConsistent(ConsumeSpec(slot, d, up, channel, protocol, blocking).slot)
    ensures SlotConsistent(AckSpec(slot, d, up, channel).slot)
    ensures SlotConsistent(NackSpec(slot, d, up, admits, channel, insert).slot)
    ensures up ==> SlotConsistent(ReserveSpec(slot, d, up, admits, channel, plus, now).slot)
    ensures SlotConsistent(FixedReserveSpec(slot, d, up, admits, channel, plus, now).slot)
  {
    var o := ConsumeSpec(slot, d, up, channel, protocol, blocking);
    if !slot.ackExpected && up {
      var live := ZSetAt(d, BackupKey(channel));
      var sc := ScanForLive(ListAt(d, channel), live, !blocking);
      if sc.found.Some? && protocol.decode(sc.found.value).Ok? {
        assert o.slot.msgScore == live[sc.found.value];
      }
    }
  }

  /** The corrected reserve behaves as written whenever the store answers; when
      it does not, the held message keeps its count, so the slot stays
      consistent with its score. */
  lemma FixedReserveAgrees(slot: InFlight, d: Data, up: bool, admits: Data -> bool, channel: Bin, plus: PlusCount, now: int)
    ensures up ==> FixedReserveSpec(slot, d, up, admits, channel, plus, now) == ReserveSpec(slot, d, up, admits, channel, plus, now)
    ensures var f := FixedReserveSpec(slot, d, up, admits, channel, plus, now);
            f.result.Err? ==> f.slot == slot && f.data == d
    ensures var f := FixedReserveSpec(slot, d, up, admits, channel, plus, now);
            f.result == ReserveSpec(slot, d, up, admits, channel, plus, now).result
  {
  }

  /** As written, a `reserve(n)` whose write raises has already overwritten
      the held message's count. The message is still held, so a following
      nack takes its decision from the new count but adds to the old score:
      a message at 255 retries, recounted to 0, has its score pushed from
      `7 << 8 | 255` to `8 << 8`, which moves its timestamp to 8 and its
      retry count back to 0. With the count committed after the write, the
      nack keeps the timestamp. */
  lemma FailedReserveThenNackMovesStamp(channel: Bin, now: int)
    ensures var held := InFlight(true, "m", Pack(7, 255), 255);
            var admitAll := (e: Data) => true;
            var r := ReserveSpec(held, map[], false, admitAll, channel, Count(-255), now);
            var n := NackSpec(r.slot, map[], true, admitAll, channel, true);
            var score := ZSetAt(n.data, BackupKey(channel))["m"];
            && SlotConsistent(held)
            && r.result == Err(MqException(RedisError)) && r.slot.ackExpected && !SlotConsistent(r.slot)
            && n.result == Ok(true) && StampOf(score) == 8 && RetryOf(score) == 0
    ensures var held := InFlight(true, "m", Pack(7, 255), 255);
            var admitAll := (e: Data) => true;
            var f := FixedReserveSpec(held, map[], false, admitAll, channel, Count(-255), now);
            var n := NackSpec(f.slot, map[], true, admitAll, channel, true);
            var score := ZSetAt(n.data, BackupKey(channel))["m"];
            && f.slot == held && n.result == Ok(true) && StampOf(score) == 7 && RetryOf(score) == 255
  {
    UnpackPack(7, 255);
    UnpackPack(8, 0);
    assert Pack(7, 255) + 1 == Pack(8, 0);
  }

  /** nack with `insert` puts the message at the pop end, so the next consume
      (or waitMessage) hands the same message straight back with one more
      retry (up to 255) and the same timestamp, and the list is as it was
      before. */
  lemma NackThenConsumeRedelivers(slot: InFlight, d: Data, admits: Data -> bool, channel: Bin, protocol: Protocol,
                                  blocking: bool)
    requires slot.ackExpected && SlotValid(slot) && SlotConsistent(slot)
    requires TakesList(d, channel) && TakesZSet(d, BackupKey(channel))
    requires admits(d)
    requires admits(ZAddReply(d, BackupKey(channel), Bumped(slot.msgScore, slot.msgRetryCount), slot.msgBin).data)
    requires protocol.decode(slot.msgBin).Ok?
    requires blocking || !PhpEmpty(slot.msgBin)
    ensures var n := NackSpec(slot, d, true, admits, channel, true);
            var c := ConsumeSpec(n.slot, n.data, true, channel, protocol, blocking);
            && n.result == Ok(true)
            && c.result == Ok(Some(protocol.decode(slot.msgBin).value))
            && c.slot.ackExpected && c.slot.msgBin == slot.msgBin
            && c.slot.msgRetryCount == ClampRetry(slot.msgRetryCount + 1)
            && StampOf(c.slot.msgScore) == StampOf(slot.msgScore)
            && ListAt(c.data, channel) == ListAt(d, channel)
  {
    var bak := BackupKey(channel);
    var n := NackSpec(slot, d, true, admits, channel, true);
    NackRequeues(slot, d, admits, channel, true);
    NackScoreKeepsStamp(slot);
    var l := ListAt(d, channel);
    assert ListAt(n.data, channel) == l + [slot.msgBin];
    ScanStep(l + [slot.msgBin], ZSetAt(n.data, bak), !blocking);
    assert (l + [slot.msgBin])[..|l|] == l;
  }

  /** Once a message is acknowledged, a copy of it still in the list is
      thrown away by the next consume or waitMessage rather than delivered. */
  lemma AckThenConsumeSkips(slot: InFlight, d: Data, channel: Bin, protocol: Protocol, blocking: bool)
    requires slot.ackExpected
    ensures var a := AckSpec(slot, d, true, channel);
            var c := ConsumeSpec(a.slot, a.data, true, channel, protocol, blocking);
            c.slot.ackExpected ==> c.slot.msgBin != slot.msgBin
  {
    AckRemovesBackup(slot, d, channel);
    var a := AckSpec(slot, d, true, channel);
    StaleNeverDelivered(a.slot, a.data, true, channel, protocol, blocking, slot.msgBin);
  }

  // ---------------------------------------------------------------------
  // The consumer object

  class ReliablyConsumer {
    const store: Store
    const channel: Bin
    const channelBak: Bin
    const protocol: Protocol
    var ackExpected: bool
    var msgBin: Bin
    var msgScore: int
    var msgRetryCount: int

    function Slot(): InFlight
      reads this
    {
      InFlight(ackExpected, msgBin, msgScore, msgRetryCount)
    }

    ghost predicate Valid()
      reads this
    {
      channel != "" && channelBak == BackupKey(channel) && SlotValid(Slot())
    }

    constructor (store: Store, channel: Bin, protocol: Protocol)
      requires channel != ""
      ensures Valid()
      ensures this.store == store && this.channel == channel && this.protocol == protocol
      ensures Slot() == InFlight(false, "", 0, 0)
    {
      this.store := store;
      this.channel := channel;
      this.protocol := protocol;
      this.channelBak := BackupKey(channel);
      ackExpected, msgBin, msgScore, msgRetryCount := false, "", 0, 0;
    }

    /** Takes the next live message without blocking; null when the list runs
        out (or, as in the source, a PHP-empty element is popped). */
    method Consume() returns (r: Result<Option<Message>>)
      requires Valid()
      modifies this, store`data
      ensures Valid()
      ensures var o := ConsumeSpec(old(Slot()), old(store.data), old(store.up), channel, protocol, false);
              r == o.result && Slot() == o.slot && store.data == o.data
    {
      if ackExpected {
        return Err(MqException(MustAck));
      }
      if !store.up {
        return Err(MqException(RedisError));
      }
      ghost var d0 := store.data;
      ghost var live := ZSetAt(d0, channelBak);
      ghost var target := ScanForLive(ListAt(d0, channel), live, true);
      var found: Bin, score: int;
      while true
        invariant store.up
        invariant |ListAt(store.data, channel)| <= |ListAt(d0, channel)|
        invariant store.data == KeepLeft(d0, channel, |ListAt(store.data, channel)|)
        invariant ScanForLive(ListAt(store.data, channel), live, true) == target
        invariant Slot() == old(Slot())
        decreases |ListAt(store.data, channel)|
      {
        ghost var items := ListAt(store.data, channel);
        ghost var n := |items|;
        if n > 0 {
          PopKept(d0, channel, n);
          ScanStep(items, live, true);
        }
        var popped := store.RPop(channel);
        if popped.None? || PhpEmpty(popped.value) {
          assert n > 0 ==> target == Scan(items[..n - 1], None);
          return Ok(None);
        }
        SameElsewhere(store.data, d0, channel, channelBak);
        var s := store.ZScore(channelBak, popped.value);
        if s.None? {
          continue;
        }
        found, score := popped.value, s.value;
        assert target == Scan(items[..n - 1], Some(found)) && score == live[found];
        break;
      }
      msgBin, msgScore := found, score;
      var decoded := protocol.decode(msgBin);
      if decoded.Err? {
        return Err(decoded.failure);
      }
      ackExpected := true;
      msgRetryCount := RetryOf(msgScore);
      r := Ok(Some(decoded.value));
    }

    /** Takes the next live message with the blocking pop; null on timeout.
        The timeout is passed through; a single caller never sees an element
        arrive while it waits. */
    method WaitMessage(timeout: int) returns (r: Result<Option<Message>>)
      requires Valid()
      modifies this, store`data
      ensures Valid()
      ensures var o := ConsumeSpec(old(Slot()), old(store.data), old(store.up), channel, protocol, true);
              r == o.result && Slot() == o.slot && store.data == o.data
    {
      if ackExpected {
        return Err(MqException(MustAck));
      }
      if !store.up {
        return Err(MqException(RedisError));
      }
      ghost var d0 := store.data;
      ghost var live := ZSetAt(d0, channelBak);
      ghost var target := ScanForLive(ListAt(d0, channel), live, false);
      var found: Bin, score: int;
      while true
        invariant store.up
        invariant |ListAt(store.data, channel)| <= |ListAt(d0, channel)|
        invariant store.data == KeepLeft(d0, channel, |ListAt(store.data, channel)|)
        invariant ScanForLive(ListAt(store.data, channel), live, false) == target
        invariant Slot() == old(Slot())
        decreases |ListAt(store.data, channel)|
      {
        ghost var items := ListAt(store.data, channel);
        ghost var n := |items|;
        if n > 0 {
          PopKept(d0, channel, n);
          ScanStep(items, live, false);
        }
        var data := store.BRPop(channel, timeout);
        if data.None? {
          assert n == 0 && target == Scan([], None);
          return Ok(None);
        }
        SameElsewhere(store.data, d0, channel, channelBak);
        var s := store.ZScore(channelBak, data.value.1);
        if s.None? {
          continue;
        }
        found, score := data.value.1, s.value;
        assert target == Scan(items[..n - 1], Some(found)) && score == live[found];
        break;
      }
      msgBin, msgScore := found, score;
      var decoded := protocol.decode(msgBin);
      if decoded.Err? {
        return Err(decoded.failure);
      }
      ackExpected := true;
      msgRetryCount := RetryOf(msgScore);
      r := Ok(Some(decoded.value));
    }

    /** Drops the held message from the backup index; true whatever the
        removal reported. */
    method Ack() returns (r: Result<bool>)
      requires Valid()
      modifies this, store`data
      ensures Valid()
      ensures var o := AckSpec(old(Slot()), old(store.data), old(store.up), channel);
              r == o.result && Slot() == o.slot && store.data == o.data
    {
      if !ackExpected {
        return Err(MqException(NeedNotAck));
      }
      if !store.up {
        return Err(MqException(RedisError));
      }
      var ret := store.ZRem(channelBak, [msgBin]);
      ackExpected := false;
      msgBin := "";
      msgRetryCount := 0;
      r := Ok(true);
    }

    /** Gives the held message back: bumps its score, then pushes it at the
        pop end (`insert`) or at the other end. */
    method Nack(insert: bool) returns (r: Result<bool>)
      requires Valid()
      modifies this, store`data
      ensures Valid()
      ensures var o := NackSpec(old(Slot()), old(store.data), old(store.up), store.admits, channel, insert);
              r == o.result && Slot() == o.slot && store.data == o.data
    {
      if !ackExpected {
        return Err(MqException(NeedNotAck));
      }
      var score := if msgRetryCount < RetryMax then msgScore + 1 else msgScore;
      if !store.up {
        return Err(MqException(RedisError));
      }
      var added := store.ZAdd(channelBak, score, msgBin);
      var ret;
      if insert {
        ret := store.RPush(channel, msgBin);
      } else {
        ret := store.LPush(channel, msgBin);
      }
      if ret < 1 {
        return Ok(false);
      }
      ackExpected := false;
      msgBin := "";
      msgRetryCount := 0;
      r := Ok(true);
    }

    /** Parks the held message in the backup index without queueing it;
        `now` is the wall-clock time in seconds. */
    method Reserve(plusCount: PlusCount, now: int) returns (r: Result<bool>)
      requires Valid()
      modifies this, store`data
      ensures Valid()
      ensures var o := ReserveSpec(old(Slot()), old(store.data), old(store.up), store.admits, channel, plusCount, now);
              r == o.result && Slot() == o.slot && store.data == o.data
    {
      if !ackExpected {
        return Err(MqException(NeedNotAck));
      }
      var score: Option<int> := None;
      if plusCount.Count? {
        var stamp := Pack(now, 0);
        msgRetryCount := msgRetryCount + plusCount.n;
        if msgRetryCount < 0 {
          msgRetryCount := 0;
        } else if msgRetryCount > RetryMax {
          msgRetryCount := RetryMax;
        }
        score := Some(stamp + msgRetryCount);
      } else if plusCount.on && msgRetryCount < RetryMax {
        score := Some(msgScore + 1);
      }
      if score.Some? {
        if !store.up {
          return Err(MqException(RedisError));
        }
        var added := store.ZAdd(channelBak, score.value, msgBin);
      }
      ackExpected := false;
      msgBin := "";
      msgRetryCount := 0;
      r := Ok(true);
    }

    /** The backup index's cardinality: every live message, queued or not. */
    method GetLength() returns (r: Result<int>)
      requires Valid()
      ensures store.up ==> r == Ok(|ZSetAt(store.data, BackupKey(channel))|)
      ensures !store.up ==> r == Err(MqException(RedisError))
    {
      if !store.up {
        return Err(MqException(RedisError));
      }
      var len := store.ZCard(channelBak);
      r := Ok(len);
    }

    /** The retry count of the held message; 0 when nothing is held. */
    method GetMsgRetryCount() returns (n: int)
      requires Valid()
      ensures n == msgRetryCount
      ensures 0 <= n <= RetryMax
      ensures !ackExpected ==> n == 0
    {
      n := msgRetryCount;
    }
  }

  /** `new ReliablyConsumer(...)`: an empty channel name is refused. */
  method NewReliablyConsumer(store: Store, channel: Bin, protocol: Protocol) returns (r: Result<ReliablyConsumer>)
    ensures channel == "" <==> r.Err?
    ensures r.Err? ==> r.failure == MqException(ParamError)
    ensures r.Ok? ==> fresh(r.value) && r.value.Valid() && r.value.store == store && r.value.channel == channel
    ensures r.Ok? ==> r.value.Slot() == InFlight(false, "", 0, 0)
  {
    if channel == "" {
      return Err(MqException(ParamError));
    }
    var c := new ReliablyConsumer(store, channel, protocol);
    r := Ok(c);
  }
}
