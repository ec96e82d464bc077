/** The reliable producer (src/ReliablyProducer.php). Publishing records the
    encoded message in the backup index `<channel>:BAK` first and then pushes
    it onto the channel's list; recover pushes index entries back onto the
    list, in pages of 100. */
module ReliableProducers {
  import opened Mq
  import opened Redis
  import opened Backup

  // ---------------------------------------------------------------------
  // Message ids: bin2hex of 32 random bytes

  /** Bytes asked of the random source for one id. */
  const UuidLength := 32

  type Byte = b: int | 0 <= b < 256

  /** What `random_bytes(32)` yields. */
  type UuidBytes = s: seq<Byte> | |s| == UuidLength witness seq(32, i => 0)

  /** A lower-case hexadecimal digit. */
  predicate IsHexDigit(c: char) {
    '0' <= c <= '9' || 'a' <= c <= 'f'
  }

  /** The digit for a nibble. */
  function Digit(n: int): (c: char)
    requires 0 <= n < 16
    ensures IsHexDigit(c)
  {
    if n < 10 then ('0' as int + n) as char else ('a' as int + n - 10) as char
  }

  /** `bin2hex`: two lower-case digits per byte, high nibble first. */
  function Hex(bytes: seq<Byte>): (s: string)
    ensures |s| == 2 * |bytes|
    ensures forall i :: 0 <= i < |s| ==> IsHexDigit(s[i])
  {
    if bytes == [] then ""
    else [Digit(bytes[0] / 16), Digit(bytes[0] % 16)] + Hex(bytes[1..])
  }

  /** The value of a hex digit. */
  function DigitValue(c: char): int {
    if '0' <= c <= '9' then c as int - '0' as int else c as int - 'a' as int + 10
  }

  /** `hex2bin`, the inverse of bin2hex. */
  function Unhex(s: string): seq<int>
    decreases |s|
  {
    if |s| < 2 then [] else [DigitValue(s[0]) * 16 + DigitValue(s[1])] + Unhex(s[2..])
  }

  /** One byte's two digits read back. */
  lemma ByteRoundTrip(b: Byte)
    ensures DigitValue(Digit(b / 16)) * 16 + DigitValue(Digit(b % 16)) == b
  {
  }

  /** bin2hex loses nothing: hex2bin gives the bytes back. */
  lemma {:induction false} UnhexHex(bytes: seq<Byte>)
    ensures Unhex(Hex(bytes)) == bytes
  {
    if bytes != [] {
      var h := Hex(bytes);
      var rest := Hex(bytes[1..]);
      assert h == [Digit(bytes[0] / 16), Digit(bytes[0] % 16)] + rest;
      assert h[2..] == rest;
      ByteRoundTrip(bytes[0]);
      assert Unhex(h) == [bytes[0]] + Unhex(rest);
      UnhexHex(bytes[1..]);
      assert bytes == [bytes[0]] + bytes[1..];
    }
  }

  /** A published id is 64 lower-case hex digits, and different random bytes
      give different ids. */
  lemma UuidShape(a: UuidBytes, b: UuidBytes)
    ensures |Hex(a)| == 64 && forall i :: 0 <= i < 64 ==> IsHexDigit(Hex(a)[i])
    ensures Hex(a) == Hex(b) ==> a == b
  {
    UnhexHex(a);
    UnhexHex(b);
  }

  // ---------------------------------------------------------------------
  // publish

  /** An operation's result and the keyspace after it. */
  datatype Published = Published(result: Result<bool>, message: Message, data: Data)

  /** publish: the message gets its id, its score is `now << 8` (retry count
      0), the index is written first, and a refused index write returns false
      before the list is touched. When the push is refused the source's
      rollback `zRem($msgBin)` names the encoding as the key and passes no
      member, so it removes nothing. */
  function PublishSpec(d: Data, up: bool, admits: Data -> bool, channel: Bin, protocol: Protocol, message: Message,
                       now: int, random: UuidBytes): Published
  {
    var stamped := message.(uuid := Hex(random));
    var score := Pack(now, 0);
    match protocol.encode(stamped)
    case Err(f) => Published(Err(f), stamped, d)
    case Ok(msgBin) =>
      if !up then Published(Err(MqException(RedisError)), stamped, d)
      else
        var add := Gated(admits(d), d, ZAddReply(d, BackupKey(channel), score, msgBin));
        if add.value < 1 then Published(Ok(false), stamped, add.data)
        else
          var push := Gated(admits(add.data), add.data, LPushReply(add.data, channel, msgBin));
          if push.value < 1 then Published(Ok(false), stamped, ZRemReply(push.data, msgBin, []).data)
          else Published(Ok(true), stamped, push.data)
  }

  /** The id is the hex of the random bytes and the content is unchanged.
      Whenever the index write is admitted and the index is a sorted set, the
      encoding ends up in the index with timestamp `now` and retry count 0,
      whatever becomes of the push; without an encoding, a reachable store
      or an admitted write, the store is left alone. */
  lemma PublishStamps(d: Data, up: bool, admits: Data -> bool, channel: Bin, protocol: Protocol, message: Message,
                      now: int, random: UuidBytes)
    ensures var p := PublishSpec(d, up, admits, channel, protocol, message, now, random);
            var bak := BackupKey(channel);
            var encoded := protocol.encode(p.message);
            && p.message == Message(Hex(random), message.content)
            && |p.message.uuid| == 2 * UuidLength
            && (p.result.Err? <==> encoded.Err? || !up)
            && (encoded.Ok? && up && admits(d) && TakesZSet(d, bak) ==>
                  && encoded.value in ZSetAt(p.data, bak)
                  && ZSetAt(p.data, bak)[encoded.value] == Pack(now, 0)
                  && StampOf(ZSetAt(p.data, bak)[encoded.value]) == now
                  && RetryOf(ZSetAt(p.data, bak)[encoded.value]) == 0)
            && (encoded.Err? || !up || !admits(d) ==> p.data == d)
  {
    var p := PublishSpec(d, up, admits, channel, protocol, message, now, random);
    var bak := BackupKey(channel);
    UnpackPack(now, 0);
    var encoded := protocol.encode(p.message);
    if encoded.Ok? && up && admits(d) && TakesZSet(d, bak) {
      var msgBin := encoded.value;
      var add := ZAddReply(d, bak, Pack(now, 0), msgBin);
      SameElsewhere(add.data, d, bak, channel);
      var push := Gated(admits(add.data), add.data, LPushReply(add.data, channel, msgBin));
      SameElsewhere(push.data, add.data, channel, bak);
      ZRemNothing(push.data, msgBin);
    }
  }

  /** What publish does to the store, once the message is encoded and the
      store is reachable: true exactly when the index admitted a new entry
      with score `now << 8` and the list then admitted the encoding at its
      left end. A refused index write (not admitted, a member already
      present, or a key of the wrong kind) returns false with the list
      untouched. A refused push returns false and, as written, leaves the
      new index entry in place. */
  lemma PublishOutcomes(d: Data, admits: Data -> bool, channel: Bin, protocol: Protocol, message: Message, now: int,
                        random: UuidBytes)
    requires protocol.encode(message.(uuid := Hex(random))).Ok?
    ensures var msgBin := protocol.encode(message.(uuid := Hex(random))).value;
            var p := PublishSpec(d, true, admits, channel, protocol, message, now, random);
            var bak := BackupKey(channel);
            var d1 := ZAddReply(d, bak, Pack(now, 0), msgBin).data;
            var added := admits(d) && TakesZSet(d, bak) && msgBin !in ZSetAt(d, bak);
            var pushed := admits(d1) && TakesList(d, channel);
            && p.result.Ok?
            && (p.result == Ok(true) <==> added && pushed)
            && (p.result == Ok(true) ==>
                  && ZSetAt(p.data, bak) == ZSetAt(d, bak)[msgBin := Pack(now, 0)]
                  && ListAt(p.data, channel) == [msgBin] + ListAt(d, channel))
            && (!added ==> p.result == Ok(false) && ListAt(p.data, channel) == ListAt(d, channel))
            && (added && !pushed ==>
                  && p.result == Ok(false)
                  && ListAt(p.data, channel) == ListAt(d, channel)
                  && ZSetAt(p.data, bak) == ZSetAt(d, bak)[msgBin := Pack(now, 0)])
  {
    var msgBin := protocol.encode(message.(uuid := Hex(random))).value;
    var bak := BackupKey(channel);
    var add := Gated(admits(d), d, ZAddReply(d, bak, Pack(now, 0), msgBin));
    SameElsewhere(add.data, d, bak, channel);
    var push := Gated(admits(add.data), add.data, LPushReply(add.data, channel, msgBin));
    SameElsewhere(push.data, add.data, channel, bak);
    ZRemNothing(push.data, msgBin);
  }

  /** publish with the rollback aimed at the backup index, as its comment
      intends: `zRem(<channel>:BAK, $msgBin)`. */
  function FixedPublishSpec(d: Data, up: bool, admits: Data -> bool, channel: Bin, protocol: Protocol,
                            message: Message, now: int, random: UuidBytes): Published
  {
    var stamped := message.(uuid := Hex(random));
    var score := Pack(now, 0);
    match protocol.encode(stamped)
    case Err(f) => Published(Err(f), stamped, d)
    case Ok(msgBin) =>
      if !up then Published(Err(MqException(RedisError)), stamped, d)
      else
        var add := Gated(admits(d), d, ZAddReply(d, BackupKey(channel), score, msgBin));
        if add.value < 1 then Published(Ok(false), stamped, add.data)
        else
          var push := Gated(admits(add.data), add.data, LPushReply(add.data, channel, msgBin));
          if push.value < 1 then Published(Ok(false), stamped, ZRemReply(push.data, BackupKey(channel), [msgBin]).data)
          else Published(Ok(true), stamped, push.data)
  }

  /** With the rollback aimed at the index, a refused push after a new index
      entry leaves the store exactly as it was; in every other case the fixed
      publish behaves as written. */
  lemma FixedPublishRollsBack(d: Data, admits: Data -> bool, channel: Bin, protocol: Protocol, message: Message,
                              now: int, random: UuidBytes)
    requires protocol.encode(message.(uuid := Hex(random))).Ok?
    ensures var msgBin := protocol.encode(message.(uuid := Hex(random))).value;
            var bak := BackupKey(channel);
            var d1 := ZAddReply(d, bak, Pack(now, 0), msgBin).data;
            var added := admits(d) && TakesZSet(d, bak) && msgBin !in ZSetAt(d, bak);
            var pushed := admits(d1) && TakesList(d, channel);
            var f := FixedPublishSpec(d, true, admits, channel, protocol, message, now, random);
            && (added && !pushed ==>
                  && f.result == Ok(false)
                  && ZSetAt(f.data, bak) == ZSetAt(d, bak)
                  && f.data - {bak} == d - {bak})
            && (!added || pushed ==> f == PublishSpec(d, true, admits, channel, protocol, message, now, random))
  {
    var msgBin := protocol.encode(message.(uuid := Hex(random))).value;
    var bak := BackupKey(channel);
    var add := ZAddReply(d, bak, Pack(now, 0), msgBin);
    SameElsewhere(add.data, d, bak, channel);
    if admits(d) && TakesZSet(d, bak) && msgBin !in ZSetAt(d, bak) && !(admits(add.data) && TakesList(d, channel)) {
      AddThenRemove(d, bak, Pack(now, 0), msgBin);
    }
  }

  /** Removing the member just added to a sorted set restores the set. */
  lemma AddThenRemove(d: Data, k: Bin, score: int, m: Bin)
    requires TakesZSet(d, k) && m !in ZSetAt(d, k)
    ensures var back := ZRemReply(ZAddReply(d, k, score, m).data, k, [m]).data;
            ZSetAt(back, k) == ZSetAt(d, k) && back - {k} == d - {k}
  {
    assert (set x | x in [m]) == {m};
  }

  /** The rollback as written: when queue `q` has a backup index, a producer
      on channel `q:BAK` finds that key holding a sorted set, so its push is
      refused, and its new entry stays in `q:BAK:BAK`. */
  lemma RollbackMissesBackup(protocol: Protocol, message: Message, now: int, random: UuidBytes)
    requires protocol.encode(message.(uuid := Hex(random))).Ok?
    ensures var msgBin := protocol.encode(message.(uuid := Hex(random))).value;
            var d: Data := map["q:BAK" := ZSetValue(map["x" := 0])];
            var p := PublishSpec(d, true, NoLimit, "q:BAK", protocol, message, now, random);
            p.result == Ok(false) && msgBin in ZSetAt(p.data, "q:BAK:BAK")
  {
    var d: Data := map["q:BAK" := ZSetValue(map["x" := 0])];
    assert BackupKey("q:BAK") == "q:BAK:BAK";
    assert "q:BAK:BAK" !in d;
    PublishOutcomes(d, NoLimit, "q:BAK", protocol, message, now, random);
  }

  // ---------------------------------------------------------------------
  // recover

  function Min(a: int, b: int): int {
    if a < b then a else b
  }

  /** The range's upper end: `+inf` for 0, otherwise `time << 8`, inclusive. */
  function RecoverCeiling(time: int): Bound {
    if time == 0 then Unbounded else AtMost(Pack(time, 0))
  }

  /** `items` in reverse order. */
  function Reversed(items: seq<Bin>): (r: seq<Bin>)
    ensures |r| == |items|
  {
    if items == [] then [] else [items[|items| - 1]] + Reversed(items[..|items| - 1])
  }

  /** The list after pushing `items` one by one: rPush (`insert`) appends
      them at the pop end in order, lPush stacks them at the other end. */
  function Requeued(l: seq<Bin>, items: seq<Bin>, insert: bool): seq<Bin> {
    if insert then l + items else Reversed(items) + l
  }

  /** The keyspace after `items` have been pushed onto the channel's list. */
  function RequeuedData(d: Data, channel: Bin, items: seq<Bin>, insert: bool): (r: Data)
    ensures items != [] ==> ListAt(r, channel) == Requeued(ListAt(d, channel), items, insert)
    ensures items == [] ==> r == d
    ensures TakesList(d, channel) ==> TakesList(r, channel)
  {
    if items == [] then d else PutList(d, channel, Requeued(ListAt(d, channel), items, insert))
  }

  /** Pushing entries onto the channel touches no other key. */
  lemma RequeuedElsewhere(d: Data, channel: Bin, items: seq<Bin>, insert: bool)
    ensures RequeuedData(d, channel, items, insert) - {channel} == d - {channel}
  {
  }

  /** One push of recover's `foreach`: rPush with `insert`, lPush without. */
  function PushOne(d: Data, admits: Data -> bool, channel: Bin, x: Bin, insert: bool): Reply<int> {
    Gated(admits(d), d, if insert then RPushReply(d, channel, x) else LPushReply(d, channel, x))
  }

  /** A command applied to one element: the keyspace it leaves and its reply. */
  type Step = (Data, Bin) -> Reply<int>

  function PushStep(admits: Data -> bool, channel: Bin, insert: bool): Step {
    (e: Data, x: Bin) => PushOne(e, admits, channel, x, insert)
  }

  /** `step` applied to `items` one by one up to the first reply below 1;
      the keyspace reached and how many steps went through. */
  function RunUntilRefused(step: Step, d: Data, items: seq<Bin>): (r: Reply<nat>)
    ensures r.value <= |items|
    decreases |items|
  {
    if items == [] then Reply(d, 0)
    else
      var first := step(d, items[0]);
      if first.value < 1 then Reply(d, 0)
      else
        var rest := RunUntilRefused(step, first.data, items[1..]);
        Reply(rest.data, rest.value + 1)
  }

  /** The `foreach` of recover: `items` pushed one by one up to the first
      push that reports less than 1. */
  function PushEach(d: Data, admits: Data -> bool, channel: Bin, items: seq<Bin>, insert: bool): Reply<nat> {
    RunUntilRefused(PushStep(admits, channel, insert), d, items)
  }

  lemma PushOneGate(d: Data, admits: Data -> bool, channel: Bin, x: Bin, insert: bool)
    ensures var push := PushOne(d, admits, channel, x, insert);
            && (push.value >= 1 <==> admits(d) && TakesList(d, channel))
            && (push.value < 1 ==> push.data == d)
  {
  }

  /** A push goes through exactly when the server admits it and the channel's
      key is a list; it then adds the element at its end, and otherwise it
      changes nothing. */
  lemma PushOneAccepted(d: Data, admits: Data -> bool, channel: Bin, x: Bin, insert: bool)
    ensures var push := PushOne(d, admits, channel, x, insert);
            && (push.value >= 1 <==> admits(d) && TakesList(d, channel))
            && (push.value >= 1 ==> push.data == RequeuedData(d, channel, [x], insert))
            && (push.value < 1 ==> push.data == d)
  {
    PushOneGate(d, admits, channel, x, insert);
    if admits(d) && TakesList(d, channel) {
      RequeueStep(d, channel, [], x, insert);
      assert [] + [x] == [x];
    }
  }

  lemma ConsPrefix(s: seq<Bin>, k: nat)
    requires k < |s|
    ensures [s[0]] + s[1..][..k] == s[..k + 1]
  {
    var lhs := [s[0]] + s[1..][..k];
    assert |lhs| == k + 1;
    forall i | 0 <= i < k + 1 ensures lhs[i] == s[i] {
      if i > 0 {
        assert lhs[i] == s[1..][..k][i - 1];
      }
    }
  }

  /** An admitted push followed by more pushes is the same as pushing all of
      them. */
  lemma RequeueCons(d: Data, admits: Data -> bool, channel: Bin, x: Bin, tail: seq<Bin>, insert: bool)
    requires admits(d) && TakesList(d, channel)
    ensures RequeuedData(PushOne(d, admits, channel, x, insert).data, channel, tail, insert)
            == RequeuedData(d, channel, [x] + tail, insert)
  {
    PushOneAccepted(d, admits, channel, x, insert);
    RequeueAppend(d, channel, [x], tail, insert);
  }

  /** The pushed prefix stays: PushEach leaves the first `n` items pushed,
      for the `n` it reports. */
  lemma {:induction false} PushEachPrefix(d: Data, admits: Data -> bool, channel: Bin, items: seq<Bin>, insert: bool)
    ensures var r := PushEach(d, admits, channel, items, insert);
            r.data == RequeuedData(d, channel, items[..r.value], insert)
    decreases |items|
  {
    var r := PushEach(d, admits, channel, items, insert);
    if items == [] {
      assert items[..0] == [];
    } else {
      var push := PushOne(d, admits, channel, items[0], insert);
      PushOneGate(d, admits, channel, items[0], insert);
      if push.value < 1 {
        assert r == Reply(d, 0);
        assert items[..0] == [];
      } else {
        var rest := PushEach(push.data, admits, channel, items[1..], insert);
        assert r == Reply(rest.data, rest.value + 1);
        PushEachPrefix(push.data, admits, channel, items[1..], insert);
        var tail := items[1..][..rest.value];
        RequeueCons(d, admits, channel, items[0], tail, insert);
        ConsPrefix(items, rest.value);
      }
    }
  }

  /** Pushes touch no key but the channel's. */
  lemma {:induction false} PushEachElsewhere(d: Data, admits: Data -> bool, channel: Bin, items: seq<Bin>,
                                             insert: bool)
    ensures PushEach(d, admits, channel, items, insert).data - {channel} == d - {channel}
    decreases |items|
  {
    if items != [] {
      var push := PushOne(d, admits, channel, items[0], insert);
      if push.value >= 1 {
        PushEachElsewhere(push.data, admits, channel, items[1..], insert);
      }
    }
  }

  /** When PushEach stops short, the next push was refused because the server
      did not admit it or the channel's key is not a list. */
  lemma {:induction false} PushEachRefused(d: Data, admits: Data -> bool, channel: Bin, items: seq<Bin>, insert: bool)
    ensures var r := PushEach(d, admits, channel, items, insert);
            r.value < |items| ==> !admits(r.data) || !TakesList(d, channel)
    decreases |items|
  {
    var r := PushEach(d, admits, channel, items, insert);
    if items != [] {
      var push := PushOne(d, admits, channel, items[0], insert);
      PushOneGate(d, admits, channel, items[0], insert);
      if push.value >= 1 {
        var rest := PushEach(push.data, admits, channel, items[1..], insert);
        assert r == Reply(rest.data, rest.value + 1);
        PushEachRefused(push.data, admits, channel, items[1..], insert);
        assert TakesList(push.data, channel);
      }
    }
  }

  /** A single step, through RunUntilRefused. */
  lemma RunOne(step: Step, d: Data, x: Bin)
    ensures var first := step(d, x);
            RunUntilRefused(step, d, [x]) == if first.value < 1 then Reply(d, 0) else Reply(first.data, 1)
  {
    assert [x][1..] == [];
  }

  /** Running `a + b` when all of `a` goes through is running `a` and then
      `b` from where it left the keyspace. */
  lemma {:induction false} RunAppendAll(step: Step, d: Data, a: seq<Bin>, b: seq<Bin>)
    requires RunUntilRefused(step, d, a).value == |a|
    ensures var q := RunUntilRefused(step, RunUntilRefused(step, d, a).data, b);
            RunUntilRefused(step, d, a + b) == Reply(q.data, |a| + q.value)
    decreases |a|
  {
    if a == [] {
      assert a + b == b;
    } else {
      assert (a + b)[0] == a[0];
      assert (a + b)[1..] == a[1..] + b;
      RunAppendAll(step, step(d, a[0]).data, a[1..], b);
    }
  }

  /** One more step after the first `i` went through: a step that goes
      through extends the run to `i + 1` items; a refused one ends the run
      over all of `items` where it stands. */
  lemma RunExtend(step: Step, d0: Data, cur: Data, items: seq<Bin>, i: nat)
    requires i < |items| && RunUntilRefused(step, d0, items[..i]) == Reply(cur, i)
    ensures var s := step(cur, items[i]);
            && (s.value >= 1 ==> RunUntilRefused(step, d0, items[..i + 1]) == Reply(s.data, i + 1))
            && (s.value < 1 ==> RunUntilRefused(step, d0, items) == Reply(cur, i))
  {
    RunOne(step, cur, items[i]);
    assert items[..i] + [items[i]] == items[..i + 1];
    RunAppendAll(step, d0, items[..i], [items[i]]);
    if step(cur, items[i]).value < 1 {
      RunStopsIn(step, d0, items[..i + 1], items[i + 1..]);
      assert items[..i + 1] + items[i + 1..] == items;
    }
  }

  /** A refusal within `a` ends the run of `a + b` there. */
  lemma {:induction false} RunStopsIn(step: Step, d: Data, a: seq<Bin>, b: seq<Bin>)
    requires RunUntilRefused(step, d, a).value < |a|
    ensures RunUntilRefused(step, d, a + b) == RunUntilRefused(step, d, a)
    decreases |a|
  {
    assert (a + b)[0] == a[0];
    assert (a + b)[1..] == a[1..] + b;
    var first := step(d, a[0]);
    if first.value >= 1 {
      RunStopsIn(step, first.data, a[1..], b);
    }
  }

  /** recover: the index entries with a score in `[0, ceiling]`, in the
      index's order, are pushed back one by one. It returns true when every
      push went through, and false at the first refused one, with the
      entries before it already pushed. */
  function RecoverSpec(d: Data, up: bool, admits: Data -> bool, channel: Bin, time: int, insert: bool)
    : Reply<Result<bool>>
  {
    if time < 0 then Reply(d, Err(MqException(ParamError)))
    else if !up then Reply(d, Err(RedisException))
    else
      var all := Picked(d, channel, time);
      var p := PushEach(d, admits, channel, all, insert);
      Reply(p.data, Ok(p.value == |all|))
  }

  /** Pushing one more element extends the pushed prefix by one. */
  lemma RequeueStep(d: Data, channel: Bin, items: seq<Bin>, x: Bin, insert: bool)
    requires TakesList(d, channel)
    ensures var cur := RequeuedData(d, channel, items, insert);
            var push := if insert then RPushReply(cur, channel, x) else LPushReply(cur, channel, x);
            push.value >= 1 && push.data == RequeuedData(d, channel, items + [x], insert)
  {
    var l := ListAt(d, channel);
    var cur := RequeuedData(d, channel, items, insert);
    var want := Requeued(l, items + [x], insert);
    if insert {
      assert ListAt(cur, channel) + [x] == want;
    } else {
      assert (items + [x])[..|items|] == items;
      assert [x] + ListAt(cur, channel) == want;
    }
    if items != [] {
      PutListTwice(d, channel, Requeued(l, items, insert), want);
    }
  }

  /** Reversing a concatenation reverses the order of the parts. */
  lemma {:induction false} ReversedAppend(a: seq<Bin>, b: seq<Bin>)
    ensures Reversed(a + b) == Reversed(b) + Reversed(a)
    decreases |b|
  {
    if b == [] {
      assert a + b == a;
    } else {
      var ab := a + b;
      assert ab[..|ab| - 1] == a + b[..|b| - 1];
      ReversedAppend(a, b[..|b| - 1]);
    }
  }

  /** Pushing `a` and then `b` is pushing `a + b`. */
  lemma RequeueAppend(d: Data, channel: Bin, a: seq<Bin>, b: seq<Bin>, insert: bool)
    requires TakesList(d, channel)
    ensures RequeuedData(RequeuedData(d, channel, a, insert), channel, b, insert) == RequeuedData(d, channel, a + b, insert)
  {
    if a == [] {
      assert a + b == b;
    } else if b == [] {
      assert a + b == a;
    } else {
      var l := ListAt(d, channel);
      var first := Requeued(l, a, insert);
      var both := Requeued(l, a + b, insert);
      assert Requeued(first, b, insert) == both by {
        if insert {
          assert (l + a) + b == l + (a + b);
        } else {
          ReversedAppend(a, b);
          assert Reversed(b) + (Reversed(a) + l) == (Reversed(b) + Reversed(a)) + l;
        }
      }
      var mid := RequeuedData(d, channel, a, insert);
      assert mid == PutList(d, channel, first);
      assert ListAt(mid, channel) == first;
      assert RequeuedData(mid, channel, b, insert) == PutList(mid, channel, both);
      PutListTwice(d, channel, first, both);
    }
  }

  /** The index entries recover picks, in the index's order. */
  function Picked(d: Data, channel: Bin, time: int): seq<Bin> {
    RangeMembers(ZSetAt(d, BackupKey(channel)), 0, RecoverCeiling(time))
  }

  /** The page read at `offset` while only the channel's key has changed:
      empty exactly past the end, otherwise the next `limit` picked
      entries. */
  lemma PageOfPicked(d0: Data, cur: Data, channel: Bin, time: int, offset: nat, limit: nat)
    requires limit > 0 && cur - {channel} == d0 - {channel}
    ensures var all := Picked(d0, channel, time);
            var page := ZRangeByScoreReply(cur, BackupKey(channel), 0, RecoverCeiling(time), offset, limit);
            && (page == [] <==> offset >= |all|)
            && (offset < |all| ==> page == all[offset..Min(offset + limit, |all|)])
  {
    SameElsewhere(cur, d0, channel, BackupKey(channel));
  }

  /** The read that opens each round of recover's loop, in a keyspace where
      the entries before `offset` have all been pushed: the page is empty
      exactly past the end, and then recover returns true with the keyspace
      reached; otherwise it is the next slice of the entries. */
  lemma RecoverPage(d0: Data, cur: Data, admits: Data -> bool, channel: Bin, time: int, offset: nat, limit: nat,
                    insert: bool)
    requires limit > 0 && time >= 0
    requires var all := Picked(d0, channel, time);
             PushEach(d0, admits, channel, all[..Min(offset, |all|)], insert) == Reply(cur, Min(offset, |all|))
    ensures var all := Picked(d0, channel, time);
            var page := ZRangeByScoreReply(cur, BackupKey(channel), 0, RecoverCeiling(time), offset, limit);
            && (page == [] <==> offset >= |all|)
            && (page == [] ==> RecoverSpec(d0, true, admits, channel, time, insert) == Reply(cur, Ok(true)))
            && (page != [] ==> offset < |all| && page == all[offset..Min(offset + limit, |all|)])
  {
    var all := Picked(d0, channel, time);
    PushEachElsewhere(d0, admits, channel, all[..Min(offset, |all|)], insert);
    PageOfPicked(d0, cur, channel, time, offset, limit);
    if offset >= |all| {
      assert all[..Min(offset, |all|)] == all;
    }
  }

  /** The pushes of one round of recover's loop: when the whole page goes
      through, the entries up to its end have all been pushed; otherwise
      recover returns false with the keyspace the pushes reached. */
  lemma RecoverRound(d0: Data, cur: Data, admits: Data -> bool, channel: Bin, time: int, offset: nat, limit: nat,
                     insert: bool, page: seq<Bin>)
    requires time >= 0
    requires var all := Picked(d0, channel, time);
             && offset < |all| && PushEach(d0, admits, channel, all[..offset], insert) == Reply(cur, offset)
             && page == all[offset..Min(offset + limit, |all|)]
    ensures var all := Picked(d0, channel, time);
            var hi := Min(offset + limit, |all|);
            var q := PushEach(cur, admits, channel, page, insert);
            && (q.value == |page| ==> PushEach(d0, admits, channel, all[..hi], insert) == Reply(q.data, hi))
            && (q.value < |page| ==> RecoverSpec(d0, true, admits, channel, time, insert) == Reply(q.data, Ok(false)))
  {
    var all := Picked(d0, channel, time);
    var hi := Min(offset + limit, |all|);
    RunSlice(PushStep(admits, channel, insert), d0, cur, all, offset, hi);
  }

  lemma SliceJoin(s: seq<Bin>, i: nat, j: nat)
    requires i <= j <= |s|
    ensures s[..i] + s[i..j] == s[..j]
    ensures s[..j] + s[j..] == s
  {
  }

  lemma RunUpTo(step: Step, d0: Data, cur: Data, all: seq<Bin>, lo: nat, hi: nat)
    requires lo <= hi <= |all|
    requires RunUntilRefused(step, d0, all[..lo]) == Reply(cur, lo)
    ensures var q := RunUntilRefused(step, cur, all[lo..hi]);
            RunUntilRefused(step, d0, all[..hi]) == Reply(q.data, lo + q.value)
  {
    SliceJoin(all, lo, hi);
    RunAppendAll(step, d0, all[..lo], all[lo..hi]);
  }

  lemma RunStops(step: Step, d0: Data, all: seq<Bin>, hi: nat)
    requires hi <= |all| && RunUntilRefused(step, d0, all[..hi]).value < hi
    ensures RunUntilRefused(step, d0, all) == RunUntilRefused(step, d0, all[..hi])
  {
    SliceJoin(all, hi, hi);
    RunStopsIn(step, d0, all[..hi], all[hi..]);
  }

  /** Running the slice `all[lo..hi]` after `all[..lo]` went through: either
      the whole slice goes through, or a refusal within it is where the run
      over all of `all` stops. */
  lemma RunSlice(step: Step, d0: Data, cur: Data, all: seq<Bin>, lo: nat, hi: nat)
    requires lo <= hi <= |all|
    requires RunUntilRefused(step, d0, all[..lo]) == Reply(cur, lo)
    ensures var q := RunUntilRefused(step, cur, all[lo..hi]);
            && (q.value == hi - lo ==> RunUntilRefused(step, d0, all[..hi]) == Reply(q.data, hi))
            && (q.value < hi - lo ==> RunUntilRefused(step, d0, all) == Reply(q.data, lo + q.value))
  {
    RunUpTo(step, d0, cur, all, lo, hi);
    var q := RunUntilRefused(step, cur, all[lo..hi]);
    if q.value < hi - lo {
      RunStops(step, d0, all, hi);
    }
  }

  /** recover refuses a negative time and then changes nothing. */
  lemma RecoverRejectsNegative(d: Data, up: bool, admits: Data -> bool, channel: Bin, time: int, insert: bool)
    requires time < 0
    ensures RecoverSpec(d, up, admits, channel, time, insert) == Reply(d, Err(MqException(ParamError)))
  {
  }

  /** recover never alters the backup index, nor any key but the channel's. */
  lemma RecoverKeepsBackup(d: Data, up: bool, admits: Data -> bool, channel: Bin, time: int, insert: bool)
    ensures var o := RecoverSpec(d, up, admits, channel, time, insert);
            && ZSetAt(o.data, BackupKey(channel)) == ZSetAt(d, BackupKey(channel))
            && o.data - {channel} == d - {channel}
  {
    var o := RecoverSpec(d, up, admits, channel, time, insert);
    if time >= 0 && up {
      PushEachElsewhere(d, admits, channel, Picked(d, channel, time), insert);
    }
    SameElsewhere(o.data, d, channel, BackupKey(channel));
  }

  /** Which entries recover picks: with time 0 every entry of non-negative
      score; otherwise those stamped before `time`, and of those stamped
      exactly `time` only the ones never retried, since the ceiling
      `time << 8` leaves the retry byte at 0. */
  lemma RecoverCutoff(time: int, score: int)
    requires time >= 0
    ensures time == 0 ==> (InBounds(score, 0, RecoverCeiling(time)) <==> score >= 0)
    ensures time > 0 ==>
              (InBounds(score, 0, RecoverCeiling(time)) <==>
                 score >= 0 && (StampOf(score) < time || (StampOf(score) == time && RetryOf(score) == 0)))
  {
    PackUnpack(score);
  }

  /** recover pushes a prefix of the picked entries, in the index's order:
      all of them when it returns true; when it returns false, the ones
      before the first refused push, which the server did not admit or which
      met a channel key that is not a list. The pushes made stay. */
  lemma RecoverStopsAtRefusal(d: Data, admits: Data -> bool, channel: Bin, time: int, insert: bool)
    requires time >= 0
    ensures var o := RecoverSpec(d, true, admits, channel, time, insert);
            var all := Picked(d, channel, time);
            var n := PushEach(d, admits, channel, all, insert).value;
            && n <= |all|
            && o.value == Ok(n == |all|)
            && o.data == RequeuedData(d, channel, all[..n], insert)
            && (0 < n ==> ListAt(o.data, channel) == Requeued(ListAt(d, channel), all[..n], insert))
            && (n < |all| ==> !admits(o.data) || !TakesList(d, channel))
  {
    var all := Picked(d, channel, time);
    PushEachPrefix(d, admits, channel, all, insert);
    PushEachRefused(d, admits, channel, all, insert);
  }

  /** With a server that admits every write and a channel that holds a list,
      recover pushes each picked entry exactly once and nothing else, in
      ascending score order, at the pop end with `insert` and at the other
      end otherwise, and returns true. */
  lemma RecoverRequeuesEachOnce(d: Data, channel: Bin, time: int, insert: bool)
    requires time >= 0 && TakesList(d, channel)
    ensures var o := RecoverSpec(d, true, NoLimit, channel, time, insert);
            var z := ZSetAt(d, BackupKey(channel));
            var all := RangeMembers(z, 0, RecoverCeiling(time));
            && o.value == Ok(true)
            && o.data == RequeuedData(d, channel, all, insert)
            && (all != [] ==> ListAt(o.data, channel) == Requeued(ListAt(d, channel), all, insert))
            && (forall m :: m in all <==> m in z && InBounds(z[m], 0, RecoverCeiling(time)))
            && (forall i, j :: 0 <= i < j < |all| ==> all[i] != all[j] && z[all[i]] <= z[all[j]])
  {
    var z := ZSetAt(d, BackupKey(channel));
    var all := RangeMembers(z, 0, RecoverCeiling(time));
    RecoverStopsAtRefusal(d, NoLimit, channel, time, insert);
    assert all[..|all|] == all;
    RangeAscending(z, 0, RecoverCeiling(time));
  }

  /** The members of a score range come without repeats, in ascending score
      order. */
  lemma RangeAscending(z: map<Bin, int>, lo: int, hi: Bound)
    ensures var all := RangeMembers(z, lo, hi);
            forall i, j :: 0 <= i < j < |all| ==> all[i] != all[j] && z[all[i]] <= z[all[j]]
  {
    var all := RangeMembers(z, lo, hi);
    forall i, j | 0 <= i < j < |all| ensures all[i] != all[j] && z[all[i]] <= z[all[j]] {
      assert Precedes(z, all[i], all[j]);
      BelowAsymmetric(all[i], all[j]);
    }
  }

  // ---------------------------------------------------------------------
  // The producer object

  class ReliablyProducer {
    const store: Store
    const channel: Bin
    const channelBak: Bin
    const protocol: Protocol

    ghost predicate Valid()
      reads this
    {
      channel != "" && channelBak == BackupKey(channel)
    }

    constructor (store: Store, channel: Bin, protocol: Protocol)
      requires channel != ""
      ensures Valid()
      ensures this.store == store && this.channel == channel && this.protocol == protocol
    {
      this.store := store;
      this.channel := channel;
      this.protocol := protocol;
      this.channelBak := BackupKey(channel);
    }

    /** Publishes `message` with a fresh id made from `random` at time `now`;
        `stamped` is the message as published. */
    method Publish(message: Message, now: int, random: UuidBytes) returns (r: Result<bool>, stamped: Message)
      requires Valid()
      modifies store`data
      ensures var p := PublishSpec(old(store.data), old(store.up), store.admits, channel, protocol, message, now, random);
              r == p.result && stamped == p.message && store.data == p.data
    {
      stamped := message.(uuid := Hex(random));
      var score := Pack(now, 0);
      var encoded := protocol.encode(stamped);
      if encoded.Err? {
        return Err(encoded.failure), stamped;
      }
      var msgBin := encoded.value;
      if !store.up {
        return Err(MqException(RedisError)), stamped;
      }
      var ret := store.ZAdd(channelBak, score, msgBin);
      if ret < 1 {
        return Ok(false), stamped;
      }
      ret := store.LPush(channel, msgBin);
      if ret < 1 {
        var removed := store.ZRem(msgBin, []);
        return Ok(false), stamped;
      }
      r := Ok(true);
    }

    /** The `foreach` of recover: pushes `items` one by one, rPush with
        `insert` and lPush without, and stops at the first refused push. */
    method PushAll(items: seq<Bin>, insert: bool) returns (ok: bool)
      requires Valid() && store.up
      modifies store`data
      ensures var p := PushEach(old(store.data), store.admits, channel, items, insert);
              store.data == p.data && ok == (p.value == |items|)
    {
      ghost var d0 := store.data;
      var i := 0;
      assert items[..0] == [];
      while i < |items|
        invariant 0 <= i <= |items|
        invariant PushEach(d0, store.admits, channel, items[..i], insert) == Reply(store.data, i)
      {
        RunExtend(PushStep(store.admits, channel, insert), d0, store.data, items, i);
        var ret;
        if insert {
          ret := store.RPush(channel, items[i]);
        } else {
          ret := store.LPush(channel, items[i]);
        }
        if ret < 1 {
          return false;
        }
        i := i + 1;
      }
      assert items[..i] == items;
      ok := true;
    }

    /** Pushes every index entry stamped up to `time` (all of them for 0)
        back onto the list, in pages of 100. */
    method Recover(time: int, insert: bool) returns (r: Result<bool>)
      requires Valid()
      modifies store`data
      ensures var o := RecoverSpec(old(store.data), old(store.up), store.admits, channel, time, insert);
              r == o.value && store.data == o.data
    {
      if time < 0 {
        return Err(MqException(ParamError));
      }
      var ceiling := RecoverCeiling(time);
      var offset: nat := 0;
      var limit: nat := 100;
      if !store.up {
        return Err(RedisException);
      }
      ghost var d0 := store.data;
      ghost var all := Picked(d0, channel, time);
      assert all[..0] == [];
      while true
        invariant store.up
        invariant offset <= |all| + limit
        invariant PushEach(d0, store.admits, channel, all[..Min(offset, |all|)], insert) == Reply(store.data, Min(offset, |all|))
        decreases |all| + limit - offset
      {
        RecoverPage(d0, store.data, store.admits, channel, time, offset, limit, insert);
        var page := store.ZRangeByScore(channelBak, 0, ceiling, offset, limit);
        if page == [] {
          return Ok(true);
        }
        RecoverRound(d0, store.data, store.admits, channel, time, offset, limit, insert, page);
        var ok := PushAll(page, insert);
        if !ok {
          return Ok(false);
        }
        offset := offset + limit;
      }
    }

    /** The backup index's cardinality: every live message, queued or not. */
    method GetLength() returns (r: Result<int>)
      requires Valid()
      ensures store.up ==> r == Ok(|ZSetAt(store.data, BackupKey(channel))|)
      ensures !store.up ==> r == Err(MqException(RedisError))
    {
      if !store.up {
        return Err(MqException(RedisError));
      }
      var len := store.ZCard(channelBak);
      r := Ok(len);
    }
  }

  /** `new ReliablyProducer(...)`: an empty channel name is refused. */
  method NewReliablyProducer(store: Store, channel: Bin, protocol: Protocol) returns (r: Result<ReliablyProducer>)
    ensures channel == "" <==> r.Err?
    ensures r.Err? ==> r.failure == MqException(ParamError)
    ensures r.Ok? ==> fresh(r.value) && r.value.Valid() && r.value.store == store && r.value.channel == channel
  {
    if channel == "" {
      return Err(MqException(ParamError));
    }
    var p := new ReliablyProducer(store, channel, protocol);
    r := Ok(p);
  }
}
