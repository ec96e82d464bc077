# redis-mq in Dafny

A model of the message queues of `jiaotu-net/redis-mq`, which are built on a Redis
list per channel.

- **Plain pair.** `Producer` left-pushes encoded messages. `Consumer` right-pops them,
  without or with blocking.
- **Reliable pair.**
  - `ReliablyProducer` stamps each message with a 32-byte random id in hex. It records the
    message's encoding in a backup sorted set `<channel>:BAK`, scored
    `(timestamp << 8) + retryCount`, before pushing it.
  - `ReliablyConsumer` skips popped elements that no longer have a backup score. It holds
    the one message it delivered until the caller resolves it:
    - `ack` drops its backup score;
    - `nack` bumps the retry count and pushes it back;
    - `reserve` keeps it in the backup only.
  - `recover` pushes every backup entry up to a time back onto the list, one page of 100
    at a time.

The project is organised as follows:

- `mq.dfy` (module `Mq`): exception codes, the message record, the codec and the
  `Result`/`Option` wrappers.
- `redis.dfy` (module `Redis`):
  - the keyspace `Data`, a map from key to list or sorted set;
  - each store command as a function of the keyspace, with the store client's
    conventions: a key of the wrong type answers 0 or nothing, and an emptied key
    disappears;
  - sorted-set order: by score, then by member bytes;
  - the `Store` class, whose methods change the keyspace in place. Its flag `up` says
    whether the server is reachable; when it is not, every command throws. Its
    function `admits` says whether the server accepts a write (lPush, rPush, zAdd) in
    a given keyspace, as a server at its memory limit does not; a refused write gets an
    error reply, which the client returns as `false`, so the command reports 0 and
    changes nothing.
- `scores.dfy` (module `Backup`): the backup key, and packing and unpacking of scores.
- `producer.dfy` and `consumer.dfy`: the plain classes.
- `reliable_consumer.dfy` and `reliable_producer.dfy`: the reliable classes.
  - Each operation is a function of the in-flight slot and the keyspace (`ConsumeSpec`,
    `NackSpec`, `PublishSpec`, `RecoverSpec`, …).
  - The class methods are proved to compute exactly those functions.
  - The properties are lemmas about the functions.

Time and randomness are parameters:

- `now` is the value of `time()`;
- `random` is the 32 bytes from the random source.

## Model

| member | source | states |
|---|---|---|
| Backup.BackupKey | src/ReliablyConsumer.php:58 | the backup key is the channel name followed by `:BAK`, so it never equals the channel's own key |
| Backup.BackupKeyInjective | src/ReliablyProducer.php:55 | distinct channels never share a backup index |
| Backup.UnpackPack | src/ReliablyProducer.php:68-69 | `score & 255` and `score >> 8` recover the retry count and the timestamp that were packed |
| Backup.PackUnpack | src/ReliablyConsumer.php:172 | every score is its timestamp part shifted left by 8 plus its low byte |
| Backup.PackOrder | src/ReliablyProducer.php:68-69 | scores order entries by timestamp first and by retry count second |
| Backup.ClampRetry | src/ReliablyConsumer.php:212-217 | a recomputed count lands in 0..255: below 0 becomes 0, above 255 becomes 255, anything in range is kept |
| Backup.BumpKeepsStamp | src/ReliablyConsumer.php:172 | nack's new score keeps the timestamp and adds one retry unless the count is already 255 |
| Backup.RepeatedBumps | src/ReliablyConsumer.php:172 | after n nack cycles the count is min(255, old count + n) and the timestamp is unchanged |
| Redis.LPushReply | src/Producer.php:63 | lPush puts the element at the left end and answers the new length (at least 1); on a key that is not a list it answers 0 and changes nothing; no other key changes |
| Redis.RPushReply | src/ReliablyConsumer.php:177 | rPush appends the element at the right end of a list and answers the new length (at least 1); a key that is not a list answers 0 and is left alone; no other key changes |
| Redis.RPopReply | src/Consumer.php:64 | rPop answers the rightmost element and removes it; on an empty, missing or non-list key it answers nothing and changes nothing |
| Redis.BRPopReply | src/Consumer.php:87 | the blocking pop removes what rPop removes and answers the pair [channel, element], or nothing (a timeout) exactly when rPop would find nothing |
| Redis.ZAddReply | src/ReliablyProducer.php:74 | zAdd sets the member's score, answering 1 only when the member is new; a key that is not a sorted set is left alone with answer 0 |
| Redis.ZScoreReply | src/ReliablyConsumer.php:79 | zScore answers a score exactly when the member is in the sorted set, and then its score; otherwise the false that marks an acknowledged message |
| Redis.ZRemReply | src/ReliablyConsumer.php:150 | on a sorted set, zRem removes exactly the named members and answers how many of them it held; with none of them present, or on a key that is not a sorted set, it answers 0 and changes nothing; it touches no other key |
| Redis.Store.LPush | src/Producer.php:63 | a write the server does not admit answers 0 and changes nothing; an admitted one is the lPush of LPushReply (rPush and zAdd likewise) |
| Redis.RangeMembers | src/ReliablyProducer.php:112 | the members whose score lies in the bounds, each exactly once, in ascending (score, member) order |
| Redis.ZRangeByScoreReply | src/ReliablyProducer.php:112 | with `LIMIT offset limit`: empty once offset reaches the number of members in range, otherwise the next min(limit, remaining) of them in order; every member returned is in range, and the page is in (score, member) order |
| Redis.PagesJoin | src/ReliablyProducer.php:112 | paging loses and repeats nothing: a page of a members followed by the page at offset + a, of b members, is the page of a + b members |
| Producers.NewProducer | src/Producer.php:37-53 | the constructor refuses an empty channel name with ParamError and otherwise binds the store and the channel |
| Producers.Producer.Publish | src/Producer.php:61-69 | publish left-pushes the encoding and returns whether the push reported a positive length; a codec failure is passed on, and an unreachable store gives RedisError with nothing changed |
| Producers.Producer.GetLength | src/Producer.php:76-84 | the length of the channel's list, or RedisError |
| Producers.PublishPrepends | src/Producer.php:61-69 | a push succeeds exactly when the server admits it and the key holds a list; then the message is ahead of everything queued; a refused push changes nothing |
| Consumers.NewConsumer | src/Consumer.php:38-54 | an empty channel name is refused with ParamError |
| Consumers.Consumer.Consume | src/Consumer.php:62-75 | consume right-pops one element; it answers null when the list is empty or the element is PHP-empty, and otherwise the decoded message or the codec's exception |
| Consumers.Consumer.WaitMessage | src/Consumer.php:85-98 | the blocking pop answers null when nothing is popped, otherwise it decodes the popped element |
| Consumers.Consumer.GetLength | src/Consumer.php:105-113 | the length of the channel's list, or RedisError |
| Consumers.PopTakesRightmost | src/Consumer.php:62-75 | a pop yields nothing exactly when the list is empty; otherwise the old list is the new list followed by the element popped |
| Consumers.PhpEmptyOnlyShort | src/Consumer.php:69 | PHP `empty()` on a popped string holds only for "" and "0": an element of two or more bytes is never taken for empty |
| ReliableConsumers.ScanForLive | src/ReliablyConsumer.php:73-85 | the pop loop removes a suffix of the list; everything it discards had no backup score; it stops at the first live element from the right, or at a PHP-empty one (consume only), or when the list runs out |
| ReliableConsumers.ConsumeRefusedWhileHeld | src/ReliablyConsumer.php:68-70 | consume and waitMessage throw MustAck while a message is held and change nothing |
| ReliableConsumers.ResolveRefusedWhenIdle | src/ReliablyConsumer.php:145-147 | ack, nack and reserve throw NeedNotAck when nothing is held and change nothing |
| ReliableConsumers.ConsumeOnlyPops | src/ReliablyConsumer.php:73-85 | consume and waitMessage only shorten the channel's list from the right; the backup index and all other keys are untouched; every element removed before the delivered one had no backup score |
| ReliableConsumers.ConsumeDeliversLive | src/ReliablyConsumer.php:79-95 | a delivered message was the last element popped and has a backup score; the slot holds its encoding, its score and the score's low byte; the result is its decoding |
| ReliableConsumers.NoMessageMeansNoneLive | src/ReliablyConsumer.php:112-126 | a null answer leaves the slot alone and means the whole list was drained and none of it was live (consume may also have stopped at a PHP-empty element) |
| ReliableConsumers.StaleNeverDelivered | src/ReliablyConsumer.php:79-84 | an encoding without a backup score is never the message that becomes held |
| ReliableConsumers.AckRemovesBackup | src/ReliablyConsumer.php:144-159 | ack removes exactly the held encoding from the backup index, leaves the list, clears the slot and returns true |
| ReliableConsumers.NackScoreKeepsStamp | src/ReliablyConsumer.php:172 | for a consistent slot, nack's score keeps the entry's timestamp and raises its retry byte by one, saturating at 255 |
| ReliableConsumers.NackRequeues | src/ReliablyConsumer.php:167-194 | nack writes the bumped score when the server admits it into a sorted set, then pushes the encoding to the right end with insert and to the left end otherwise; the push goes through exactly when admitted onto a list, and a refused one returns false with the message still held, the list unchanged and the score already written; no other key changes |
| ReliableConsumers.ReserveParks | src/ReliablyConsumer.php:203-236 | reserve returns true, never pushes, clears the slot and touches only the backup index. When the server admits the write into a sorted set: with a number it rewrites the score as now<<8 plus the clamped count, with true it bumps the score unless the count is at 255. A refused write, false, or true at 255 changes nothing |
| ReliableConsumers.OperationsKeepSlotValid | src/ReliablyConsumer.php:39-42 | every operation keeps the retry count in 0..255, and keeps it 0 while nothing is held |
| ReliableConsumers.OperationsKeepSlotConsistent | src/ReliablyConsumer.php:93-94 | consume, ack, nack and a reserve whose write succeeds keep the count equal to the held score's low byte; the corrected reserve keeps it always |
| ReliableConsumers.FixedReserveAgrees | src/ReliablyConsumer.php:210-230 | corrected reserve: same result as written, same effect when the store is reachable, and a failure leaves slot and store untouched |
| ReliableConsumers.FailedReserveThenNackMovesStamp | src/ReliablyConsumer.php:210-229 | a failed `reserve(-255)` on a held message at 255 retries leaves the count at 0, so the next nack moves the timestamp from 7 to 8. The corrected reserve keeps timestamp 7 |
| ReliableConsumers.NackThenConsumeRedelivers | src/ReliablyConsumer.php:176-177 | when both of nack's writes are admitted, after a nack at the pop end the next consume hands the same message back with one more retry and the same timestamp, and the list is as before |
| ReliableConsumers.AckThenConsumeSkips | src/ReliablyConsumer.php:150 | once acknowledged, an encoding is never delivered again, even when a copy is still in the list |
| ReliableConsumers.ReliablyConsumer.constructor | src/ReliablyConsumer.php:51-59 | the backup key is the channel's plus `:BAK`; the slot starts empty |
| ReliableConsumers.NewReliablyConsumer | src/ReliablyConsumer.php:51-59 | an empty channel name is refused with ParamError; otherwise a valid consumer with nothing held |
| ReliableConsumers.ReliablyConsumer.Consume | src/ReliablyConsumer.php:67-96 | the loop computes exactly ConsumeSpec (non-blocking) and keeps the slot invariant |
| ReliableConsumers.ReliablyConsumer.WaitMessage | src/ReliablyConsumer.php:106-137 | the loop computes exactly ConsumeSpec (blocking) and keeps the slot invariant |
| ReliableConsumers.ReliablyConsumer.Ack | src/ReliablyConsumer.php:144-159 | computes exactly AckSpec |
| ReliableConsumers.ReliablyConsumer.Nack | src/ReliablyConsumer.php:167-194 | computes exactly NackSpec |
| ReliableConsumers.ReliablyConsumer.Reserve | src/ReliablyConsumer.php:203-236 | computes exactly ReserveSpec, as written |
| ReliableConsumers.ReliablyConsumer.GetLength | src/ReliablyConsumer.php:243-251 | the size of the backup index (not of the list), or RedisError |
| ReliableConsumers.ReliablyConsumer.GetMsgRetryCount | src/ReliablyConsumer.php:256-258 | the held message's retry count, in 0..255 and 0 when nothing is held |
| ReliableProducers.Hex | src/ReliablyProducer.php:67 | `bin2hex` doubles the length and yields only lower-case hex digits |
| ReliableProducers.UnhexHex | src/ReliablyProducer.php:67 | `bin2hex` loses nothing: decoding the hex gives the bytes back |
| ReliableProducers.UuidShape | src/ReliablyProducer.php:19 | a uuid is 64 hex digits, and distinct random byte strings give distinct uuids |
| ReliableProducers.PublishStamps | src/ReliablyProducer.php:66-83 | publish assigns a 64-digit hex uuid and keeps the content; it fails exactly when the codec fails or the store is unreachable. Whenever the index write is admitted into a sorted set, the encoding ends in the index with score `Pack(now, 0)` (timestamp `now`, retry byte 0), whatever becomes of the push; with no encoding, no reachable store or no admitted write, nothing changes |
| ReliableProducers.PublishOutcomes | src/ReliablyProducer.php:73-88 | publish returns true exactly when the index admits a new entry and the list then admits the push. On true the entry is scored `now << 8` and the message leads the list. When the add is refused the list is unchanged. When only the push is refused, false is returned and the entry scored `now << 8` survives |
| ReliableProducers.RollbackMissesBackup | src/ReliablyProducer.php:79-83 | as written: on channel `q:BAK` with a sorted set already at `q:BAK`, the push is refused and publish returns false, but the new entry stays in `q:BAK:BAK` |
| ReliableProducers.FixedPublishRollsBack | src/ReliablyProducer.php:79-83 | corrected rollback: a refused push after a new entry returns false and leaves the backup index and all other keys as they were; in every other case it agrees with publish as written |
| ReliableProducers.ReliablyProducer.Publish | src/ReliablyProducer.php:65-89 | computes exactly PublishSpec and returns the stamped message |
| ReliableProducers.NewReliablyProducer | src/ReliablyProducer.php:40-56 | an empty channel name is refused with ParamError; the backup key is bound otherwise |
| ReliableProducers.RequeuedData | src/ReliablyProducer.php:119-129 | pushing a list of entries one by one onto a list: with insert they are appended at the right end in order, otherwise prepended in reverse; the key still holds a list |
| ReliableProducers.RequeuedElsewhere | src/ReliablyProducer.php:119-129 | those pushes change no key but the channel's |
| ReliableProducers.RequeueAppend | src/ReliablyProducer.php:119-129 | pushing a + b is pushing a, then b |
| ReliableProducers.PushEachPrefix | src/ReliablyProducer.php:119-129 | pushing entries one by one up to the first refused push leaves exactly the entries it reports pushed, in order, on the channel's list |
| ReliableProducers.PushEachRefused | src/ReliablyProducer.php:126-128 | the pushes stop short only at a push the server does not admit or one onto a key that is not a list |
| ReliableProducers.PushEachElsewhere | src/ReliablyProducer.php:119-129 | the pushes touch no key but the channel's |
| ReliableProducers.RecoverPage | src/ReliablyProducer.php:112-116 | each page the loop reads is the next slice of the entries in range, because pushes do not touch the backup index; it is empty exactly past the end, and recover then returns true |
| ReliableProducers.RecoverRound | src/ReliablyProducer.php:119-134 | when a whole page goes through, every entry up to its end has been pushed; a refused push inside it ends recover with false, keeping the pushes already made |
| ReliableProducers.RecoverRejectsNegative | src/ReliablyProducer.php:99-101 | a negative time throws ParamError and changes nothing |
| ReliableProducers.RecoverKeepsBackup | src/ReliablyProducer.php:98-138 | recover never alters the backup index, nor any key but the channel's |
| ReliableProducers.RecoverCutoff | src/ReliablyProducer.php:103-107 | time 0 picks every entry with a non-negative score. Otherwise it picks entries stamped before `time`, plus entries stamped at `time` that were never retried |
| ReliableProducers.RecoverStopsAtRefusal | src/ReliablyProducer.php:111-135 | recover pushes a prefix of the entries in range, in index order: all of them exactly when it returns true; when it returns false, those before the first refused push, which the server did not admit or which met a channel key that is not a list; the pushes made stay |
| ReliableProducers.RecoverRequeuesEachOnce | src/ReliablyProducer.php:111-135 | with every write admitted and a list channel, recover pushes each entry in range exactly once and nothing else, in ascending score order, and returns true |
| ReliableProducers.ReliablyProducer.PushAll | src/ReliablyProducer.php:119-129 | the inner loop computes exactly PushEach: it pushes the elements one by one, stops at the first refused push with the earlier pushes kept, and returns whether all went through |
| ReliableProducers.ReliablyProducer.Recover | src/ReliablyProducer.php:98-138 | the paging loop, 100 entries per page, computes exactly RecoverSpec |
| ReliableProducers.ReliablyProducer.GetLength | src/ReliablyProducer.php:145-153 | the size of the backup index `<channel>:BAK` (zCard), or RedisError |

## Left out

- The 64-bit environment check, the `instanceof` checks on the store and the codec, and the choice of random source (`random_bytes` or `openssl_random_pseudo_bytes`) are not modelled. They are PHP runtime conditions. The random bytes and the current time are parameters.
- The concrete codecs (JSON, msgpack, igbinary, raw) are not part of this model. A `Protocol` is any pair of possibly-failing functions.
- Blocking, timeouts, concurrent clients and a connection lost partway through an operation are not modelled. `Store.up` holds for the whole of an operation, or the operation's first command throws.
- Consumers.Consumer.WaitMessage: the timeout is ignored. With one client, an empty list answers at once with nothing. The source's guard against a malformed brPop reply cannot fire here.
- ReliableConsumers.ReliablyConsumer.WaitMessage: the same simplification of the blocking pop.
- ReliableProducers.ReliablyProducer.Publish: the uuid is returned in a new message value instead of being written into the caller's object.
- Backup.Pack: integers are unbounded. The 64-bit width of PHP integers is not reached by `time() << 8`. Scores come back from the store as floats and are taken to be exact integers, which holds below 2^53.
- ReliableConsumers.ReliablyConsumer.Consume: the scratch values the loop writes into `msgBin` and `msgScore` when it finds nothing are not kept. No later operation can read them while nothing is held.
- `recover`'s range query sits outside any try block, so its store failure escapes unwrapped. The model gives that path `RedisException` rather than RedisError.
- `Store.admits` decides admission from the keyspace alone and is fixed for a store. A server whose admission depends on anything else (other clients, time, eviction) is not modelled. Pops and zRem are always accepted, as a server at its memory limit accepts them.
- ReliableProducers.ReliablyProducer.Recover: the PHP default `$insert = true` is a required parameter. So are the defaults of ReliableConsumers.ReliablyConsumer.Nack (`$insert = true`), ReliableConsumers.ReliablyConsumer.Reserve (`$plusCount = false`) and the two WaitMessage methods (`$timeout = 0`).
- ReliableConsumers.PlusCount: `is_numeric` also accepts floats and numeric strings. The model takes integers only (`Count(n: int)`), so a fractional retry count is not modelled.
- ReliableProducers.PublishSpec: on PHP 8 the one-argument `zRem($msgBin)` of the rollback may raise `ArgumentCountError` instead of removing nothing. The model follows the client that accepts the call and removes nothing.
- Store keys and members are strings whose characters stand for bytes, so the lexicographic order of equal-score members is Redis's byte order. No character encoding is modelled.

## Findings

| source | as written | input that shows it | evidently intended | confidence | as-written member | corrected member |
|---|---|---|---|---|---|---|
| src/ReliablyProducer.php:81 | `zRem($msgBin)` passes the encoding as the key and no member, so the rollback removes nothing | channel `q:BAK` while `q:BAK` already holds a sorted set. The backup entry goes into `q:BAK:BAK`, the push onto `q:BAK` is refused, publish returns false, and the entry stays in the backup index, where a later recover will deliver it | `zRem(channelBak, msgBin)`: remove the entry just added | high, not executed | ReliableProducers.RollbackMissesBackup | ReliableProducers.FixedPublishRollsBack |
| src/ReliablyConsumer.php:212-228 | `reserve(n)` overwrites `msgRetryCount` before the zAdd that can throw | a held message with score `7 << 8 \| 255` at 255 retries. `reserve(-255)` runs while the store is unreachable and throws, with the message still held and the count at 0. The next `nack` then adds 1 to the old score and writes `8 << 8`, moving the timestamp | the count is committed only after the write succeeds, so a failed reserve leaves the slot as it was | medium, not executed | ReliableConsumers.FailedReserveThenNackMovesStamp | ReliableConsumers.FixedReserveAgrees |
