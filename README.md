# Redisson map-cache eviction, batch command aggregation and node-address decoding

This project models three sequential pieces of the Redisson client for Redis and proves properties of them in Dafny.

1. **The map-cache eviction task** (`MapCacheEvictionTask`). One run executes a Lua script atomically on the server. With the latch free, the script:
   - takes the execute-once latch with SETNX and gives it a lifetime of `min(delay, 30)` seconds with EXPIRE;
   - scans the timeout sorted set for at most `keysLimit` keys scored in `[0, now]`;
   - publishes an expired-entry message for every found key that still has a hash value, stopping after the first publish that reaches no subscriber;
   - removes the found keys from the last-access, max-idle and timeout sets and from the hash, 5000 keys per command;
   - does the same scan, notify and delete steps over the max-idle set;
   - returns the sum of the two scan sizes.

   If the latch is already held, the script returns -1 instead. Afterwards, when the task was created with `removeEmpty`, the task reads HLEN of the map. If the map is empty, it deregisters itself from the eviction scheduler and deletes the map's key.
   The server state is the class `RedisStore.Store`, which holds one field per Redis key the script names. The script is the method `MapCacheEviction.EvalSweep` and its loops. Its specification is the function `MapCacheEviction.Sweep`, and the properties are lemmas about `Sweep`.
2. **Batch policy resolution and command aggregation** (`BaseRedisBatchExecutor`). The timeout, retry attempts and retry delay are pure functions of the batch options over the global configuration. The `(int)` narrowing of long options and the int `+=` wrap-around are written out. `addBatchCommandData` is a method on the shared state of the batch, the class `BatchExecutor.BatchState`. That state holds the entry per node, the sequence counter and the executed flag. A ghost log of all adds ties every entry to the adds that built it.
3. **The node-address reply decoder** (`RedisURIDecoder`). `decode` and `getDecoder` are functions of a datatype holding the scheme. `Integer.valueOf` is a decimal parser with its `NumberFormatException` as a `None` result. The decoder is proved to invert the printing of an address reply.

Inputs the source reads from outside are parameters:
- the clock (`System.currentTimeMillis()`) is `now`;
- the subscriber count a publish reports is the oracle `Store.listenersFor`, indexed by the number of earlier publishes on the channel;
- the configuration values and the codec resolution (`getCodec`) are constructor arguments.

## Model

| member | source | states |
|---|---|---|
| `MapCacheEviction.MapCacheEvictionTask.constructor` | redisson/src/main/java/org/redisson/eviction/MapCacheEvictionTask.java:49-62 | the task keeps the map's five key names, removeEmpty, the scheduler and the publish command, and its latch name is the prefixed latch name of the map |
| `MapCacheEviction.PrefixName` | redisson/src/main/java/org/redisson/eviction/MapCacheEvictionTask.java:58 | the latch name is `prefix:{name}`, which makes the name the cluster hash tag, or `prefix:name` when the name already carries a brace |
| `MapCacheEviction.LatchNameInjective` | redisson/src/main/java/org/redisson/eviction/MapCacheEvictionTask.java:58 | two maps whose names have no brace never share a latch |
| `MapCacheEviction.LatchNameBracedCollision` | redisson/src/main/java/org/redisson/eviction/MapCacheEvictionTask.java:58 | the maps `m` and `{m}` do share one latch |
| `MapCacheEviction.LatchExpireTime` | redisson/src/main/java/org/redisson/eviction/MapCacheEvictionTask.java:71 | the latch lifetime is at most 30 and at most `delay`, and it equals one of them |
| `MapCacheEviction.EvalSweep` | redisson/src/main/java/org/redisson/eviction/MapCacheEvictionTask.java:72-115 | the script's result and the store's new state are exactly what `Sweep` gives for the old state, and every sorted set stays sorted with distinct members |
| `MapCacheEviction.SweepContended` | redisson/src/main/java/org/redisson/eviction/MapCacheEvictionTask.java:73-75 | with the latch held, the script returns -1 and leaves the hash, the three sets, the latch and the channel as they were |
| `MapCacheEviction.SweepExcludesUntilExpiry` | redisson/src/main/java/org/redisson/eviction/MapCacheEvictionTask.java:73-76 | once a sweep has taken a free latch with a positive lifetime, a second sweep at any time before the latch expires returns -1 and changes nothing |
| `MapCacheEviction.SweepTakesLatch` | redisson/src/main/java/org/redisson/eviction/MapCacheEvictionTask.java:73-77 | a free latch is set to 1 and expires `latchExpireTime` seconds after `now`, before the first scan reads the timeout set; it stays so to the end of the script and is held at every time up to that expiry; a non-positive lifetime deletes it |
| `SortedSets.ScanProperties` | redisson/src/main/java/org/redisson/eviction/MapCacheEvictionTask.java:77 | a scan returns at most `count` members of the set, all scored in `[min, max]`, in ascending score order, lowest scores first; when it returns fewer than `count`, it missed no member in range |
| `SortedSets.InRange` | redisson/src/main/java/org/redisson/eviction/MapCacheEvictionTask.java:77 | the score filter keeps exactly the members scored within the bounds |
| `SortedSets.Limit` | redisson/src/main/java/org/redisson/eviction/MapCacheEvictionTask.java:77 | `LIMIT 0 count` keeps the first `count` members, or all of them when `count` is negative |
| `MapCacheEviction.NotifyExpired` | redisson/src/main/java/org/redisson/eviction/MapCacheEvictionTask.java:78-88 | the loop with `break` appends to the channel exactly `Notifications` of the found keys and changes nothing else |
| `MapCacheEviction.ValuedMessages` | redisson/src/main/java/org/redisson/eviction/MapCacheEvictionTask.java:78-83 | the messages a loop without `break` would publish: one for every found key that has a hash value and no other, each carrying that key's value |
| `MapCacheEviction.NotificationsArePrefix` | redisson/src/main/java/org/redisson/eviction/MapCacheEvictionTask.java:78-88 | the loop publishes, in scan order, a prefix of the messages of all found keys that have a value, so no key after the stopping point is notified |
| `MapCacheEviction.NotificationsListenedBeforeLast` | redisson/src/main/java/org/redisson/eviction/MapCacheEvictionTask.java:83-86 | every publish of the loop except the last reached at least one subscriber |
| `MapCacheEviction.NotificationsStopAtSilentPublish` | redisson/src/main/java/org/redisson/eviction/MapCacheEvictionTask.java:84-86 | the loop leaves a found key with a value unnotified only if its last publish reported 0 subscribers |
| `MapCacheEviction.NotificationsValued` | redisson/src/main/java/org/redisson/eviction/MapCacheEvictionTask.java:79-83 | every message published is for a found key that has a hash value, and it carries that value |
| `MapCacheEviction.NotificationScenario` | redisson/src/main/java/org/redisson/eviction/MapCacheEvictionTask.java:78-88 | with three found keys and a second publish that reaches nobody, only the first two keys are notified |
| `MapCacheEviction.DeleteChunk` | redisson/src/main/java/org/redisson/eviction/MapCacheEvictionTask.java:90-93 | one round removes the chunk's keys from the last-access, max-idle and timeout sets and from the hash, and the sets stay valid |
| `MapCacheEviction.DeleteInChunks` | redisson/src/main/java/org/redisson/eviction/MapCacheEvictionTask.java:89-94 | the rounds from `i = 1` in steps of 5000 delete positions `i .. min(i + 4999, n)`; together they cover exactly positions 1..n, the resulting store is `Deleted` of all found keys, and the sets stay valid |
| `MapCacheEviction.DeletedRemovesExactly` | redisson/src/main/java/org/redisson/eviction/MapCacheEvictionTask.java:89-94 | after the deletes, no found key is left in the hash or in any of the three sets; every other hash entry and set member is kept; the latch and the channel are untouched |
| `MapCacheEviction.DeletedShrinks` | redisson/src/main/java/org/redisson/eviction/MapCacheEvictionTask.java:107-112 | a delete loop never adds a key to the hash or to a set |
| `MapCacheEviction.SweepRemovesFoundKeys` | redisson/src/main/java/org/redisson/eviction/MapCacheEvictionTask.java:89-112 | after a sweep that took the latch, no key found by either scan remains in the hash or in any set, whether or not a notification loop stopped early |
| `MapCacheEviction.SweepScansDisjoint` | redisson/src/main/java/org/redisson/eviction/MapCacheEvictionTask.java:91-95 | the max-idle scan finds none of the keys the timeout scan found |
| `MapCacheEviction.SweepCountBound` | redisson/src/main/java/org/redisson/eviction/MapCacheEvictionTask.java:113 | a sweep that took the latch returns `#expiredKeys1 + #expiredKeys2`, which lies between 0 and `2 * keysLimit` |
| `MapCacheEviction.SweepPublishes` | redisson/src/main/java/org/redisson/eviction/MapCacheEvictionTask.java:78-106 | the channel receives the first loop's messages and then the second loop's; the second loop reads the hash as the first delete loop left it |
| `MapCacheEviction.SweepNotifiesOnlyFoundKeys` | redisson/src/main/java/org/redisson/eviction/MapCacheEvictionTask.java:78-106 | the sweep only appends to the channel, and each message it appends is for a key one scan found, with the value that key had before its delete |
| `MapCacheEviction.MapCacheEvictionTask.Execute` | redisson/src/main/java/org/redisson/eviction/MapCacheEvictionTask.java:70-134 | the run returns the script's result, with latch lifetime `min(delay, 30)`; with removeEmpty and an empty hash afterwards, the task leaves the scheduler and the hash key is deleted, contended sweep or not; otherwise the scheduler is unchanged |
| `MapCacheEviction.EvictionScheduler.Remove` | redisson/src/main/java/org/redisson/eviction/MapCacheEvictionTask.java:122 | deregistration removes exactly the task's name from the registry |
| `RedisStore.ExpireLatch` | redisson/src/main/java/org/redisson/eviction/MapCacheEvictionTask.java:76 | EXPIRE sets a live latch's expiry to `now + seconds * 1000`; with a non-positive lifetime it deletes the latch; a missing or already expired latch stays missing |
| `RedisStore.Store.SetNx` | redisson/src/main/java/org/redisson/eviction/MapCacheEvictionTask.java:73 | SETNX replies 0 and changes nothing when the latch is live; otherwise it replies 1 and sets the latch without expiry |
| `RedisStore.Store.Expire` | redisson/src/main/java/org/redisson/eviction/MapCacheEvictionTask.java:76 | EXPIRE changes only the latch |
| `RedisStore.Store.ZRangeByScore` | redisson/src/main/java/org/redisson/eviction/MapCacheEvictionTask.java:77 | ZRANGEBYSCORE key min max LIMIT 0 count, in both scans (lines 77 and 95): at most `count` keys, each the key of a member scored in `[min, max]`; when fewer than `count` come back (or `count` is negative), every key in range is among them |
| `RedisStore.Store.HLen` | redisson/src/main/java/org/redisson/eviction/MapCacheEvictionTask.java:119 | HLEN is 0 exactly when the map's hash is empty |
| `RedisStore.Store.HGet` | redisson/src/main/java/org/redisson/eviction/MapCacheEvictionTask.java:79 | HGET gives the stored value exactly when the key is in the hash |
| `RedisStore.Store.Publish` | redisson/src/main/java/org/redisson/eviction/MapCacheEvictionTask.java:83 | a publish appends the message to the channel and returns the oracle's count for that publish |
| `SortedSets.Rem` | redisson/src/main/java/org/redisson/eviction/MapCacheEvictionTask.java:90-92 | ZREM keeps exactly the members whose key is not removed, and the result is a subsequence of the set, so their order is kept |
| `RedisStore.Store.ZRem` | redisson/src/main/java/org/redisson/eviction/MapCacheEvictionTask.java:90-92 | ZREM changes only the named set, and that set stays sorted with distinct members |
| `RedisStore.Store.HDel` | redisson/src/main/java/org/redisson/eviction/MapCacheEvictionTask.java:93 | HDEL removes exactly the given keys from the hash |
| `RedisStore.Store.Del` | redisson/src/main/java/org/redisson/eviction/MapCacheEvictionTask.java:123 | DEL leaves the map's hash empty and changes nothing else |
| `BatchExecutor.Wrap32` | redisson/src/main/java/org/redisson/command/BaseRedisBatchExecutor.java:71-74 | the `(int)` cast and int addition keep the value modulo 2^32 in int range, and keep it unchanged when it already fits |
| `BatchExecutor.Timeout` | redisson/src/main/java/org/redisson/command/BaseRedisBatchExecutor.java:68-77 | with responseTimeout ≤ 0 and syncSlaves ≤ 0, the resolved timeout is the global timeout |
| `BatchExecutor.TimeoutComposition` | redisson/src/main/java/org/redisson/command/BaseRedisBatchExecutor.java:70-75 | when the values fit in an int, the resolved timeout is R + S, R, T + S or T: a positive response timeout R replaces the global T, and the sync timeout S is added when syncSlaves > 0; the sum only needs to fit when it is formed |
| `BatchExecutor.RetryInterval` | redisson/src/main/java/org/redisson/command/BaseRedisBatchExecutor.java:79-84 | the resolved retry delay is the batch strategy when one is set, and the global strategy otherwise |
| `BatchExecutor.RetryAttempts` | redisson/src/main/java/org/redisson/command/BaseRedisBatchExecutor.java:86-91 | the resolved attempts are the batch value when it is ≥ 0 and the global value otherwise, so the result is ≥ 0 whenever the global value is |
| `BatchExecutor.UnsetOptionsKeepGlobals` | redisson/src/main/java/org/redisson/command/BaseRedisBatchExecutor.java:68-91 | batch options that set nothing resolve to the global timeout, attempts and delay |
| `BatchExecutor.RedisBatchExecutor.constructor` | redisson/src/main/java/org/redisson/command/BaseRedisBatchExecutor.java:49-66 | the executor resolves its attempts, delay and timeout once, at construction, and keeps its view of the shared batch state |
| `BatchExecutor.RedisBatchExecutor.AddBatchCommandData` | redisson/src/main/java/org/redisson/command/BaseRedisBatchExecutor.java:93-103 | there is exactly one entry for the executor's node afterwards, an existing one reused and others unchanged; its read-only flag becomes false only for a non-read-only executor; the counter rises by exactly 1; the new command carries the new counter value and the resolved codec and is appended after the earlier commands; the batch invariant is kept |
| `BatchExecutor.AddedConsistent` | redisson/src/main/java/org/redisson/command/BaseRedisBatchExecutor.java:94-102 | an add keeps every entry equal to what the log of adds built: the node's sequence numbers, and read-only exactly while every add was |
| `BatchExecutor.PositionsExact` | redisson/src/main/java/org/redisson/command/BaseRedisBatchExecutor.java:101 | the sequence numbers of one node's commands rise strictly and are exactly the log positions of that node's adds |
| `BatchExecutor.AllReadOnlyExact` | redisson/src/main/java/org/redisson/command/BaseRedisBatchExecutor.java:96-98 | an entry is read-only if and only if every add to its node came from a read-only executor |
| `BatchExecutor.BatchIndicesDistinct` | redisson/src/main/java/org/redisson/command/BaseRedisBatchExecutor.java:101 | in any batch state, each entry's sequence numbers rise strictly and lie in 1..index, two entries never share a number, every number in 1..index is in the entry of the node whose add took it, and the read-only flag is false exactly when some add to that node was not read-only |
| `BatchExecutor.OrderingScenario` | redisson/src/main/java/org/redisson/command/BaseRedisBatchExecutor.java:93-103 | A to node1 from a writing executor, then B to node2 and C to node1 from read-only ones, numbered 1, 2 and 3: node1 holds A then C with numbers 1 and 3 and is not read-only, node2 holds B with number 2 and is read-only, and there is no other entry |
| `RedisUriDecoder.RedisURIDecoder.GetDecoder` | redisson/src/main/java/org/redisson/client/protocol/decoder/RedisURIDecoder.java:40-42 | the string value decoder is returned, whatever the codec, paramNum, state or size |
| `RedisUriDecoder.RedisURIDecoder.Decode` | redisson/src/main/java/org/redisson/client/protocol/decoder/RedisURIDecoder.java:45-50 | an empty list, and only that, decodes to null; one element raises the index error; for two or more, decoding succeeds exactly when `parts[1]` is an int numeral; a result has the constructor's scheme, host `parts[0]` and the parsed port |
| `RedisUriDecoder.ParseInt` | redisson/src/main/java/org/redisson/client/protocol/decoder/RedisURIDecoder.java:49 | a parsed port lies in int range; an empty string, a bare sign, or any non-digit after the first character is rejected; a string is accepted if and only if it is an optional sign followed by ASCII digits whose signed value fits in an int, and that value is the result |
| `RedisUriDecoder.ParseNonCanonical` | redisson/src/main/java/org/redisson/client/protocol/decoder/RedisURIDecoder.java:49 | a port written with a plus sign, with leading zeros, or as negative zero is accepted with its value, and a port with a letter or a space in it is rejected |
| `RedisUriDecoder.ParsePrinted` | redisson/src/main/java/org/redisson/client/protocol/decoder/RedisURIDecoder.java:49 | every int printed in decimal parses back to itself |
| `RedisUriDecoder.DecodeAddressReply` | redisson/src/main/java/org/redisson/client/protocol/decoder/RedisURIDecoder.java:35-50 | a `[host, port]` reply decodes to the URI with the decoder's scheme, that host and that port |

## Left out

- The futures of `execute()` (`thenCompose`, `thenApply`, `CompletableFutureWrapper`) are written as sequential steps. The network round trips of EVAL, HLEN and DEL are ordinary calls.
- The rescheduling policy around `execute()` is not modelled. That policy is the adaptive delay, `minDelay`/`maxDelay`, and the handling of a failed pass. `EvictionTask.java` and `EvictionScheduler.java` are not part of this model. `delay` and `keysLimit` are plain fields, and the registry is a set of names.
- `RedissonObject.prefixName` is defined in `RedissonObject`, outside `MapCacheEvictionTask`, and `RedissonObject` is not part of this model. `PrefixName` follows Redisson's definition of it: `prefix:name` when the name contains `{`, and `prefix:{name}` otherwise.
- The six KEYS of the script are taken to be six distinct Redis keys, one per `Store` field. What a collision or a wrong-type key would do is not modelled.
- The byte layout of hash values (`struct.unpack('dLc0')`) and of the message (`struct.pack('Lc0Lc0')`) is not modelled. A value is a number plus a payload, and a message is a key plus a payload. The script error raised by a malformed value is not modelled.
- `publishCommand` (PUBLISH or SPUBLISH) is kept but not interpreted. Every publish goes to the one channel log.
- SortedSets.ScanProperties: members with equal scores keep the set's own order, not Redis's lexicographic tie order. Scores are integers, not doubles.
- There is one clock, `now`. It serves as the script's ARGV[1] and as the time at which the server checks and sets the latch's expiry.
- MapCacheEviction.MapCacheEvictionTask.Execute: the model is sequential, so it does not capture a write to the map between HLEN and DEL, which the DEL would drop.
- `ConcurrentMap`, `AtomicInteger` and `AtomicBoolean` are an ordinary map, counter and flag under a sequential model. The `executed` flag is stored but never read by `BaseRedisBatchExecutor`. The flush that checks it is in `CommandBatchService`, which is not modelled.
- An `Entry` is a value in the map, not a shared object. Nobody else holds a reference to it, so its identity and aliasing are not modelled.
- BatchExecutor.RedisBatchExecutor.AddBatchCommandData: requires the counter to be below 2^31 - 1. The wrap-around of `incrementAndGet` after that many commands is not modelled.
- The superclass `RedisExecutor` (send, retry, redirect and timeout handling), `getCodec`, `ConnectionManager`, `BatchOptions` and `CommandBatchService.Entry` are not part of this model. `getCodec` is an opaque function. The entry's `addCommand` is an append. A new batch state starts with counter 0.
- RedisUriDecoder.ParseInt: only ASCII digits are accepted, while `Character.digit` also accepts other Unicode decimal digits. The `ClassCastException` of a non-string element is not modelled, because the elements are read as strings. What the `RedisURI` constructor checks is not part of this model.
- The script's last-access sorted set (KEYS[5]) is the index that records when each key was last accessed. The script only removes found keys from it and never reads its scores, so it is modelled as one more sorted set.
