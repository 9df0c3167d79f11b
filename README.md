# nsq-to-rocksdbserver ingestion core, in Dafny

`NSQRocksServer` reads JSON records from an NSQ topic and stores them in a
RocksDB table. The NSQ callback `on_nsq_msg` decodes each message. It puts
`(msg, data)` on a bounded queue (2000 items) and copies `data` to every
registered tail queue (100 items each). A writer thread runs
`write_msgs_periodically`: it collects dequeued items in a buffer. It writes
the buffer with `_write_to_db` when the buffer is non-empty and more than
3 s have passed since the last write, or when the buffer holds more than
500 items. `_write_to_db` derives one key per record: a timestamp, then a
hostname, then a fresh `uuid1().hex`, joined with `-`. It stores all pairs
with one `put_many` and then finishes every message. `close` queues the
`KILL` sentinel and waits on `join` until the writer has consumed it.

The model has four modules.

- `JsonValue` (json_value.dfy) holds the decoded JSON value. It also holds
  the two Python operations the key scheme applies to that value: `v[name]`
  and `.encode('utf8', 'ignore')`. Each returns `None` where Python raises.
- `StorageKey` (storage_key.dfy) is the key derivation, as pure functions.
  Its lemmas cover the three key shapes and the fact that every key ends
  with its suffix. They also prove that keys built on separator-free
  suffixes are equal only when their suffixes are.
- `BatchWrite` (batch_write.dfy) covers one `_write_to_db`:
  - the loop that builds `messages` and `bulk_data`, as a method proved
    against the function `BulkData`;
  - the ordered log of events (`PutMany`, `Finish`) through which the table
    and the finish calls are observed.
- `IngestServer` (ingest_server.dfy) holds the class `NsqRocksServer`. Its
  fields are:
  - the message queue and its unfinished-task count;
  - the tail map, from id to the contents of that tail's queue;
  - the writer's `buf`, `last_write_at` and whether it has left;
  - the event log, the id stream and the id counter.

  Ghost fields record every accepted record (`accepted`), the ones written
  so far (`done`), the id each was keyed with, and each tail's id.

`Valid()` is the class invariant.

- The unfinished count equals the queue length.
- The queue and the buffer stay within their bounds.
- The accepted records are, in order, the written records, then the
  buffer, then the queued records.
- The sentinel is absent while deliveries run. After that it is the
  queue's last item until the writer has consumed it.
- The log's bulk writes hold exactly the written records, each under its
  derived key, in acceptance order. The log's finishes are exactly their
  messages, in the same order.
- No prefix of the log has finished more messages than it has stored
  records, so no message is finished before its record is written.
- Every tail id is a drawn id, and every tail queue holds at most 100
  items.

`Durability` draws the consequences. Everything written was accepted, in
order, written once and finished once, and no two stored keys are equal.
At every point of the log, a message has been finished only if its record
has been stored.

Time is an integer count of microseconds, the resolution of `datetime`.
`uuid.uuid1().hex` is a stream of ids fixed when the server is built. The
server asks two things of the stream (`IdStream`): no id is drawn twice,
and no id contains `-`. A `uuid1().hex` id, 32 lower-case hex digits, has
no `-` (`HexIdHasNoSeparator`). `SampleId` is one stream that meets
`IdStream`, and `KillLeavesRecordBuffered` builds a server on it.
`register_tail` and `_write_to_db` both draw from the stream, in program
order.

Three behaviours of the code to note:

- When the writer dequeues `KILL`, it applies the normal flush trigger and
  leaves. It does not force a final write. See Findings.
- A full tail queue blocks `on_nsq_msg` (`q.put(data)` blocks). The record
  is not dropped. The model states this as a precondition.
- A full message queue also blocks the callback before the fan-out. This
  too is a precondition.

## Model

| member | source | states |
|---|---|---|
| `JsonValue.Member` | nsq_to_rocksdbserver/nsq_to_rocksdbserver.py:161-162 | `v[name]`: the member's value when `v` is an object holding `name`, and `None` (Python's exception) on any other value or a missing key. A definition; the key lemmas below cover its uses. |
| `JsonValue.Encoded` | nsq_to_rocksdbserver/nsq_to_rocksdbserver.py:163 | `.encode('utf8', 'ignore')`: the string itself for a JSON string, `None` (an AttributeError) for every other kind of value. A definition. |
| `StorageKey.Join` | nsq_to_rocksdbserver/nsq_to_rocksdbserver.py:175 | `'-'.join(parts)`. A definition; `KeyShapes` states what it gives for the key's parts. |
| `StorageKey.Timestamp` | nsq_to_rocksdbserver/nsq_to_rocksdbserver.py:161-163 | The first stage: `data['beat']` must exist, then `data['@timestamp']`, which must encode. A definition; `BareSuffixIffNoTimestamp` states its effect on the key. |
| `StorageKey.Hostname` | nsq_to_rocksdbserver/nsq_to_rocksdbserver.py:161-168 | The second stage: `beat['hostname']`, encoded. A definition; `TimestampOnlyIffNoHostname` states its effect on the key. |
| `StorageKey.KeyParts` | nsq_to_rocksdbserver/nsq_to_rocksdbserver.py:158-174 | The list `key` when the suffix is appended: the parts appended before the first failure, then the suffix. A definition; `KeyShapes` states the three outcomes. |
| `StorageKey.DeriveKey` | nsq_to_rocksdbserver/nsq_to_rocksdbserver.py:158-175 | The key of one record. A definition; its properties are `KeyShapes`, `KeyIsPrefixThenSuffix`, the two if-and-only-if lemmas and `KeyDeterminesSuffix`. |
| `IngestServer.ShouldFlush` | nsq_to_rocksdbserver/nsq_to_rocksdbserver.py:137-140 | The flush trigger: a non-empty buffer and more than 3 s since the last write, or more than 500 items. A definition; `FlushIfDue` and `KillStepLeavesBuffer` state its use. |
| `StorageKey.KeyShapes` | nsq_to_rocksdbserver/nsq_to_rocksdbserver.py:158-175 | The key is the bare suffix when no encodable timestamp can be read. It is `timestamp-suffix` when the timestamp succeeds but the hostname does not, and `timestamp-hostname-suffix` when both succeed. It always ends with the suffix. |
| `StorageKey.BareSuffixIffNoTimestamp` | nsq_to_rocksdbserver/nsq_to_rocksdbserver.py:160-174 | The key equals the suffix exactly when the first stage fails. That stage fails on a missing `beat` or `@timestamp`, or on a timestamp that does not encode. Both directions are proved. |
| `StorageKey.TimestampOnlyIffNoHostname` | nsq_to_rocksdbserver/nsq_to_rocksdbserver.py:165-174 | Given a timestamp, the key is `timestamp-suffix` exactly when `beat['hostname']` is missing or does not encode. Both directions are proved. |
| `StorageKey.KeyIsPrefixThenSuffix` | nsq_to_rocksdbserver/nsq_to_rocksdbserver.py:172-175 | Every key is a prefix followed by the suffix. The prefix is empty or ends in `-`. |
| `StorageKey.HexIdHasNoSeparator` | nsq_to_rocksdbserver/nsq_to_rocksdbserver.py:159 | A `uuid1().hex` id contains no `-`. |
| `StorageKey.SuffixAfterLastSeparator` | nsq_to_rocksdbserver/nsq_to_rocksdbserver.py:174 | Two strings of the form prefix plus separator-free suffix, each prefix empty or ending in `-`, are equal only if their suffixes are. |
| `StorageKey.KeyDeterminesSuffix` | nsq_to_rocksdbserver/nsq_to_rocksdbserver.py:159-175 | Keys built on separator-free suffixes are equal only when the suffixes are. This holds whatever the two records contain. |
| `StorageKey.SameFieldsDistinctKeys` | nsq_to_rocksdbserver/nsq_to_rocksdbserver.py:159-175 | Two records with identical timestamp and hostname still get different keys when their suffixes differ. |
| `BatchWrite.BulkData` | nsq_to_rocksdbserver/nsq_to_rocksdbserver.py:155-176 | The bulk write has one pair per buffered item. |
| `BatchWrite.BuildBatch` | nsq_to_rocksdbserver/nsq_to_rocksdbserver.py:152-176 | The loop builds `messages` as the buffer's messages in order, and `bulk_data` as `BulkData` of the buffer and the drawn suffixes. |
| `BatchWrite.BulkDataStep` | nsq_to_rocksdbserver/nsq_to_rocksdbserver.py:176 | Each loop iteration appends exactly the current item's pair. |
| `BatchWrite.BulkDataAt` | nsq_to_rocksdbserver/nsq_to_rocksdbserver.py:155-176 | Pair `k` is item `k`'s derived key with item `k`'s data, unchanged. |
| `BatchWrite.BulkDataKeyed` | nsq_to_rocksdbserver/nsq_to_rocksdbserver.py:155-176 | The bulk write is the buffer keyed by its derived keys. |
| `BatchWrite.BulkValues` | nsq_to_rocksdbserver/nsq_to_rocksdbserver.py:176 | The stored values are the buffered records, in buffer order. |
| `BatchWrite.BulkKeysDistinct` | nsq_to_rocksdbserver/nsq_to_rocksdbserver.py:159-176 | With distinct, separator-free suffixes, no two pairs of one bulk write share a key. |
| `BatchWrite.LogAppend` | nsq_to_rocksdbserver/nsq_to_rocksdbserver.py:179-185 | What is stored and what is finished, over a log, distributes over concatenation of logs. |
| `BatchWrite.FinishesOnlyFinish` | nsq_to_rocksdbserver/nsq_to_rocksdbserver.py:181-183 | `finish_messages` stores nothing and finishes exactly the given messages, in order. |
| `BatchWrite.LogPrefix` | nsq_to_rocksdbserver/nsq_to_rocksdbserver.py:179-185 | What any prefix of the log has stored, and what it has finished, are prefixes of the whole log's. |
| `BatchWrite.StoredFirstAfterBatch` | nsq_to_rocksdbserver/nsq_to_rocksdbserver.py:179-185 | A bulk write followed by at most as many finishes as it stored pairs keeps every finish behind the write of its record, at every point of the log. |
| `BatchWrite.BatchEventsEffect` | nsq_to_rocksdbserver/nsq_to_rocksdbserver.py:179-185 | One batch stores exactly its pairs and finishes each message once, in batch order. The first event is the `put_many`; every later one is a finish. |
| `IngestServer.QueuedRecordsAppend` | nsq_to_rocksdbserver/nsq_to_rocksdbserver.py:102 | The records in a queue with items appended are the old records followed by the new ones. |
| `IngestServer.EnqueueQueued` | nsq_to_rocksdbserver/nsq_to_rocksdbserver.py:102 | Queuing a record while running keeps the queue invariant, with the record accepted last. |
| `IngestServer.KillQueued` | nsq_to_rocksdbserver/nsq_to_rocksdbserver.py:202 | Queuing `KILL` after deliveries stop keeps the invariant. The sentinel is then the queue's only `KILL`, and its last item. |
| `IngestServer.WriterStepQueued` | nsq_to_rocksdbserver/nsq_to_rocksdbserver.py:124-149 | One writer iteration keeps the queue invariant. The head is consumed, one task is done per dequeue, and the writer leaves exactly on `KILL`. |
| `IngestServer.KillStepLeavesBuffer` | nsq_to_rocksdbserver/nsq_to_rocksdbserver.py:137-149 | Suppose one record is buffered and `KILL` is read exactly 3 s after the last write. Then the iteration does not flush, and the record is left in the buffer. |
| `IngestServer.KillLeavesRecordBuffered` | nsq_to_rocksdbserver/nsq_to_rocksdbserver.py:120-149 | The same case run through the methods: one record is delivered and buffered at time 0, `KILL` is queued and read 3 s later. The writer stops with an empty queue and no unfinished task, while the record is still in the buffer and the log is empty. |
| `IngestServer.WrittenAfterBatch` | nsq_to_rocksdbserver/nsq_to_rocksdbserver.py:151-185 | One `_write_to_db` keeps the store invariant. The new ids are fresh and increasing, the keys are derived from them, the log holds the new pairs and finishes, and no finish comes before the write of its record. |
| `IngestServer.IdsAfterBatch` | nsq_to_rocksdbserver/nsq_to_rocksdbserver.py:159 | After a batch, the record ids stay increasing and below the counter, and each key is derived from its id. |
| `IngestServer.LogAfterBatch` | nsq_to_rocksdbserver/nsq_to_rocksdbserver.py:179-185 | Appending a batch's events extends the stored pairs and the finished messages by that batch's. |
| `IngestServer.NsqRocksServer.constructor` | nsq_to_rocksdbserver/nsq_to_rocksdbserver.py:64-89 | The server starts running with an empty queue, no tails, an empty buffer and an empty log. |
| `IngestServer.NsqRocksServer.Durability` | nsq_to_rocksdbserver/nsq_to_rocksdbserver.py:120-185 | The stored and finished sequences have equal length, at most the number accepted. Entry `i` of each is accepted record `i`'s data and message. No two stored keys are equal. At every point of the log, what has been stored and finished so far are leading parts of those sequences, and no more messages have been finished than records stored. |
| `IngestServer.NsqRocksServer.WriteToDb` | nsq_to_rocksdbserver/nsq_to_rocksdbserver.py:151-185 | The log gains exactly the batch's events, with one fresh id drawn per item. The items join the written records, and the store invariant holds. |
| `IngestServer.NsqRocksServer.FinishMessages` | nsq_to_rocksdbserver/nsq_to_rocksdbserver.py:181-185 | One finish per message is appended to the log, in message order. |
| `IngestServer.NsqRocksServer.Dequeue` | nsq_to_rocksdbserver/nsq_to_rocksdbserver.py:127-135 | A timeout leaves the queue unchanged. Otherwise the head is removed and returned, and appended to the buffer unless it is `KILL`. |
| `IngestServer.NsqRocksServer.FlushIfDue` | nsq_to_rocksdbserver/nsq_to_rocksdbserver.py:137-143 | When the trigger fires, the whole buffer is written as one batch, the buffer is emptied and `last_write_at` becomes `now`. Otherwise nothing changes. What was written stays written. Afterwards the buffer holds at most 500 items. |
| `IngestServer.NsqRocksServer.WriterStep` | nsq_to_rocksdbserver/nsq_to_rocksdbserver.py:124-149 | The iteration keeps the invariant. On a timeout, the queue and the task count are unchanged. On a dequeue, the head is consumed, one task is done, and the writer stops exactly on `KILL`. The flush acts on the buffer plus what was dequeued. Earlier writes and finishes stay in the log. |
| `IngestServer.NsqRocksServer.WriteMsgsPeriodically` | nsq_to_rocksdbserver/nsq_to_rocksdbserver.py:120-149 | The loop keeps the invariant and does not stop while deliveries run. Once `KILL` is queued, as many iterations as there are queued items are enough for it to stop with an empty queue and no unfinished tasks. The log and the written records only grow. |
| `IngestServer.NsqRocksServer.OnNsqMsg` | nsq_to_rocksdbserver/nsq_to_rocksdbserver.py:94-106 | It acks exactly when decoding fails, and then changes nothing. Otherwise it queues exactly one `(msg, data)`, adds one unfinished task and appends `data` to every tail. |
| `IngestServer.NsqRocksServer.Accept` | nsq_to_rocksdbserver/nsq_to_rocksdbserver.py:100-106 | The valid-payload path queues the record, accepts it and fans it out, keeping the invariant. |
| `IngestServer.NsqRocksServer.FanOutToTails` | nsq_to_rocksdbserver/nsq_to_rocksdbserver.py:104-106 | The loop over the tails leaves each tail with `data` appended and the tail bounds intact. |
| `IngestServer.NsqRocksServer.RegisterTail` | nsq_to_rocksdbserver/nsq_to_rocksdbserver.py:108-114 | One id, fresh among the registered ones, is mapped to an empty queue. Every other entry is unchanged. |
| `IngestServer.NsqRocksServer.DeregisterTail` | nsq_to_rocksdbserver/nsq_to_rocksdbserver.py:116-118 | The id must be registered, since `del` raises KeyError otherwise. Only that entry is removed. |
| `IngestServer.NsqRocksServer.TailPoll` | nsq_to_rocksdbserver/nsq_to_rocksdbserver.py:48-53 | One `get(timeout=5)` returns the tail's oldest record and removes it, or times out on an empty queue. |
| `IngestServer.NsqRocksServer.Close` | nsq_to_rocksdbserver/nsq_to_rocksdbserver.py:197-206 | Afterwards the queue is empty, no task is unfinished and the writer has stopped. Tails are untouched, and earlier writes stay in the log. The accepted records are the written ones plus whatever the last iteration left in the buffer. |
| `IngestServer.NsqRocksServer.PutKill` | nsq_to_rocksdbserver/nsq_to_rocksdbserver.py:199-202 | Deliveries stop and `KILL` is queued behind everything already queued, as one more unfinished task, keeping the invariant. |
| `IngestServer.NsqRocksServer.CloseFlushed` | nsq_to_rocksdbserver/nsq_to_rocksdbserver.py:197-206 | `close` with a final write of the buffer. Earlier writes stay in the log, and afterwards every accepted record has been written and finished. |

## Left out

- RocksDB table options (`NSQTable.define_options`) are left out. They configure a foreign storage engine.
- The RocksDB table itself is only a log of `PutMany` events. What a later read of a key returns is not modelled.
- The NSQ reader is left out: its construction, `set_max_in_flight`, the writer thread start, `atexit` and the tornado `IOLoop` callback. These are network, thread and event-loop plumbing. A `finish` is an event recorded in the log, in the order the callback runs it.
- `json.loads` is an input. `OnNsqMsg` receives its result as an `Option`.
- `uuid.uuid1()` is a stream of ids fixed at construction. It is required to be injective and free of `-`. How ids are generated is not modelled. The real ids are 32 hex digits. That set is finite, and no stream that is injective over all of the naturals fits in it, so the model does not require that length. A repeated `uuid1()` value is not modelled.
- `.encode('utf8', 'ignore')` is the identity on decoded strings, and a failure on every other kind of value. Byte-level UTF-8 is not modelled. In particular, the Python 2 re-encode of the joined key at line 175 could raise on a non-ASCII byte string; that is not modelled.
- A `put_many` that raises is not modelled: `WriteToDb` always succeeds. In the code the exception ends the writer thread, so that batch is never finished, the queue fills and `close`'s `join` at line 203 never returns. `Close` promises termination only because this failure is left out. The encode error at line 175 has the same effect.
- Concurrency is left out. The callback, the writer thread and `close` run as separate sequential steps. Blocking `put` calls on full queues become preconditions, and a `get` timeout is an empty queue.
- `OnNsqMsg`: deliveries already in flight when `close` starts are not modelled. The method requires the server to be running.
- `WriteMsgsPeriodically` runs one iteration per clock reading it is given. The unbounded `while True` loop is cut off by that sequence.
- `close`'s `nsq_reader.close()` and `nsqtable.close()` are left out, as I/O. The model only marks the server stopped.
- The `tail()` generator is modelled by `TailPoll` (one `get`) and by `RegisterTail`/`DeregisterTail`. Its infinite loop and its `finally` are not modelled. Tail queues are values in the map, so no aliasing with the consumer's reference is modelled.
- Acknowledgment of an invalid message is the callback's result `true`. The reader's own finish for that result is not logged.
- `prepare_api`, `define_args`, `main` and `setup.py` are left out. They are wiring and packaging.

## Findings

| source | as written | input that shows it | evidently intended | confidence | as-written member | corrected member |
|---|---|---|---|---|---|---|
| nsq_to_rocksdbserver/nsq_to_rocksdbserver.py:145-149 | When the writer dequeues `KILL` it applies only the usual flush trigger, then breaks. Records still in `buf` are never written, and their messages are never finished. | One record is dequeued and buffered without a flush. Then `close` queues `KILL`, which is read no more than 3 s after the last write. The buffer is left holding the record, and `join` returns. | `close` says it waits for all queued messages to be written (lines 200-203). So the buffer should be written before the writer leaves. | medium, not executed | `IngestServer.KillLeavesRecordBuffered` (with `IngestServer.KillStepLeavesBuffer`, and `IngestServer.NsqRocksServer.Close`, whose contract leaves `accepted == done + buf`) | `IngestServer.NsqRocksServer.CloseFlushed` |
