/**
 * `NSQRocksServer`: the ingest callback, the bounded message queue, the
 * periodic writer loop, the tail registry and the close sequence, run one
 * step at a time. Time is an integer count of microseconds (the resolution
 * of `datetime`). `uuid.uuid1().hex` is a stream of ids fixed when the
 * server is built; `register_tail` and `_write_to_db` both draw from it.
 */
module IngestServer {
  import opened JsonValue
  import opened StorageKey
  import opened BatchWrite

  /** `Queue.Queue(maxsize=2000)` */
  const MsgQueueCapacity: nat := 2000
  /** `Queue.Queue(maxsize=100)` for each tail */
  const TailQueueCapacity: nat := 100
  /** `datetime.timedelta(seconds=3)`, in microseconds */
  const FlushInterval: int := 3_000_000
  /** A buffer longer than this is written whatever the time. */
  const MaxBuffered: nat := 500

  /** What `msgqueue` holds: a decoded message, or the `KILL` sentinel. */
  datatype QueueItem = Record(msg: Message, data: Json) | Kill

  datatype Phase = Running | Draining | Stopped

  /** The flush trigger of the writer loop: a non-empty buffer whose last
      write is more than the interval ago, or a buffer over the count
      threshold. */
  predicate ShouldFlush(bufLen: nat, now: int, lastWriteAt: int)
  {
    var aboutTime := now - lastWriteAt > FlushInterval;
    (bufLen > 0 && aboutTime) || bufLen > MaxBuffered
  }

  /** The `(msg, data)` a queue item adds to the buffer: none for `KILL`. */
  function Buffered(item: QueueItem): seq<Item>
  {
    if item.Record? then [(item.msg, item.data)] else []
  }

  /** The item a dequeue adds to the buffer: nothing on a timeout. */
  function Taken(q: seq<QueueItem>): seq<Item>
  {
    if q == [] then [] else Buffered(q[0])
  }

  /** The records waiting in the queue, in queue order. */
  function QueuedRecords(q: seq<QueueItem>): seq<Item>
  {
    if q == [] then [] else Buffered(q[0]) + QueuedRecords(q[1..])
  }

  lemma {:induction false} QueuedRecordsAppend(a: seq<QueueItem>, b: seq<QueueItem>)
    ensures QueuedRecords(a + b) == QueuedRecords(a) + QueuedRecords(b)
  {
    if a == [] {
      assert a + b == b;
    } else {
      assert (a + b)[1..] == a[1..] + b;
      QueuedRecordsAppend(a[1..], b);
    }
  }

  /** The sentinel is in the queue once, as its last item. */
  predicate KillLast(q: seq<QueueItem>)
  {
    q != [] && q[|q| - 1] == Kill && Kill !in q[..|q| - 1]
  }

  /** The loop `for q in self.tails.itervalues(): q.put(data)`. */
  function FanOut(tails: map<string, seq<Json>>, data: Json): map<string, seq<Json>>
  {
    map id | id in tails :: tails[id] + [data]
  }

  /** The ids `from`, `from + 1`, ... `from + n - 1` of the stream `uuid`. */
  function Draw(uuid: nat -> string, from: nat, n: nat): seq<string>
  {
    seq(n, i requires 0 <= i < n => uuid(from + i))
  }

  /** The numbers of the next `n` ids drawn, from `from`. */
  function Numbered(from: nat, n: nat): seq<nat>
  {
    seq(n, i requires 0 <= i < n => from + i)
  }

  /** What the model asks of the id stream: no id is drawn twice, and no
      id contains the key separator '-'. The hex form of `uuid1()` has no
      separator (`HexIdHasNoSeparator`). */
  ghost predicate IdStream(uuid: nat -> string)
  {
    && (forall i: nat, j: nat :: uuid(i) == uuid(j) ==> i == j)
    && (forall i: nat :: NoSeparator(uuid(i)))
  }

  /** A stream that meets `IdStream`: id `n` is `n` letters 'a'. */
  function SampleId(n: nat): string
  {
    seq(n, _ => 'a')
  }

  /** What one pass of the flush check at `now` does to a buffer `buf`,
      the time of the last write, the id count and the log: either all of
      the buffer is written as one batch, or nothing changes. */
  ghost predicate Flushed(uuid: nat -> string, now: int,
                          buf: seq<Item>, lastWriteAt: int, used: nat, log: seq<Event>,
                          buf': seq<Item>, lastWriteAt': int, used': nat, log': seq<Event>)
  {
    if ShouldFlush(|buf|, now, lastWriteAt) then
      && buf' == [] && lastWriteAt' == now
      && used' == used + |buf|
      && log' == log + BatchEvents(buf, Draw(uuid, used, |buf|))
    else
      && buf' == buf && lastWriteAt' == lastWriteAt
      && used' == used && log' == log
  }

  /** The queue and the buffer: the unfinished-task count is the queue
      length; both are within their bounds; every accepted record has been
      written, is in the buffer, or is still queued, in acceptance order;
      the sentinel is absent while running, last in the queue while the
      writer drains it, and consumed once the writer has left. */
  ghost predicate Queued(unfinished: nat, q: seq<QueueItem>, buf: seq<Item>, accepted: seq<Item>,
                         done: seq<Item>, phase: Phase, stopped: bool)
  {
    && unfinished == |q|
    && |q| <= MsgQueueCapacity
    && |buf| <= MaxBuffered
    && accepted == done + buf + QueuedRecords(q)
    && (phase == Running ==> !stopped && Kill !in q)
    && (phase != Running && !stopped ==> KillLast(q))
    && (stopped ==> phase != Running && q == [])
    && (phase == Stopped ==> stopped)
  }

  /** `msgqueue.put((msg, data))` while running keeps the queue invariant,
      with the record accepted. */
  lemma EnqueueQueued(unfinished: nat, q: seq<QueueItem>, buf: seq<Item>, accepted: seq<Item>,
                      done: seq<Item>, phase: Phase, msg: Message, data: Json)
    requires Queued(unfinished, q, buf, accepted, done, phase, false)
    requires phase == Running && |q| < MsgQueueCapacity
    ensures Queued(unfinished + 1, q + [Record(msg, data)], buf, accepted + [(msg, data)], done, phase, false)
  {
    QueuedRecordsAppend(q, [Record(msg, data)]);
    assert QueuedRecords([Record(msg, data)]) == [(msg, data)];
  }

  /** `msgqueue.put(KILL)` in `close`, once deliveries have stopped: the
      sentinel goes in last and the writer is left to drain the queue. */
  lemma KillQueued(unfinished: nat, q: seq<QueueItem>, buf: seq<Item>, accepted: seq<Item>, done: seq<Item>)
    requires Queued(unfinished, q, buf, accepted, done, Running, false)
    requires |q| < MsgQueueCapacity
    ensures Queued(unfinished + 1, q + [Kill], buf, accepted, done, Draining, false)
  {
    QueuedRecordsAppend(q, [Kill]);
    assert (q + [Kill])[..|q|] == q;
  }

  /** One writer iteration keeps the queue invariant: the head (if any) is
      dequeued and its task done, the buffer and the written records
      together grow by what was dequeued, and the buffer is back within
      its bound. */
  lemma {:induction false} WriterStepQueued(unfinished: nat, q: seq<QueueItem>, buf: seq<Item>,
                                            accepted: seq<Item>, done: seq<Item>, phase: Phase,
                                            buf': seq<Item>, done': seq<Item>)
    requires Queued(unfinished, q, buf, accepted, done, phase, false)
    requires done' + buf' == done + buf + Taken(q)
    requires |buf'| <= MaxBuffered
    ensures q == [] ==> Queued(unfinished, q, buf', accepted, done', phase, false)
    ensures q != [] ==> Queued(unfinished - 1, q[1..], buf', accepted, done', phase, q[0] == Kill)
  {
    if q != [] {
      assert q == [q[0]] + q[1..];
      assert QueuedRecords(q) == Taken(q) + QueuedRecords(q[1..]);
      if q[0] != Kill && phase != Running {
        assert q[1..][..|q| - 2] == q[..|q| - 1][1..];
      }
    }
  }

  /** The iteration that dequeues the sentinel applies only the usual
      trigger. With one record buffered and the sentinel read exactly one
      interval after the last write, nothing is written: the record stays
      in the buffer when the loop leaves. */
  lemma KillStepLeavesBuffer(uuid: nat -> string, m: Message, d: Json)
    ensures Taken([Kill]) == []
    ensures !ShouldFlush(|[(m, d)] + Taken([Kill])|, FlushInterval, 0)
    ensures Flushed(uuid, FlushInterval, [(m, d)] + Taken([Kill]), 0, 0, [], [(m, d)], 0, 0, [])
  {
    assert [(m, d)] + Taken([Kill]) == [(m, d)];
  }

  /** What the log says about the written records: `done[i]` is stored
      under `keys[i]`, derived from its data and the id numbered `ids[i]`;
      the ids were drawn in increasing order before `used`; the bulk writes
      hold exactly those pairs and the finishes exactly those messages. */
  ghost predicate Written(uuid: nat -> string, used: nat, ids: seq<nat>, keys: seq<string>,
                          done: seq<Item>, log: seq<Event>)
  {
    && |ids| == |done| && |keys| == |done|
    && (forall i :: 0 <= i < |ids| ==> ids[i] < used)
    && (forall i, j :: 0 <= i < j < |ids| ==> ids[i] < ids[j])
    && (forall i :: 0 <= i < |keys| ==> keys[i] == DeriveKey(done[i].1, uuid(ids[i])))
    && Stored(log) == Keyed(keys, done)
    && Finished(log) == Msgs(done)
    && StoredFirst(log)
  }

  /** One `_write_to_db` of `items`, drawing the next ids, keeps the
      record of what has been written. */
  lemma WrittenAfterBatch(uuid: nat -> string, used: nat, ids: seq<nat>, keys: seq<string>,
                          done: seq<Item>, log: seq<Event>, items: seq<Item>)
    requires Written(uuid, used, ids, keys, done, log)
    ensures var suffixes := Draw(uuid, used, |items|);
            Written(uuid, used + |items|,
                    ids + Numbered(used, |items|),
                    keys + BatchKeys(items, suffixes),
                    done + items, log + BatchEvents(items, suffixes))
  {
    var suffixes := Draw(uuid, used, |items|);
    IdsAfterBatch(uuid, used, ids, keys, done, items);
    BatchEventsEffect(items, suffixes);
    BulkDataKeyed(items, suffixes);
    LogAfterBatch(keys, done, log, BatchKeys(items, suffixes), items, BatchEvents(items, suffixes));
    StoredFirstAfterBatch(log, BulkData(items, suffixes), Msgs(items));
    assert log + BatchEvents(items, suffixes) == log + [PutMany(BulkData(items, suffixes))] + Finishes(Msgs(items));
  }

  lemma IdsAfterBatch(uuid: nat -> string, used: nat, ids: seq<nat>, keys: seq<string>,
                      done: seq<Item>, items: seq<Item>)
    requires |ids| == |done| && |keys| == |done|
    requires forall i :: 0 <= i < |ids| ==> ids[i] < used
    requires forall i, j :: 0 <= i < j < |ids| ==> ids[i] < ids[j]
    requires forall i :: 0 <= i < |keys| ==> keys[i] == DeriveKey(done[i].1, uuid(ids[i]))
    ensures var ids' := ids + Numbered(used, |items|);
            var suffixes := Draw(uuid, used, |items|);
            var keys' := keys + BatchKeys(items, suffixes);
            var done' := done + items;
            && (forall i :: 0 <= i < |ids'| ==> ids'[i] < used + |items|)
            && (forall i, j :: 0 <= i < j < |ids'| ==> ids'[i] < ids'[j])
            && (forall i :: 0 <= i < |keys'| ==> keys'[i] == DeriveKey(done'[i].1, uuid(ids'[i])))
  {
  }

  lemma LogAfterBatch(keys: seq<string>, done: seq<Item>, log: seq<Event>,
                      newKeys: seq<string>, items: seq<Item>, events: seq<Event>)
    requires |keys| == |done| && |newKeys| == |items|
    requires Stored(log) == Keyed(keys, done) && Finished(log) == Msgs(done)
    requires Stored(events) == Keyed(newKeys, items) && Finished(events) == Msgs(items)
    ensures Stored(log + events) == Keyed(keys + newKeys, done + items)
    ensures Finished(log + events) == Msgs(done + items)
  {
    LogAppend(log, events);
    assert Keyed(keys + newKeys, done + items) == Keyed(keys, done) + Keyed(newKeys, items);
    assert Msgs(done + items) == Msgs(done) + Msgs(items);
  }

  class NsqRocksServer {
    /** `uuid.uuid1().hex`: the `n`-th id drawn. */
    const uuid: nat -> string
    /** How many ids have been drawn. */
    var idsUsed: nat

    /** `msgqueue` and its count of unfinished tasks (`put` adds one,
        `task_done` takes one away, `join` waits for zero). */
    var msgqueue: seq<QueueItem>
    var unfinished: nat

    /** `tails`: id to the contents of that tail's queue. */
    var tails: map<string, seq<Json>>

    /** The locals `buf` and `last_write_at` of the writer loop, and
        whether the loop has left. */
    var buf: seq<Item>
    var lastWriteAt: int
    var writerStopped: bool

    /** Bulk writes and finishes, in the order they happen. */
    var log: seq<Event>

    var phase: Phase

    /** Every record accepted by the ingest callback, in order. */
    ghost var accepted: seq<Item>
    /** The accepted records that have been written and finished. */
    ghost var done: seq<Item>
    /** For each written record, the number of the id drawn for its key. */
    ghost var recordIds: seq<nat>
    /** The key each written record was stored under. */
    ghost var doneKeys: seq<string>
    /** For each tail, the number of the id it was registered under. */
    ghost var tailIds: map<string, nat>

    /** The id stream is as `IdStream` asks. It is about a constant, so it
        never changes. */
    ghost predicate IdsOk()
    {
      IdStream(uuid)
    }

    ghost predicate StoreInv()
      reads this`recordIds, this`doneKeys, this`done, this`idsUsed, this`log
    {
      Written(uuid, idsUsed, recordIds, doneKeys, done, log)
    }

    ghost predicate TailInv()
      reads this`tailIds, this`tails, this`idsUsed
    {
      && tailIds.Keys == tails.Keys
      && (forall id :: id in tailIds ==> tailIds[id] < idsUsed && uuid(tailIds[id]) == id)
      && (forall id :: id in tails ==> |tails[id]| <= TailQueueCapacity)
    }

    ghost predicate QueueInv()
      reads this`unfinished, this`msgqueue, this`buf, this`accepted, this`done
      reads this`phase, this`writerStopped
    {
      Queued(unfinished, msgqueue, buf, accepted, done, phase, writerStopped)
    }

    ghost predicate Valid()
      reads this
    {
      StoreInv() && TailInv() && QueueInv()
    }

    /** `run`: an empty queue, no tails, and the writer started at
        `startedAt` with an empty buffer. */
    constructor (uuid: nat -> string, startedAt: int)
      requires IdStream(uuid)
      ensures Valid() && IdsOk()
      ensures this.uuid == uuid && phase == Running && !writerStopped
      ensures msgqueue == [] && tails == map[] && buf == [] && lastWriteAt == startedAt
      ensures log == [] && accepted == []
    {
      this.uuid := uuid;
      idsUsed := 0;
      msgqueue, unfinished := [], 0;
      tails := map[];
      buf, lastWriteAt, writerStopped := [], startedAt, false;
      log := [];
      phase := Running;
      accepted, done, recordIds, doneKeys, tailIds := [], [], [], [], map[];
    }

    /** Written records are the accepted ones, in acceptance order, each
        written once and finished once, and no two share a key. At every
        point of the log, the messages finished so far and the records
        stored so far are leading parts of those sequences, and no more
        messages have been finished than records stored: no message is
        finished before its record is written. */
    lemma Durability()
      requires Valid() && IdsOk()
      ensures |Stored(log)| == |Finished(log)| <= |accepted|
      ensures forall i :: 0 <= i < |Stored(log)| ==>
                Stored(log)[i].1 == accepted[i].1 && Finished(log)[i] == accepted[i].0
      ensures forall i, j :: 0 <= i < j < |Stored(log)| ==> Stored(log)[i].0 != Stored(log)[j].0
      ensures forall p :: 0 <= p <= |log| ==>
                && Stored(log[..p]) <= Stored(log) && Finished(log[..p]) <= Finished(log)
                && |Finished(log[..p])| <= |Stored(log[..p])|
    {
      forall p | 0 <= p <= |log|
        ensures Stored(log[..p]) <= Stored(log) && Finished(log[..p]) <= Finished(log)
      {
        LogPrefix(log, p);
      }
      forall i, j | 0 <= i < j < |doneKeys| ensures doneKeys[i] != doneKeys[j] {
        if doneKeys[i] == doneKeys[j] {
          KeyDeterminesSuffix(done[i].1, uuid(recordIds[i]), done[j].1, uuid(recordIds[j]));
        }
      }
      forall i | 0 <= i < |Stored(log)|
        ensures Stored(log)[i].1 == accepted[i].1 && Finished(log)[i] == accepted[i].0
      {
        assert accepted[i] == done[i];
      }
    }

    /** `_write_to_db(items)`: one bulk write of one pair per item, then
        one finish per item. */
    method WriteToDb(items: seq<Item>)
      requires StoreInv()
      modifies this`log, this`idsUsed, this`done, this`recordIds, this`doneKeys
      ensures StoreInv()
      ensures idsUsed == old(idsUsed) + |items|
      ensures log == old(log) + BatchEvents(items, Draw(uuid, old(idsUsed), |items|))
      ensures done == old(done) + items
    {
      var suffixes := Draw(uuid, idsUsed, |items|);
      var messages, bulk := BuildBatch(items, suffixes);
      ghost var before := log;
      log := log + [PutMany(bulk)];
      FinishMessages(messages);
      assert log == before + BatchEvents(items, suffixes);
      WrittenAfterBatch(uuid, idsUsed, recordIds, doneKeys, done, before, items);
      done := done + items;
      recordIds := recordIds + Numbered(old(idsUsed), |items|);
      doneKeys := doneKeys + BatchKeys(items, suffixes);
      idsUsed := idsUsed + |items|;
    }

    /** `finish_messages`, run on the IO loop once `put_many` has
        returned: one finish per message, in order. */
    method FinishMessages(messages: seq<Message>)
      modifies this`log
      ensures log == old(log) + Finishes(messages)
    {
      var i := 0;
      while i < |messages|
        invariant 0 <= i <= |messages|
        invariant log == old(log) + Finishes(messages[..i])
      {
        assert Finishes(messages[..i + 1]) == Finishes(messages[..i]) + [Finish(messages[i])];
        log := log + [Finish(messages[i])];
        i := i + 1;
      }
      assert messages[..i] == messages;
    }

    /** One iteration of `write_msgs_periodically`, with `now` read before
        the dequeue. A dequeue on an empty queue is the timeout. */
    method WriterStep(now: int)
      requires Valid() && !writerStopped
      modifies this`msgqueue, this`unfinished, this`buf, this`lastWriteAt, this`writerStopped
      modifies this`log, this`idsUsed, this`done, this`recordIds, this`doneKeys
      ensures Valid()
      // the dequeue, its task_done, and the sentinel
      ensures old(msgqueue) == [] ==>
                msgqueue == [] && unfinished == old(unfinished) && !writerStopped
      ensures old(msgqueue) != [] ==>
                && msgqueue == old(msgqueue)[1..]
                && unfinished == old(unfinished) - 1
                && (writerStopped <==> old(msgqueue)[0] == Kill)
      // the flush
      ensures Flushed(uuid, now, old(buf) + Taken(old(msgqueue)), old(lastWriteAt), old(idsUsed), old(log),
                      buf, lastWriteAt, idsUsed, log)
      // what was written stays written
      ensures old(log) <= log && old(done) <= done
    {
      ghost var q, unfinished0, buf0, done0 := msgqueue, unfinished, buf, done;
      var item := Dequeue();
      FlushIfDue(now);
      WriterStepQueued(unfinished0, q, buf0, accepted, done0, phase, buf, done);
      // task_done after a dequeue, not after a timeout; leave on the sentinel
      unfinished := if item.Some? then unfinished - 1 else unfinished;
      writerStopped := item == Some(Kill);
      assert QueueInv();
    }

    /** `msgqueue.get(block=True, timeout=1)`, and the append to the
        buffer of what it returned unless that is the sentinel. */
    method Dequeue() returns (item: Option<QueueItem>)
      modifies this`msgqueue, this`buf
      ensures old(msgqueue) == [] ==> item == None && msgqueue == []
      ensures old(msgqueue) != [] ==> item == Some(old(msgqueue)[0]) && msgqueue == old(msgqueue)[1..]
      ensures buf == old(buf) + Taken(old(msgqueue))
    {
      item := None;
      if msgqueue != [] {
        item := Some(msgqueue[0]);
        msgqueue := msgqueue[1..];
        if item.value != Kill {
          buf := buf + [(item.value.msg, item.value.data)];
        }
      }
    }

    /** The flush of the writer loop: the buffer is written, and emptied,
        when the trigger fires at `now`. */
    method FlushIfDue(now: int)
      requires StoreInv() && TailInv()
      modifies this`buf, this`lastWriteAt, this`log, this`idsUsed, this`done, this`recordIds, this`doneKeys
      ensures StoreInv() && TailInv()
      ensures done + buf == old(done) + old(buf)
      ensures Flushed(uuid, now, old(buf), old(lastWriteAt), old(idsUsed), old(log),
                      buf, lastWriteAt, idsUsed, log)
      ensures !ShouldFlush(|old(buf)|, now, old(lastWriteAt)) ==> done == old(done)
      ensures old(log) <= log && old(done) <= done
      ensures |buf| <= MaxBuffered
    {
      if ShouldFlush(|buf|, now, lastWriteAt) {
        WriteToDb(buf);
        buf := [];
        lastWriteAt := now;
      }
    }

    /** `write_msgs_periodically`, one iteration per clock reading, until
        the sentinel has been dequeued or the readings run out. Once the
        sentinel is queued, as many readings as there are items ahead of
        it and it are enough to end the loop. */
    method WriteMsgsPeriodically(clock: seq<int>)
      requires Valid() && !writerStopped
      modifies this
      ensures Valid()
      ensures tails == old(tails) && phase == old(phase) && accepted == old(accepted)
      ensures old(phase) == Running ==> !writerStopped
      ensures old(phase) != Running && |clock| >= |old(msgqueue)| ==>
                writerStopped && msgqueue == [] && unfinished == 0
      ensures old(log) <= log && old(done) <= done
    {
      var i := 0;
      while i < |clock| && !writerStopped
        invariant 0 <= i <= |clock|
        invariant Valid()
        invariant tails == old(tails) && phase == old(phase) && accepted == old(accepted)
        invariant old(log) <= log && old(done) <= done
        invariant phase != Running && !writerStopped ==> i + |msgqueue| == |old(msgqueue)|
      {
        WriterStep(clock[i]);
        i := i + 1;
      }
    }

    /** `on_nsq_msg`. `decoded` is what `json.loads(msg.body)` gave, `None`
        for a ValueError or TypeError. The result is true when the handler
        returns `True`, so that the reader finishes the message at once. */
    method OnNsqMsg(msg: Message, decoded: Option<Json>) returns (ack: bool)
      requires Valid() && phase == Running
      // put blocks on a full queue
      requires decoded.Some? ==> |msgqueue| < MsgQueueCapacity
      requires decoded.Some? ==> forall id :: id in tails ==> |tails[id]| < TailQueueCapacity
      modifies this`msgqueue, this`unfinished, this`tails, this`accepted
      ensures Valid()
      ensures ack <==> decoded.None?
      ensures decoded.None? ==>
                && msgqueue == old(msgqueue) && unfinished == old(unfinished)
                && tails == old(tails) && accepted == old(accepted)
      ensures decoded.Some? ==>
                && msgqueue == old(msgqueue) + [Record(msg, decoded.value)]
                && unfinished == old(unfinished) + 1
                && tails == FanOut(old(tails), decoded.value)
                && accepted == old(accepted) + [(msg, decoded.value)]
    {
      if decoded.Some? {
        Accept(msg, decoded.value);
      }
      ack := decoded.None?;
    }

    /** The valid-payload path of `on_nsq_msg`: the record is queued for
        the writer and copied to every tail. */
    method Accept(msg: Message, data: Json)
      requires Valid() && phase == Running
      requires |msgqueue| < MsgQueueCapacity
      requires forall id :: id in tails ==> |tails[id]| < TailQueueCapacity
      modifies this`msgqueue, this`unfinished, this`tails, this`accepted
      ensures Valid()
      ensures msgqueue == old(msgqueue) + [Record(msg, data)] && unfinished == old(unfinished) + 1
      ensures tails == FanOut(old(tails), data)
      ensures accepted == old(accepted) + [(msg, data)]
    {
      EnqueueQueued(unfinished, msgqueue, buf, accepted, done, phase, msg, data);
      msgqueue := msgqueue + [Record(msg, data)];
      unfinished := unfinished + 1;
      accepted := accepted + [(msg, data)];
      FanOutToTails(data);
    }

    /** The loop over the tail queues, each given one more record, in
        whatever order the dictionary yields them. */
    method FanOutToTails(data: Json)
      requires TailInv()
      requires forall id :: id in tails ==> |tails[id]| < TailQueueCapacity
      modifies this`tails
      ensures TailInv()
      ensures tails == FanOut(old(tails), data)
    {
      var pending := tails.Keys;
      while pending != {}
        invariant pending <= old(tails).Keys && tails.Keys == old(tails).Keys
        invariant forall id :: id in pending ==> tails[id] == old(tails)[id]
        invariant forall id :: id in old(tails) && id !in pending ==> tails[id] == old(tails)[id] + [data]
        decreases pending
      {
        var id :| id in pending;
        tails := tails[id := tails[id] + [data]];
        pending := pending - {id};
      }
      assert tails == FanOut(old(tails), data);
    }

    /** `register_tail`: a fresh id mapped to an empty queue. */
    method RegisterTail() returns (id: string)
      requires Valid() && IdsOk()
      modifies this`tails, this`idsUsed, this`tailIds
      ensures Valid()
      ensures id == uuid(old(idsUsed)) && idsUsed == old(idsUsed) + 1
      ensures id !in old(tails) && tails == old(tails)[id := []]
    {
      id := uuid(idsUsed);
      tails := tails[id := []];
      tailIds := tailIds[id := idsUsed];
      idsUsed := idsUsed + 1;
    }

    /** `deregister_tail(id)`; `del` raises KeyError for an id not present. */
    method DeregisterTail(id: string)
      requires Valid() && id in tails
      modifies this`tails, this`tailIds
      ensures Valid()
      ensures tails == old(tails) - {id}
    {
      tails := tails - {id};
      tailIds := tailIds - {id};
    }

    /** One `queue.get(timeout=5)` of the `tail` generator on its own
        queue: the oldest record, or nothing on a timeout. */
    method TailPoll(id: string) returns (r: Option<Json>)
      requires Valid() && id in tails
      modifies this`tails
      ensures Valid()
      ensures old(tails[id]) == [] ==> r == None && tails == old(tails)
      ensures old(tails[id]) != [] ==>
                r == Some(old(tails[id])[0]) && tails == old(tails)[id := old(tails[id])[1..]]
    {
      if tails[id] == [] {
        return None;
      }
      r := Some(tails[id][0]);
      tails := tails[id := tails[id][1..]];
    }

    /** `close`: stop deliveries, queue the sentinel, wait on `join` while
        the writer thread drains the queue (one clock reading per
        iteration), then close the reader and the table. */
    method Close(clock: seq<int>)
      requires Valid() && phase == Running
      // put(KILL) blocks on a full queue
      requires |msgqueue| < MsgQueueCapacity
      requires |clock| > |msgqueue|
      modifies this
      ensures Valid()
      ensures phase == Stopped && writerStopped && msgqueue == [] && unfinished == 0
      ensures tails == old(tails) && accepted == old(accepted)
      ensures old(log) <= log && old(done) <= done
      // what the last iteration did not flush stays in the buffer
      ensures accepted == done + buf
    {
      PutKill();
      WriteMsgsPeriodically(clock);
      phase := Stopped;
    }

    /** The start of `close`: deliveries stop and the sentinel is queued
        behind everything already queued. */
    method PutKill()
      requires Valid() && phase == Running
      requires |msgqueue| < MsgQueueCapacity
      modifies this`phase, this`msgqueue, this`unfinished
      ensures Valid()
      ensures phase == Draining && !writerStopped
      ensures msgqueue == old(msgqueue) + [Kill] && unfinished == old(unfinished) + 1
    {
      KillQueued(unfinished, msgqueue, buf, accepted, done);
      phase := Draining;
      msgqueue := msgqueue + [Kill];
      unfinished := unfinished + 1;
    }

    /** `close` with the final write that its comment promises: once the
        writer has left, whatever it left in the buffer is written as one
        more batch, so every accepted record is written and finished. */
    method CloseFlushed(clock: seq<int>)
      requires Valid() && phase == Running
      requires |msgqueue| < MsgQueueCapacity
      requires |clock| > |msgqueue|
      modifies this
      ensures Valid()
      ensures phase == Stopped && writerStopped && msgqueue == [] && unfinished == 0
      ensures tails == old(tails) && accepted == old(accepted)
      ensures old(log) <= log && old(done) <= done
      ensures buf == [] && done == accepted
    {
      Close(clock);
      if buf != [] {
        WriteToDb(buf);
        buf := [];
      }
    }
  }

  /** The finding on the methods themselves: a server built on `SampleId`
      at time 0 takes one record, and the writer buffers it without a
      write. `close` then queues the sentinel, and the writer reads it
      exactly one interval after its last write. The writer leaves with an
      empty queue and no unfinished task, and the record is still in the
      buffer: nothing was stored and no message was finished. */
  method KillLeavesRecordBuffered(m: Message, d: Json) returns (s: NsqRocksServer)
    ensures s.writerStopped && s.msgqueue == [] && s.unfinished == 0
    ensures s.accepted == [(m, d)] && s.buf == [(m, d)] && s.done == [] && s.log == []
  {
    s := new NsqRocksServer(SampleId, 0);
    var ack := s.OnNsqMsg(m, Some(d));
    s.WriterStep(0);
    s.PutKill();
    s.WriterStep(FlushInterval);
  }
}
