/**
 * What `_write_to_db` does with one buffer: it turns the buffered
 * `(msg, data)` items into `(key, data)` pairs, writes them with one
 * `put_many`, and then finishes every message. The storage table and the
 * finish calls are observed through one ordered log of events.
 */
module BatchWrite {
  import opened JsonValue
  import opened StorageKey

  newtype byte = x: int | 0 <= x < 256

  /** A message delivered by the NSQ reader: an id standing for the
      acknowledgment handle, and the raw body. */
  datatype Message = Message(id: nat, body: seq<byte>)

  /** One buffered `(msg, data)` item. */
  type Item = (Message, Json)

  /** One `(key, value)` pair handed to `put_many`. */
  type Pair = (string, Json)

  /** What the writer does to the outside world, in order: one bulk write
      of the table, and one `finish` of a message. */
  datatype Event = PutMany(pairs: seq<Pair>) | Finish(msg: Message)

  function Msgs(items: seq<Item>): seq<Message>
  {
    seq(|items|, i requires 0 <= i < |items| => items[i].0)
  }

  function Datas(items: seq<Item>): seq<Json>
  {
    seq(|items|, i requires 0 <= i < |items| => items[i].1)
  }

  function Values(pairs: seq<Pair>): seq<Json>
  {
    seq(|pairs|, i requires 0 <= i < |pairs| => pairs[i].1)
  }

  /** Each item's record under the key at the same position. */
  function Keyed(keys: seq<string>, items: seq<Item>): (r: seq<Pair>)
    requires |keys| == |items|
  {
    seq(|items|, i requires 0 <= i < |items| => (keys[i], items[i].1))
  }

  /** The list `bulk_data` that the loop over the buffer builds, given the
      suffix drawn for each item. */
  function BulkData(items: seq<Item>, suffixes: seq<string>): (r: seq<Pair>)
    requires |suffixes| == |items|
    ensures |r| == |items|
  {
    if |items| == 0 then []
    else
      var n := |items| - 1;
      BulkData(items[..n], suffixes[..n]) + [(DeriveKey(items[n].1, suffixes[n]), items[n].1)]
  }

  /** The loop of `_write_to_db`: `messages` and `bulk_data`, built item by
      item. `suffixes[i]` is the `uuid1().hex` drawn for item `i`. */
  method BuildBatch(items: seq<Item>, suffixes: seq<string>) returns (messages: seq<Message>, bulk: seq<Pair>)
    requires |suffixes| == |items|
    ensures messages == Msgs(items)
    ensures bulk == BulkData(items, suffixes)
  {
    messages, bulk := [], [];
    var i := 0;
    while i < |items|
      invariant 0 <= i <= |items|
      invariant messages == Msgs(items[..i])
      invariant bulk == BulkData(items[..i], suffixes[..i])
    {
      var msg, data := items[i].0, items[i].1;
      messages := messages + [msg];
      var key := DeriveKey(data, suffixes[i]);
      bulk := bulk + [(key, data)];
      assert Msgs(items[..i + 1]) == Msgs(items[..i]) + [msg];
      BulkDataStep(items, suffixes, i);
      i := i + 1;
    }
    assert items[..i] == items;
    assert suffixes[..i] == suffixes;
  }

  lemma BulkDataStep(items: seq<Item>, suffixes: seq<string>, i: nat)
    requires |suffixes| == |items| && i < |items|
    ensures BulkData(items[..i + 1], suffixes[..i + 1])
            == BulkData(items[..i], suffixes[..i]) + [(DeriveKey(items[i].1, suffixes[i]), items[i].1)]
  {
    assert items[..i + 1][..i] == items[..i];
    assert suffixes[..i + 1][..i] == suffixes[..i];
  }

  /** Pair `k` of the bulk write is item `k`'s key and its data, unchanged. */
  lemma {:induction false} BulkDataAt(items: seq<Item>, suffixes: seq<string>, k: nat)
    requires |suffixes| == |items| && k < |items|
    ensures BulkData(items, suffixes)[k] == (DeriveKey(items[k].1, suffixes[k]), items[k].1)
  {
    var n := |items| - 1;
    if k < n {
      BulkDataAt(items[..n], suffixes[..n], k);
    }
  }

  /** The key of each item of a batch, given the suffix drawn for it. */
  function BatchKeys(items: seq<Item>, suffixes: seq<string>): seq<string>
    requires |suffixes| == |items|
  {
    seq(|items|, i requires 0 <= i < |items| => DeriveKey(items[i].1, suffixes[i]))
  }

  /** The bulk write is the buffer, keyed by the derived keys. */
  lemma BulkDataKeyed(items: seq<Item>, suffixes: seq<string>)
    requires |suffixes| == |items|
    ensures BulkData(items, suffixes) == Keyed(BatchKeys(items, suffixes), items)
  {
    forall k | 0 <= k < |items| {
      BulkDataAt(items, suffixes, k);
    }
  }

  /** The values written are the buffered records, in buffer order. */
  lemma BulkValues(items: seq<Item>, suffixes: seq<string>)
    requires |suffixes| == |items|
    ensures Values(BulkData(items, suffixes)) == Datas(items)
  {
    forall k | 0 <= k < |items|
      ensures Values(BulkData(items, suffixes))[k] == Datas(items)[k]
    {
      BulkDataAt(items, suffixes, k);
    }
  }

  /** Distinct separator-free suffixes give pairwise distinct keys, so
      nothing in one bulk write overwrites anything else in it. */
  lemma BulkKeysDistinct(items: seq<Item>, suffixes: seq<string>)
    requires |suffixes| == |items|
    requires forall i :: 0 <= i < |suffixes| ==> NoSeparator(suffixes[i])
    requires forall i, j :: 0 <= i < j < |suffixes| ==> suffixes[i] != suffixes[j]
    ensures forall i, j :: 0 <= i < j < |items| ==>
              BulkData(items, suffixes)[i].0 != BulkData(items, suffixes)[j].0
  {
    forall i, j | 0 <= i < j < |items|
      ensures BulkData(items, suffixes)[i].0 != BulkData(items, suffixes)[j].0
    {
      BulkDataAt(items, suffixes, i);
      BulkDataAt(items, suffixes, j);
      if BulkData(items, suffixes)[i].0 == BulkData(items, suffixes)[j].0 {
        KeyDeterminesSuffix(items[i].1, suffixes[i], items[j].1, suffixes[j]);
      }
    }
  }

  /** Every pair written, over a whole log, in order. */
  function Stored(log: seq<Event>): seq<Pair>
  {
    if log == [] then []
    else (if log[0].PutMany? then log[0].pairs else []) + Stored(log[1..])
  }

  /** Every message finished, over a whole log, in order. */
  function Finished(log: seq<Event>): seq<Message>
  {
    if log == [] then []
    else (if log[0].Finish? then [log[0].msg] else []) + Finished(log[1..])
  }

  lemma {:induction false} LogAppend(a: seq<Event>, b: seq<Event>)
    ensures Stored(a + b) == Stored(a) + Stored(b)
    ensures Finished(a + b) == Finished(a) + Finished(b)
  {
    if a == [] {
      assert a + b == b;
    } else {
      assert (a + b)[1..] == a[1..] + b;
      LogAppend(a[1..], b);
    }
  }

  /** `finish_messages`: one finish per message, in order. */
  function Finishes(msgs: seq<Message>): seq<Event>
  {
    seq(|msgs|, i requires 0 <= i < |msgs| => Finish(msgs[i]))
  }

  lemma {:induction false} FinishesOnlyFinish(msgs: seq<Message>)
    ensures Stored(Finishes(msgs)) == []
    ensures Finished(Finishes(msgs)) == msgs
  {
    if msgs != [] {
      assert Finishes(msgs)[1..] == Finishes(msgs[1..]);
      FinishesOnlyFinish(msgs[1..]);
    }
  }

  /** No prefix of the log has finished more messages than it has stored
      records: a message is finished only after its record was written. */
  ghost predicate StoredFirst(log: seq<Event>)
  {
    forall p :: 0 <= p <= |log| ==> |Finished(log[..p])| <= |Stored(log[..p])|
  }

  /** What a prefix of the log has stored and finished is a prefix of what
      the whole log has. */
  lemma LogPrefix(log: seq<Event>, p: nat)
    requires p <= |log|
    ensures Stored(log[..p]) <= Stored(log)
    ensures Finished(log[..p]) <= Finished(log)
  {
    assert log == log[..p] + log[p..];
    LogAppend(log[..p], log[p..]);
  }

  /** A bulk write followed by no more finishes than it stored pairs keeps
      every finish behind its write. */
  lemma {:induction false} StoredFirstAfterBatch(log: seq<Event>, pairs: seq<Pair>, msgs: seq<Message>)
    requires StoredFirst(log)
    requires |msgs| <= |pairs|
    ensures StoredFirst(log + [PutMany(pairs)] + Finishes(msgs))
  {
    var log' := log + [PutMany(pairs)] + Finishes(msgs);
    assert log[..|log|] == log;
    assert Stored([PutMany(pairs)]) == pairs && Finished([PutMany(pairs)]) == [] by {
      assert [PutMany(pairs)][1..] == [];
    }
    LogAppend(log, [PutMany(pairs)]);
    forall p | 0 <= p <= |log'|
      ensures |Finished(log'[..p])| <= |Stored(log'[..p])|
    {
      if p <= |log| {
        assert log'[..p] == log[..p];
      } else {
        var j := p - |log| - 1;
        assert log'[..p] == (log + [PutMany(pairs)]) + Finishes(msgs[..j]);
        LogAppend(log + [PutMany(pairs)], Finishes(msgs[..j]));
        FinishesOnlyFinish(msgs[..j]);
      }
    }
  }

  /** The events of one `_write_to_db`: the bulk write first, then the
      finishes it scheduled. */
  function BatchEvents(items: seq<Item>, suffixes: seq<string>): seq<Event>
    requires |suffixes| == |items|
  {
    [PutMany(BulkData(items, suffixes))] + Finishes(Msgs(items))
  }

  /** One batch stores one pair per item and finishes every item's
      message exactly once, in buffer order, and no finish comes before
      the bulk write. */
  lemma BatchEventsEffect(items: seq<Item>, suffixes: seq<string>)
    requires |suffixes| == |items|
    ensures Stored(BatchEvents(items, suffixes)) == BulkData(items, suffixes)
    ensures Finished(BatchEvents(items, suffixes)) == Msgs(items)
    ensures BatchEvents(items, suffixes)[0].PutMany?
    ensures forall i :: 1 <= i < |BatchEvents(items, suffixes)| ==> BatchEvents(items, suffixes)[i].Finish?
  {
    var e := BatchEvents(items, suffixes);
    assert e[1..] == Finishes(Msgs(items));
    FinishesOnlyFinish(Msgs(items));
  }
}
