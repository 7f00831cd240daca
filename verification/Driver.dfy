/** The in-memory storage driver, proved to keep one store per actor. */
module Driver {
  import opened Wrappers
  import opened Events
  import opened Inbox
  import opened Storage

  type ActorId = string

  // ---------------------------------------------------------------- Event buckets

  /** The keys of an event bucket are exactly 1..head. */
  predicate Dense(bucket: map<int, EventRow>, head: int) {
    0 <= head && (forall k :: k in bucket ==> 1 <= k <= head) && (forall k :: 1 <= k <= head ==> k in bucket)
  }

  function RowsOf(bucket: map<int, EventRow>, head: int): (rows: seq<EventRow>)
    requires Dense(bucket, head)
    ensures |rows| == head
  {
    seq(head, i requires 0 <= i < head => bucket[i + 1])
  }

  datatype EventRecord = EventRecord(seqNo: int, row: EventRow)

  /** `Array.from(keys).filter(...).sort(...)`. */
  method SortedKeys(keys: set<int>, fromSeq: int) returns (sorted: seq<int>)
    ensures forall k :: k in sorted <==> k in keys && k >= fromSeq
    ensures forall i, j :: 0 <= i < j < |sorted| ==> sorted[i] < sorted[j]
  {
    var left := set k | k in keys && k >= fromSeq;
    sorted := [];
    while left != {}
      invariant forall k :: k in keys && k >= fromSeq <==> k in left || k in sorted
      invariant forall i, j :: 0 <= i < j < |sorted| ==> sorted[i] < sorted[j]
      invariant forall i, k :: 0 <= i < |sorted| && k in left ==> sorted[i] < k
      decreases left
    {
      var least := Least(left);
      sorted := sorted + [least];
      left := left - {least};
    }
  }

  method Least(s: set<int>) returns (least: int)
    requires s != {}
    ensures least in s && forall k :: k in s ==> least <= k
  {
    ghost var _ := Occupied(s);
    least :| least in s;
    var rest := s - {least};
    while rest != {}
      invariant rest <= s && least in s
      invariant forall k :: k in s ==> k in rest || least <= k
      decreases rest
    {
      ghost var _ := Occupied(rest);
      var k :| k in rest;
      rest := rest - {k};
      if k < least {
        least := k;
      }
    }
  }

  /** An ascending list of a whole integer interval is that interval. */
  lemma {:induction false} AscendingInterval(sorted: seq<int>, lo: int, hi: int)
    requires lo <= hi + 1
    requires forall k :: k in sorted <==> lo <= k <= hi
    requires forall i, j :: 0 <= i < j < |sorted| ==> sorted[i] < sorted[j]
    ensures |sorted| == hi + 1 - lo
    ensures forall i :: 0 <= i < |sorted| ==> sorted[i] == lo + i
    decreases hi + 1 - lo
  {
    assert sorted != [] ==> sorted[0] in sorted;
    if lo <= hi {
      assert lo in sorted;
      var m :| 0 <= m < |sorted| && sorted[m] == lo;
      assert m == 0;
      var rest := sorted[1..];
      forall k ensures k in rest <==> lo + 1 <= k <= hi {
        if k in rest {
          var n :| 0 <= n < |rest| && rest[n] == k;
          assert sorted[n + 1] in sorted;
        }
        if lo + 1 <= k <= hi {
          assert k in sorted;
          var n :| 0 <= n < |sorted| && sorted[n] == k;
          assert rest[n - 1] == k;
        }
      }
      AscendingInterval(rest, lo + 1, hi);
      forall i | 0 <= i < |sorted| ensures sorted[i] == lo + i {
        if i > 0 {
          assert sorted[i] == rest[i - 1];
        }
      }
    }
  }

  // ---------------------------------------------------------------- The driver

  lemma PutWithout<V>(m: map<ActorId, V>, id: ActorId, v: V)
    ensures m[id := v] - {id} == m - {id}
  {
  }

  lemma SameAt<V>(a: map<ActorId, V>, b: map<ActorId, V>, id: ActorId, o: ActorId)
    requires a - {id} == b - {id} && o != id
    ensures o in a <==> o in b
    ensures o in a ==> a[o] == b[o]
  {
    assert o in a <==> o in a - {id};
    assert o in b <==> o in b - {id};
    assert o in a ==> (a - {id})[o] == a[o];
    assert o in b ==> (b - {id})[o] == b[o];
  }

  predicate Anyone(id: ActorId) { true }

  class MemoryStorageDriver<S> {
    var actors: map<ActorId, int>
    var snapshotsByActor: map<ActorId, map<int, S>>
    var eventsByActor: map<ActorId, map<int, EventRow>>
    var headSeqByActor: map<ActorId, int>
    var inboxByActor: map<ActorId, seq<InboxRecord>>
    var inboxAckedByActor: map<ActorId, set<InboxId>>
    var inboxSeq: nat

    /** What each actor has stored, as one value; `Valid` ties it to the maps above. */
    ghost var stores: imap<ActorId, Store<S>>

    constructor ()
      ensures Valid()
      ensures forall id :: stores[id] == NoStore()
    {
      actors, snapshotsByActor, eventsByActor, headSeqByActor := map[], map[], map[], map[];
      inboxByActor, inboxAckedByActor, inboxSeq := map[], map[], 0;
      stores := imap id: ActorId | Anyone(id) :: NoStore();
    }

    /** Log seqs are exactly 1..head for every actor, and inbox ids were issued by the counter. */
    ghost predicate Numbered()
      reads this
    {
      && headSeqByActor.Keys == eventsByActor.Keys
      && (forall id :: id in eventsByActor ==> Dense(eventsByActor[id], headSeqByActor[id]))
      && (forall id :: id in inboxByActor ==> forall r :: r in inboxByActor[id] ==> r.id.n < inboxSeq)
    }

    ghost predicate Valid()
      reads this
    {
      && Numbered()
      && (forall id: ActorId :: id in stores)
      && (forall id: ActorId {:trigger Stored(id)} :: stores[id] == Stored(id))
    }

    ghost function Stored(id: ActorId): Store<S>
      requires Numbered()
      reads this
    {
      Store(
        if id in actors then Some(actors[id]) else None,
        if id in snapshotsByActor then snapshotsByActor[id] else map[],
        if id in eventsByActor then RowsOf(eventsByActor[id], headSeqByActor[id]) else [],
        InboxOf(id))
    }

    lemma Tied(id: ActorId)
      requires Valid()
      ensures stores[id] == Stored(id)
    {
    }

    /** A change at one actor's keys leaves what is stored for every other actor. */
    twostate lemma OthersKept(id: ActorId)
      requires old(Valid()) && Numbered()
      requires actors - {id} == old(actors) - {id}
      requires snapshotsByActor - {id} == old(snapshotsByActor) - {id}
      requires eventsByActor - {id} == old(eventsByActor) - {id}
      requires headSeqByActor - {id} == old(headSeqByActor) - {id}
      requires inboxByActor - {id} == old(inboxByActor) - {id}
      requires inboxAckedByActor - {id} == old(inboxAckedByActor) - {id}
      ensures forall o {:trigger Stored(o)} :: o != id ==> Stored(o) == old(stores[o])
    {
      forall o | o != id ensures Stored(o) == old(stores[o]) {
        assert old(stores[o]) == old(Stored(o));
        SameAt(actors, old(actors), id, o);
        SameAt(snapshotsByActor, old(snapshotsByActor), id, o);
        SameAt(eventsByActor, old(eventsByActor), id, o);
        SameAt(headSeqByActor, old(headSeqByActor), id, o);
        SameAt(inboxByActor, old(inboxByActor), id, o);
        SameAt(inboxAckedByActor, old(inboxAckedByActor), id, o);
      }
    }

    function InboxOf(id: ActorId): Inbox
      reads this
    {
      Inbox(if id in inboxByActor then inboxByActor[id] else [],
            if id in inboxAckedByActor then inboxAckedByActor[id] else {})
    }

    method RegisterActor(id: ActorId)
      requires Valid()
      modifies this`actors, this`stores
      ensures Valid() && stores == old(stores)[id := Register(old(stores[id]))]
    {
      Tied(id);
      actors := actors[id := 0];
      stores := stores[id := Register(stores[id])];
      OthersKept(id);
      assert Stored(id) == stores[id];
    }

    method LoadActorFence(id: ActorId) returns (fence: int)
      requires Valid()
      ensures fence == FenceOf(stores[id])
    {
      Tied(id);
      fence := if id in actors then actors[id] else 0;
    }

    method BumpActorFence(id: ActorId, expected: int) returns (r: Result<int>)
      requires Valid()
      modifies this`actors, this`stores
      ensures Valid() && stores == old(stores)[id := Bump(old(stores[id]), expected)]
      ensures r == var actual := old(FenceOf(stores[id]));
                   if actual == expected then Ok(expected + 1) else StaleFence(expected, actual)
    {
      Tied(id);
      var actual := if id in actors then actors[id] else 0;
      if actual != expected {
        return StaleFence(expected, actual);
      }
      var next := expected + 1;
      if id in actors {
        actors := actors[id := next];
      }
      stores := stores[id := Bump(stores[id], expected)];
      OthersKept(id);
      assert Stored(id) == stores[id];
      return Ok(next);
    }

    method AssertFence(id: ActorId, expected: Option<int>) returns (r: Result<()>)
      requires Valid()
      ensures r.Ok? <==> Passes(stores[id], expected)
      ensures !r.Ok? ==> expected.Some? && r == StaleFence(expected.value, FenceOf(stores[id]))
    {
      Tied(id);
      if expected.None? {
        return Ok(());
      }
      var actual := if id in actors then actors[id] else 0;
      return if actual != expected.value then StaleFence(expected.value, actual) else Ok(());
    }

    method LoadSnapshot(id: ActorId) returns (r: Option<(int, S)>)
      requires Valid()
      ensures var st := stores[id];
        r == if Latest(st).None? then None else Some((Latest(st).value, st.snaps[Latest(st).value]))
    {
      Tied(id);
      ghost var st := stores[id];
      if id !in snapshotsByActor || id !in actors {
        return None;
      }
      var snaps := snapshotsByActor[id];
      var best: Option<int> := None;
      var keys := snaps.Keys;
      while keys != {}
        invariant keys <= snaps.Keys
        invariant best.None? ==> forall k :: k in snaps ==> k in keys || k < 0
        invariant best.Some? ==>
                    best.value in snaps && 0 <= best.value && forall k :: k in snaps ==> k in keys || k <= best.value
        decreases keys
      {
        ghost var _ := Occupied(keys);
        var k :| k in keys;
        keys := keys - {k};
        if k < 0 {
          continue;
        }
        if best.None? || k > best.value {
          best := Some(k);
        }
      }
      if best.None? {
        return None;
      }
      assert IsLatest(st.snaps, best.value);
      return Some((best.value, snaps[best.value]));
    }

    method SaveSnapshot(id: ActorId, seqNo: int, state: S, expected: Option<int>) returns (r: Result<()>)
      requires Valid()
      modifies this`snapshotsByActor, this`stores
      ensures Valid() && stores == old(stores)[id := Save(old(stores[id]), seqNo, state, expected)]
      ensures r.Ok? <==> Passes(old(stores[id]), expected)
    {
      Tied(id);
      r := AssertFence(id, expected);
      if !r.Ok? {
        return;
      }
      var bucket := if id in snapshotsByActor then snapshotsByActor[id] else map[];
      snapshotsByActor := snapshotsByActor[id := bucket[seqNo := state]];
      stores := stores[id := Save(stores[id], seqNo, state, expected)];
      OthersKept(id);
      assert Stored(id) == stores[id];
    }

    method AppendEvents(id: ActorId, events: seq<EventRow>, expected: Option<int>) returns (r: Result<int>)
      requires Valid()
      modifies this`eventsByActor, this`headSeqByActor, this`stores
      ensures Valid()
      ensures stores == if events == [] then old(stores) else old(stores)[id := AppendRows(old(stores[id]), events, expected)]
      ensures r.Ok? <==> Passes(old(stores[id]), expected) && (events == [] || old(stores[id]).fence.Some?)
      ensures r.Ok? ==> r.value == |stores[id].log|
    {
      Tied(id);
      var fenced := AssertFence(id, expected);
      if !fenced.Ok? {
        return StaleFence(fenced.expected, fenced.actual);
      }
      var head := if id in headSeqByActor then headSeqByActor[id] else 0;
      if events == [] {
        return Ok(head);
      }
      if id !in actors {
        return UnknownActor;
      }
      var bucket := if id in eventsByActor then eventsByActor[id] else map[];
      var seqNo;
      bucket, seqNo := Number(bucket, head, events);
      PutEvents(id, bucket, seqNo);
      return Ok(seqNo);
    }

    method PutEvents(id: ActorId, bucket: map<int, EventRow>, head: int)
      requires Valid() && Dense(bucket, head)
      modifies this`eventsByActor, this`headSeqByActor, this`stores
      ensures Valid() && stores == old(stores)[id := old(stores[id]).(log := RowsOf(bucket, head))]
    {
      Tied(id);
      PutWithout(eventsByActor, id, bucket);
      PutWithout(headSeqByActor, id, head);
      eventsByActor := eventsByActor[id := bucket];
      headSeqByActor := headSeqByActor[id := head];
      stores := stores[id := stores[id].(log := RowsOf(bucket, head))];
      OthersKept(id);
    }

    method HeadEventSeq(id: ActorId) returns (head: int)
      requires Valid()
      ensures head == |stores[id].log|
    {
      Tied(id);
      head := if id in headSeqByActor then headSeqByActor[id] else 0;
    }

    method ReadEvents(id: ActorId, fromSeq: int) returns (records: seq<EventRecord>)
      requires Valid()
      ensures var st := stores[id];
        && |records| == |Tail(st, fromSeq)|
        && forall i :: 0 <= i < |records| ==>
             records[i] == EventRecord(|st.log| - |records| + 1 + i, Tail(st, fromSeq)[i])
    {
      Tied(id);
      records := [];
      if id !in eventsByActor || id !in actors {
        return;
      }
      records := ReadBucket(eventsByActor[id], headSeqByActor[id], fromSeq);
      ReadIsTail(stores[id], fromSeq, records);
    }

    method AppendInbox(id: ActorId, now: int, kind: string, payload: Value) returns (inboxId: InboxId)
      requires Valid()
      modifies this`inboxByActor, this`inboxSeq, this`stores
      ensures Valid() && inboxSeq == old(inboxSeq) + 1
      ensures inboxId == InboxId(now, old(inboxSeq))
      ensures var st := old(stores[id]);
        stores == old(stores)[id := st.(inbox := Append(st.inbox, InboxRecord(inboxId, kind, payload)))]
    {
      Tied(id);
      inboxId := InboxId(now, inboxSeq);
      inboxSeq := inboxSeq + 1;
      var bucket := if id in inboxByActor then inboxByActor[id] else [];
      inboxByActor := inboxByActor[id := bucket + [InboxRecord(inboxId, kind, payload)]];
      ghost var st := stores[id];
      stores := stores[id := st.(inbox := Append(st.inbox, InboxRecord(inboxId, kind, payload)))];
      OthersKept(id);
      assert Stored(id) == stores[id];
    }

    method ReadPendingInbox(id: ActorId, limit: int) returns (out: seq<InboxRecord>)
      requires Valid()
      ensures out == Read(stores[id].inbox, limit)
    {
      Tied(id);
      out := FirstPending(InboxOf(id), limit);
    }

    method AckInbox(id: ActorId, entryIds: seq<InboxId>)
      requires Valid()
      modifies this`inboxByActor, this`inboxAckedByActor, this`stores
      ensures Valid()
      ensures var st := old(stores[id]);
        stores == old(stores)[id := st.(inbox := Ack(st.inbox, set e | e in entryIds))]
    {
      Tied(id);
      var i := InboxOf(id);
      var acked := AddAll(i.acked, entryIds);
      var kept, marks := Compact(i.bucket, acked);
      PutInbox(id, kept, marks);
    }

    method PutInbox(id: ActorId, bucket: seq<InboxRecord>, acked: set<InboxId>)
      requires Valid() && (id !in inboxByActor ==> bucket == [])
      requires id in inboxByActor ==> forall r :: r in bucket ==> r in inboxByActor[id]
      modifies this`inboxByActor, this`inboxAckedByActor, this`stores
      ensures Valid() && stores == old(stores)[id := old(stores[id]).(inbox := Inbox(bucket, acked))]
    {
      Tied(id);
      PutWithout(inboxAckedByActor, id, acked);
      PutWithout(inboxByActor, id, bucket);
      inboxAckedByActor := inboxAckedByActor[id := acked];
      if id in inboxByActor {
        inboxByActor := inboxByActor[id := bucket];
      }
      stores := stores[id := stores[id].(inbox := Inbox(bucket, acked))];
      OthersKept(id);
    }

    method PendingInboxCount(id: ActorId) returns (n: nat)
      requires Valid()
      ensures n == |Pending(stores[id].inbox.bucket, stores[id].inbox.acked)|
    {
      Tied(id);
      if id !in inboxByActor {
        return 0;
      }
      var bucket := inboxByActor[id];
      if id !in inboxAckedByActor || inboxAckedByActor[id] == {} {
        PendingWithoutMarks(bucket);
        return |bucket|;
      }
      var acked := inboxAckedByActor[id];
      n := CountPending(bucket, acked);
    }
  }

  // ---------------------------------------------------------------- The driver's loops

  lemma {:induction false} PendingWithoutMarks(bucket: seq<InboxRecord>)
    ensures Pending(bucket, {}) == bucket
  {
    if bucket != [] {
      PendingWithoutMarks(bucket[1..]);
    }
  }

  /** Gives each event the next seq after `head`. */
  method Number(bucket: map<int, EventRow>, head: int, events: seq<EventRow>)
      returns (longer: map<int, EventRow>, seqNo: int)
    requires Dense(bucket, head)
    ensures seqNo == head + |events| && Dense(longer, seqNo)
    ensures RowsOf(longer, seqNo) == RowsOf(bucket, head) + events
  {
    longer, seqNo := bucket, head;
    for i := 0 to |events|
      invariant seqNo == head + i && Dense(longer, seqNo)
      invariant RowsOf(longer, seqNo) == RowsOf(bucket, head) + events[..i]
    {
      ghost var rows := RowsOf(longer, seqNo);
      seqNo := seqNo + 1;
      longer := longer[seqNo := events[i]];
      assert RowsOf(longer, seqNo) == rows + [events[i]];
    }
    assert events[..|events|] == events;
  }

  method FirstPending(i: Inbox, limit: int) returns (out: seq<InboxRecord>)
    ensures out == Read(i, limit)
  {
    out := [];
    for k := 0 to |i.bucket|
      invariant out == Pending(i.bucket[..k], i.acked)
      invariant |out| < limit || out == []
    {
      PendingSnoc(i.bucket, k, i.acked);
      if i.bucket[k].id in i.acked {
        continue;
      }
      out := out + [i.bucket[k]];
      if |out| >= limit {
        assert i.bucket == i.bucket[..k + 1] + i.bucket[k + 1..];
        PendingConcat(i.bucket[..k + 1], i.bucket[k + 1..], i.acked);
        return;
      }
    }
    assert i.bucket[..|i.bucket|] == i.bucket;
  }

  method CountPending(bucket: seq<InboxRecord>, acked: set<InboxId>) returns (n: nat)
    ensures n == |Pending(bucket, acked)|
  {
    n := 0;
    for k := 0 to |bucket|
      invariant n == |Pending(bucket[..k], acked)|
    {
      PendingSnoc(bucket, k, acked);
      if bucket[k].id !in acked {
        n := n + 1;
      }
    }
    assert bucket[..|bucket|] == bucket;
  }

  lemma PendingSnoc(bucket: seq<InboxRecord>, k: nat, acked: set<InboxId>)
    requires k < |bucket|
    ensures Pending(bucket[..k + 1], acked) ==
            Pending(bucket[..k], acked) + if bucket[k].id in acked then [] else [bucket[k]]
  {
    PendingConcat(bucket[..k], [bucket[k]], acked);
    assert bucket[..k + 1] == bucket[..k] + [bucket[k]];
  }

  /** The records are the rows of the log from `fromSeq` on, each with its seq. */
  predicate Reads(log: seq<EventRow>, fromSeq: int, records: seq<EventRecord>) {
    var lo := if fromSeq <= 1 then 1 else if fromSeq > |log| then |log| + 1 else fromSeq;
    && |records| == |log| + 1 - lo
    && forall i :: 0 <= i < |records| ==> records[i] == EventRecord(lo + i, log[lo + i - 1])
  }

  lemma ReadIsTail<S>(st: Store<S>, fromSeq: int, records: seq<EventRecord>)
    requires st.fence.Some? && Reads(st.log, fromSeq, records)
    ensures |records| == |Tail(st, fromSeq)|
    ensures forall i :: 0 <= i < |records| ==>
              records[i] == EventRecord(|st.log| - |records| + 1 + i, Tail(st, fromSeq)[i])
  {
  }

  /** Keys filtered, sorted and looked up. */
  method ReadBucket(bucket: map<int, EventRow>, head: int, fromSeq: int) returns (records: seq<EventRecord>)
    requires Dense(bucket, head)
    ensures Reads(RowsOf(bucket, head), fromSeq, records)
  {
    var keys := SortedKeys(bucket.Keys, fromSeq);
    AscendingInterval(keys, if fromSeq <= 1 then 1 else if fromSeq > head then head + 1 else fromSeq, head);
    records := Look(bucket, keys);
  }

  method Look(bucket: map<int, EventRow>, keys: seq<int>) returns (records: seq<EventRecord>)
    requires forall i :: 0 <= i < |keys| ==> keys[i] in bucket
    ensures |records| == |keys|
    ensures forall j :: 0 <= j < |keys| ==> records[j] == EventRecord(keys[j], bucket[keys[j]])
  {
    records := [];
    for i := 0 to |keys|
      invariant |records| == i
      invariant forall j :: 0 <= j < i ==> records[j] == EventRecord(keys[j], bucket[keys[j]])
    {
      records := records + [EventRecord(keys[i], bucket[keys[i]])];
    }
  }

  method AddAll(acked: set<InboxId>, entryIds: seq<InboxId>) returns (more: set<InboxId>)
    ensures more == acked + set e | e in entryIds
  {
    more := acked;
    for k := 0 to |entryIds|
      invariant more == acked + set e | e in entryIds[..k]
    {
      more := more + {entryIds[k]};
    }
    assert entryIds[..|entryIds|] == entryIds;
  }

  /** The compaction loop of `ackInbox`: find the acknowledged prefix, forget its marks, splice it off. */
  method Compact(bucket: seq<InboxRecord>, acked: set<InboxId>) returns (kept: seq<InboxRecord>, marks: set<InboxId>)
    ensures var drop := Acknowledged(bucket, acked);
      kept == bucket[drop..] && marks == acked - Ids(bucket[..drop])
  {
    var drop := 0;
    assert bucket[0..] == bucket;
    while drop < |bucket| && bucket[drop].id in acked
      invariant 0 <= drop <= |bucket|
      invariant Acknowledged(bucket, acked) == drop + Acknowledged(bucket[drop..], acked)
    {
      assert bucket[drop..][1..] == bucket[drop + 1..];
      drop := drop + 1;
    }
    marks := acked;
    for i := 0 to drop
      invariant marks == acked - Ids(bucket[..i])
    {
      assert bucket[..i + 1] == bucket[..i] + [bucket[i]];
      assert Ids(bucket[..i + 1]) == Ids(bucket[..i]) + {bucket[i].id};
      marks := marks - {bucket[i].id};
    }
    kept := bucket[drop..];
  }
}
