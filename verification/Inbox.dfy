/** The durable inbox of one actor, with the compaction that bounds its memory. */
module Inbox {
  import opened Wrappers
  import opened Events

  /** `${now}-${inboxSeq}`: the counter alone makes an id fresh. */
  datatype InboxId = InboxId(now: int, n: nat)

  datatype InboxRecord = InboxRecord(id: InboxId, kind: string, payload: Value)

  /** What the driver keeps: the records not yet compacted away, and acks that still matter. */
  datatype Inbox = Inbox(bucket: seq<InboxRecord>, acked: set<InboxId>)

  const NoInbox := Inbox([], {})

  function Pending(bucket: seq<InboxRecord>, acked: set<InboxId>): seq<InboxRecord> {
    if bucket == [] then []
    else (if bucket[0].id in acked then [] else [bucket[0]]) + Pending(bucket[1..], acked)
  }

  /** The length of the acknowledged prefix. */
  function Acknowledged(bucket: seq<InboxRecord>, acked: set<InboxId>): (n: nat)
    ensures n <= |bucket|
  {
    if bucket == [] || bucket[0].id !in acked then 0 else 1 + Acknowledged(bucket[1..], acked)
  }

  function Ids(records: seq<InboxRecord>): set<InboxId> {
    set r | r in records :: r.id
  }

  function Append(i: Inbox, r: InboxRecord): Inbox { i.(bucket := i.bucket + [r]) }

  /** Marks the ids, then drops the acknowledged prefix together with its marks. */
  function Ack(i: Inbox, ids: set<InboxId>): Inbox {
    var acked := i.acked + ids;
    var drop := Acknowledged(i.bucket, acked);
    Inbox(i.bucket[drop..], acked - Ids(i.bucket[..drop]))
  }

  /** The loop pushes before it tests the limit, so a limit below one still returns one record. */
  function Read(i: Inbox, limit: int): seq<InboxRecord> {
    var pending := Pending(i.bucket, i.acked);
    var n := if limit < 1 then 1 else limit;
    if |pending| <= n then pending else pending[..n]
  }

  // ---------------------------------------------------------------- The simple inbox

  /** Everything ever appended and everything ever acked: nothing is forgotten. */
  datatype History = History(all: seq<InboxRecord>, acked: set<InboxId>)

  datatype Op = Arrive(now: int, kind: string, payload: Value) | Acks(ids: set<InboxId>)

  function NewRecord(next: nat, op: Op): InboxRecord
    requires op.Arrive?
  {
    InboxRecord(InboxId(op.now, next), op.kind, op.payload)
  }

  function Remember(h: History, op: Op): History {
    match op
    case Arrive(_, _, _) => h.(all := h.all + [NewRecord(|h.all|, op)])
    case Acks(ids) => h.(acked := h.acked + ids)
  }

  function Keep(i: Inbox, next: nat, op: Op): Inbox {
    match op
    case Arrive(_, _, _) => Append(i, NewRecord(next, op))
    case Acks(ids) => Ack(i, ids)
  }

  function RunSimple(ops: seq<Op>): History {
    if ops == [] then History([], {}) else Remember(RunSimple(ops[..|ops| - 1]), ops[|ops| - 1])
  }

  /** The compacting inbox over the same run, for one actor that owns the id counter. */
  function RunCompacting(ops: seq<Op>): Inbox {
    if ops == [] then NoInbox
    else
      var before := ops[..|ops| - 1];
      Keep(RunCompacting(before), |RunSimple(before).all|, ops[|ops| - 1])
  }

  // ---------------------------------------------------------------- Refinement

  predicate Distinct(records: seq<InboxRecord>) {
    forall i, j :: 0 <= i < j < |records| ==> records[i].id != records[j].id
  }

  /** The first `dropped` records of the history were acked and compacted; the rest agree on acks. */
  ghost predicate Refines(i: Inbox, h: History, dropped: nat) {
    && dropped <= |h.all|
    && i.bucket == h.all[dropped..]
    && (forall k :: 0 <= k < dropped ==> h.all[k].id in h.acked)
    && i.acked <= h.acked
    && (forall k :: dropped <= k < |h.all| ==> (h.all[k].id in i.acked <==> h.all[k].id in h.acked))
    && Distinct(h.all)
  }

  lemma {:induction false} PendingConcat(a: seq<InboxRecord>, b: seq<InboxRecord>, acked: set<InboxId>)
    ensures Pending(a + b, acked) == Pending(a, acked) + Pending(b, acked)
  {
    if a == [] {
      assert a + b == b;
    } else {
      var head := if a[0].id in acked then [] else [a[0]];
      calc {
        Pending(a + b, acked);
        { assert (a + b)[0] == a[0] && (a + b)[1..] == a[1..] + b; }
        head + Pending(a[1..] + b, acked);
        { PendingConcat(a[1..], b, acked); }
        head + (Pending(a[1..], acked) + Pending(b, acked));
        (head + Pending(a[1..], acked)) + Pending(b, acked);
      }
    }
  }

  lemma {:induction false} PendingOfAcked(a: seq<InboxRecord>, acked: set<InboxId>)
    requires forall k :: 0 <= k < |a| ==> a[k].id in acked
    ensures Pending(a, acked) == []
  {
    if a != [] {
      PendingOfAcked(a[1..], acked);
    }
  }

  lemma {:induction false} PendingDependsOnBucket(a: seq<InboxRecord>, s: set<InboxId>, t: set<InboxId>)
    requires forall k :: 0 <= k < |a| ==> (a[k].id in s <==> a[k].id in t)
    ensures Pending(a, s) == Pending(a, t)
  {
    if a != [] {
      PendingDependsOnBucket(a[1..], s, t);
    }
  }

  /** A refining inbox has the same pending list as the whole history. */
  lemma RefinesPending(i: Inbox, h: History, dropped: nat)
    requires Refines(i, h, dropped)
    ensures Pending(i.bucket, i.acked) == Pending(h.all, h.acked)
  {
    var head, tail := h.all[..dropped], h.all[dropped..];
    assert h.all == head + tail;
    PendingConcat(head, tail, h.acked);
    PendingOfAcked(head, h.acked);
    forall k | 0 <= k < |tail| ensures tail[k].id in i.acked <==> tail[k].id in h.acked {
      assert tail[k] == h.all[dropped + k];
    }
    PendingDependsOnBucket(tail, i.acked, h.acked);
  }

  lemma {:induction false} AcknowledgedPrefix(bucket: seq<InboxRecord>, acked: set<InboxId>)
    ensures forall k :: 0 <= k < Acknowledged(bucket, acked) ==> bucket[k].id in acked
    ensures Acknowledged(bucket, acked) < |bucket| ==> bucket[Acknowledged(bucket, acked)].id !in acked
  {
    if bucket != [] && bucket[0].id in acked {
      AcknowledgedPrefix(bucket[1..], acked);
      var n := Acknowledged(bucket[1..], acked);
      forall k | 0 <= k < n + 1 ensures bucket[k].id in acked {
        if k > 0 {
          assert bucket[k] == bucket[1..][k - 1];
        }
      }
    }
  }

  lemma AckRefines(i: Inbox, h: History, dropped: nat, ids: set<InboxId>)
    requires Refines(i, h, dropped)
    ensures Refines(Ack(i, ids), Remember(h, Acks(ids)), dropped + Acknowledged(i.bucket, i.acked + ids))
  {
    var acked := i.acked + ids;
    var drop := Acknowledged(i.bucket, acked);
    AcknowledgedPrefix(i.bucket, acked);
    var d := dropped + drop;
    var compacted := Ack(i, ids);
    assert compacted.bucket == h.all[d..];
    forall k | 0 <= k < d ensures h.all[k].id in h.acked + ids {
      if k >= dropped {
        assert h.all[k] == i.bucket[k - dropped];
      }
    }
    forall k | d <= k < |h.all| ensures h.all[k].id in compacted.acked <==> h.all[k].id in h.acked + ids {
      forall m | 0 <= m < drop ensures i.bucket[m].id != h.all[k].id {
        assert i.bucket[m] == h.all[dropped + m];
      }
      assert h.all[k] == i.bucket[k - dropped];
    }
  }

  lemma AppendRefines(i: Inbox, h: History, dropped: nat, r: InboxRecord)
    requires Refines(i, h, dropped)
    requires forall k :: 0 <= k < |h.all| ==> h.all[k].id != r.id
    requires r.id in i.acked <==> r.id in h.acked
    ensures Refines(Append(i, r), h.(all := h.all + [r]), dropped)
  {
    assert (h.all + [r])[dropped..] == h.all[dropped..] + [r];
  }

  lemma {:induction false} IssuedInOrder(ops: seq<Op>)
    ensures forall k :: 0 <= k < |RunSimple(ops).all| ==> RunSimple(ops).all[k].id.n == k
  {
    if ops != [] {
      IssuedInOrder(ops[..|ops| - 1]);
    }
  }

  /** Marks for ids not yet issued survive every compaction. */
  lemma {:induction false} FutureMarksKept(ops: seq<Op>, id: InboxId)
    requires id.n >= |RunSimple(ops).all|
    ensures id in RunCompacting(ops).acked <==> id in RunSimple(ops).acked
  {
    if ops != [] {
      var before, last := ops[..|ops| - 1], ops[|ops| - 1];
      FutureMarksKept(before, id);
      if last.Acks? {
        var i := RunCompacting(before);
        var dropped := RunRefines(before);
        var drop := Acknowledged(i.bucket, i.acked + last.ids);
        IssuedInOrder(before);
        forall m | 0 <= m < drop ensures i.bucket[m].id != id {
          assert i.bucket[m] == RunSimple(before).all[dropped + m];
        }
      }
    }
  }

  /** The compacting inbox refines the simple one over every run. */
  lemma {:induction false} RunRefines(ops: seq<Op>) returns (dropped: nat)
    ensures Refines(RunCompacting(ops), RunSimple(ops), dropped)
    decreases ops, 0
  {
    if ops == [] {
      dropped := 0;
    } else {
      var before, last := ops[..|ops| - 1], ops[|ops| - 1];
      var i, h := RunCompacting(before), RunSimple(before);
      var d := RunRefines(before);
      if last.Acks? {
        AckRefines(i, h, d, last.ids);
        dropped := d + Acknowledged(i.bucket, i.acked + last.ids);
      } else {
        IssuedInOrder(before);
        FutureMarksKept(before, NewRecord(|h.all|, last).id);
        AppendRefines(i, h, d, NewRecord(|h.all|, last));
        dropped := d;
      }
    }
  }

  /**
   * Over any run, reading the compacted inbox gives the oldest-first prefix of everything appended
   * and not acked, and its count is the length of that whole list.
   */
  lemma CompactionIsInvisible(ops: seq<Op>, limit: int)
    ensures var h := RunSimple(ops);
      var pending := Pending(h.all, h.acked);
      && Read(RunCompacting(ops), limit) <= pending
      && |Read(RunCompacting(ops), limit)| ==
           (if |pending| <= limit || |pending| <= 1 then |pending| else if limit < 1 then 1 else limit)
      && |Pending(RunCompacting(ops).bucket, RunCompacting(ops).acked)| == |pending|
  {
    var d := RunRefines(ops);
    RefinesPending(RunCompacting(ops), RunSimple(ops), d);
  }

  /** Acks that only name issued ids never hide a record that is still to come. */
  ghost predicate AcksIssued(ops: seq<Op>) {
    forall k :: 0 <= k < |ops| && ops[k].Acks? ==>
      forall id :: id in ops[k].ids ==> id.n < |RunSimple(ops[..k]).all|
  }

  lemma {:induction false} SimpleGrows(ops: seq<Op>, k: nat)
    requires k <= |ops|
    ensures |RunSimple(ops[..k]).all| <= |RunSimple(ops).all|
    decreases |ops|
  {
    if k == |ops| {
      assert ops[..k] == ops;
    } else {
      SimpleGrows(ops[..|ops| - 1], k);
      assert ops[..|ops| - 1][..k] == ops[..k];
    }
  }

  /** With acks of issued ids, no fresh id is already acked: what is appended is pending at once. */
  lemma {:induction false} FreshIsNeverAcked(ops: seq<Op>)
    requires AcksIssued(ops)
    ensures forall id :: id in RunSimple(ops).acked ==> id.n < |RunSimple(ops).all|
    ensures forall id :: id in RunCompacting(ops).acked ==> id.n < |RunSimple(ops).all|
  {
    if ops != [] {
      var before, last := ops[..|ops| - 1], ops[|ops| - 1];
      forall k | 0 <= k < |before| ensures before[..k] == ops[..k] && before[k] == ops[k] {
      }
      FreshIsNeverAcked(before);
      if last.Acks? {
        assert ops[|ops| - 1].Acks? && ops[..|ops| - 1] == before;
      }
    }
    var d := RunRefines(ops);
  }

  /** An ack of an id that was never issued does hide the record that later gets it. */
  lemma EarlyAckHides(now: int, kind: string, payload: Value)
    ensures var ops := [Acks({InboxId(now, 0)}), Arrive(now, kind, payload)];
      && !AcksIssued(ops)
      && |RunSimple(ops).all| == 1
      && Pending(RunCompacting(ops).bucket, RunCompacting(ops).acked) == []
  {
    var first := [Acks({InboxId(now, 0)})];
    var ops := first + [Arrive(now, kind, payload)];
    assert first[..|first| - 1] == [] && ops[..|ops| - 1] == first && ops[..0] == [];
    assert RunSimple(first) == Remember(RunSimple([]), first[0]);
    assert RunCompacting(first) == Keep(RunCompacting([]), 0, first[0]);
    assert RunCompacting(first).acked == {InboxId(now, 0)} && RunCompacting(first).bucket == [];
    assert ops == [Acks({InboxId(now, 0)}), Arrive(now, kind, payload)];
    assert |RunSimple(ops[..0]).all| == 0;
    assert ops[0].Acks? && InboxId(now, 0) in ops[0].ids;
  }
}
