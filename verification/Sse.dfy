/** Resuming an event stream over SSE: replay from the log, then the live listener behind a filter. */
module Sse {
  import opened Wrappers
  import opened Events
  import opened Intervals

  datatype Note = SnapshotNote(seqNo: int) | EventNote(events: seq<Value>, seqNo: int) | TombstoneNote

  // ---------------------------------------------------------------- The filter

  /** What `wrapSinkForResume` captures, and what it has passed on. */
  datatype Filter = Filter(replayedSeq: int, droppedSnapshot: bool, out: seq<Note>)

  function Receive(f: Filter, n: Note): Filter {
    if !f.droppedSnapshot && n.SnapshotNote? then f.(droppedSnapshot := true)
    else if n.EventNote? && n.seqNo <= f.replayedSeq then f.(droppedSnapshot := true)
    else f.(droppedSnapshot := true, out := f.out + [n])
  }

  function ReceiveAll(f: Filter, ns: seq<Note>): Filter {
    if ns == [] then f else Receive(ReceiveAll(f, ns[..|ns| - 1]), ns[|ns| - 1])
  }

  /** What the filter holds back: a snapshot that is the first note of all, and events that were replayed. */
  predicate HeldBack(f: Filter, ns: seq<Note>, i: nat)
    requires i < |ns|
  {
    (i == 0 && !f.droppedSnapshot && ns[i].SnapshotNote?) || (ns[i].EventNote? && ns[i].seqNo <= f.replayedSeq)
  }

  /** The filter passes on all other notes, tombstones among them, in order and once each. */
  lemma {:induction false} FilterIsExact(f: Filter, ns: seq<Note>) returns (passed: seq<nat>)
    ensures forall k :: 0 <= k < |passed| ==> passed[k] < |ns|
    ensures forall k, l :: 0 <= k < l < |passed| ==> passed[k] < passed[l]
    ensures forall i: nat :: i < |ns| ==> (i in passed <==> !HeldBack(f, ns, i))
    ensures ReceiveAll(f, ns).out == f.out + seq(|passed|, k requires 0 <= k < |passed| => ns[passed[k]])
    ensures ReceiveAll(f, ns).replayedSeq == f.replayedSeq
    ensures ReceiveAll(f, ns).droppedSnapshot <==> f.droppedSnapshot || ns != []
  {
    if ns == [] {
      return [];
    }
    var before, n := ns[..|ns| - 1], |ns| - 1;
    var fewer := FilterIsExact(f, before);
    assert forall i: nat :: i < n ==> HeldBack(f, ns, i) == HeldBack(f, before, i);
    var kept := seq(|fewer|, k requires 0 <= k < |fewer| => before[fewer[k]]);
    assert kept == seq(|fewer|, k requires 0 <= k < |fewer| => ns[fewer[k]]);
    if HeldBack(f, ns, n) {
      passed := fewer;
    } else {
      passed := fewer + [n];
      assert seq(|passed|, k requires 0 <= k < |passed| => ns[passed[k]]) == kept + [ns[n]];
      assert (f.out + kept) + [ns[n]] == f.out + (kept + [ns[n]]);
    }
  }

  class ResumeSink {
    const replayedSeq: int
    var droppedSnapshot: bool
    var out: seq<Note>

    constructor (replayedSeq: int, out: seq<Note>)
      ensures View() == Filter(replayedSeq, false, out)
    {
      this.replayedSeq := replayedSeq;
      droppedSnapshot, this.out := false, out;
    }

    ghost function View(): Filter
      reads this
    {
      Filter(replayedSeq, droppedSnapshot, out)
    }

    method Accept(n: Note)
      modifies this
      ensures View() == Receive(old(View()), n)
    {
      if !droppedSnapshot && n.SnapshotNote? {
        droppedSnapshot := true;
        return;
      }
      droppedSnapshot := true;
      if n.EventNote? && n.seqNo <= replayedSeq {
        return;
      }
      out := out + [n];
    }
  }

  // ---------------------------------------------------------------- The log and its commits

  /** Commits are the batches handlers returned: none empty, every event with a string `type`. */
  predicate Batches(commits: seq<seq<Value>>) {
    forall j :: 0 <= j < |commits| ==> commits[j] != [] && AllNormal(commits[j])
  }

  function LogOf(commits: seq<seq<Value>>): seq<EventRow>
    requires Batches(commits)
  {
    if commits == [] then [] else LogOf(commits[..|commits| - 1]) + Rows(commits[|commits| - 1])
  }

  /** The head seq once the first `k` commits are in the log. */
  function Head(commits: seq<seq<Value>>, k: nat): nat
    requires k <= |commits|
  {
    if k == 0 then 0 else Head(commits, k - 1) + |commits[k - 1]|
  }

  lemma {:induction false} HeadIsLength(commits: seq<seq<Value>>, k: nat)
    requires Batches(commits) && k <= |commits|
    ensures |LogOf(commits[..k])| == Head(commits, k)
  {
    if k > 0 {
      HeadIsLength(commits, k - 1);
      LogNext(commits, k - 1);
    }
  }

  lemma LogNext(commits: seq<seq<Value>>, k: nat)
    requires Batches(commits) && k < |commits|
    ensures LogOf(commits[..k + 1]) == LogOf(commits[..k]) + Rows(commits[k])
  {
    assert commits[..k + 1][..k] == commits[..k];
  }

  lemma {:induction false} HeadGrows(commits: seq<seq<Value>>, j: nat, k: nat)
    requires Batches(commits) && j <= k <= |commits|
    ensures Head(commits, j) <= Head(commits, k) && (j < k ==> Head(commits, j) < Head(commits, k))
    decreases k
  {
    if j < k {
      HeadGrows(commits, j, k - 1);
      assert commits[k - 1] != [];
    }
  }

  lemma {:induction false} LogGrows(commits: seq<seq<Value>>, j: nat, k: nat)
    requires Batches(commits) && j <= k <= |commits|
    ensures LogOf(commits[..j]) <= LogOf(commits[..k])
    decreases k
  {
    if j < k {
      LogGrows(commits, j, k - 1);
      LogNext(commits, k - 1);
    }
  }

  /** `x` is the seq of an event of commit `k`. */
  predicate InCommit(commits: seq<seq<Value>>, k: nat, x: int)
    requires k < |commits|
  {
    Head(commits, k) < x <= Head(commits, k + 1)
  }

  lemma OneCommit(commits: seq<seq<Value>>, j: nat, k: nat, x: int)
    requires Batches(commits) && j < |commits| && k < |commits| && InCommit(commits, j, x) && InCommit(commits, k, x)
    ensures j == k
  {
    if j < k {
      HeadGrows(commits, j + 1, k);
    } else if k < j {
      HeadGrows(commits, k + 1, j);
    }
  }

  lemma {:induction false} SomeCommit(commits: seq<seq<Value>>, j: nat, n: nat, x: int)
    requires j <= n <= |commits| && Head(commits, j) < x <= Head(commits, n)
    ensures exists k :: j <= k < n && InCommit(commits, k, x)
    decreases n
  {
    if x <= Head(commits, n - 1) {
      SomeCommit(commits, j, n - 1, x);
    } else {
      assert InCommit(commits, n - 1, x);
    }
  }

  // ---------------------------------------------------------------- replayFromSeq

  /** `head` is what the host reports; the rows are what the driver's log holds when it is read. */
  function Replayed(head: int, log: seq<EventRow>, fromSeq: nat): (note: Option<Note>)
    ensures note.Some? ==>
      note.value.EventNote? && note.value.events != [] && note.value.seqNo == fromSeq + |note.value.events|
  {
    if head <= fromSeq || |log| <= fromSeq then None
    else Some(EventNote(Payloads(log[fromSeq..]), |log|))
  }

  function Payloads(rows: seq<EventRow>): (p: seq<Value>)
    ensures |p| == |rows|
  {
    seq(|rows|, i requires 0 <= i < |rows| => rows[i].payload)
  }

  method ReplayFromSeq(head: int, log: seq<EventRow>, fromSeq: nat) returns (note: Option<Note>)
    ensures note == Replayed(head, log, fromSeq)
  {
    if head <= fromSeq {
      return None;
    }
    var batch: seq<Value> := [];
    var lastSeq := fromSeq;
    var k := fromSeq + 1;
    while k <= |log|
      invariant fromSeq + 1 <= k && (k <= |log| + 1 || k == fromSeq + 1)
      invariant lastSeq == k - 1
      invariant |batch| == k - 1 - fromSeq && forall i :: 0 <= i < |batch| ==> batch[i] == log[fromSeq + i].payload
      decreases |log| - k
    {
      batch := batch + [log[k - 1].payload];
      lastSeq := k;
      k := k + 1;
    }
    if |batch| == 0 {
      return None;
    }
    assert batch == Payloads(log[fromSeq..]);
    return Some(EventNote(batch, lastSeq));
  }

  // ---------------------------------------------------------------- The stream a client sees

  /**
   * Where one client's request met the commits. It resumes from `from`. The host had folded the first
   * `asked` commits when it was asked for its head; the log held the first `read` when it was replayed.
   * When the listener was attached, emission had passed the first `emitted`, and the snapshot
   * sent with it was the state after the first `folded`. Only commits before `until` are
   * made by the host object the listener is on; the later ones come after its end, which is a
   * tombstone if `ended`, and an eviction otherwise.
   */
  datatype Visit = Visit(from: nat, asked: nat, read: nat, emitted: nat, folded: nat, until: nat, ended: bool)

  predicate Fits(commits: seq<seq<Value>>, v: Visit) {
    && Batches(commits)
    && v.asked <= v.read <= |commits|
    && v.emitted <= |commits| && v.folded <= |commits| && v.until <= |commits|
  }

  /** The commits the listener gets. One is lost, never emitted, if the ack after its fold is rejected. */
  predicate Heard(lost: set<nat>, v: Visit, k: nat) { v.emitted <= k < v.until && k !in lost }

  /** The notifications of the commits from `j` on and before `u`. */
  function Live(commits: seq<seq<Value>>, lost: set<nat>, j: nat, u: nat): seq<Note>
    requires u <= |commits|
  {
    if u <= j then []
    else if u - 1 in lost then Live(commits, lost, j, u - 1)
    else Live(commits, lost, j, u - 1) + [EventNote(commits[u - 1], Head(commits, u))]
  }

  function End(v: Visit): seq<Note> { if v.ended then [TombstoneNote] else [] }

  /** Everything written to the socket. Without a replay the sink is not wrapped. */
  function Stream(commits: seq<seq<Value>>, lost: set<nat>, v: Visit): seq<Note>
    requires Fits(commits, v)
  {
    var replay := Replayed(Head(commits, v.asked), LogOf(commits[..v.read]), v.from);
    var live := [SnapshotNote(Head(commits, v.folded))] + (Live(commits, lost, v.emitted, v.until) + End(v));
    if replay.None? then live else ReceiveAll(Filter(replay.value.seqNo, false, [replay.value]), live).out
  }

  lemma ReceiveAllLast(f: Filter, ns: seq<Note>, last: Note)
    ensures ReceiveAll(f, ns + [last]) == Receive(ReceiveAll(f, ns), last)
  {
    assert (ns + [last])[..|ns|] == ns;
  }

  /** After the snapshot is dropped, the filter passes on exactly the commits that replay did not cover. */
  lemma {:induction false} FilterPasses(commits: seq<seq<Value>>, lost: set<nat>, f: Filter, read: nat, emitted: nat, u: nat)
    requires Batches(commits) && read <= |commits| && u <= |commits|
    requires f.droppedSnapshot && f.replayedSeq == Head(commits, read)
    ensures ReceiveAll(f, Live(commits, lost, emitted, u)) ==
            f.(out := f.out + Live(commits, lost, Max(read, emitted), u))
    decreases u
  {
    if u <= emitted {
      assert f.out + [] == f.out;
    } else {
      FilterPasses(commits, lost, f, read, emitted, u - 1);
      if u - 1 !in lost {
        var live, passed := Live(commits, lost, emitted, u - 1), Live(commits, lost, Max(read, emitted), u - 1);
        FilterTakes(f, live, passed, EventNote(commits[u - 1], Head(commits, u)));
        if u <= read {
          HeadGrows(commits, u, read);
        } else {
          HeadGrows(commits, read, u);
        }
      }
    }
  }

  lemma FilterTakes(f: Filter, live: seq<Note>, passed: seq<Note>, last: Note)
    requires f.droppedSnapshot && last.EventNote? && ReceiveAll(f, live) == f.(out := f.out + passed)
    ensures last.seqNo <= f.replayedSeq ==> ReceiveAll(f, live + [last]) == f.(out := f.out + passed)
    ensures last.seqNo > f.replayedSeq ==> ReceiveAll(f, live + [last]) == f.(out := f.out + (passed + [last]))
  {
    ReceiveAllLast(f, live, last);
    OutNext(f.out, passed, last);
  }

  lemma OutNext(out: seq<Note>, passed: seq<Note>, last: Note)
    ensures (out + passed) + [last] == out + (passed + [last])
  {
  }

  lemma EndPasses(f: Filter, live: seq<Note>, passed: seq<Note>, v: Visit)
    requires f.droppedSnapshot && ReceiveAll(f, live) == f.(out := f.out + passed)
    ensures ReceiveAll(f, live + End(v)).out == (f.out + passed) + End(v)
  {
    if v.ended {
      ReceiveAllLast(f, live, TombstoneNote);
    } else {
      assert live + [] == live && (f.out + passed) + [] == f.out + passed;
    }
  }

  lemma {:induction false} ReceiveAllFirst(f: Filter, first: Note, ns: seq<Note>)
    ensures ReceiveAll(f, [first] + ns) == ReceiveAll(Receive(f, first), ns)
  {
    if ns == [] {
      assert [first] + ns == [first] && [first][..0] == [];
    } else {
      ReceiveAllFirst(f, first, ns[..|ns| - 1]);
      assert ([first] + ns)[..|ns|] == [first] + ns[..|ns| - 1];
    }
  }

  predicate Behind(commits: seq<seq<Value>>, v: Visit)
    requires Fits(commits, v)
  {
    v.from < Head(commits, v.asked)
  }

  /** What reaches the socket: the replayed notification, then the commits after both marks. */
  lemma StreamIs(commits: seq<seq<Value>>, lost: set<nat>, v: Visit)
    requires Fits(commits, v) && Behind(commits, v)
    ensures v.from < Head(commits, v.read) == |LogOf(commits[..v.read])|
    ensures Stream(commits, lost, v) ==
            [EventNote(Payloads(LogOf(commits[..v.read])[v.from..]), Head(commits, v.read))] +
            (Live(commits, lost, Max(v.read, v.emitted), v.until) + End(v))
  {
    HeadGrows(commits, v.asked, v.read);
    HeadIsLength(commits, v.read);
    var replay := EventNote(Payloads(LogOf(commits[..v.read])[v.from..]), Head(commits, v.read));
    var f, snapshot := Filter(Head(commits, v.read), false, [replay]), SnapshotNote(Head(commits, v.folded));
    var live, passed := Live(commits, lost, v.emitted, v.until), Live(commits, lost, Max(v.read, v.emitted), v.until);
    ReceiveAllFirst(f, snapshot, live + End(v));
    FilterPasses(commits, lost, Receive(f, snapshot), v.read, v.emitted, v.until);
    EndPasses(Receive(f, snapshot), live, passed, v);
    assert [replay] + (passed + End(v)) == ([replay] + passed) + End(v);
  }

  // ---------------------------------------------------------------- The seqs of its events

  function NumbersOf(n: Note): seq<int> {
    if n.EventNote? then Interval(n.seqNo - |n.events| + 1, n.seqNo) else []
  }

  /** The seqs of the events in a stream, in the order they are written. */
  function Numbers(out: seq<Note>): seq<int> {
    if out == [] then [] else Numbers(out[..|out| - 1]) + NumbersOf(out[|out| - 1])
  }

  lemma NumbersSnoc(out: seq<Note>, n: Note)
    ensures Numbers(out + [n]) == Numbers(out) + NumbersOf(n)
  {
    assert (out + [n])[..|out|] == out;
  }

  lemma {:induction false} NumbersFirst(first: Note, out: seq<Note>)
    ensures Numbers([first] + out) == NumbersOf(first) + Numbers(out)
  {
    if out == [] {
      assert [first] + out == [] + [first];
      NumbersSnoc([], first);
    } else {
      var front, last := out[..|out| - 1], out[|out| - 1];
      NumbersFirst(first, front);
      assert Numbers([first] + out) == Numbers([first] + front) + NumbersOf(last) by {
        assert [first] + out == ([first] + front) + [last];
        NumbersSnoc([first] + front, last);
      }
      Reassociate(NumbersOf(first), Numbers(front), NumbersOf(last));
    }
  }

  /** `x` is the seq of an event of a commit from `j` on and before `u` that is emitted. */
  ghost predicate Emits(commits: seq<seq<Value>>, lost: set<nat>, j: nat, u: nat, x: int)
    requires u <= |commits|
  {
    exists k :: j <= k < u && k !in lost && InCommit(commits, k, x)
  }

  function SeqsOf(commits: seq<seq<Value>>, k: nat): seq<int>
    requires k < |commits|
  {
    Interval(Head(commits, k) + 1, Head(commits, k + 1))
  }

  /** The seqs of the live part. */
  function Seqs(commits: seq<seq<Value>>, lost: set<nat>, j: nat, u: nat): seq<int>
    requires u <= |commits|
  {
    if u <= j then []
    else if u - 1 in lost then Seqs(commits, lost, j, u - 1)
    else Seqs(commits, lost, j, u - 1) + SeqsOf(commits, u - 1)
  }

  lemma {:induction false} LiveSeqs(commits: seq<seq<Value>>, lost: set<nat>, j: nat, u: nat)
    requires u <= |commits|
    ensures Numbers(Live(commits, lost, j, u)) == Seqs(commits, lost, j, u)
    decreases u
  {
    if j < u {
      LiveSeqs(commits, lost, j, u - 1);
      if u - 1 !in lost {
        var live, last := Live(commits, lost, j, u - 1), EventNote(commits[u - 1], Head(commits, u));
        assert NumbersOf(last) == SeqsOf(commits, u - 1) by {
          assert Head(commits, u) - |commits[u - 1]| == Head(commits, u - 1);
        }
        NumbersAppend(live, last, Seqs(commits, lost, j, u - 1), SeqsOf(commits, u - 1));
      }
    }
  }

  lemma NumbersAppend(front: seq<Note>, last: Note, a: seq<int>, b: seq<int>)
    requires Numbers(front) == a && NumbersOf(last) == b
    ensures Numbers(front + [last]) == a + b
  {
    NumbersSnoc(front, last);
  }

  lemma InSeqsOf(commits: seq<seq<Value>>, k: nat, x: int)
    requires k < |commits|
    ensures x in SeqsOf(commits, k) <==> InCommit(commits, k, x)
    ensures Ascending(SeqsOf(commits, k))
  {
    InInterval(Head(commits, k) + 1, Head(commits, k + 1));
  }

  lemma EmitsNext(commits: seq<seq<Value>>, lost: set<nat>, j: nat, u: nat, x: int)
    requires j < u <= |commits|
    ensures Emits(commits, lost, j, u, x) <==>
            Emits(commits, lost, j, u - 1, x) || (u - 1 !in lost && InCommit(commits, u - 1, x))
  {
  }

  /** It holds exactly the events of the commits that are emitted. */
  lemma {:induction false} SeqsHold(commits: seq<seq<Value>>, lost: set<nat>, j: nat, u: nat, x: int)
    requires u <= |commits|
    ensures x in Seqs(commits, lost, j, u) <==> Emits(commits, lost, j, u, x)
    decreases u
  {
    if j < u {
      SeqsHold(commits, lost, j, u - 1, x);
      InSeqsOf(commits, u - 1, x);
      EmitsNext(commits, lost, j, u, x);
    }
  }

  /** And is in order. */
  lemma {:induction false} SeqsAscend(commits: seq<seq<Value>>, lost: set<nat>, j: nat, u: nat)
    requires Batches(commits) && u <= |commits|
    ensures Ascending(Seqs(commits, lost, j, u))
    decreases u
  {
    if j < u {
      SeqsAscend(commits, lost, j, u - 1);
      if u - 1 !in lost {
        SeqsBetween(commits, lost, j, u - 1);
        SeqsOfAbove(commits, u - 1);
        AscendingJoin(Seqs(commits, lost, j, u - 1), SeqsOf(commits, u - 1), Head(commits, u - 1));
      }
    }
  }

  lemma SeqsOfAbove(commits: seq<seq<Value>>, k: nat)
    requires k < |commits|
    ensures Ascending(SeqsOf(commits, k)) && forall x :: x in SeqsOf(commits, k) ==> Head(commits, k) < x
  {
    InInterval(Head(commits, k) + 1, Head(commits, k + 1));
  }

  lemma SeqsBetween(commits: seq<seq<Value>>, lost: set<nat>, j: nat, u: nat)
    requires Batches(commits) && u <= |commits|
    ensures forall x :: x in Seqs(commits, lost, j, u) ==> x <= Head(commits, u)
  {
    forall x: int | x in Seqs(commits, lost, j, u) ensures x <= Head(commits, u) {
      EmittedBetween(commits, lost, j, u, x);
    }
  }

  lemma EmittedBetween(commits: seq<seq<Value>>, lost: set<nat>, j: nat, u: nat, x: int)
    requires Batches(commits) && u <= |commits| && x in Seqs(commits, lost, j, u)
    ensures x <= Head(commits, u)
    ensures j <= |commits| ==> Head(commits, j) < x
  {
    SeqsHold(commits, lost, j, u, x);
    var k: nat :| j <= k < u && k !in lost && InCommit(commits, k, x);
    HeadGrows(commits, k + 1, u);
    HeadGrows(commits, j, k);
  }

  /** `x` is in a commit that replay did not read and the listener gets. */
  ghost predicate Reaches(commits: seq<seq<Value>>, lost: set<nat>, v: Visit, x: int) {
    exists k :: v.read <= k < |commits| && Heard(lost, v, k) && InCommit(commits, k, x)
  }

  lemma SeqsReach(commits: seq<seq<Value>>, lost: set<nat>, v: Visit, x: int)
    requires Fits(commits, v)
    ensures x in Seqs(commits, lost, Max(v.read, v.emitted), v.until) <==> Reaches(commits, lost, v, x)
  {
    var j := Max(v.read, v.emitted);
    SeqsHold(commits, lost, j, v.until, x);
    if k: nat :| j <= k < v.until && k !in lost && InCommit(commits, k, x) {
      assert Heard(lost, v, k);
    }
    if k: nat :| v.read <= k < |commits| && Heard(lost, v, k) && InCommit(commits, k, x) {
      assert j <= k < v.until && k !in lost;
    }
  }

  lemma StreamNumbersAre(commits: seq<seq<Value>>, lost: set<nat>, v: Visit)
    requires Fits(commits, v) && Behind(commits, v)
    ensures v.from < Head(commits, v.read)
    ensures Numbers(Stream(commits, lost, v)) ==
            Interval(v.from + 1, Head(commits, v.read)) + Seqs(commits, lost, Max(v.read, v.emitted), v.until)
  {
    StreamIs(commits, lost, v);
    var rows, hi := LogOf(commits[..v.read])[v.from..], Head(commits, v.read);
    var live := Live(commits, lost, Max(v.read, v.emitted), v.until);
    assert NumbersOf(EventNote(Payloads(rows), hi)) == Interval(v.from + 1, hi) by {
      ReplayNumbers(rows, v.from, hi);
    }
    NumbersFirst(EventNote(Payloads(rows), hi), live + End(v));
    NumbersEnd(live, v);
    LiveSeqs(commits, lost, Max(v.read, v.emitted), v.until);
  }

  lemma NumbersEnd(live: seq<Note>, v: Visit)
    ensures Numbers(live + End(v)) == Numbers(live)
  {
    if v.ended {
      NumbersSnoc(live, TombstoneNote);
      assert Numbers(live) + [] == Numbers(live);
    } else {
      assert live + [] == live;
    }
  }

  lemma ReplayNumbers(rows: seq<EventRow>, from: nat, hi: nat)
    requires |rows| == hi - from
    ensures NumbersOf(EventNote(Payloads(rows), hi)) == Interval(from + 1, hi)
  {
    assert hi - |Payloads(rows)| + 1 == from + 1;
  }

  /**
   * Whatever the interleaving, the seqs on the socket are in order and never repeat: `from + 1` up to the
   * replayed head, and those of the commits that replay did not read and the listener gets.
   */
  lemma StreamNumbers(commits: seq<seq<Value>>, lost: set<nat>, v: Visit)
    requires Fits(commits, v) && Behind(commits, v)
    ensures Ascending(Numbers(Stream(commits, lost, v)))
    ensures forall x :: x in Numbers(Stream(commits, lost, v)) <==>
                        v.from < x <= Head(commits, v.read) || Reaches(commits, lost, v, x)
  {
    var mid, j := Head(commits, v.read), Max(v.read, v.emitted);
    var live := Seqs(commits, lost, j, v.until);
    StreamNumbersAre(commits, lost, v);
    InInterval(v.from + 1, mid);
    forall x ensures x in live <==> Reaches(commits, lost, v, x) {
      SeqsReach(commits, lost, v, x);
    }
    forall x | x in live ensures mid < x {
      EmittedBetween(commits, lost, j, v.until, x);
      HeadGrows(commits, v.read, j);
    }
    SeqsAscend(commits, lost, j, v.until);
    AscendingJoin(Interval(v.from + 1, mid), live, mid);
  }

  /** Whatever is after the head of the first `j` commits and not after the last head is in a commit from `j` on. */
  lemma NothingBeyond(commits: seq<seq<Value>>, j: nat, x: int)
    requires Batches(commits) && j <= |commits|
    ensures (exists k :: j <= k < |commits| && InCommit(commits, k, x)) <==>
            Head(commits, j) < x <= Head(commits, |commits|)
  {
    if Head(commits, j) < x <= Head(commits, |commits|) {
      SomeCommit(commits, j, |commits|, x);
    } else if k :| j <= k < |commits| && InCommit(commits, k, x) {
      HeadGrows(commits, j, k);
      HeadGrows(commits, k + 1, |commits|);
    }
  }

  lemma FirstOf(commits: seq<seq<Value>>, k: nat)
    requires Batches(commits) && k < |commits|
    ensures InCommit(commits, k, Head(commits, k) + 1) && Head(commits, k) + 1 <= Head(commits, |commits|)
  {
    assert commits[k] != [];
    HeadGrows(commits, k + 1, |commits|);
  }

  /** The events of a commit that replay did not read and the listener does not get never reach the socket. */
  lemma UnheardIsMissing(commits: seq<seq<Value>>, lost: set<nat>, v: Visit, k: nat, x: int)
    requires Fits(commits, v) && Behind(commits, v) && v.read <= k < |commits| && !Heard(lost, v, k)
    requires InCommit(commits, k, x)
    ensures v.from < x && x !in Numbers(Stream(commits, lost, v))
  {
    assert v.from < Head(commits, v.read) < x by {
      HeadGrows(commits, v.asked, v.read);
      HeadGrows(commits, v.read, k);
    }
    assert !Reaches(commits, lost, v, x) by {
      if j: nat :| v.read <= j < |commits| && Heard(lost, v, j) && InCommit(commits, j, x) {
        OneCommit(commits, j, k, x);
      }
    }
    StreamNumbers(commits, lost, v);
  }

  lemma AllHeardIsExact(commits: seq<seq<Value>>, lost: set<nat>, v: Visit, x: int)
    requires Fits(commits, v) && Behind(commits, v)
    requires forall k :: v.read <= k < |commits| ==> Heard(lost, v, k)
    ensures v.from < x <= Head(commits, v.read) || Reaches(commits, lost, v, x) <==>
            v.from < x <= Head(commits, |commits|)
  {
    HeadGrows(commits, v.asked, v.read);
    HeadGrows(commits, v.read, |commits|);
    NothingBeyond(commits, v.read, x);
  }

  /**
   * Resume is exact, every event after `from` once and in order, if and only if the listener gets every
   * commit that replay did not read: there is none, or emission had not passed replay when the listener
   * was attached, its host object lives on, and no ack after one of them is rejected.
   */
  lemma ResumeIsExactIff(commits: seq<seq<Value>>, lost: set<nat>, v: Visit)
    requires Fits(commits, v) && Behind(commits, v)
    ensures v.from < Head(commits, |commits|)
    ensures Numbers(Stream(commits, lost, v)) == Interval(v.from + 1, Head(commits, |commits|)) <==>
            v.read == |commits| ||
            (v.emitted <= v.read && v.until == |commits| && forall k :: v.read <= k < |commits| ==> k !in lost)
  {
    var hi := Head(commits, |commits|);
    assert v.from < hi by {
      HeadGrows(commits, v.asked, |commits|);
    }
    if forall k :: v.read <= k < |commits| ==> Heard(lost, v, k) {
      HeardIsExact(commits, lost, v);
      HeardThroughout(commits, lost, v);
    } else {
      var k: nat :| v.read <= k < |commits| && !Heard(lost, v, k);
      var x := Head(commits, k) + 1;
      FirstOf(commits, k);
      UnheardIsMissing(commits, lost, v, k, x);
      assert x in Interval(v.from + 1, hi) by {
        InInterval(v.from + 1, hi);
      }
    }
  }

  lemma HeardIsExact(commits: seq<seq<Value>>, lost: set<nat>, v: Visit)
    requires Fits(commits, v) && Behind(commits, v) && v.from < Head(commits, |commits|)
    requires forall k :: v.read <= k < |commits| ==> Heard(lost, v, k)
    ensures Numbers(Stream(commits, lost, v)) == Interval(v.from + 1, Head(commits, |commits|))
  {
    var numbers, hi := Numbers(Stream(commits, lost, v)), Head(commits, |commits|);
    InInterval(v.from + 1, hi);
    StreamNumbers(commits, lost, v);
    forall x ensures x in numbers <==> v.from < x <= hi {
      AllHeardIsExact(commits, lost, v, x);
    }
    AscendingUnique(numbers, Interval(v.from + 1, hi));
  }

  lemma HeardThroughout(commits: seq<seq<Value>>, lost: set<nat>, v: Visit)
    requires Fits(commits, v) && forall k :: v.read <= k < |commits| ==> Heard(lost, v, k)
    ensures v.read == |commits| ||
            (v.emitted <= v.read && v.until == |commits| && forall k :: v.read <= k < |commits| ==> k !in lost)
  {
    if v.read < |commits| {
      assert Heard(lost, v, v.read) && Heard(lost, v, |commits| - 1);
      forall k: nat | v.read <= k < |commits| ensures k !in lost {
        assert Heard(lost, v, k);
      }
    }
  }

  /**
   * A client that is not behind the head the host reports gets no replay: it starts over from the
   * snapshot, and the events after it follow without a gap or a repeat if and only if the listener
   * gets exactly the commits that the snapshot does not hold.
   */
  lemma NotBehindStartsOver(commits: seq<seq<Value>>, lost: set<nat>, v: Visit)
    requires Fits(commits, v) && !Behind(commits, v)
    ensures Head(commits, v.folded) <= Head(commits, |commits|)
    ensures var out := Stream(commits, lost, v);
      && out == [SnapshotNote(Head(commits, v.folded))] + (Live(commits, lost, v.emitted, v.until) + End(v))
      && Ascending(Numbers(out))
      && (Numbers(out) == Interval(Head(commits, v.folded) + 1, Head(commits, |commits|)) <==>
          forall k :: 0 <= k < |commits| ==> (Heard(lost, v, k) <==> v.folded <= k))
  {
    var live, lo := Live(commits, lost, v.emitted, v.until), Head(commits, v.folded);
    assert Numbers([SnapshotNote(lo)] + (live + End(v))) == Numbers(live) by {
      NumbersFirst(SnapshotNote(lo), live + End(v));
      NumbersEnd(live, v);
      assert [] + Numbers(live) == Numbers(live);
    }
    LiveSeqs(commits, lost, v.emitted, v.until);
    SeqsAscend(commits, lost, v.emitted, v.until);
    HeadGrows(commits, v.folded, |commits|);
    SeqsAreTheRestIff(commits, lost, v);
  }

  lemma SeqsAreTheRestIff(commits: seq<seq<Value>>, lost: set<nat>, v: Visit)
    requires Fits(commits, v) && Head(commits, v.folded) <= Head(commits, |commits|)
    ensures Seqs(commits, lost, v.emitted, v.until) ==
            Interval(Head(commits, v.folded) + 1, Head(commits, |commits|)) <==>
            forall k :: 0 <= k < |commits| ==> (Heard(lost, v, k) <==> v.folded <= k)
  {
    var numbers := Seqs(commits, lost, v.emitted, v.until);
    var lo, hi := Head(commits, v.folded), Head(commits, |commits|);
    InInterval(lo + 1, hi);
    if forall k :: 0 <= k < |commits| ==> (Heard(lost, v, k) <==> v.folded <= k) {
      SeqsAscend(commits, lost, v.emitted, v.until);
      forall x ensures x in numbers <==> x in Interval(lo + 1, hi) {
        SeqsHold(commits, lost, v.emitted, v.until, x);
        BothSides(commits, lost, v, x);
      }
      AscendingUnique(numbers, Interval(lo + 1, hi));
    } else {
      var k: nat :| k < |commits| && !(Heard(lost, v, k) <==> v.folded <= k);
      SeqsHold(commits, lost, v.emitted, v.until, Head(commits, k) + 1);
      OneSideOnly(commits, lost, v, k);
    }
  }

  lemma BothSides(commits: seq<seq<Value>>, lost: set<nat>, v: Visit, x: int)
    requires Fits(commits, v) && forall k :: 0 <= k < |commits| ==> (Heard(lost, v, k) <==> v.folded <= k)
    ensures Emits(commits, lost, v.emitted, v.until, x) <==>
            Head(commits, v.folded) < x <= Head(commits, |commits|)
  {
    NothingBeyond(commits, v.folded, x);
    if k: nat :| v.emitted <= k < v.until && k !in lost && InCommit(commits, k, x) {
      assert Heard(lost, v, k);
    }
    if k: nat :| v.folded <= k < |commits| && InCommit(commits, k, x) {
      assert Heard(lost, v, k);
    }
  }

  /** The first event of a commit that is in both parts, or in neither, gives it away. */
  lemma OneSideOnly(commits: seq<seq<Value>>, lost: set<nat>, v: Visit, k: nat)
    requires Fits(commits, v) && k < |commits| && !(Heard(lost, v, k) <==> v.folded <= k)
    ensures var x := Head(commits, k) + 1;
      !(Emits(commits, lost, v.emitted, v.until, x) <==> Head(commits, v.folded) < x <= Head(commits, |commits|))
  {
    var x := Head(commits, k) + 1;
    FirstOf(commits, k);
    if v.folded <= k {
      HeadGrows(commits, v.folded, k);
      if j: nat :| v.emitted <= j < v.until && j !in lost && InCommit(commits, j, x) {
        OneCommit(commits, j, k, x);
      }
    } else {
      HeadGrows(commits, k + 1, v.folded);
    }
  }

  /** Two commits of one event each; the client resumes before the first and replay reads the first. */
  function TwoCommits(e: Value): seq<seq<Value>> { [[e], [e]] }

  /** The second never arrives: it was emitted before the attach, its ack was rejected, or its host is another one. */
  lemma ResumeCanSkip(e: Value)
    requires Batches(TwoCommits(e))
    ensures Numbers(Stream(TwoCommits(e), {}, Visit(0, 1, 1, 2, 2, 2, false))) == [1]
    ensures Numbers(Stream(TwoCommits(e), {1}, Visit(0, 1, 1, 1, 1, 2, false))) == [1]
    ensures Numbers(Stream(TwoCommits(e), {}, Visit(0, 1, 1, 1, 1, 1, false))) == [1]
  {
    OnlyTheFirst(e, {}, Visit(0, 1, 1, 2, 2, 2, false));
    OnlyTheFirst(e, {1}, Visit(0, 1, 1, 1, 1, 2, false));
    OnlyTheFirst(e, {}, Visit(0, 1, 1, 1, 1, 1, false));
  }

  lemma OnlyTheFirst(e: Value, lost: set<nat>, v: Visit)
    requires Fits(TwoCommits(e), v) && v.from == 0 && v.asked == v.read == 1 && !Heard(lost, v, 1)
    ensures Numbers(Stream(TwoCommits(e), lost, v)) == [1]
  {
    var commits := TwoCommits(e);
    assert Head(commits, 1) == 1 by {
      assert Head(commits, 0) == 0;
    }
    StreamNumbers(commits, lost, v);
    forall x ensures x in Numbers(Stream(commits, lost, v)) <==> x in [1] {
      assert !Reaches(commits, lost, v, x) by {
        assert forall k :: 1 <= k < 2 && Heard(lost, v, k) ==> k == 1;
      }
    }
    AscendingUnique(Numbers(Stream(commits, lost, v)), [1]);
  }

  // ---------------------------------------------------------------- What the events carry

  /** Event `i` of a notification is the log row of its seq: the stored payload, or the event it came from. */
  predicate Carries(log: seq<EventRow>, note: Note) {
    note.EventNote? ==>
      && |note.events| <= note.seqNo <= |log|
      && forall i :: 0 <= i < |note.events| ==>
           var row := log[note.seqNo - |note.events| + i];
           note.events[i] == row.payload || Normalize(note.events[i]) == Some(row)
  }

  lemma {:induction false} LiveCarries(commits: seq<seq<Value>>, lost: set<nat>, j: nat, u: nat)
    requires Batches(commits) && u <= |commits|
    ensures forall note :: note in Live(commits, lost, j, u) ==> note.EventNote? && Carries(LogOf(commits[..u]), note)
    decreases u
  {
    if j < u {
      LiveCarries(commits, lost, j, u - 1);
      LogNext(commits, u - 1);
      var log, shorter := LogOf(commits[..u]), LogOf(commits[..u - 1]);
      forall note | note in Live(commits, lost, j, u - 1) ensures Carries(log, note) {
        CarriesLonger(shorter, log, note);
      }
      assert Carries(log, EventNote(commits[u - 1], Head(commits, u))) by {
        HeadIsLength(commits, u);
        CommitCarries(commits[u - 1], shorter, log);
      }
    }
  }

  lemma CommitCarries(events: seq<Value>, log: seq<EventRow>, longer: seq<EventRow>)
    requires AllNormal(events) && longer == log + Rows(events)
    ensures Carries(longer, EventNote(events, |longer|))
  {
    forall i | 0 <= i < |events| ensures Normalize(events[i]) == Some(longer[|longer| - |events| + i]) {
      assert longer[|log| + i] == Rows(events)[i];
    }
  }

  lemma CarriesLonger(log: seq<EventRow>, longer: seq<EventRow>, note: Note)
    requires Carries(log, note) && log <= longer
    ensures Carries(longer, note)
  {
  }

  /** Every event on the socket is the log row its seq names. */
  lemma StreamCarriesLog(commits: seq<seq<Value>>, lost: set<nat>, v: Visit)
    requires Fits(commits, v) && Behind(commits, v)
    ensures forall note :: note in Stream(commits, lost, v) && !(v.ended && note.TombstoneNote?) ==>
              note.EventNote? && Carries(LogOf(commits), note)
  {
    StreamIs(commits, lost, v);
    var whole := LogOf(commits[..|commits|]);
    assert commits[..|commits|] == commits;
    var log, heard := LogOf(commits[..v.read]), LogOf(commits[..v.until]);
    LogGrows(commits, v.read, |commits|);
    LogGrows(commits, v.until, |commits|);
    var replay := EventNote(Payloads(log[v.from..]), |log|);
    CarriesLonger(log, whole, replay);
    var live := Live(commits, lost, Max(v.read, v.emitted), v.until);
    LiveCarries(commits, lost, Max(v.read, v.emitted), v.until);
    forall note | note in live ensures Carries(whole, note) {
      CarriesLonger(heard, whole, note);
    }
  }

  // ---------------------------------------------------------------- The end of the actor

  lemma {:induction false} LiveHasNoEnd(commits: seq<seq<Value>>, lost: set<nat>, j: nat, u: nat)
    requires u <= |commits|
    ensures TombstoneNote !in Live(commits, lost, j, u)
  {
    if j < u {
      LiveHasNoEnd(commits, lost, j, u - 1);
    }
  }

  /**
   * Whether it resumes or starts over, a client whose actor is tombstoned is told so, once, and nothing
   * is written after that; a client whose actor is not is never told.
   */
  lemma TombstoneEndsStream(commits: seq<seq<Value>>, lost: set<nat>, v: Visit)
    requires Fits(commits, v)
    ensures var out := Stream(commits, lost, v);
      && (TombstoneNote in out <==> v.ended)
      && (v.ended ==> out != [] && out[|out| - 1] == TombstoneNote && TombstoneNote !in out[..|out| - 1])
  {
    if Behind(commits, v) {
      StreamIs(commits, lost, v);
      var replay := EventNote(Payloads(LogOf(commits[..v.read])[v.from..]), Head(commits, v.read));
      LiveHasNoEnd(commits, lost, Max(v.read, v.emitted), v.until);
      LastOnly(replay, Live(commits, lost, Max(v.read, v.emitted), v.until), v);
    } else {
      LiveHasNoEnd(commits, lost, v.emitted, v.until);
      LastOnly(SnapshotNote(Head(commits, v.folded)), Live(commits, lost, v.emitted, v.until), v);
    }
  }

  lemma LastOnly(first: Note, live: seq<Note>, v: Visit)
    requires !first.TombstoneNote? && TombstoneNote !in live
    ensures var out := [first] + (live + End(v));
      && (TombstoneNote in out <==> v.ended)
      && (v.ended ==> out[|out| - 1] == TombstoneNote && TombstoneNote !in out[..|out| - 1])
  {
    var out := [first] + (live + End(v));
    if v.ended {
      assert out[..|out| - 1] == [first] + live;
    }
  }
}
