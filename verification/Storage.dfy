/** The durable half of an actor: its event log, snapshots, fence and inbox. */
module Storage {
  import opened Wrappers
  import opened Events
  import opened Inbox

  /** Everything stored for one actor. Event `k` of the log is `log[k - 1]`; the head is `|log|`. */
  datatype Store<S> = Store(
    fence: Option<int>,
    snaps: map<int, S>,
    log: seq<EventRow>,
    inbox: Inbox)

  datatype Result<+T> = Ok(value: T) | StaleFence(expected: int, actual: int) | UnknownActor

  function NoStore<S>(): Store<S> { Store(None, map[], [], NoInbox) }

  function FenceOf<S>(st: Store<S>): int {
    if st.fence.Some? then st.fence.value else 0
  }

  predicate Passes<S>(st: Store<S>, expected: Option<int>) {
    expected.None? || expected.value == FenceOf(st)
  }

  function Register<S>(st: Store<S>): Store<S> { st.(fence := Some(0)) }

  /** A bump succeeds for an actor without a row too, and then stores nothing. */
  function Bump<S>(st: Store<S>, expected: int): Store<S> {
    if FenceOf(st) == expected && st.fence.Some? then st.(fence := Some(expected + 1)) else st
  }

  function Save<S>(st: Store<S>, seqNo: int, state: S, expected: Option<int>): Store<S> {
    if Passes(st, expected) then st.(snaps := st.snaps[seqNo := state]) else st
  }

  predicate Appends<S>(st: Store<S>, expected: Option<int>) {
    Passes(st, expected) && st.fence.Some?
  }

  function AppendRows<S>(st: Store<S>, rows: seq<EventRow>, expected: Option<int>): Store<S> {
    if Appends(st, expected) then st.(log := st.log + rows) else st
  }

  /** The live snapshot is the one with the highest seq that is not negative (-1 is the retention slot). */
  ghost predicate IsLatest<S>(snaps: map<int, S>, k: int) {
    k in snaps && 0 <= k && forall j :: j in snaps ==> j <= k
  }

  ghost function Latest<S>(st: Store<S>): (latest: Option<int>)
    ensures latest.Some? ==> st.fence.Some? && IsLatest(st.snaps, latest.value)
    ensures latest.None? && st.fence.Some? ==> forall k :: k in st.snaps ==> k < 0
  {
    if st.fence.None? || forall k :: k in st.snaps ==> k < 0 then None
    else
      HasLatest(st.snaps);
      var k :| IsLatest(st.snaps, k);
      Some(k)
  }

  /** The snapshot a load finds: the highest one at or above 0 of a registered actor; -1 is never loaded. */
  lemma LatestIff<S>(st: Store<S>, k: int)
    ensures Latest(st) == Some(k) <==>
            st.fence.Some? && k in st.snaps && k >= 0 && forall j :: j in st.snaps ==> j <= k
    ensures Latest(st) == None <==> st.fence.None? || forall j :: j in st.snaps ==> j < 0
  {
  }

  /** An actor without a row stores no events and no fence, and has nothing to load. */
  lemma NoRowNoEvents<S>(st: Store<S>, rows: seq<EventRow>, expected: Option<int>, bump: int, fromSeq: int)
    requires st.fence.None?
    ensures AppendRows(st, rows, expected) == st && Bump(st, bump) == st
    ensures Latest(st) == None && Tail(st, fromSeq) == [] && FenceOf(st) == 0
  {
  }

  lemma {:induction false} HasLatest<S>(snaps: map<int, S>)
    requires exists k :: k in snaps && 0 <= k
    ensures exists k :: IsLatest(snaps, k)
    decreases |snaps|
  {
    var k :| k in snaps && 0 <= k;
    if !IsLatest(snaps, k) {
      var j :| j in snaps && j > k;
      var smaller := snaps - {k};
      assert j in smaller;
      HasLatest(smaller);
      var m :| IsLatest(smaller, m);
      assert j <= m;
      forall i | i in snaps ensures i <= m {
        assert i == k || i in smaller;
      }
      assert IsLatest(snaps, m);
    }
  }

  /** The rows a read from `fromSeq` streams, oldest first. */
  function Tail<S>(st: Store<S>, fromSeq: int): seq<EventRow> {
    if st.fence.None? || fromSeq > |st.log| then []
    else if fromSeq <= 1 then st.log
    else st.log[fromSeq - 1..]
  }
}
