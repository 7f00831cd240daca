/** The client's side of a subscription: applying notifications, and buffering those that come early. */
module Client {
  import opened Wrappers
  import opened Events

  type SubId = string

  /** A notification as the wire carries it. `seqNo` is absent where the field is, or does not parse. */
  datatype Notification<S> =
    | Snapshot(id: SubId, data: S, seqNo: Option<int>)
    | Committed(id: SubId, events: seq<Value>, seqNo: Option<int>, hint: Option<S>)
    | Tombstone(id: SubId)

  datatype Record<!S> = Record(state: S, lastSeq: int, reducer: Option<(S, Value) -> S>, tombstoned: bool)

  datatype Buffered<S> = Buffered(entries: seq<Notification<S>>, at: int)

  datatype Client<!S> = Client(subs: map<SubId, Record<S>>, pending: map<SubId, Buffered<S>>)

  const TtlMs: int := 5000

  // ---------------------------------------------------------------- The operations as functions

  /** `blank` is the `undefined` a record starts with. */
  function Blank<S>(blank: S, reducer: Option<(S, Value) -> S>): Record<S> {
    Record(blank, 0, reducer, false)
  }

  function ApplyRecord<S>(r: Record<S>, n: Notification<S>): Record<S> {
    if r.tombstoned then r
    else
      match n
      case Snapshot(_, data, seqNo) => r.(state := data, lastSeq := if seqNo.Some? then seqNo.value else r.lastSeq)
      case Committed(_, events, seqNo, hint) =>
        if r.reducer.None? then (if hint.Some? then r.(state := hint.value) else r)
        else r.(state := Fold(r.reducer.value, r.state, events),
                lastSeq := if seqNo.Some? then seqNo.value else r.lastSeq)
      case Tombstone(_) => r.(tombstoned := true)
  }

  function ApplyAll<S>(r: Record<S>, ns: seq<Notification<S>>): Record<S> {
    if ns == [] then r else ApplyRecord(ApplyAll(r, ns[..|ns| - 1]), ns[|ns| - 1])
  }

  function Sweep<S>(pending: map<SubId, Buffered<S>>, now: int): map<SubId, Buffered<S>> {
    map id | id in pending && now - pending[id].at <= TtlMs :: pending[id]
  }

  function BufferEarly<S>(c: Client<S>, n: Notification<S>, now: int): Client<S> {
    var swept := Sweep(c.pending, now);
    var entry := if n.id in swept then swept[n.id] else Buffered([], now);
    c.(pending := swept[n.id := entry.(entries := entry.entries + [n])])
  }

  function Apply<S>(c: Client<S>, n: Notification<S>, now: int): Client<S> {
    if n.id !in c.subs then BufferEarly(c, n, now)
    else c.(subs := c.subs[n.id := ApplyRecord(c.subs[n.id], n)])
  }

  function PreRegister<S>(c: Client<S>, id: SubId, blankRecord: Record<S>): Client<S> {
    c.(subs := c.subs[id := blankRecord])
  }

  function FlushBuffered<S>(c: Client<S>, id: SubId): Client<S>
    requires id in c.subs
  {
    if id !in c.pending then c
    else Client(c.subs[id := ApplyAll(c.subs[id], c.pending[id].entries)], c.pending - {id})
  }

  // ---------------------------------------------------------------- What a record holds

  function EventsOf<S>(ns: seq<Notification<S>>): seq<Value> {
    if ns == [] then []
    else EventsOf(ns[..|ns| - 1]) + if ns[|ns| - 1].Committed? then ns[|ns| - 1].events else []
  }

  /** The state a notification brings for a client that has no reducer. */
  function Brought<S>(n: Notification<S>): Option<S> {
    match n
    case Snapshot(_, data, _) => Some(data)
    case Committed(_, _, _, hint) => hint
    case Tombstone(_) => None
  }

  ghost predicate Alive<S>(ns: seq<Notification<S>>) {
    forall i :: 0 <= i < |ns| ==> !ns[i].Tombstone?
  }

  /** With a reducer: the last snapshot, and every event since folded over it. */
  lemma {:induction false} LastSnapshotAndSince<S>(r: Record<S>, ns: seq<Notification<S>>, k: nat)
    requires r.reducer.Some? && !r.tombstoned && Alive(ns)
    requires k < |ns| && ns[k].Snapshot? && forall j :: k < j < |ns| ==> !ns[j].Snapshot?
    ensures var after := ApplyAll(r, ns);
      && after.state == Fold(r.reducer.value, ns[k].data, EventsOf(ns[k + 1..]))
      && after.reducer == r.reducer && !after.tombstoned
  {
    var before, n := ns[..|ns| - 1], ns[|ns| - 1];
    if k == |ns| - 1 {
      StaysAlive(r, before);
      assert ns[k + 1..] == [];
    } else {
      LastSnapshotAndSince(r, before, k);
      var since := ns[k + 1..];
      assert since[..|since| - 1] == before[k + 1..] && since[|since| - 1] == n;
      FoldConcat(r.reducer.value, ns[k].data, EventsOf(before[k + 1..]), n.events);
    }
  }

  lemma {:induction false} StaysAlive<S>(r: Record<S>, ns: seq<Notification<S>>)
    requires !r.tombstoned && Alive(ns)
    ensures !ApplyAll(r, ns).tombstoned && ApplyAll(r, ns).reducer == r.reducer
  {
    if ns != [] {
      StaysAlive(r, ns[..|ns| - 1]);
    }
  }

  /** Without one: the last state that a snapshot or a hint brought, and events are skipped. */
  lemma {:induction false} LastBroughtWins<S>(r: Record<S>, ns: seq<Notification<S>>)
    requires r.reducer.None? && !r.tombstoned && Alive(ns)
    ensures var after := ApplyAll(r, ns);
      && (forall k :: 0 <= k < |ns| && Brought(ns[k]).Some? && (forall j :: k < j < |ns| ==> Brought(ns[j]).None?) ==>
            after.state == Brought(ns[k]).value)
      && ((forall k :: 0 <= k < |ns| ==> Brought(ns[k]).None?) ==> after.state == r.state)
      && ((forall k :: 0 <= k < |ns| ==> ns[k].Committed?) ==> after.lastSeq == r.lastSeq)
  {
    StaysAlive(r, ns);
    if ns != [] {
      var before := ns[..|ns| - 1];
      StaysAlive(r, before);
      LastBroughtWins(r, before);
      forall k | 0 <= k < |ns| && Brought(ns[k]).Some? && forall j :: k < j < |ns| ==> Brought(ns[j]).None?
        ensures ApplyAll(r, ns).state == Brought(ns[k]).value
      {
        if k < |before| {
          assert Brought(before[k]).Some?;
          assert Brought(ns[|ns| - 1]).None?;
        }
      }
      if forall k :: 0 <= k < |ns| ==> Brought(ns[k]).None? {
        assert forall k :: 0 <= k < |before| ==> Brought(before[k]) == Brought(ns[k]);
      }
    }
  }

  // ---------------------------------------------------------------- Early arrivals

  datatype Arrival<S> = Arrival(note: Notification<S>, now: int)

  function Feed<S>(c: Client<S>, arrivals: seq<Arrival<S>>): Client<S> {
    if arrivals == [] then c
    else
      var last := arrivals[|arrivals| - 1];
      Apply(Feed(c, arrivals[..|arrivals| - 1]), last.note, last.now)
  }

  /** The notifications of one subscription, in order. */
  function Mine<S>(arrivals: seq<Arrival<S>>, id: SubId): seq<Notification<S>> {
    if arrivals == [] then []
    else
      var last := arrivals[|arrivals| - 1].note;
      Mine(arrivals[..|arrivals| - 1], id) + if last.id == id then [last] else []
  }

  /** No arrival for an unregistered subscription comes more than the TTL after `id`'s buffer was opened. */
  ghost predicate InTime<S>(c: Client<S>, arrivals: seq<Arrival<S>>, id: SubId, openedAt: int) {
    forall i :: 0 <= i < |arrivals| && arrivals[i].note.id !in c.subs ==> arrivals[i].now - openedAt <= TtlMs
  }

  lemma {:induction false} FeedKeepsSubs<S>(c: Client<S>, arrivals: seq<Arrival<S>>)
    ensures Feed(c, arrivals).subs.Keys == c.subs.Keys
  {
    if arrivals != [] {
      FeedKeepsSubs(c, arrivals[..|arrivals| - 1]);
    }
  }

  /** Registered first: the record folds its own notifications, in order. */
  lemma {:induction false} FeedRegistered<S>(c: Client<S>, arrivals: seq<Arrival<S>>, id: SubId)
    requires id in c.subs
    ensures id in Feed(c, arrivals).subs
    ensures Feed(c, arrivals).subs[id] == ApplyAll(c.subs[id], Mine(arrivals, id))
  {
    if arrivals != [] {
      var before, last := arrivals[..|arrivals| - 1], arrivals[|arrivals| - 1];
      FeedRegistered(c, before, id);
      var mine := Mine(before, id);
      assert (mine + [last.note])[..|mine|] == mine;
      assert mine + [] == mine;
    }
  }

  /** Not registered: the notifications wait in the buffer, in order. */
  lemma {:induction false} FeedBuffers<S>(c: Client<S>, arrivals: seq<Arrival<S>>, id: SubId, openedAt: int)
    requires id !in c.subs && id !in c.pending && InTime(c, arrivals, id, openedAt)
    requires forall i :: 0 <= i < |arrivals| && arrivals[i].note.id == id ==> openedAt <= arrivals[i].now
    ensures var after := Feed(c, arrivals);
      if Mine(arrivals, id) == [] then id !in after.pending
      else
        && id in after.pending
        && after.pending[id].entries == Mine(arrivals, id)
        && after.pending[id].at >= openedAt
  {
    if arrivals != [] {
      var before, last := arrivals[..|arrivals| - 1], arrivals[|arrivals| - 1];
      FeedBuffers(c, before, id, openedAt);
      FeedKeepsSubs(c, before);
      assert Mine(before, id) + [] == Mine(before, id);
      assert [] + [last.note] == [last.note];
    }
  }

  /**
   * Buffering and then registering gives the record that registering first would have given, for
   * notifications of any subscriptions arriving in between, as long as none finds the buffer expired.
   */
  lemma BufferingIsInvisible<S>(c: Client<S>, arrivals: seq<Arrival<S>>, id: SubId, blankRecord: Record<S>, openedAt: int)
    requires id !in c.subs && id !in c.pending && InTime(c, arrivals, id, openedAt)
    requires forall i :: 0 <= i < |arrivals| && arrivals[i].note.id == id ==> openedAt <= arrivals[i].now
    ensures
      var late := FlushBuffered(PreRegister(Feed(c, arrivals), id, blankRecord), id);
      var early := Feed(PreRegister(c, id, blankRecord), arrivals);
      && id in early.subs
      && late.subs[id] == early.subs[id] == ApplyAll(blankRecord, Mine(arrivals, id))
      && id !in late.pending
  {
    FeedRegistered(PreRegister(c, id, blankRecord), arrivals, id);
    FeedBuffers(c, arrivals, id, openedAt);
  }

  /** One late arrival for any unregistered subscription is enough to lose what an old buffer held. */
  lemma LateMissDrops<S>(c: Client<S>, n: Notification<S>, now: int, id: SubId)
    requires id in c.pending && n.id !in c.subs
    ensures now - c.pending[id].at <= TtlMs ==>
              id in Apply(c, n, now).pending && c.pending[id].entries <= Apply(c, n, now).pending[id].entries
    ensures now - c.pending[id].at > TtlMs ==>
              if n.id == id then Apply(c, n, now).pending[id].entries == [n] else id !in Apply(c, n, now).pending
  {
    assert [] + [n] == [n];
  }

  /** A tombstone freezes a record: nothing that comes after it changes anything. */
  lemma {:induction false} TombstoneFreezes<S>(r: Record<S>, ns: seq<Notification<S>>)
    requires r.tombstoned
    ensures ApplyAll(r, ns) == r
  {
    if ns != [] {
      TombstoneFreezes(r, ns[..|ns| - 1]);
    }
  }

  /** Buffers hold notifications of their own subscription only. */
  ghost predicate Keyed<S>(c: Client<S>) {
    forall id, i :: id in c.pending && 0 <= i < |c.pending[id].entries| ==> c.pending[id].entries[i].id == id
  }

  lemma ApplyKeyed<S>(c: Client<S>, n: Notification<S>, now: int)
    requires Keyed(c)
    ensures Keyed(Apply(c, n, now))
  {
  }

  // ---------------------------------------------------------------- The class

  class SubscriptionState<S> {
    var subs: map<SubId, Record<S>>
    var pending: map<SubId, Buffered<S>>

    constructor ()
      ensures View() == Client(map[], map[]) && Keyed(View())
    {
      subs, pending := map[], map[];
    }

    ghost function View(): Client<S>
      reads this
    {
      Client(subs, pending)
    }

    method Preregister(id: SubId, blankRecord: Record<S>)
      modifies this`subs
      ensures View() == PreRegister(old(View()), id, blankRecord)
    {
      subs := subs[id := blankRecord];
    }

    method ApplyOne(n: Notification<S>, now: int)
      modifies this
      ensures View() == Apply(old(View()), n, now)
      ensures old(Keyed(View())) ==> Keyed(View())
    {
      ghost var was := View();
      if Keyed(was) {
        ApplyKeyed(was, n, now);
      }
      if n.id !in subs {
        Buffer(n, now);
        return;
      }
      var r := subs[n.id];
      if r.tombstoned {
        return;
      }
      match n {
        case Snapshot(_, data, seqNo) =>
          r := r.(state := data);
          if seqNo.Some? {
            r := r.(lastSeq := seqNo.value);
          }
        case Committed(_, events, seqNo, hint) =>
          if r.reducer.None? {
            if hint.Some? {
              r := r.(state := hint.value);
            }
          } else {
            var next := r.state;
            for i := 0 to |events|
              invariant next == Fold(r.reducer.value, r.state, events[..i])
            {
              assert events[..i + 1][..i] == events[..i];
              next := r.reducer.value(next, events[i]);
            }
            assert events[..|events|] == events;
            r := r.(state := next);
            if seqNo.Some? {
              r := r.(lastSeq := seqNo.value);
            }
          }
        case Tombstone(_) =>
          r := r.(tombstoned := true);
      }
      subs := subs[n.id := r];
    }

    method Buffer(n: Notification<S>, now: int)
      modifies this`pending
      ensures View() == BufferEarly(old(View()), n, now)
    {
      var ids := pending.Keys;
      ghost var was := pending;
      while ids != {}
        invariant ids <= was.Keys
        invariant pending == map id | id in was && (id in ids || now - was[id].at <= TtlMs) :: was[id]
        decreases ids
      {
        ghost var _ := Occupied(ids);
        var id :| id in ids;
        ids := ids - {id};
        if now - pending[id].at > TtlMs {
          pending := pending - {id};
        }
      }
      var entry := if n.id in pending then pending[n.id] else Buffered([], now);
      pending := pending[n.id := entry.(entries := entry.entries + [n])];
    }

    method Flush(id: SubId)
      requires id in subs && Keyed(View())
      modifies this
      ensures View() == FlushBuffered(old(View()), id) && Keyed(View())
    {
      if id !in pending {
        return;
      }
      var entries := pending[id].entries;
      pending := pending - {id};
      for i := 0 to |entries|
        invariant pending == old(pending) - {id}
        invariant id in subs && subs == old(subs)[id := ApplyAll(old(subs)[id], entries[..i])]
      {
        assert entries[..i + 1][..i] == entries[..i];
        ApplyOne(entries[i], 0);
      }
      assert entries[..|entries|] == entries;
    }
  }
}
