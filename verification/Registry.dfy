/** The server's subscription registry, and what a subscriber of an event-sourced actor ends up with. */
module Registry {
  import opened Wrappers
  import opened Events
  import opened Client

  type ActorId = string
  type Conn = string

  datatype Sub = Sub(conn: Conn, actorId: ActorId)

  /**
   * The three indexes, the host object each listener is attached to, and what each sink was called
   * with, in order. A sink that throws is caught, so it changes nothing else.
   */
  datatype Reg<S> = Reg(
    subs: map<SubId, Sub>,
    byActor: map<ActorId, set<SubId>>,
    byConnection: map<Conn, set<SubId>>,
    attached: map<SubId, nat>,
    sent: map<SubId, seq<Notification<S>>>)

  datatype Info = EventInfo(events: seq<Value>, seqNo: int) | TombstoneInfo

  // ---------------------------------------------------------------- The operations as functions

  function Members(index: map<string, set<SubId>>, k: string): set<SubId> {
    if k in index then index[k] else {}
  }

  function AddTo(index: map<string, set<SubId>>, k: string, id: SubId): map<string, set<SubId>> {
    index[k := Members(index, k) + {id}]
  }

  /** An index drops a key with its last member. */
  function RemoveFrom(index: map<string, set<SubId>>, k: string, id: SubId): map<string, set<SubId>> {
    if k !in index then index
    else if index[k] - {id} == {} then index - {k}
    else index[k := index[k] - {id}]
  }

  predicate Full<S>(r: Reg<S>, actorId: ActorId, maxPerActor: nat) { |Members(r.byActor, actorId)| >= maxPerActor }

  /** `subscribe`, once host object `serial` is there: attach, index, and send the snapshot. */
  function Subscribe<S>(r: Reg<S>, id: SubId, sub: Sub, serial: nat, state: S, seqNo: int): Reg<S> {
    Reg(r.subs[id := sub],
        AddTo(r.byActor, sub.actorId, id),
        AddTo(r.byConnection, sub.conn, id),
        r.attached[id := serial],
        r.sent[id := [Snapshot(id, state, Some(seqNo))]])
  }

  function Detach<S>(r: Reg<S>, id: SubId): Reg<S> {
    if id !in r.subs then r
    else
      var sub := r.subs[id];
      r.(subs := r.subs - {id},
         byActor := RemoveFrom(r.byActor, sub.actorId, id),
         byConnection := RemoveFrom(r.byConnection, sub.conn, id),
         attached := r.attached - {id})
  }

  function Note<S>(id: SubId, info: Info): Notification<S> {
    match info
    case EventInfo(events, seqNo) => Committed(id, events, Some(seqNo), None)
    case TombstoneInfo => Tombstone(id)
  }

  function Deliver<S>(r: Reg<S>, id: SubId, info: Info): Reg<S> {
    var old' := if id in r.sent then r.sent[id] else [];
    var noted := r.(sent := r.sent[id := old' + [Note(id, info)]]);
    if info.TombstoneInfo? then Detach(noted, id) else noted
  }

  /** `emitCommit`: the listeners of a host object are called one after the other. */
  function DeliverSeq<S>(r: Reg<S>, order: seq<SubId>, info: Info): Reg<S> {
    if order == [] then r else Deliver(DeliverSeq(r, order[..|order| - 1], info), order[|order| - 1], info)
  }

  /** The listeners attached to host object `serial` of an actor. */
  function Listeners<S>(r: Reg<S>, actorId: ActorId, serial: nat): set<SubId> {
    set id | id in r.attached && id in r.subs && r.attached[id] == serial && r.subs[id].actorId == actorId
  }

  // ---------------------------------------------------------------- The indexes agree

  datatype Key = ByActor | ByConnection

  function KeyOf(key: Key, s: Sub): string { if key.ByActor? then s.actorId else s.conn }

  ghost predicate IndexOf(index: map<string, set<SubId>>, subs: map<SubId, Sub>, key: Key) {
    && (forall k :: k in index ==> index[k] != {})
    && (forall k, id :: k in index && id in index[k] ==> id in subs && KeyOf(key, subs[id]) == k)
    && (forall id :: id in subs ==> KeyOf(key, subs[id]) in index && id in index[KeyOf(key, subs[id])])
  }

  ghost predicate Indexed<S>(r: Reg<S>) {
    && r.attached.Keys == r.subs.Keys
    && r.subs.Keys <= r.sent.Keys
    && IndexOf(r.byActor, r.subs, ByActor)
    && IndexOf(r.byConnection, r.subs, ByConnection)
  }

  lemma AddIndexed(index: map<string, set<SubId>>, subs: map<SubId, Sub>, key: Key, id: SubId, sub: Sub)
    requires IndexOf(index, subs, key) && id !in subs
    ensures IndexOf(AddTo(index, KeyOf(key, sub), id), subs[id := sub], key)
  {
    var after := AddTo(index, KeyOf(key, sub), id);
    forall k, i | k in after && i in after[k] ensures i in subs[id := sub] && KeyOf(key, subs[id := sub][i]) == k {
    }
  }

  lemma RemoveIndexed(index: map<string, set<SubId>>, subs: map<SubId, Sub>, key: Key, id: SubId)
    requires IndexOf(index, subs, key) && id in subs
    ensures IndexOf(RemoveFrom(index, KeyOf(key, subs[id]), id), subs - {id}, key)
  {
    var k := KeyOf(key, subs[id]);
    var after, rest := RemoveFrom(index, k, id), subs - {id};
    forall j | j in after ensures after[j] != {} && forall i :: i in after[j] ==> i in rest && KeyOf(key, rest[i]) == j {
      forall i | i in after[j] ensures i in rest && KeyOf(key, rest[i]) == j {
        assert i in index[j];
      }
    }
    forall i | i in rest ensures KeyOf(key, rest[i]) in after && i in after[KeyOf(key, rest[i])] {
      assert i in subs && i != id && i in index[KeyOf(key, subs[i])];
    }
  }

  lemma SubscribeIndexed<S>(r: Reg<S>, id: SubId, sub: Sub, serial: nat, state: S, seqNo: int)
    requires Indexed(r) && id !in r.subs
    ensures Indexed(Subscribe(r, id, sub, serial, state, seqNo))
  {
    AddIndexed(r.byActor, r.subs, ByActor, id, sub);
    AddIndexed(r.byConnection, r.subs, ByConnection, id, sub);
  }

  lemma DetachIndexed<S>(r: Reg<S>, id: SubId)
    requires Indexed(r)
    ensures Indexed(Detach(r, id))
  {
    if id in r.subs {
      RemoveIndexed(r.byActor, r.subs, ByActor, id);
      RemoveIndexed(r.byConnection, r.subs, ByConnection, id);
    }
  }

  /** The actor index of an actor is its subscriptions. */
  lemma MembersOfActor<S>(r: Reg<S>, actorId: ActorId)
    requires Indexed(r)
    ensures Members(r.byActor, actorId) == set id | id in r.subs && r.subs[id].actorId == actorId
  {
  }

  /** The connection index of a connection is its subscriptions. */
  lemma MembersOfConnection<S>(r: Reg<S>, conn: Conn)
    requires Indexed(r)
    ensures Members(r.byConnection, conn) == set id | id in r.subs && r.subs[id].conn == conn
  {
  }

  /** The indexes do not depend on what was sent. */
  lemma IndexedWhateverSent<S>(r: Reg<S>, sent: map<SubId, seq<Notification<S>>>)
    requires Indexed(r) && r.sent.Keys <= sent.Keys
    ensures Indexed(r.(sent := sent))
  {
  }

  lemma DeliverIndexed<S>(r: Reg<S>, id: SubId, info: Info)
    requires Indexed(r)
    ensures Indexed(Deliver(r, id, info))
  {
    var sent := Deliver(r, id, info).sent;
    IndexedWhateverSent(r, sent);
    DetachIndexed(r.(sent := sent), id);
  }

  // ---------------------------------------------------------------- What an emit does

  /** Each of `ids` got the info once, nobody else got anything; a tombstone also ends the subscriptions. */
  ghost predicate Emitted<S>(r: Reg<S>, ids: set<SubId>, info: Info, after: Reg<S>) {
    && after.sent.Keys == r.sent.Keys + ids
    && (forall id :: id in r.sent && id !in ids ==> after.sent[id] == r.sent[id])
    && (forall id :: id in ids ==> after.sent[id] == (if id in r.sent then r.sent[id] else []) + [Note(id, info)])
    && after.subs == (if info.TombstoneInfo? then r.subs - ids else r.subs)
    && after.attached == (if info.TombstoneInfo? then r.attached - ids else r.attached)
  }

  lemma EmitOneMore<S>(was: Reg<S>, done: set<SubId>, info: Info, now: Reg<S>, id: SubId)
    requires Emitted(was, done, info, now) && id !in done && id in was.subs && id in was.sent
    ensures Emitted(was, done + {id}, info, Deliver(now, id, info))
  {
    var after := Deliver(now, id, info);
    assert id in now.subs && now.sent[id] == was.sent[id];
    assert after.sent.Keys == was.sent.Keys + (done + {id});
    assert after.subs == if info.TombstoneInfo? then was.subs - (done + {id}) else was.subs;
    assert after.attached == if info.TombstoneInfo? then was.attached - (done + {id}) else was.attached;
  }

  lemma ListsSnoc(order: seq<SubId>, ids: set<SubId>)
    requires Lists(order, ids) && order != []
    ensures var last := order[|order| - 1];
      last in ids && Lists(order[..|order| - 1], ids - {last}) && ids == (ids - {last}) + {last}
  {
    var last, before := order[|order| - 1], order[..|order| - 1];
    assert last in order;
    forall id | id in order && id != last ensures id in before {
      var i :| 0 <= i < |order| && order[i] == id;
      assert before[i] == id;
    }
  }

  /** In whatever order the listeners are called, the emit has the one effect, and the indexes agree after it. */
  lemma {:induction false} DeliverSeqEmits<S>(r: Reg<S>, order: seq<SubId>, ids: set<SubId>, info: Info)
    requires Indexed(r) && ids <= r.subs.Keys && Lists(order, ids)
    ensures Emitted(r, ids, info, DeliverSeq(r, order, info)) && Indexed(DeliverSeq(r, order, info))
  {
    if order == [] {
      assert ids == {} by {
        assert forall id :: id !in ids;
      }
      assert r.subs - {} == r.subs && r.attached - {} == r.attached;
    } else {
      var last, before := order[|order| - 1], order[..|order| - 1];
      ListsSnoc(order, ids);
      DeliverSeqEmits(r, before, ids - {last}, info);
      EmitOneMore(r, ids - {last}, info, DeliverSeq(r, before, info), last);
      DeliverIndexed(DeliverSeq(r, before, info), last, info);
    }
  }

  // ---------------------------------------------------------------- The class

  class SubscriptionRegistry<S> {
    const maxPerActor: nat
    var subs: map<SubId, Sub>
    var byActor: map<ActorId, set<SubId>>
    var byConnection: map<Conn, set<SubId>>
    var attached: map<SubId, nat>
    var sent: map<SubId, seq<Notification<S>>>

    constructor (maxPerActor: nat)
      ensures this.maxPerActor == maxPerActor && View() == Reg(map[], map[], map[], map[], map[]) && Indexed(View())
    {
      this.maxPerActor := maxPerActor;
      subs, byActor, byConnection, attached, sent := map[], map[], map[], map[], map[];
    }

    function View(): Reg<S>
      reads this
    {
      Reg(subs, byActor, byConnection, attached, sent)
    }

    /** The first half of `subscribe`, before its host is awaited. */
    method CheckCap(actorId: ActorId) returns (ok: bool)
      ensures ok == !Full(View(), actorId, maxPerActor)
    {
      var existing := if actorId in byActor then |byActor[actorId]| else 0;
      return existing < maxPerActor;
    }

    /** The second half: `id` is the fresh uuid; `serial`, `state` and `seqNo` are the host's. */
    method AttachTo(id: SubId, sub: Sub, serial: nat, state: S, seqNo: int)
      requires Indexed(View()) && id !in subs
      modifies this
      ensures View() == Subscribe(old(View()), id, sub, serial, state, seqNo) && Indexed(View())
    {
      ghost var was := View();
      attached := attached[id := serial];
      subs := subs[id := sub];
      byActor := byActor[sub.actorId := (if sub.actorId in byActor then byActor[sub.actorId] else {}) + {id}];
      byConnection := byConnection[sub.conn := (if sub.conn in byConnection then byConnection[sub.conn] else {}) + {id}];
      sent := sent[id := [Snapshot(id, state, Some(seqNo))]];
      assert View() == Subscribe(was, id, sub, serial, state, seqNo);
      SubscribeIndexed(was, id, sub, serial, state, seqNo);
    }

    method DetachSub(id: SubId)
      requires id in subs
      modifies this`subs, this`byActor, this`byConnection, this`attached
      ensures View() == Detach(old(View()), id)
    {
      var sub := subs[id];
      attached := attached - {id};
      subs := subs - {id};
      if sub.actorId in byActor {
        var a := byActor[sub.actorId] - {id};
        byActor := if a == {} then byActor - {sub.actorId} else byActor[sub.actorId := a];
      }
      if sub.conn in byConnection {
        var c := byConnection[sub.conn] - {id};
        byConnection := if c == {} then byConnection - {sub.conn} else byConnection[sub.conn := c];
      }
    }

    method DeliverTo(id: SubId, info: Info)
      requires id in subs && id in sent
      modifies this
      ensures View() == Deliver(old(View()), id, info)
    {
      sent := sent[id := sent[id] + [Note(id, info)]];
      if info.TombstoneInfo? {
        DetachSub(id);
      }
    }

    /** A host object calls its listeners, in some order. */
    method EmitCommit(actorId: ActorId, serial: nat, info: Info) returns (ghost order: seq<SubId>)
      requires Indexed(View())
      modifies this
      ensures Lists(order, Listeners(old(View()), actorId, serial))
      ensures View() == DeliverSeq(old(View()), order, info)
      ensures Emitted(old(View()), Listeners(old(View()), actorId, serial), info, View()) && Indexed(View())
    {
      var after;
      after, order := DeliverAll(View(), Listeners(View(), actorId, serial), info);
      subs, byActor, byConnection := after.subs, after.byActor, after.byConnection;
      attached, sent := after.attached, after.sent;
    }

    /** Drops every subscription of a connection, and no other. */
    method UnsubscribeConnection(conn: Conn)
      requires Indexed(View())
      modifies this`subs, this`byActor, this`byConnection, this`attached
      ensures Indexed(View()) && conn !in byConnection
      ensures subs == map id | id in old(subs) && old(subs)[id].conn != conn :: old(subs)[id]
    {
      if conn !in byConnection {
        return;
      }
      assert byConnection[conn] <= subs.Keys by {
        MembersOfConnection(View(), conn);
      }
      var after := DetachAll(View(), byConnection[conn]);
      ConnectionGone(View(), after, conn);
      subs, byActor, byConnection, attached := after.subs, after.byActor, after.byConnection, after.attached;
    }
  }

  // ---------------------------------------------------------------- The registry's loops

  /** `deliver` to each of `ids`, one after the other. */
  method DeliverAll<S>(r: Reg<S>, ids: set<SubId>, info: Info) returns (after: Reg<S>, ghost order: seq<SubId>)
    requires Indexed(r) && ids <= r.subs.Keys
    ensures Lists(order, ids) && after == DeliverSeq(r, order, info)
    ensures Emitted(r, ids, info, after) && Indexed(after)
  {
    after, order := r, [];
    var left := ids;
    while left != {}
      invariant left <= ids && Lists(order, ids - left) && after == DeliverSeq(r, order, info)
      decreases left
    {
      ghost var _ := Occupied(left);
      var id :| id in left;
      assert ids - (left - {id}) == (ids - left) + {id};
      ListsMore(order, ids - left, id);
      DeliverSeqMore(r, order, id, info);
      after, order, left := Deliver(after, id, info), order + [id], left - {id};
    }
    assert ids - left == ids;
    DeliverSeqEmits(r, order, ids, info);
  }

  lemma DeliverSeqMore<S>(r: Reg<S>, order: seq<SubId>, id: SubId, info: Info)
    ensures DeliverSeq(r, order + [id], info) == Deliver(DeliverSeq(r, order, info), id, info)
  {
    assert (order + [id])[..|order|] == order;
  }

  lemma ListsMore(order: seq<SubId>, ids: set<SubId>, id: SubId)
    requires Lists(order, ids) && id !in ids
    ensures Lists(order + [id], ids + {id})
  {
    assert forall i :: 0 <= i < |order| ==> order[i] in order;
  }

  /** `detach` of each of `ids`. */
  method DetachAll<S>(r: Reg<S>, ids: set<SubId>) returns (after: Reg<S>)
    requires Indexed(r) && ids <= r.subs.Keys
    ensures Indexed(after) && after.subs == r.subs - ids && after.sent == r.sent
  {
    after := r;
    var left := ids;
    while left != {}
      invariant left <= ids && Indexed(after) && after.subs == r.subs - (ids - left) && after.sent == r.sent
      decreases left
    {
      ghost var _ := Occupied(left);
      var id :| id in left;
      DetachOneMore(r, after, ids, left, id);
      after := Detach(after, id);
      left := left - {id};
    }
    assert ids - left == ids;
  }

  lemma DetachOneMore<S>(r: Reg<S>, now: Reg<S>, ids: set<SubId>, left: set<SubId>, id: SubId)
    requires left <= ids <= r.subs.Keys && id in left && Indexed(now)
    requires now.subs == r.subs - (ids - left) && now.sent == r.sent
    ensures var after := Detach(now, id);
      Indexed(after) && after.subs == r.subs - (ids - (left - {id})) && after.sent == r.sent
  {
    assert Indexed(Detach(now, id)) by {
      DetachIndexed(now, id);
    }
  }

  lemma ConnectionGone<S>(r: Reg<S>, after: Reg<S>, conn: Conn)
    requires Indexed(r) && Indexed(after) && conn in r.byConnection && after.subs == r.subs - r.byConnection[conn]
    ensures conn !in after.byConnection
    ensures after.subs == map id | id in r.subs && r.subs[id].conn != conn :: r.subs[id]
  {
    MembersOfConnection(r, conn);
    MembersOfConnection(after, conn);
  }
}
