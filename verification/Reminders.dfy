/**
 * Reminders live in two stores: a Postgres row is the durable record, a Valkey sorted set is the
 * dispatch queue. Every write is a step of its own, and the process may crash between any two.
 */
module Reminders {
  import opened Wrappers

  type Id = string

  /**
   * A JSON value as JavaScript writes it out. The properties of an object come in their own order: array
   * indices first, ascending, then the other names as they were added.
   */
  datatype Json =
    | Atom(text: string)
    | List(items: seq<Json>)
    | Object(indexed: seq<Field>, named: seq<Field>)

  datatype Field = Field(key: string, value: Json)

  /** The text of a message, as its parts: both the caller and recovery write them in this order. */
  datatype Text = Text(actorId: string, className: string, kind: string, payload: Json)

  /** A member of the sorted set is the text of an envelope: the row's id and the message. */
  datatype Member = Member(id: Id, text: Text)

  /** `payload` is the text that recovery reads back from the row's columns. */
  datatype Row = Row(due: int, delivered: bool, payload: Text)

  /** Where the process stands. While `Recovering`, `left` are the members `init` has still to add. */
  datatype Process = Stopped | Recovering(left: map<Member, int>) | Running

  /**
   * `adds`: inserted, not yet in the set. `pops`: removed from the set, not yet marked. The last three
   * are kept for the statements: the text each reminder was enqueued with, the removals of each
   * member, and the crashes that hit between a removal of it and its mark.
   */
  datatype World = World(
    rows: map<Id, Row>,
    zset: map<Member, int>,
    process: Process,
    adds: map<Member, int>,
    pops: set<Member>,
    texts: map<Id, Text>,
    popped: map<Member, nat>,
    cut: map<Member, nat>)

  const Empty: World := World(map[], map[], Stopped, map[], {}, map[], map[], map[])

  datatype Step =
    | Insert(id: Id, due: int, text: Text)
    | ZAdd(m: Member)
    | Pop(now: int, limit: nat, taken: set<Member>)
    | Mark(batch: set<Member>)
    | InitRead
    | InitAdd(m: Member)
    | InitDone
    | Crash(flushed: bool)

  /** What the rows ask the sorted set to hold. */
  function Undelivered(rows: map<Id, Row>): map<Member, int> {
    map m | m in (set id | id in rows && !rows[id].delivered :: Member(id, rows[id].payload)) :: rows[m.id].due
  }

  function Due(zset: map<Member, int>, now: int): set<Member> {
    set m | m in zset && zset[m] <= now
  }

  /** What the Lua script takes: the earliest due members, as many as the limit allows. */
  ghost predicate Takes(zset: map<Member, int>, now: int, limit: nat, taken: set<Member>) {
    && taken <= Due(zset, now)
    && |taken| == (if |Due(zset, now)| <= limit then |Due(zset, now)| else limit)
    && forall a, b :: a in taken && b in Due(zset, now) - taken ==> zset[a] <= zset[b]
  }

  function Get(m: map<Member, nat>, k: Member): nat { if k in m then m[k] else 0 }

  function Count(m: map<Member, nat>, ks: set<Member>): map<Member, nat> {
    map k | k in m.Keys + ks :: Get(m, k) + if k in ks then 1 else 0
  }

  function IdsOf(ms: set<Member>): set<Id> { set m | m in ms :: m.id }

  function Delivered(rows: map<Id, Row>, ids: set<Id>): map<Id, Row> {
    map id | id in rows :: if id in ids then rows[id].(delivered := true) else rows[id]
  }

  ghost predicate Enabled(stored: Text -> Option<Text>, w: World, s: Step) {
    match s
    case Insert(id, _, text) => w.process.Running? && id !in w.rows && stored(text).Some?
    case ZAdd(m) => w.process.Running? && m in w.adds
    case Pop(now, limit, taken) => w.process.Running? && Takes(w.zset, now, limit, taken)
    case Mark(batch) => w.process.Running? && batch <= w.pops
    case InitRead => w.process.Stopped?
    case InitAdd(m) => w.process.Recovering? && m in w.process.left
    case InitDone => w.process.Recovering? && w.process.left == map[]
    case Crash(_) => true
  }

  /**
   * One write. `stored` is what the row's columns give back for a text, or `None` if
   * they refuse it; a step not enabled does nothing.
   */
  ghost function Next(stored: Text -> Option<Text>, w: World, s: Step): World {
    if !Enabled(stored, w, s) then w
    else
      match s
      case Insert(id, due, text) =>
        w.(rows := w.rows[id := Row(due, false, stored(text).value)],
           adds := w.adds[Member(id, text) := due],
           texts := w.texts[id := text])
      case ZAdd(m) => w.(zset := w.zset[m := w.adds[m]], adds := w.adds - {m})
      case Pop(_, _, taken) => w.(zset := w.zset - taken, pops := w.pops + taken, popped := Count(w.popped, taken))
      case Mark(batch) => w.(rows := Delivered(w.rows, IdsOf(batch)), pops := w.pops - batch)
      case InitRead => w.(process := Recovering(Undelivered(w.rows)))
      case InitAdd(m) =>
        w.(zset := w.zset[m := w.process.left[m]], process := Recovering(w.process.left - {m}))
      case InitDone => w.(process := Running)
      case Crash(flushed) =>
        w.(process := Stopped, adds := map[], pops := {}, cut := Count(w.cut, w.pops),
           zset := if flushed then map[] else w.zset)
  }

  ghost function Run(stored: Text -> Option<Text>, steps: seq<Step>): World {
    if steps == [] then Empty else Next(stored, Run(stored, steps[..|steps| - 1]), steps[|steps| - 1])
  }

  // ---------------------------------------------------------------- What every step keeps

  /** A member names a row and carries the text the row was enqueued with, or the text it gives back. */
  predicate Known(w: World, m: Member) {
    m.id in w.rows && m.id in w.texts && (m.text == w.texts[m.id] || m.text == w.rows[m.id].payload)
  }

  predicate Held(w: World, m: Member) { m in w.zset || m in w.adds || m in w.pops }

  /** Members carry their row's time, are in one place at a time, and only `init` adds one again. */
  predicate MemberPlaced(w: World, m: Member) {
    && (Held(w, m) ==> Known(w, m))
    && (m in w.zset ==> w.zset[m] == w.rows[m.id].due && m !in w.adds && m !in w.pops)
    && (m in w.adds ==> w.adds[m] == w.rows[m.id].due && m !in w.pops)
    && (w.process.Recovering? && m in w.process.left ==>
          m.id in w.rows && !w.rows[m.id].delivered && m.text == w.rows[m.id].payload &&
          w.process.left[m] == w.rows[m.id].due)
    && (!w.process.Running? ==> m !in w.adds && m !in w.pops)
  }

  /** Every removal of a member but the last was undone by a crash. */
  predicate MemberCounted(w: World, m: Member) {
    && (m.id !in w.rows ==> Get(w.popped, m) == 0 && Get(w.cut, m) == 0)
    && Get(w.popped, m) <= 1 + Get(w.cut, m)
    && (m in w.pops ==> Get(w.popped, m) == 1 + Get(w.cut, m))
    && (m in w.zset || m in w.adds ==> Get(w.popped, m) == Get(w.cut, m))
    && (m.id in w.rows && !w.rows[m.id].delivered && m !in w.pops ==> Get(w.popped, m) == Get(w.cut, m))
  }

  /** A row stems from a text, holds what the column makes of it, and has a member until it is delivered. */
  predicate RowPlaced(stored: Text -> Option<Text>, w: World, id: Id) {
    && (id in w.rows <==> id in w.texts)
    && (id in w.rows ==>
          && stored(w.texts[id]) == Some(w.rows[id].payload)
          && (!w.rows[id].delivered ==>
                match w.process
                case Running => Held(w, Member(id, w.texts[id])) || Held(w, Member(id, w.rows[id].payload))
                case Recovering(left) =>
                  Member(id, w.rows[id].payload) in left || Member(id, w.rows[id].payload) in w.zset
                case Stopped => true))
  }

  /** A text the column gives back unchanged makes one member, and that one is spent once it is delivered. */
  predicate RowSpent(w: World, id: Id) {
    id in w.rows && id in w.texts && w.rows[id].payload == w.texts[id] && w.rows[id].delivered ==>
      var m := Member(id, w.texts[id]);
      !Held(w, m) && Get(w.popped, m) == 1 + Get(w.cut, m)
  }

  ghost predicate Good(stored: Text -> Option<Text>, w: World) {
    && (forall m :: MemberPlaced(w, m) && MemberCounted(w, m))
    && (forall id :: RowPlaced(stored, w, id) && RowSpent(w, id))
  }

  lemma NextMember(stored: Text -> Option<Text>, w: World, s: Step, m: Member)
    requires MemberPlaced(w, m) && MemberCounted(w, m) && RowPlaced(stored, w, m.id)
    ensures MemberPlaced(Next(stored, w, s), m)
  {
    if s.Pop? {
      PopMember(stored, w, s, m);
    }
  }

  lemma PopMember(stored: Text -> Option<Text>, w: World, s: Step, m: Member)
    requires s.Pop? && MemberPlaced(w, m)
    ensures MemberPlaced(Next(stored, w, s), m)
  {
    if Enabled(stored, w, s) {
      assert m in s.taken ==> m in Due(w.zset, s.now);
    }
  }

  lemma NextMemberCounted(stored: Text -> Option<Text>, w: World, s: Step, m: Member)
    requires MemberPlaced(w, m) && MemberCounted(w, m) && RowPlaced(stored, w, m.id)
    ensures MemberCounted(Next(stored, w, s), m)
  {
    if s.Pop? && Enabled(stored, w, s) {
      assert m in s.taken ==> m in Due(w.zset, s.now);
    } else if s.Mark? && Enabled(stored, w, s) {
      assert m in s.batch ==> m in w.pops;
    }
  }

  lemma NextRow(stored: Text -> Option<Text>, w: World, s: Step, id: Id)
    requires RowPlaced(stored, w, id)
    requires id in w.rows ==> MemberPlaced(w, Member(id, w.texts[id])) && MemberPlaced(w, Member(id, w.rows[id].payload))
    ensures RowPlaced(stored, Next(stored, w, s), id)
  {
    if s.InitRead? && id in w.rows && !w.rows[id].delivered {
      assert Member(id, w.rows[id].payload) in Undelivered(w.rows);
    } else if s.Mark? && Enabled(stored, w, s) {
      assert forall m :: m in s.batch ==> m.id in IdsOf(s.batch);
    }
  }

  lemma NextRowSpent(stored: Text -> Option<Text>, w: World, s: Step, id: Id)
    requires Good(stored, w)
    ensures RowSpent(Next(stored, w, s), id)
  {
    assert RowPlaced(stored, w, id) && RowSpent(w, id);
    if id in w.rows {
      var m := Member(id, w.texts[id]);
      assert MemberPlaced(w, m) && MemberCounted(w, m);
      if s.Mark? && Enabled(stored, w, s) && id in IdsOf(s.batch) && w.rows[id].payload == w.texts[id] {
        var n :| n in s.batch && n.id == id;
        assert MemberPlaced(w, n);
        assert n == m;
      } else if s.Pop? && Enabled(stored, w, s) {
        assert m in s.taken ==> m in Due(w.zset, s.now);
      }
    }
  }

  lemma NextGood(stored: Text -> Option<Text>, w: World, s: Step)
    requires Good(stored, w)
    ensures Good(stored, Next(stored, w, s))
  {
    forall m ensures MemberPlaced(Next(stored, w, s), m) && MemberCounted(Next(stored, w, s), m) {
      assert MemberPlaced(w, m) && RowPlaced(stored, w, m.id);
      NextMember(stored, w, s, m);
      NextMemberCounted(stored, w, s, m);
    }
    forall id ensures RowPlaced(stored, Next(stored, w, s), id) && RowSpent(Next(stored, w, s), id) {
      assert RowPlaced(stored, w, id);
      if id in w.rows {
        assert MemberPlaced(w, Member(id, w.texts[id])) && MemberPlaced(w, Member(id, w.rows[id].payload));
      }
      NextRow(stored, w, s, id);
      NextRowSpent(stored, w, s, id);
    }
  }

  /** In every run, whatever the column does to texts. */
  lemma {:induction false} RunGood(stored: Text -> Option<Text>, steps: seq<Step>)
    ensures Good(stored, Run(stored, steps))
  {
    if steps != [] {
      RunGood(stored, steps[..|steps| - 1]);
      NextGood(stored, Run(stored, steps[..|steps| - 1]), steps[|steps| - 1]);
    }
  }

  // ---------------------------------------------------------------- What holds whatever the column does

  /** Removals of a reminder, over its one or two members. */
  function Popped(w: World, id: Id): nat
    requires id in w.rows && id in w.texts
  {
    Get(w.popped, Member(id, w.texts[id])) +
    if w.rows[id].payload == w.texts[id] then 0 else Get(w.popped, Member(id, w.rows[id].payload))
  }

  /** Removals of a reminder that a crash cut off from the delivered mark. */
  function Cut(w: World, id: Id): nat
    requires id in w.rows && id in w.texts
  {
    Get(w.cut, Member(id, w.texts[id])) +
    if w.rows[id].payload == w.texts[id] then 0 else Get(w.cut, Member(id, w.rows[id].payload))
  }

  /**
   * A completed init leaves every undelivered row in the sorted set with its time, whatever crashed
   * before; and the members of a reminder whose text comes back unchanged are undelivered rows only.
   */
  lemma InitRestoresQueue(stored: Text -> Option<Text>, steps: seq<Step>)
    requires Enabled(stored, Run(stored, steps), InitDone)
    ensures var w := Next(stored, Run(stored, steps), InitDone);
      && (forall m :: m in Undelivered(w.rows) ==> m in w.zset && w.zset[m] == Undelivered(w.rows)[m])
      && (forall m :: m in w.zset ==>
            && m.id in w.texts
            && (stored(w.texts[m.id]) == Some(w.texts[m.id]) ==> m in Undelivered(w.rows)))
  {
    var w := Run(stored, steps);
    RunGood(stored, steps);
    forall m | m in Undelivered(w.rows) ensures m in w.zset && w.zset[m] == Undelivered(w.rows)[m] {
      assert RowPlaced(stored, w, m.id) && MemberPlaced(w, m);
    }
    forall m | m in w.zset
      ensures m.id in w.texts && (stored(w.texts[m.id]) == Some(w.texts[m.id]) ==> m in Undelivered(w.rows))
    {
      assert MemberPlaced(w, m) && RowPlaced(stored, w, m.id) && RowSpent(w, m.id);
    }
  }

  /** Nothing is popped early, and earlier reminders are popped before later ones. */
  lemma NothingIsEarly(stored: Text -> Option<Text>, steps: seq<Step>, s: Step, m: Member)
    requires s.Pop? && Enabled(stored, Run(stored, steps), s) && m in s.taken
    ensures var w := Run(stored, steps);
      && m.id in w.rows && w.rows[m.id].due <= s.now
      && forall other :: other in w.zset && other !in s.taken && w.zset[other] <= s.now ==>
           w.rows[m.id].due <= w.zset[other]
  {
    var w := Run(stored, steps);
    RunGood(stored, steps);
    assert m in Due(w.zset, s.now) && MemberPlaced(w, m);
    forall other | other in w.zset && other !in s.taken && w.zset[other] <= s.now
      ensures w.rows[m.id].due <= w.zset[other]
    {
      assert other in Due(w.zset, s.now) - s.taken;
    }
  }

  /** A pop takes no more than its limit, and nothing due is left in the set if it takes fewer. */
  lemma NothingDueIsLeft(stored: Text -> Option<Text>, w: World, s: Step, m: Member)
    requires s.Pop? && Enabled(stored, w, s)
    ensures var after := Next(stored, w, s);
      && |s.taken| <= s.limit
      && (m in after.zset <==> m in w.zset && m !in s.taken)
      && (|s.taken| < s.limit && m in after.zset ==> after.zset[m] > s.now)
  {
    if |s.taken| < s.limit && m in Due(w.zset, s.now) {
      AllTaken(s.taken, Due(w.zset, s.now));
    }
  }

  lemma {:induction false} AllTaken(taken: set<Member>, due: set<Member>)
    requires taken <= due && |taken| == |due|
    ensures taken == due
  {
    if due != {} {
      var m := Occupied(due);
      if m !in taken {
        assert taken <= due - {m};
        FewerMembers(taken, due - {m});
      } else {
        AllTaken(taken - {m}, due - {m});
      }
    }
  }

  lemma {:induction false} FewerMembers(a: set<Member>, b: set<Member>)
    requires a <= b
    ensures |a| <= |b|
  {
    if a != {} {
      var m := Occupied(a);
      FewerMembers(a - {m}, b - {m});
    }
  }

  /**
   * A reminder is popped once per member it has had, plus once for each removal that a crash cut off
   * from the mark. It has one member if its text comes back unchanged, and two otherwise.
   */
  lemma PopsAreBounded(stored: Text -> Option<Text>, steps: seq<Step>, id: Id)
    requires id in Run(stored, steps).rows
    ensures var w := Run(stored, steps);
      && id in w.texts
      && Popped(w, id) <= Cut(w, id) + (if stored(w.texts[id]) == Some(w.texts[id]) then 1 else 2)
      && (stored(w.texts[id]) == Some(w.texts[id]) && w.rows[id].delivered ==> Popped(w, id) == 1 + Cut(w, id))
      && (!w.rows[id].delivered && (forall m :: m in w.pops ==> m.id != id) ==> Popped(w, id) == Cut(w, id))
  {
    var w := Run(stored, steps);
    RunGood(stored, steps);
    assert RowPlaced(stored, w, id) && RowSpent(w, id);
    assert MemberCounted(w, Member(id, w.texts[id])) && MemberCounted(w, Member(id, w.rows[id].payload));
  }

  /** While the process runs, an undelivered reminder is queued, about to be queued, or just popped. */
  lemma NothingIsLost(stored: Text -> Option<Text>, steps: seq<Step>, id: Id)
    requires Run(stored, steps).process.Running?
    requires id in Run(stored, steps).rows && !Run(stored, steps).rows[id].delivered
    ensures exists m: Member :: m.id == id && Held(Run(stored, steps), m)
  {
    RunGood(stored, steps);
    assert RowPlaced(stored, Run(stored, steps), id);
  }

  // ---------------------------------------------------------------- When it is exactly once

  /** The queue is restored exactly, and a reminder is popped once plus once per cut. */
  ghost predicate ExactlyOnce(stored: Text -> Option<Text>, steps: seq<Step>) {
    var w := Run(stored, steps);
    && (Enabled(stored, w, InitDone) ==> w.zset == Undelivered(w.rows))
    && (forall id :: id in w.rows && id in w.texts ==> Popped(w, id) <= 1 + Cut(w, id))
  }

  ghost predicate Enqueues(steps: seq<Step>, uses: Text -> bool) {
    forall i :: 0 <= i < |steps| && steps[i].Insert? ==> uses(steps[i].text)
  }

  lemma {:induction false} RunTexts(stored: Text -> Option<Text>, steps: seq<Step>, uses: Text -> bool)
    requires Enqueues(steps, uses)
    ensures forall id :: id in Run(stored, steps).texts ==> uses(Run(stored, steps).texts[id])
  {
    if steps != [] {
      RunTexts(stored, steps[..|steps| - 1], uses);
    }
  }

  lemma TextComesBack(stored: Text -> Option<Text>, steps: seq<Step>, uses: Text -> bool, id: Id)
    requires Enqueues(steps, uses) && forall t :: uses(t) && stored(t).Some? ==> stored(t) == Some(t)
    requires id in Run(stored, steps).texts
    ensures stored(Run(stored, steps).texts[id]) == Some(Run(stored, steps).texts[id])
  {
    RunTexts(stored, steps, uses);
    assert RowPlaced(stored, Run(stored, steps), id) by {
      RunGood(stored, steps);
    }
  }

  lemma QueueIsRestored(stored: Text -> Option<Text>, steps: seq<Step>)
    requires Enabled(stored, Run(stored, steps), InitDone)
    requires forall id :: id in Run(stored, steps).texts ==>
               stored(Run(stored, steps).texts[id]) == Some(Run(stored, steps).texts[id])
    ensures Run(stored, steps).zset == Undelivered(Run(stored, steps).rows)
  {
    var w := Run(stored, steps);
    var zset, asked := w.zset, Undelivered(w.rows);
    assert forall m :: m in asked ==> m in zset && zset[m] == asked[m] by {
      InitRestoresQueue(stored, steps);
    }
    forall m | m in zset ensures m in asked {
      InitRestoresQueue(stored, steps);
      assert m.id in w.texts && stored(w.texts[m.id]) == Some(w.texts[m.id]);
    }
    assert zset.Keys == asked.Keys;
  }

  lemma FixpointsAreExact(stored: Text -> Option<Text>, steps: seq<Step>, uses: Text -> bool)
    requires Enqueues(steps, uses) && forall t :: uses(t) && stored(t).Some? ==> stored(t) == Some(t)
    ensures ExactlyOnce(stored, steps)
  {
    var w := Run(stored, steps);
    assert Enabled(stored, w, InitDone) ==> w.zset == Undelivered(w.rows) by {
      if Enabled(stored, w, InitDone) {
        forall id | id in w.texts ensures stored(w.texts[id]) == Some(w.texts[id]) {
          TextComesBack(stored, steps, uses, id);
        }
        QueueIsRestored(stored, steps);
      }
    }
    assert forall id :: id in w.rows && id in w.texts ==> Popped(w, id) <= 1 + Cut(w, id) by {
      forall id | id in w.rows && id in w.texts ensures Popped(w, id) <= 1 + Cut(w, id) {
        TextComesBack(stored, steps, uses, id);
        PopsAreBounded(stored, steps, id);
      }
    }
  }

  /** A reminder is enqueued, the process restarts while the sorted set survives, and recovery adds its row. */
  function Restart(t: Text, back: Text): seq<Step> {
    [InitRead, InitDone] + [Insert("r", 0, t), ZAdd(Member("r", t))] + [Crash(false), InitRead] +
    [InitAdd(Member("r", back))]
  }

  /** The reminder then falls due. */
  function Again(t: Text, back: Text): seq<Step> {
    Restart(t, back) + [InitDone, Pop(0, 2, {Member("r", t), Member("r", back)})]
  }

  lemma RunSnoc(stored: Text -> Option<Text>, steps: seq<Step>, s: Step)
    ensures Run(stored, steps + [s]) == Next(stored, Run(stored, steps), s)
  {
    assert (steps + [s])[..|steps|] == steps;
  }

  lemma RunTwo(stored: Text -> Option<Text>, steps: seq<Step>, s: Step, t: Step)
    ensures Run(stored, steps + [s, t]) == Next(stored, Next(stored, Run(stored, steps), s), t)
  {
    var mid := steps + [s];
    assert Run(stored, mid) == Next(stored, Run(stored, steps), s) by {
      RunSnoc(stored, steps, s);
    }
    assert Run(stored, mid + [t]) == Next(stored, Run(stored, mid), t) by {
      RunSnoc(stored, mid, t);
    }
    assert mid + [t] == steps + [s, t];
  }

  /** One row, undelivered, and what else there is. */
  function OneRow(t: Text, back: Text, zset: map<Member, int>, process: Process): World {
    World(map["r" := Row(0, false, back)], zset, process, map[], {}, map["r" := t], map[], map[])
  }

  lemma FirstInit(stored: Text -> Option<Text>)
    ensures Next(stored, Next(stored, Empty, InitRead), InitDone) == Empty.(process := Running)
  {
    NoneUndelivered();
    var w := Next(stored, Empty, InitRead);
    assert w.process.left == map[];
  }

  lemma NoneUndelivered()
    ensures Undelivered(map[]) == map[]
  {
    assert Undelivered(map[]).Keys == {};
  }

  lemma FirstEnqueue(stored: Text -> Option<Text>, t: Text, back: Text)
    requires stored(t) == Some(back)
    ensures var m := Member("r", t);
      Next(stored, Next(stored, Empty.(process := Running), Insert("r", 0, t)), ZAdd(m)) ==
      OneRow(t, back, map[m := 0], Running)
  {
    var w := Next(stored, Empty.(process := Running), Insert("r", 0, t));
    assert w.adds - {Member("r", t)} == map[];
  }

  lemma OneUndelivered(back: Text)
    ensures Undelivered(map["r" := Row(0, false, back)]) == map[Member("r", back) := 0]
  {
  }

  lemma SurvivedRestart(stored: Text -> Option<Text>, t: Text, back: Text)
    requires stored(t) == Some(back)
    ensures var zset := map[Member("r", t) := 0];
      Next(stored, Next(stored, OneRow(t, back, zset, Running), Crash(false)), InitRead) ==
      OneRow(t, back, zset, Recovering(map[Member("r", back) := 0]))
  {
    var zset := map[Member("r", t) := 0];
    var w := OneRow(t, back, zset, Stopped);
    assert Next(stored, OneRow(t, back, zset, Running), Crash(false)) == w by {
      NoneCounted();
    }
    assert Next(stored, w, InitRead) == w.(process := Recovering(Undelivered(w.rows)));
    OneUndelivered(back);
  }

  lemma NoneCounted()
    ensures Count(map[], {}) == map[]
  {
    assert Count(map[], {}).Keys == {};
  }

  lemma AddedAgain(stored: Text -> Option<Text>, t: Text, back: Text)
    requires stored(t) == Some(back)
    ensures var m, n := Member("r", t), Member("r", back);
      Next(stored, OneRow(t, back, map[m := 0], Recovering(map[n := 0])), InitAdd(n)) ==
      OneRow(t, back, map[m := 0][n := 0], Recovering(map[]))
  {
    var n := Member("r", back);
    assert map[n := 0] - {n} == map[];
  }

  lemma RestartRuns(stored: Text -> Option<Text>, t: Text, back: Text)
    requires stored(t) == Some(back)
    ensures Run(stored, Restart(t, back)) ==
            OneRow(t, back, map[Member("r", t) := 0][Member("r", back) := 0], Recovering(map[]))
  {
    var m, n := Member("r", t), Member("r", back);
    var s2 := [InitRead, InitDone];
    var s4 := s2 + [Insert("r", 0, t), ZAdd(m)];
    var s6 := s4 + [Crash(false), InitRead];
    assert [] + s2 == s2;
    RunTwo(stored, [], InitRead, InitDone);
    FirstInit(stored);
    RunTwo(stored, s2, Insert("r", 0, t), ZAdd(m));
    FirstEnqueue(stored, t, back);
    RunTwo(stored, s4, Crash(false), InitRead);
    SurvivedRestart(stored, t, back);
    RunSnoc(stored, s6, InitAdd(n));
    AddedAgain(stored, t, back);
  }

  lemma BothArePopped(stored: Text -> Option<Text>, t: Text, back: Text)
    requires stored(t) == Some(back)
    requires back != t
    ensures var m, n := Member("r", t), Member("r", back);
      var w := Next(stored, OneRow(t, back, map[m := 0][n := 0], Running), Pop(0, 2, {m, n}));
      "r" in w.rows && "r" in w.texts && Popped(w, "r") == 2 && Cut(w, "r") == 0
  {
    var m, n := Member("r", t), Member("r", back);
    assert Due(map[m := 0][n := 0], 0) == {m, n};
    assert |{m, n}| == 2;
  }

  /** A text that comes back changed gives its row a second member, and both are popped, with no crash in between. */
  lemma ChangedTextIsPoppedTwice(stored: Text -> Option<Text>, t: Text, back: Text)
    requires stored(t) == Some(back)
    requires back != t
    ensures var w := Run(stored, Restart(t, back));
      Enabled(stored, w, InitDone) && w.zset != Undelivered(w.rows)
    ensures var w := Run(stored, Again(t, back));
      "r" in w.rows && "r" in w.texts && Popped(w, "r") == 2 && Cut(w, "r") == 0
  {
    var m, n := Member("r", t), Member("r", back);
    RestartRuns(stored, t, back);
    OneUndelivered(back);
    assert m in Run(stored, Restart(t, back)).zset && m !in map[n := 0];
    RunTwo(stored, Restart(t, back), InitDone, Pop(0, 2, {m, n}));
    BothArePopped(stored, t, back);
  }

  lemma AgainIsNotExact(stored: Text -> Option<Text>, t: Text, back: Text, uses: Text -> bool)
    requires uses(t) && stored(t) == Some(back) && back != t
    ensures Enqueues(Again(t, back), uses) && !ExactlyOnce(stored, Again(t, back))
  {
    AgainEnqueues(t, back, uses);
    ChangedTextIsPoppedTwice(stored, t, back);
    TwiceIsNotExact(stored, Again(t, back), "r");
  }

  lemma AgainEnqueues(t: Text, back: Text, uses: Text -> bool)
    requires uses(t)
    ensures Enqueues(Again(t, back), uses)
  {
    var steps := Again(t, back);
    forall i | 0 <= i < |steps| && steps[i].Insert? ensures steps[i].text == t {
      assert i == 2;
    }
  }

  lemma TwiceIsNotExact(stored: Text -> Option<Text>, steps: seq<Step>, id: Id)
    requires var w := Run(stored, steps); id in w.rows && id in w.texts && Popped(w, id) == 2 && Cut(w, id) == 0
    ensures !ExactlyOnce(stored, steps)
  {
  }

  /**
   * Exactly when a reminder is queued and popped as promised: every run that enqueues texts of a kind
   * restores its queue and pops each reminder once, plus once per cut, if and only if the column gives
   * every text of that kind back unchanged.
   */
  lemma ExactlyOnceIff(stored: Text -> Option<Text>, uses: Text -> bool)
    ensures (forall steps :: Enqueues(steps, uses) ==> ExactlyOnce(stored, steps)) <==>
            (forall t :: uses(t) && stored(t).Some? ==> stored(t) == Some(t))
  {
    if forall t :: uses(t) && stored(t).Some? ==> stored(t) == Some(t) {
      forall steps | Enqueues(steps, uses) ensures ExactlyOnce(stored, steps) {
        FixpointsAreExact(stored, steps, uses);
      }
    } else {
      var t :| uses(t) && stored(t).Some? && stored(t) != Some(t);
      AgainIsNotExact(stored, t, stored(t).value, uses);
    }
  }

  // ---------------------------------------------------------------- The driver's methods are runs of steps

  /** `enqueueReminder` is the row, then the member; a crash may fall in between. */
  lemma EnqueueIsSteps(stored: Text -> Option<Text>, w: World, id: Id, due: int, text: Text)
    requires w.process.Running? && id !in w.rows && Member(id, text) !in w.adds && stored(text).Some?
    ensures var m := Member(id, text);
      Next(stored, Next(stored, w, Insert(id, due, text)), ZAdd(m)) ==
      w.(rows := w.rows[id := Row(due, false, stored(text).value)], zset := w.zset[m := due], texts := w.texts[id := text])
  {
    var m := Member(id, text);
    assert w.adds[m := due] - {m} == w.adds;
  }

  /** `popDueReminders` is the script, then the update of the rows. */
  lemma PopIsSteps(stored: Text -> Option<Text>, w: World, now: int, limit: nat, taken: set<Member>)
    requires w.process.Running? && Takes(w.zset, now, limit, taken) && taken !! w.pops
    ensures Next(stored, Next(stored, w, Pop(now, limit, taken)), Mark(taken)) ==
            w.(rows := Delivered(w.rows, IdsOf(taken)), zset := w.zset - taken, popped := Count(w.popped, taken))
  {
    var popped := Next(stored, w, Pop(now, limit, taken));
    assert popped == w.(zset := w.zset - taken, pops := w.pops + taken, popped := Count(w.popped, taken));
    assert Enabled(stored, popped, Mark(taken));
    assert w.pops + taken - taken == w.pops;
    assert Next(stored, popped, Mark(taken)) ==
           popped.(rows := Delivered(popped.rows, IdsOf(taken)), pops := w.pops);
  }

  ghost function RunFrom(stored: Text -> Option<Text>, w: World, steps: seq<Step>): World
    decreases |steps|
  {
    if steps == [] then w else RunFrom(stored, Next(stored, w, steps[0]), steps[1..])
  }

  function Adds(order: seq<Member>): seq<Step> {
    seq(|order|, i requires 0 <= i < |order| => InitAdd(order[i]))
  }

  lemma MergeRest(zset: map<Member, int>, left: map<Member, int>, m: Member)
    requires m in left
    ensures zset[m := left[m]] + (left - {m}) == zset + left
  {
  }

  lemma ListsRest(order: seq<Member>, ms: set<Member>)
    requires order != [] && Lists(order, ms)
    ensures order[0] in ms && Lists(order[1..], ms - {order[0]})
  {
    assert order[0] in order;
    assert forall x :: x in order[1..] ==> x in order;
    forall x | x in order && x != order[0] ensures x in order[1..] {
      var i :| 0 <= i < |order| && order[i] == x;
      assert order[1..][i - 1] == x;
    }
  }

  lemma {:induction false} AddsAreMerge(stored: Text -> Option<Text>, w: World, left: map<Member, int>, order: seq<Member>)
    requires w.process == Recovering(left) && Lists(order, left.Keys)
    ensures RunFrom(stored, w, Adds(order)) == w.(zset := w.zset + left, process := Recovering(map[]))
    decreases |order|
  {
    if order == [] {
      assert left.Keys == {} by {
        assert forall m :: m !in left.Keys;
      }
      assert w.zset + left == w.zset;
    } else {
      var m, rest := order[0], order[1..];
      ListsRest(order, left.Keys);
      var next := w.(zset := w.zset[m := left[m]], process := Recovering(left - {m}));
      assert Next(stored, w, InitAdd(m)) == next;
      assert RunFrom(stored, w, Adds(order)) == RunFrom(stored, next, Adds(rest)) by {
        assert Adds(order)[0] == InitAdd(m) && Adds(order)[1..] == Adds(rest);
      }
      assert (left - {m}).Keys == left.Keys - {m};
      AddsAreMerge(stored, next, left - {m}, rest);
      assert next.zset + (left - {m}) == w.zset + left by {
        MergeRest(w.zset, left, m);
      }
    }
  }

  /** `recoverReminders` reads the rows and adds them one by one, in whatever order they come. */
  lemma RecoverIsSteps(stored: Text -> Option<Text>, w: World, order: seq<Member>)
    requires w.process.Stopped? && Lists(order, Undelivered(w.rows).Keys)
    ensures Next(stored, RunFrom(stored, Next(stored, w, InitRead), Adds(order)), InitDone) ==
            w.(zset := w.zset + Undelivered(w.rows), process := Running)
  {
    AddsAreMerge(stored, Next(stored, w, InitRead), Undelivered(w.rows), order);
  }

  /** If the sorted set was flushed with the crash, recovery restores the queue exactly, whatever the columns do. */
  lemma FlushedIsRestored(stored: Text -> Option<Text>, w: World, order: seq<Member>)
    requires Lists(order, Undelivered(w.rows).Keys)
    ensures var down := Next(stored, w, Crash(true));
      var up := Next(stored, RunFrom(stored, Next(stored, down, InitRead), Adds(order)), InitDone);
      down.zset == map[] && up.process == Running && up.zset == Undelivered(w.rows) && up.rows == w.rows
  {
    var down := Next(stored, w, Crash(true));
    RecoverIsSteps(stored, down, order);
    assert map[] + Undelivered(w.rows) == Undelivered(w.rows);
  }

  /** If it was not, the crash leaves it as it is; either way nothing else of the process survives. */
  lemma CrashKeepsRows(stored: Text -> Option<Text>, w: World, flushed: bool)
    ensures var down := Next(stored, w, Crash(flushed));
      && down.rows == w.rows && down.process == Stopped && down.adds == map[] && down.pops == {}
      && (!flushed ==> down.zset == w.zset)
      && forall m :: Get(down.cut, m) == Get(w.cut, m) + if m in w.pops then 1 else 0
  {
  }

  class ReminderStore {
    const stored: Text -> Option<Text>
    var rows: map<Id, Row>
    var zset: map<Member, int>

    constructor (stored: Text -> Option<Text>)
      ensures this.stored == stored && rows == map[] && zset == map[]
    {
      this.stored := stored;
      rows, zset := map[], map[];
    }

    /** The id is a fresh uuid. A text the columns refuse is not enqueued at all. */
    method EnqueueReminder(id: Id, due: int, text: Text) returns (ok: bool)
      requires id !in rows
      modifies this
      ensures ok == stored(text).Some?
      ensures rows == if ok then old(rows)[id := Row(due, false, stored(text).value)] else old(rows)
      ensures zset == if ok then old(zset)[Member(id, text) := due] else old(zset)
    {
      if stored(text).None? {
        return false;
      }
      rows := rows[id := Row(due, false, stored(text).value)];
      zset := zset[Member(id, text) := due];
      return true;
    }

    method PopDueReminders(now: int, limit: nat) returns (taken: set<Member>)
      modifies this
      ensures Takes(old(zset), now, limit, taken)
      ensures zset == old(zset) - taken && rows == Delivered(old(rows), IdsOf(taken))
    {
      taken := Earliest(zset, now, limit);
      zset := zset - taken;
      var ids := set m | m in taken :: m.id;
      rows := map id | id in rows :: if id in ids then rows[id].(delivered := true) else rows[id];
    }

    /** Every undelivered row is added, with the text the column gives back; other members stay. */
    method RecoverReminders()
      modifies this`zset
      ensures zset == old(zset) + Undelivered(rows)
    {
      var left := Undelivered(rows);
      ghost var all := left;
      while left != map[]
        invariant left.Keys <= all.Keys && forall m :: m in left ==> left[m] == all[m]
        invariant zset == old(zset) + (all - left.Keys)
        decreases left.Keys
      {
        assert left.Keys != {};
        ghost var _ := Occupied(left.Keys);
        var m :| m in left.Keys;
        ghost var done := all - left.Keys;
        zset := zset[m := left[m]];
        left := left - {m};
        assert all - left.Keys == done[m := all[m]];
      }
    }
  }

  /** `ZRANGEBYSCORE -inf now LIMIT 0 limit`. */
  method Earliest(zset: map<Member, int>, now: int, limit: nat) returns (taken: set<Member>)
    ensures Takes(zset, now, limit, taken)
  {
    var left := Due(zset, now);
    ghost var due := left;
    taken := {};
    while |taken| < limit && left != {}
      invariant taken + left == due && taken !! left
      invariant |taken| <= limit
      invariant forall a, b :: a in taken && b in left ==> zset[a] <= zset[b]
      decreases left
    {
      var first := EarliestOf(zset, left);
      taken, left := taken + {first}, left - {first};
    }
    assert due - taken == left;
  }

  method EarliestOf(zset: map<Member, int>, ms: set<Member>) returns (first: Member)
    requires ms != {} && ms <= zset.Keys
    ensures first in ms && forall m :: m in ms ==> zset[first] <= zset[m]
  {
    ghost var _ := Occupied(ms);
    first :| first in ms;
    var left := ms - {first};
    while left != {}
      invariant left <= ms && first in ms
      invariant forall m :: m in ms ==> m in left || zset[first] <= zset[m]
      decreases left
    {
      ghost var _ := Occupied(left);
      var m :| m in left;
      left := left - {m};
      if zset[m] < zset[first] {
        first := m;
      }
    }
  }
}
