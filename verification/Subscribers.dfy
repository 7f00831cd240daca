/**
 * The whole path of a subscription to an event-sourced actor: the host folds a batch, acknowledges
 * the tell it came from, and emits; the registry passes the batch on; the client folds it. Other
 * work runs between these steps.
 */
module Subscribers {
  import opened Wrappers
  import opened Events
  import opened Client
  import opened Registry
  import H = Memory

  type Ticket = string

  /**
   * Where a host's turn stands: folded but its ack awaited, or acknowledged but not yet emitted.
   * `before` are the listeners that were attached when the batch was folded.
   */
  datatype Phase = Quiet | Folded(events: seq<Value>, before: set<SubId>) | Acked(events: seq<Value>, before: set<SubId>)

  /** A host object, its number among the host objects of its actor, and every event it has folded. */
  datatype HostView<S> = HostView(mem: H.Mem<S>, phase: Phase, serial: nat, past: seq<Value>)

  /** `asks` are subscribe calls that passed the cap check and wait for their host. */
  datatype World<S> = World(hosts: map<ActorId, HostView<S>>, asks: map<Ticket, Sub>, reg: Reg<S>)

  datatype Step =
    | Ask(ticket: Ticket, sub: Sub)
    | Attach(ticket: Ticket, id: SubId)
    | Unsubscribe(id: SubId)
    | FoldTurn(actorId: ActorId, events: seq<Value>)
    | AckTurn(actorId: ActorId, ok: bool)
    | EmitTurn(actorId: ActorId, order: seq<SubId>)
    | EmitTombstone(actorId: ActorId, order: seq<SubId>)
    | Evict(actorId: ActorId)

  function HostOf<S>(cfg: H.Config<S>, w: World<S>, a: ActorId): HostView<S> {
    if a in w.hosts then w.hosts[a] else HostView(H.Mem(cfg.initial, 0, 0, false, 0), Quiet, 0, [])
  }

  ghost predicate Enabled<S>(cfg: H.Config<S>, maxPerActor: nat, w: World<S>, s: Step) {
    match s
    case Ask(ticket, sub) => ticket !in w.asks && !Full(w.reg, sub.actorId, maxPerActor)
    case Attach(ticket, id) => ticket in w.asks && id !in w.reg.subs && id !in w.reg.sent
    case Unsubscribe(id) => id in w.reg.subs
    case FoldTurn(a, events) => HostOf(cfg, w, a).phase.Quiet? && events != []
    case AckTurn(a, _) => HostOf(cfg, w, a).phase.Folded?
    case EmitTurn(a, order) =>
      HostOf(cfg, w, a).phase.Acked? && Lists(order, Listeners(w.reg, a, HostOf(cfg, w, a).serial))
    case EmitTombstone(a, order) => Lists(order, Listeners(w.reg, a, HostOf(cfg, w, a).serial))
    case Evict(a) => a in w.hosts && w.hosts[a].phase.Quiet?
  }

  /** The live fold of a turn, as the host does it. */
  function Fold1<S>(cfg: H.Config<S>, h: HostView<S>, events: seq<Value>, listeners: set<SubId>): HostView<S> {
    h.(mem := H.FoldMem(cfg, h.mem, events, h.mem.currentSeq + |events|),
       phase := Folded(events, listeners),
       past := h.past + events)
  }

  /**
   * One step. A rejected ack ends the turn with the batch folded and nothing emitted. An evicted host
   * has flushed; the next activation is a new host object with the same state and seq.
   */
  ghost function Next<S>(cfg: H.Config<S>, maxPerActor: nat, w: World<S>, s: Step): World<S> {
    if !Enabled(cfg, maxPerActor, w, s) then w
    else
      match s
      case Ask(ticket, sub) => w.(asks := w.asks[ticket := sub])
      case Attach(ticket, id) =>
        var sub := w.asks[ticket];
        var h := HostOf(cfg, w, sub.actorId);
        World(w.hosts[sub.actorId := h], w.asks - {ticket},
              Subscribe(w.reg, id, sub, h.serial, h.mem.state, h.mem.currentSeq))
      case Unsubscribe(id) => w.(reg := Detach(w.reg, id))
      case FoldTurn(a, events) =>
        var h := HostOf(cfg, w, a);
        w.(hosts := w.hosts[a := Fold1(cfg, h, events, Listeners(w.reg, a, h.serial))])
      case AckTurn(a, ok) =>
        var h := HostOf(cfg, w, a);
        w.(hosts := w.hosts[a := h.(phase := if ok then Acked(h.phase.events, h.phase.before) else Quiet)])
      case EmitTurn(a, order) =>
        var h := HostOf(cfg, w, a);
        w.(hosts := w.hosts[a := h.(phase := Quiet)],
           reg := DeliverSeq(w.reg, order, EventInfo(h.phase.events, h.mem.currentSeq)))
      case EmitTombstone(a, order) => w.(reg := DeliverSeq(w.reg, order, TombstoneInfo))
      case Evict(a) =>
        var h := w.hosts[a];
        w.(hosts := w.hosts[a := h.(serial := h.serial + 1, mem := h.mem.(since := 0, dirty := false))])
  }

  function Start<S>(): World<S> { World(map[], map[], Reg(map[], map[], map[], map[], map[])) }

  ghost function Run<S>(cfg: H.Config<S>, maxPerActor: nat, steps: seq<Step>): World<S> {
    if steps == [] then Start()
    else Next(cfg, maxPerActor, Run(cfg, maxPerActor, steps[..|steps| - 1]), steps[|steps| - 1])
  }

  /** What a client folding everything sent so far has. */
  ghost function ClientView<S>(cfg: H.Config<S>, blank: S, sent: seq<Notification<S>>): Record<S> {
    ApplyAll(Blank(blank, Some(cfg.reduce)), sent)
  }

  lemma ApplySnoc<S>(r: Record<S>, ns: seq<Notification<S>>, n: Notification<S>)
    ensures ApplyAll(r, ns + [n]) == ApplyRecord(ApplyAll(r, ns), n)
  {
    assert (ns + [n])[..|ns|] == ns;
  }

  // ---------------------------------------------------------------- The registry in every run

  ghost predicate HostKnown<S>(w: World<S>, a: ActorId) {
    a in w.hosts && !w.hosts[a].phase.Quiet? ==> w.hosts[a].phase.before <= w.reg.sent.Keys
  }

  ghost predicate SubKnown<S>(w: World<S>, id: SubId) {
    id in w.reg.subs ==>
      var a := w.reg.subs[id].actorId;
      a in w.hosts && id in w.reg.attached && w.reg.attached[id] <= w.hosts[a].serial
  }

  ghost predicate WellFormed<S>(w: World<S>) {
    && Indexed(w.reg)
    && (forall a :: HostKnown(w, a))
    && (forall id :: SubKnown(w, id))
  }

  lemma ListenersAreSubs<S>(r: Reg<S>, a: ActorId, serial: nat)
    ensures Listeners(r, a, serial) <= r.subs.Keys
  {
  }

  /** What an emit step does to the registry, whatever order it takes. */
  lemma EmitStep<S>(cfg: H.Config<S>, maxPerActor: nat, w: World<S>, s: Step)
    requires WellFormed(w) && Enabled(cfg, maxPerActor, w, s) && (s.EmitTurn? || s.EmitTombstone?)
    ensures var h := HostOf(cfg, w, s.actorId);
      var info := if s.EmitTurn? then EventInfo(h.phase.events, h.mem.currentSeq) else TombstoneInfo;
      && Emitted(w.reg, Listeners(w.reg, s.actorId, h.serial), info, Next(cfg, maxPerActor, w, s).reg)
      && Indexed(Next(cfg, maxPerActor, w, s).reg)
  {
    var h := HostOf(cfg, w, s.actorId);
    ListenersAreSubs(w.reg, s.actorId, h.serial);
    var info := if s.EmitTurn? then EventInfo(h.phase.events, h.mem.currentSeq) else TombstoneInfo;
    DeliverSeqEmits(w.reg, s.order, Listeners(w.reg, s.actorId, h.serial), info);
  }

  lemma NextIndexed<S>(cfg: H.Config<S>, maxPerActor: nat, w: World<S>, s: Step)
    requires WellFormed(w)
    ensures Indexed(Next(cfg, maxPerActor, w, s).reg)
    ensures w.reg.sent.Keys <= Next(cfg, maxPerActor, w, s).reg.sent.Keys
  {
    if Enabled(cfg, maxPerActor, w, s) {
      match s {
        case Attach(ticket, id) =>
          var h := HostOf(cfg, w, w.asks[ticket].actorId);
          SubscribeIndexed(w.reg, id, w.asks[ticket], h.serial, h.mem.state, h.mem.currentSeq);
        case Unsubscribe(id) => DetachIndexed(w.reg, id);
        case EmitTurn(_, _) => EmitStep(cfg, maxPerActor, w, s);
        case EmitTombstone(_, _) => EmitStep(cfg, maxPerActor, w, s);
        case _ =>
      }
    }
  }

  lemma EmittedSubKnown<S>(w: World<S>, after: World<S>, ids: set<SubId>, info: Info, id: SubId)
    requires SubKnown(w, id) && Emitted(w.reg, ids, info, after.reg) && Indexed(after.reg)
    requires forall a :: a in w.hosts ==> a in after.hosts && w.hosts[a].serial <= after.hosts[a].serial
    ensures SubKnown(after, id)
  {
  }

  lemma NextSubKnown<S>(cfg: H.Config<S>, maxPerActor: nat, w: World<S>, s: Step, id: SubId)
    requires WellFormed(w)
    ensures SubKnown(Next(cfg, maxPerActor, w, s), id)
  {
    assert SubKnown(w, id);
    if Enabled(cfg, maxPerActor, w, s) {
      if s.EmitTurn? || s.EmitTombstone? {
        var h, after := HostOf(cfg, w, s.actorId), Next(cfg, maxPerActor, w, s);
        var ids := Listeners(w.reg, s.actorId, h.serial);
        var info := if s.EmitTurn? then EventInfo(h.phase.events, h.mem.currentSeq) else TombstoneInfo;
        assert Emitted(w.reg, ids, info, after.reg) && Indexed(after.reg) by {
          EmitStep(cfg, maxPerActor, w, s);
        }
        EmittedSubKnown(w, after, ids, info, id);
      }
    }
  }

  lemma NextWellFormed<S>(cfg: H.Config<S>, maxPerActor: nat, w: World<S>, s: Step)
    requires WellFormed(w)
    ensures WellFormed(Next(cfg, maxPerActor, w, s))
  {
    NextIndexed(cfg, maxPerActor, w, s);
    forall id ensures SubKnown(Next(cfg, maxPerActor, w, s), id) {
      NextSubKnown(cfg, maxPerActor, w, s, id);
    }
    forall a ensures HostKnown(Next(cfg, maxPerActor, w, s), a) {
      assert HostKnown(w, a);
    }
  }

  /** In every run the three indexes and the attachments agree. */
  lemma {:induction false} RunWellFormed<S>(cfg: H.Config<S>, maxPerActor: nat, steps: seq<Step>)
    ensures WellFormed(Run(cfg, maxPerActor, steps))
  {
    if steps != [] {
      RunWellFormed(cfg, maxPerActor, steps[..|steps| - 1]);
      NextWellFormed(cfg, maxPerActor, Run(cfg, maxPerActor, steps[..|steps| - 1]), steps[|steps| - 1]);
    }
  }

  // ---------------------------------------------------------------- What one step sends

  ghost predicate Hears<S>(cfg: H.Config<S>, maxPerActor: nat, w: World<S>, s: Step, id: SubId) {
    s.EmitTurn? && Enabled(cfg, maxPerActor, w, s) && id in Listeners(w.reg, s.actorId, HostOf(cfg, w, s.actorId).serial)
  }

  ghost predicate Joins<S>(cfg: H.Config<S>, maxPerActor: nat, w: World<S>, s: Step, id: SubId) {
    s.Attach? && s.id == id && Enabled(cfg, maxPerActor, w, s)
  }

  function TurnNote<S>(h: HostView<S>, id: SubId): Notification<S>
    requires !h.phase.Quiet?
  {
    Note(id, EventInfo(h.phase.events, h.mem.currentSeq))
  }

  /** The same subscription, sent `more`. */
  ghost predicate Kept<S>(r: Reg<S>, after: Reg<S>, id: SubId, more: seq<Notification<S>>) {
    && id in r.subs && id in after.subs && after.subs[id] == r.subs[id]
    && id in r.attached && id in after.attached && after.attached[id] == r.attached[id]
    && id in r.sent && id in after.sent && after.sent[id] == r.sent[id] + more
  }

  /** A new subscription, sent its snapshot. */
  ghost predicate Joined<S>(cfg: H.Config<S>, w: World<S>, after: Reg<S>, id: SubId, sub: Sub) {
    var h := HostOf(cfg, w, sub.actorId);
    && id !in w.reg.subs && id !in w.reg.sent
    && id in after.subs && after.subs[id] == sub
    && id in after.attached && after.attached[id] == h.serial
    && id in after.sent && after.sent[id] == [Snapshot(id, h.mem.state, Some(h.mem.currentSeq))]
  }

  ghost function Heard<S>(cfg: H.Config<S>, maxPerActor: nat, w: World<S>, s: Step, id: SubId): seq<Notification<S>> {
    if Hears(cfg, maxPerActor, w, s, id) then [TurnNote(HostOf(cfg, w, s.actorId), id)] else []
  }

  /** What a step does to a subscription that is there after it. */
  ghost predicate Sends<S>(cfg: H.Config<S>, maxPerActor: nat, w: World<S>, s: Step, after: Reg<S>, id: SubId) {
    if Joins(cfg, maxPerActor, w, s, id) then Joined(cfg, w, after, id, w.asks[s.ticket])
    else Kept(w.reg, after, id, Heard(cfg, maxPerActor, w, s, id))
  }

  lemma EmittedKept<S>(r: Reg<S>, ids: set<SubId>, info: Info, after: Reg<S>, id: SubId)
    requires Emitted(r, ids, info, after) && id in after.subs
    requires id in r.subs ==> id in r.attached && id in r.sent
    ensures Kept(r, after, id, if id in ids then [Note(id, info)] else [])
    ensures info.TombstoneInfo? ==> id !in ids
  {
  }

  lemma EmitSends<S>(cfg: H.Config<S>, maxPerActor: nat, w: World<S>, s: Step, after: Reg<S>, id: SubId)
    requires Enabled(cfg, maxPerActor, w, s) && s.EmitTurn? && id in after.subs
    requires id in w.reg.subs ==> id in w.reg.attached && id in w.reg.sent
    requires var h := HostOf(cfg, w, s.actorId);
      Emitted(w.reg, Listeners(w.reg, s.actorId, h.serial), EventInfo(h.phase.events, h.mem.currentSeq), after)
    ensures Sends(cfg, maxPerActor, w, s, after, id)
  {
    var h := HostOf(cfg, w, s.actorId);
    EmittedKept(w.reg, Listeners(w.reg, s.actorId, h.serial), EventInfo(h.phase.events, h.mem.currentSeq), after, id);
  }

  lemma TombstoneSends<S>(cfg: H.Config<S>, maxPerActor: nat, w: World<S>, s: Step, id: SubId)
    requires WellFormed(w) && Enabled(cfg, maxPerActor, w, s) && s.EmitTombstone?
    requires id in Next(cfg, maxPerActor, w, s).reg.subs
    ensures Sends(cfg, maxPerActor, w, s, Next(cfg, maxPerActor, w, s).reg, id)
  {
    EmitStep(cfg, maxPerActor, w, s);
    EmittedKept(w.reg, Listeners(w.reg, s.actorId, HostOf(cfg, w, s.actorId).serial), TombstoneInfo,
                Next(cfg, maxPerActor, w, s).reg, id);
  }

  lemma OthersSend<S>(cfg: H.Config<S>, maxPerActor: nat, w: World<S>, s: Step, id: SubId)
    requires (s.EmitTurn? || s.EmitTombstone?) ==> !Enabled(cfg, maxPerActor, w, s)
    requires id in w.reg.subs && id in w.reg.attached && id in w.reg.sent
    requires id in Next(cfg, maxPerActor, w, s).reg.subs
    ensures Sends(cfg, maxPerActor, w, s, Next(cfg, maxPerActor, w, s).reg, id)
  {
    assert w.reg.sent[id] + [] == w.reg.sent[id];
  }

  lemma AttachSends<S>(cfg: H.Config<S>, maxPerActor: nat, w: World<S>, s: Step, id: SubId)
    requires (s.EmitTurn? || s.EmitTombstone?) ==> !Enabled(cfg, maxPerActor, w, s)
    requires id !in w.reg.subs && id in Next(cfg, maxPerActor, w, s).reg.subs
    ensures Sends(cfg, maxPerActor, w, s, Next(cfg, maxPerActor, w, s).reg, id)
  {
  }

  /** A subscription a step leaves in place: new with its snapshot, or the same and sent at most one more batch. */
  lemma StepSends<S>(cfg: H.Config<S>, maxPerActor: nat, w: World<S>, s: Step, id: SubId)
    requires WellFormed(w) && id in Next(cfg, maxPerActor, w, s).reg.subs
    ensures Sends(cfg, maxPerActor, w, s, Next(cfg, maxPerActor, w, s).reg, id)
  {
    if s.EmitTurn? && Enabled(cfg, maxPerActor, w, s) {
      EmitStep(cfg, maxPerActor, w, s);
      EmitSends(cfg, maxPerActor, w, s, Next(cfg, maxPerActor, w, s).reg, id);
    } else if s.EmitTombstone? && Enabled(cfg, maxPerActor, w, s) {
      TombstoneSends(cfg, maxPerActor, w, s, id);
    } else if id in w.reg.subs {
      assert id in w.reg.attached && id in w.reg.sent;
      OthersSend(cfg, maxPerActor, w, s, id);
    } else {
      AttachSends(cfg, maxPerActor, w, s, id);
    }
  }

  // ---------------------------------------------------------------- Convergence

  /** The listener was there when the batch in progress was folded, and has not got it yet. */
  predicate Awaits<S>(h: HostView<S>, serial: nat, id: SubId) {
    !h.phase.Quiet? && serial == h.serial && id in h.phase.before
  }

  /** The client has the host's state, up to the batch it is about to get. */
  ghost predicate Sound<S>(cfg: H.Config<S>, blank: S, w: World<S>, id: SubId) {
    id in w.reg.subs && id in w.reg.attached && id in w.reg.sent && w.reg.subs[id].actorId in w.hosts ==>
      var h, view := w.hosts[w.reg.subs[id].actorId], ClientView(cfg, blank, w.reg.sent[id]);
      && (w.reg.attached[id] < h.serial ==> h.phase.Quiet?)
      && if Awaits(h, w.reg.attached[id], id) then
           && view == Record(view.state, h.mem.currentSeq - |h.phase.events|, Some(cfg.reduce), false)
           && Fold(cfg.reduce, view.state, h.phase.events) == h.mem.state
         else view == Record(h.mem.state, h.mem.currentSeq, Some(cfg.reduce), false)
  }

  /**
   * The steps that put a client out of step. A batch is lost to a listener that awaits it when the ack
   * is rejected; a batch reaches a listener twice that attached after the fold, once in its snapshot
   * and once in the emit; and a listener of an evicted host object hears of no further turn.
   */
  ghost predicate Spoils<S>(cfg: H.Config<S>, maxPerActor: nat, w: World<S>, s: Step, id: SubId) {
    && Enabled(cfg, maxPerActor, w, s)
    && (s.AckTurn? || s.EmitTurn? || s.FoldTurn?)
    && id in w.reg.subs && w.reg.subs[id].actorId == s.actorId && id in w.reg.attached
    && var h, serial := HostOf(cfg, w, s.actorId), w.reg.attached[id];
       match s
       case AckTurn(_, ok) => !ok && Awaits(h, serial, id)
       case EmitTurn(_, _) => serial == h.serial && !Awaits(h, serial, id)
       case FoldTurn(_, _) => serial < h.serial
       case _ => false
  }

  ghost predicate Spoiled<S>(cfg: H.Config<S>, maxPerActor: nat, steps: seq<Step>, id: SubId) {
    steps != [] &&
    (Spoiled(cfg, maxPerActor, steps[..|steps| - 1], id) ||
     Spoils(cfg, maxPerActor, Run(cfg, maxPerActor, steps[..|steps| - 1]), steps[|steps| - 1], id))
  }

  lemma AttachSound<S>(cfg: H.Config<S>, blank: S, maxPerActor: nat, w: World<S>, s: Step, id: SubId)
    requires WellFormed(w) && Sound(cfg, blank, w, id) && s.Attach? && Enabled(cfg, maxPerActor, w, s)
    ensures Sound(cfg, blank, Next(cfg, maxPerActor, w, s), id)
  {
    assert SubKnown(w, id);
    if id == s.id {
      var a := w.asks[s.ticket].actorId;
      var h := HostOf(cfg, w, a);
      assert HostKnown(w, a);
      var first: Notification<S> := Snapshot(id, h.mem.state, Some(h.mem.currentSeq));
      ApplySnoc(Blank(blank, Some(cfg.reduce)), [], first);
      assert [] + [first] == [first];
    }
  }

  lemma EmitTurnSound<S>(cfg: H.Config<S>, blank: S, w: World<S>, after: World<S>, a: ActorId, id: SubId)
    requires SubKnown(w, id) && Sound(cfg, blank, w, id) && id in w.reg.subs && id in w.reg.sent
    requires a in w.hosts && w.hosts[a].phase.Acked?
    requires w.reg.subs[id].actorId == a ==>
               w.reg.attached[id] < w.hosts[a].serial || Awaits(w.hosts[a], w.reg.attached[id], id)
    requires after.hosts == w.hosts[a := w.hosts[a].(phase := Quiet)]
    requires var h := w.hosts[a];
      Emitted(w.reg, Listeners(w.reg, a, h.serial), EventInfo(h.phase.events, h.mem.currentSeq), after.reg)
    ensures Sound(cfg, blank, after, id)
  {
    var h := w.hosts[a];
    if id in Listeners(w.reg, a, h.serial) {
      ApplySnoc(Blank(blank, Some(cfg.reduce)), w.reg.sent[id], Note(id, EventInfo(h.phase.events, h.mem.currentSeq)));
    }
  }

  lemma TombstoneSound<S>(cfg: H.Config<S>, blank: S, w: World<S>, after: World<S>, ids: set<SubId>, id: SubId)
    requires Sound(cfg, blank, w, id) && after.hosts == w.hosts
    requires Emitted(w.reg, ids, TombstoneInfo, after.reg)
    requires id in w.reg.subs ==> id in w.reg.sent && id in w.reg.attached
    ensures Sound(cfg, blank, after, id)
  {
  }

  lemma EmitSound<S>(cfg: H.Config<S>, blank: S, maxPerActor: nat, w: World<S>, s: Step, id: SubId)
    requires WellFormed(w) && Sound(cfg, blank, w, id) && !Spoils(cfg, maxPerActor, w, s, id)
    requires (s.EmitTurn? || s.EmitTombstone?) && Enabled(cfg, maxPerActor, w, s)
    ensures Sound(cfg, blank, Next(cfg, maxPerActor, w, s), id)
  {
    var after, h := Next(cfg, maxPerActor, w, s), HostOf(cfg, w, s.actorId);
    assert SubKnown(w, id);
    EmitStep(cfg, maxPerActor, w, s);
    if id !in w.reg.subs {
      assert id !in after.reg.subs;
    } else if s.EmitTurn? {
      EmitTurnSound(cfg, blank, w, after, s.actorId, id);
    } else {
      TombstoneSound(cfg, blank, w, after, Listeners(w.reg, s.actorId, h.serial), id);
    }
  }

  /** Steps that leave what was sent alone. */
  lemma TurnSound<S>(cfg: H.Config<S>, blank: S, maxPerActor: nat, w: World<S>, s: Step, id: SubId)
    requires SubKnown(w, id) && Sound(cfg, blank, w, id) && !Spoils(cfg, maxPerActor, w, s, id)
    requires s.FoldTurn? || s.AckTurn? || s.Evict?
    ensures Sound(cfg, blank, Next(cfg, maxPerActor, w, s), id)
  {
  }

  lemma NextSound<S>(cfg: H.Config<S>, blank: S, maxPerActor: nat, w: World<S>, s: Step, id: SubId)
    requires WellFormed(w) && Sound(cfg, blank, w, id) && !Spoils(cfg, maxPerActor, w, s, id)
    ensures Sound(cfg, blank, Next(cfg, maxPerActor, w, s), id)
  {
    assert SubKnown(w, id);
    if !Enabled(cfg, maxPerActor, w, s) {
    } else if s.Attach? {
      AttachSound(cfg, blank, maxPerActor, w, s, id);
    } else if s.EmitTurn? || s.EmitTombstone? {
      EmitSound(cfg, blank, maxPerActor, w, s, id);
    } else if s.FoldTurn? || s.AckTurn? || s.Evict? {
      TurnSound(cfg, blank, maxPerActor, w, s, id);
    }
  }

  lemma {:induction false} RunSound<S>(cfg: H.Config<S>, blank: S, maxPerActor: nat, steps: seq<Step>, id: SubId)
    requires !Spoiled(cfg, maxPerActor, steps, id)
    ensures Sound(cfg, blank, Run(cfg, maxPerActor, steps), id)
  {
    if steps != [] {
      var before := steps[..|steps| - 1];
      RunSound(cfg, blank, maxPerActor, before, id);
      RunWellFormed(cfg, maxPerActor, before);
      NextSound(cfg, blank, maxPerActor, Run(cfg, maxPerActor, before), steps[|steps| - 1], id);
    }
  }

  ghost predicate InStep<S>(cfg: H.Config<S>, blank: S, w: World<S>, id: SubId)
    requires id in w.reg.subs && id in w.reg.sent && w.reg.subs[id].actorId in w.hosts
  {
    var h := w.hosts[w.reg.subs[id].actorId];
    ClientView(cfg, blank, w.reg.sent[id]) == Record(h.mem.state, h.mem.currentSeq, Some(cfg.reduce), false)
  }

  /**
   * Convergence, for every reducer: in every run, a subscribed client whose host is between turns has
   * the host's state and seq, unless one of the spoiling steps hit it. During a turn it lags by
   * exactly the batch it is about to get.
   */
  lemma {:induction false} Converges<S>(cfg: H.Config<S>, blank: S, maxPerActor: nat, steps: seq<Step>, id: SubId)
    requires id in Run(cfg, maxPerActor, steps).reg.subs && !Spoiled(cfg, maxPerActor, steps, id)
    ensures var w := Run(cfg, maxPerActor, steps);
      && id in w.reg.sent && w.reg.subs[id].actorId in w.hosts
      && Sound(cfg, blank, w, id)
      && (w.hosts[w.reg.subs[id].actorId].phase.Quiet? ==> InStep(cfg, blank, w, id))
  {
    RunWellFormed(cfg, maxPerActor, steps);
    RunSound(cfg, blank, maxPerActor, steps, id);
    assert SubKnown(Run(cfg, maxPerActor, steps), id);
  }

  // ---------------------------------------------------------------- What a client makes of it

  /** A subscribed client folds what it is sent. */
  ghost predicate Listening<S>(cfg: H.Config<S>, blank: S, w: World<S>, id: SubId) {
    id in w.reg.subs && id in w.reg.sent ==>
      var view := ClientView(cfg, blank, w.reg.sent[id]);
      view == Record(view.state, view.lastSeq, Some(cfg.reduce), false)
  }

  lemma ViewSnoc<S>(cfg: H.Config<S>, blank: S, sent: seq<Notification<S>>, n: Notification<S>)
    ensures ClientView(cfg, blank, sent + [n]) == ApplyRecord(ClientView(cfg, blank, sent), n)
    ensures ClientView(cfg, blank, sent + []) == ClientView(cfg, blank, sent)
    ensures n.Snapshot? && n.seqNo.Some? ==>
              ClientView(cfg, blank, [n]) == Record(n.data, n.seqNo.value, Some(cfg.reduce), false)
  {
    ApplySnoc(Blank(blank, Some(cfg.reduce)), sent, n);
    ApplySnoc(Blank(blank, Some(cfg.reduce)), [], n);
    assert [] + [n] == [n] && sent + [] == sent;
  }

  lemma NextListening<S>(cfg: H.Config<S>, blank: S, maxPerActor: nat, w: World<S>, s: Step, id: SubId)
    requires WellFormed(w) && Listening(cfg, blank, w, id)
    ensures Listening(cfg, blank, Next(cfg, maxPerActor, w, s), id)
  {
    var after := Next(cfg, maxPerActor, w, s).reg;
    if id in after.subs {
      StepSends(cfg, maxPerActor, w, s, id);
      if Joins(cfg, maxPerActor, w, s, id) {
        ViewSnoc(cfg, blank, [], after.sent[id][0]);
      } else {
        HeardView(cfg, blank, maxPerActor, w, s, id);
      }
    }
  }

  /** What a step makes of a subscribed client's view. */
  lemma HeardView<S>(cfg: H.Config<S>, blank: S, maxPerActor: nat, w: World<S>, s: Step, id: SubId)
    requires Kept(w.reg, Next(cfg, maxPerActor, w, s).reg, id, Heard(cfg, maxPerActor, w, s, id))
    requires Listening(cfg, blank, w, id)
    ensures var was := ClientView(cfg, blank, w.reg.sent[id]);
      var now := ClientView(cfg, blank, Next(cfg, maxPerActor, w, s).reg.sent[id]);
      if Hears(cfg, maxPerActor, w, s, id) then
        now == was.(state := Fold(cfg.reduce, was.state, HostOf(cfg, w, s.actorId).phase.events),
                    lastSeq := HostOf(cfg, w, s.actorId).mem.currentSeq)
      else now == was
  {
    var sent := w.reg.sent[id];
    if Hears(cfg, maxPerActor, w, s, id) {
      ViewSnoc(cfg, blank, sent, TurnNote(HostOf(cfg, w, s.actorId), id));
    } else {
      assert sent + [] == sent;
    }
  }

  lemma {:induction false} RunListening<S>(cfg: H.Config<S>, blank: S, maxPerActor: nat, steps: seq<Step>, id: SubId)
    ensures Listening(cfg, blank, Run(cfg, maxPerActor, steps), id)
  {
    if steps != [] {
      var before := steps[..|steps| - 1];
      RunListening(cfg, blank, maxPerActor, before, id);
      RunWellFormed(cfg, maxPerActor, before);
      NextListening(cfg, blank, maxPerActor, Run(cfg, maxPerActor, before), steps[|steps| - 1], id);
    }
  }

  // ---------------------------------------------------------------- The end of a subscription

  /** A tombstone ends the subscription of every listener of the host object, and freezes what it has. */
  lemma {:induction false} TombstoneEnds<S>(cfg: H.Config<S>, blank: S, maxPerActor: nat, steps: seq<Step>, s: Step,
                                            id: SubId)
    requires s.EmitTombstone? && Enabled(cfg, maxPerActor, Run(cfg, maxPerActor, steps), s)
    requires var w := Run(cfg, maxPerActor, steps); id in Listeners(w.reg, s.actorId, HostOf(cfg, w, s.actorId).serial)
    ensures var w, after := Run(cfg, maxPerActor, steps), Next(cfg, maxPerActor, Run(cfg, maxPerActor, steps), s);
      && id !in after.reg.subs && id !in after.reg.attached && id in w.reg.sent && id in after.reg.sent
      && ClientView(cfg, blank, after.reg.sent[id]) == ClientView(cfg, blank, w.reg.sent[id]).(tombstoned := true)
      && (!Spoiled(cfg, maxPerActor, steps, id) && HostOf(cfg, w, s.actorId).phase.Quiet? ==>
            ClientView(cfg, blank, after.reg.sent[id]).state == HostOf(cfg, w, s.actorId).mem.state)
  {
    var w := Run(cfg, maxPerActor, steps);
    RunWellFormed(cfg, maxPerActor, steps);
    EmitStep(cfg, maxPerActor, w, s);
    RunListening(cfg, blank, maxPerActor, steps, id);
    ViewSnoc(cfg, blank, w.reg.sent[id], Note(id, TombstoneInfo));
    if !Spoiled(cfg, maxPerActor, steps, id) {
      Converges(cfg, blank, maxPerActor, steps, id);
    }
  }

  lemma {:induction false} SilentSnoc<S>(cfg: H.Config<S>, maxPerActor: nat, steps: seq<Step>, more: seq<Step>)
    requires more != []
    ensures Run(cfg, maxPerActor, steps + more) ==
            Next(cfg, maxPerActor, Run(cfg, maxPerActor, steps + more[..|more| - 1]), more[|more| - 1])
  {
    assert (steps + more)[..|steps + more| - 1] == steps + more[..|more| - 1];
  }

  lemma NextSilent<S>(cfg: H.Config<S>, maxPerActor: nat, w: World<S>, s: Step, id: SubId)
    requires WellFormed(w) && id !in w.reg.subs && id in w.reg.sent
    ensures var after := Next(cfg, maxPerActor, w, s).reg;
      id !in after.subs && id in after.sent && after.sent[id] == w.reg.sent[id]
  {
    if (s.EmitTurn? || s.EmitTombstone?) && Enabled(cfg, maxPerActor, w, s) {
      EmitStep(cfg, maxPerActor, w, s);
    }
  }

  /** A channel without a subscription is never written again. */
  lemma {:induction false} DetachedIsSilent<S>(cfg: H.Config<S>, maxPerActor: nat, steps: seq<Step>, more: seq<Step>,
                                               id: SubId)
    requires id !in Run(cfg, maxPerActor, steps).reg.subs && id in Run(cfg, maxPerActor, steps).reg.sent
    ensures var r, after := Run(cfg, maxPerActor, steps).reg, Run(cfg, maxPerActor, steps + more).reg;
      id !in after.subs && id in after.sent && after.sent[id] == r.sent[id]
    decreases |more|
  {
    if more == [] {
      assert steps + more == steps;
    } else {
      var before := more[..|more| - 1];
      DetachedIsSilent(cfg, maxPerActor, steps, before, id);
      RunWellFormed(cfg, maxPerActor, steps + before);
      SilentSnoc(cfg, maxPerActor, steps, more);
      NextSilent(cfg, maxPerActor, Run(cfg, maxPerActor, steps + before), more[|more| - 1], id);
    }
  }

  /** Subscribed, but to a host object that has been evicted. */
  ghost predicate Deaf<S>(w: World<S>, id: SubId) {
    id in w.reg.subs && id in w.reg.attached && id in w.reg.sent && w.reg.subs[id].actorId in w.hosts &&
    w.reg.attached[id] < w.hosts[w.reg.subs[id].actorId].serial
  }

  lemma EmittedDeaf<S>(w: World<S>, after: World<S>, ids: set<SubId>, info: Info, id: SubId)
    requires Deaf(w, id) && id !in ids && Emitted(w.reg, ids, info, after.reg)
    requires forall a :: a in w.hosts ==> a in after.hosts && w.hosts[a].serial <= after.hosts[a].serial
    ensures Deaf(after, id) && after.reg.sent[id] == w.reg.sent[id]
  {
  }

  lemma TurnDeaf<S>(cfg: H.Config<S>, maxPerActor: nat, w: World<S>, s: Step, id: SubId)
    requires Deaf(w, id) && s != Unsubscribe(id)
    requires (s.EmitTurn? || s.EmitTombstone?) ==> !Enabled(cfg, maxPerActor, w, s)
    ensures Deaf(Next(cfg, maxPerActor, w, s), id)
    ensures Next(cfg, maxPerActor, w, s).reg.sent[id] == w.reg.sent[id]
  {
  }

  lemma HostsStay<S>(cfg: H.Config<S>, maxPerActor: nat, w: World<S>, s: Step, a: ActorId)
    requires a in w.hosts
    ensures a in Next(cfg, maxPerActor, w, s).hosts && w.hosts[a].serial <= Next(cfg, maxPerActor, w, s).hosts[a].serial
  {
  }

  lemma DeafIsNoListener<S>(cfg: H.Config<S>, w: World<S>, a: ActorId, id: SubId)
    requires Deaf(w, id)
    ensures id !in Listeners(w.reg, a, HostOf(cfg, w, a).serial)
  {
  }

  lemma NextDeaf<S>(cfg: H.Config<S>, maxPerActor: nat, w: World<S>, s: Step, id: SubId)
    requires WellFormed(w) && Deaf(w, id) && s != Unsubscribe(id)
    ensures Deaf(Next(cfg, maxPerActor, w, s), id)
    ensures Next(cfg, maxPerActor, w, s).reg.sent[id] == w.reg.sent[id]
  {
    if (s.EmitTurn? || s.EmitTombstone?) && Enabled(cfg, maxPerActor, w, s) {
      var h, after := HostOf(cfg, w, s.actorId), Next(cfg, maxPerActor, w, s);
      var ids := Listeners(w.reg, s.actorId, h.serial);
      var info := if s.EmitTurn? then EventInfo(h.phase.events, h.mem.currentSeq) else TombstoneInfo;
      DeafIsNoListener(cfg, w, s.actorId, id);
      forall a | a in w.hosts ensures a in after.hosts && w.hosts[a].serial <= after.hosts[a].serial {
        HostsStay(cfg, maxPerActor, w, s, a);
      }
      assert Emitted(w.reg, ids, info, after.reg) by {
        EmitStep(cfg, maxPerActor, w, s);
      }
      EmittedDeaf(w, after, ids, info, id);
    } else {
      TurnDeaf(cfg, maxPerActor, w, s, id);
    }
  }

  /**
   * What eviction breaks: from then on the listener stays subscribed, counts towards the cap, and is
   * sent nothing, not even a tombstone, until it unsubscribes.
   */
  lemma {:induction false} EvictedIsDeaf<S>(cfg: H.Config<S>, maxPerActor: nat, steps: seq<Step>, more: seq<Step>,
                                            id: SubId)
    requires Deaf(Run(cfg, maxPerActor, steps), id) && Unsubscribe(id) !in more
    ensures Deaf(Run(cfg, maxPerActor, steps + more), id)
    ensures Run(cfg, maxPerActor, steps + more).reg.sent[id] == Run(cfg, maxPerActor, steps).reg.sent[id]
    ensures var w := Run(cfg, maxPerActor, steps + more); id in Members(w.reg.byActor, w.reg.subs[id].actorId)
    decreases |more|
  {
    RunWellFormed(cfg, maxPerActor, steps + more);
    if more == [] {
      assert steps + more == steps;
    } else {
      var before := more[..|more| - 1];
      EvictedIsDeaf(cfg, maxPerActor, steps, before, id);
      RunWellFormed(cfg, maxPerActor, steps + before);
      SilentSnoc(cfg, maxPerActor, steps, more);
      NextDeaf(cfg, maxPerActor, Run(cfg, maxPerActor, steps + before), more[|more| - 1], id);
    }
  }

  /** Evicting a host deafens every listener it has. */
  lemma EvictDeafens<S>(cfg: H.Config<S>, maxPerActor: nat, w: World<S>, a: ActorId, id: SubId)
    requires WellFormed(w) && Enabled(cfg, maxPerActor, w, Evict(a))
    requires id in w.reg.subs && w.reg.subs[id].actorId == a
    ensures Deaf(Next(cfg, maxPerActor, w, Evict(a)), id)
  {
    assert SubKnown(w, id);
  }
}
