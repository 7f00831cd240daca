/**
 * When exactly a subscriber stays in step: the spoiling steps are the only ones that put it out, and
 * with a reducer that forgets nothing every one of them does.
 */
module Convergence {
  import opened Wrappers
  import opened Events
  import opened Client
  import opened Registry
  import opened Subscribers
  import H = Memory

  /** The reducer that forgets nothing: its state is the list of events it has folded. */
  function Append(s: seq<Value>, e: Value): seq<Value> { s + [e] }

  ghost predicate Keeps(cfg: H.Config<seq<Value>>) { cfg.reduce == Append && cfg.initial == [] }

  lemma {:induction false} FoldAppends(s: seq<Value>, events: seq<Value>)
    ensures Fold(Append, s, events) == s + events
  {
    if events != [] {
      FoldAppends(s, events[..|events| - 1]);
      assert events == events[..|events| - 1] + [events[|events| - 1]];
    } else {
      assert s + [] == s;
    }
  }

  predicate Distinct(events: seq<Value>) { forall i, j :: 0 <= i < j < |events| ==> events[i] != events[j] }

  /** The host's state is what it has folded, and a batch in progress is the end of it. */
  ghost predicate Recorded(w: World<seq<Value>>, a: ActorId) {
    a in w.hosts ==>
      var h := w.hosts[a];
      && h.mem.state == h.past
      && (!h.phase.Quiet? ==> h.phase.events != [] && |h.phase.events| <= |h.past| &&
                              h.past[|h.past| - |h.phase.events|..] == h.phase.events)
  }

  lemma NextRecorded(cfg: H.Config<seq<Value>>, maxPerActor: nat, w: World<seq<Value>>, s: Step, a: ActorId)
    requires Keeps(cfg) && Recorded(w, a)
    ensures Recorded(Next(cfg, maxPerActor, w, s), a)
  {
    if s.FoldTurn? && s.actorId == a {
      FoldAppends(HostOf(cfg, w, a).mem.state, s.events);
    }
  }

  lemma {:induction false} RunRecorded(cfg: H.Config<seq<Value>>, maxPerActor: nat, steps: seq<Step>, a: ActorId)
    requires Keeps(cfg)
    ensures Recorded(Run(cfg, maxPerActor, steps), a)
  {
    if steps != [] {
      RunRecorded(cfg, maxPerActor, steps[..|steps| - 1], a);
      NextRecorded(cfg, maxPerActor, Run(cfg, maxPerActor, steps[..|steps| - 1]), steps[|steps| - 1], a);
    }
  }

  predicate Twice(got: seq<Value>) { exists i, j :: 0 <= i < j < |got| && got[i] == got[j] }

  /** What of the host's past a listener can no longer be sent. */
  function Settled<S>(h: HostView<S>, serial: nat): seq<Value>
    requires h.phase.Quiet? || |h.phase.events| <= |h.past|
  {
    if h.phase.Quiet? || serial < h.serial then h.past else h.past[..|h.past| - |h.phase.events|]
  }

  /** The client has an event twice, or lacks one for good. */
  ghost predicate Broken(h: HostView<seq<Value>>, serial: nat, got: seq<Value>)
    requires h.phase.Quiet? || |h.phase.events| <= |h.past|
  {
    Twice(got) || exists e :: e in Settled(h, serial) && e !in got
  }

  lemma BrokenDiffers(h: HostView<seq<Value>>, serial: nat, got: seq<Value>)
    requires h.phase.Quiet? && Broken(h, serial, got) && Distinct(h.past)
    ensures got != h.past
  {
  }

  /** Emitting the batch in progress mends nothing. */
  lemma BrokenHears(h: HostView<seq<Value>>, got: seq<Value>)
    requires !h.phase.Quiet? && |h.phase.events| <= |h.past| && Distinct(h.past)
    requires h.past[|h.past| - |h.phase.events|..] == h.phase.events
    requires Broken(h, h.serial, got)
    ensures Broken(h.(phase := Quiet), h.serial, got + h.phase.events)
  {
    var all, n := got + h.phase.events, |h.past| - |h.phase.events|;
    if Twice(got) {
      var i, j :| 0 <= i < j < |got| && got[i] == got[j];
      assert all[i] == all[j];
    } else {
      var e :| e in h.past[..n] && e !in got;
      var i :| 0 <= i < n && h.past[i] == e;
      forall k | 0 <= k < |h.phase.events| ensures h.phase.events[k] != e {
        assert h.past[n + k] == h.past[n..][k];
      }
      assert e in h.past && e !in all;
    }
  }

  /** What one turn does to a listener that was in step: exactly these leave it broken. */
  lemma LostBatchBreaks(past: seq<Value>, got: seq<Value>, events: seq<Value>)
    requires got + events == past && events != [] && Distinct(past)
    ensures events[0] in past && events[0] !in got
  {
    assert past[|got|] == events[0];
    forall i | 0 <= i < |got| ensures got[i] != events[0] {
      assert past[i] == got[i];
    }
  }

  lemma RepeatedBatchBreaks(past: seq<Value>, events: seq<Value>)
    requires events != [] && |events| <= |past| && past[|past| - |events|..] == events
    ensures Twice(past + events)
  {
    var n := |past| - |events|;
    assert past[n] == past[n..][0];
    assert (past + events)[n] == (past + events)[|past|];
  }

  /** The invariants of a subscription that a step starts from. */
  ghost predicate Ready(cfg: H.Config<seq<Value>>, blank: seq<Value>, w: World<seq<Value>>, id: SubId) {
    && Keeps(cfg) && SubKnown(w, id)
    && id in w.reg.subs && id in w.reg.sent && Recorded(w, w.reg.subs[id].actorId)
    && Listening(cfg, blank, w, id)
  }

  /** What a step makes of a host; `here` if it is an enabled step of this host. */
  ghost predicate HostHop<S>(s: Step, here: bool, h: HostView<S>, next: HostView<S>) {
    if !here then next == h
    else
      match s
      case FoldTurn(_, events) =>
        && h.phase.Quiet? && events != [] && next.serial == h.serial && next.past == h.past + events
        && next.phase.Folded? && next.phase.events == events
      case AckTurn(_, ok) =>
        && h.phase.Folded? && next.serial == h.serial && next.past == h.past
        && next.phase == if ok then Acked(h.phase.events, h.phase.before) else Quiet
      case EmitTurn(_, _) => h.phase.Acked? && next == h.(phase := Quiet)
      case Evict(_) => h.phase.Quiet? && next.phase.Quiet? && next.serial == h.serial + 1 && next.past == h.past
      case _ => false
  }

  ghost predicate Here<S>(cfg: H.Config<S>, maxPerActor: nat, w: World<S>, s: Step, a: ActorId) {
    (s.FoldTurn? || s.AckTurn? || s.EmitTurn? || s.Evict?) && s.actorId == a && Enabled(cfg, maxPerActor, w, s)
  }

  lemma StepHops<S>(cfg: H.Config<S>, maxPerActor: nat, w: World<S>, s: Step, a: ActorId)
    requires a in w.hosts
    ensures a in Next(cfg, maxPerActor, w, s).hosts
    ensures HostHop(s, Here(cfg, maxPerActor, w, s, a), w.hosts[a], Next(cfg, maxPerActor, w, s).hosts[a])
  {
  }

  /** What a listener attached to object `serial` is sent by a step of its host. */
  function Batch<S>(s: Step, here: bool, h: HostView<S>, serial: nat): seq<Value> {
    if here && s.EmitTurn? && !h.phase.Quiet? && serial == h.serial then h.phase.events else []
  }

  lemma BatchIsHeard<S>(cfg: H.Config<S>, maxPerActor: nat, w: World<S>, s: Step, id: SubId)
    requires id in w.reg.subs && SubKnown(w, id)
    ensures var a := w.reg.subs[id].actorId;
      Batch(s, Here(cfg, maxPerActor, w, s, a), w.hosts[a], w.reg.attached[id]) ==
      if Hears(cfg, maxPerActor, w, s, id) then HostOf(cfg, w, s.actorId).phase.events else []
  {
  }

  lemma StepBatch(cfg: H.Config<seq<Value>>, blank: seq<Value>, maxPerActor: nat, w: World<seq<Value>>, s: Step,
                  id: SubId)
    requires Keeps(cfg) && id in w.reg.subs && SubKnown(w, id) && Listening(cfg, blank, w, id)
    requires Kept(w.reg, Next(cfg, maxPerActor, w, s).reg, id, Heard(cfg, maxPerActor, w, s, id))
    ensures var after, a := Next(cfg, maxPerActor, w, s).reg, w.reg.subs[id].actorId;
      ClientView(cfg, blank, after.sent[id]).state ==
      ClientView(cfg, blank, w.reg.sent[id]).state +
        Batch(s, Here(cfg, maxPerActor, w, s, a), w.hosts[a], w.reg.attached[id])
  {
    var got := ClientView(cfg, blank, w.reg.sent[id]).state;
    HeardView(cfg, blank, maxPerActor, w, s, id);
    BatchIsHeard(cfg, maxPerActor, w, s, id);
    if Hears(cfg, maxPerActor, w, s, id) {
      FoldAppends(got, HostOf(cfg, w, s.actorId).phase.events);
    } else {
      assert got + [] == got;
    }
  }

  predicate Ends<S>(h: HostView<S>) {
    !h.phase.Quiet? ==> h.phase.events != [] && |h.phase.events| <= |h.past| &&
                        h.past[|h.past| - |h.phase.events|..] == h.phase.events
  }

  lemma SettledGrows<S>(s: Step, here: bool, h: HostView<S>, next: HostView<S>, serial: nat)
    requires HostHop(s, here, h, next) && Ends(h) && Ends(next) && serial <= h.serial
    ensures Settled(h, serial) <= Settled(next, serial)
  {
  }

  lemma BrokenStays(s: Step, here: bool, h: HostView<seq<Value>>, next: HostView<seq<Value>>, serial: nat,
                    got: seq<Value>)
    requires HostHop(s, here, h, next) && Ends(h) && Ends(next) && serial <= h.serial
    requires Distinct(next.past) && Broken(h, serial, got)
    ensures Broken(next, serial, got + Batch(s, here, h, serial))
  {
    if Batch(s, here, h, serial) != [] {
      BrokenHears(h, got);
    } else {
      assert got + [] == got;
      SettledGrows(s, here, h, next, serial);
      if !Twice(got) {
        var e :| e in Settled(h, serial) && e !in got;
        assert e in Settled(next, serial);
      }
    }
  }

  /** The three ways to break a listener that was in step. */
  lemma SpoilBreaks(s: Step, h: HostView<seq<Value>>, next: HostView<seq<Value>>, serial: nat, got: seq<Value>)
    requires HostHop(s, true, h, next) && Ends(h) && Ends(next) && Distinct(next.past)
    requires (s.AckTurn? && !s.ok && got + h.phase.events == h.past) ||
             (s.EmitTurn? && serial == h.serial && got == h.past) ||
             (s.FoldTurn? && serial < h.serial && got == h.past)
    ensures Broken(next, serial, got + Batch(s, true, h, serial))
  {
    assert got + [] == got;
    if s.AckTurn? {
      LostBatchBreaks(h.past, got, h.phase.events);
    } else if s.EmitTurn? {
      RepeatedBatchBreaks(h.past, h.phase.events);
    } else {
      LostBatchBreaks(next.past, got, s.events);
    }
  }

  lemma PastGrows<S>(s: Step, here: bool, h: HostView<S>, next: HostView<S>)
    requires HostHop(s, here, h, next) && Distinct(next.past)
    ensures Distinct(h.past)
  {
    if next.past != h.past {
      assert next.past[..|h.past|] == h.past;
    }
  }

  /** A subscription id that was ever spoiled was used, and is never used for another subscription. */
  lemma {:induction false} SpoiledWasSent<S>(cfg: H.Config<S>, maxPerActor: nat, steps: seq<Step>, id: SubId)
    requires Spoiled(cfg, maxPerActor, steps, id)
    ensures id in Run(cfg, maxPerActor, steps).reg.sent
  {
    var before, s := steps[..|steps| - 1], steps[|steps| - 1];
    var w := Run(cfg, maxPerActor, before);
    RunWellFormed(cfg, maxPerActor, before);
    NextIndexed(cfg, maxPerActor, w, s);
    if Spoiled(cfg, maxPerActor, before, id) {
      SpoiledWasSent(cfg, maxPerActor, before, id);
    }
  }

  lemma {:induction false} RunReady(cfg: H.Config<seq<Value>>, blank: seq<Value>, maxPerActor: nat, steps: seq<Step>,
                                    id: SubId)
    requires Keeps(cfg) && id in Run(cfg, maxPerActor, steps).reg.subs
    ensures Ready(cfg, blank, Run(cfg, maxPerActor, steps), id)
  {
    var w := Run(cfg, maxPerActor, steps);
    RunWellFormed(cfg, maxPerActor, steps);
    RunListening(cfg, blank, maxPerActor, steps, id);
    RunRecorded(cfg, maxPerActor, steps, w.reg.subs[id].actorId);
    assert SubKnown(w, id);
  }

  /** What being in step means for the reducer that forgets nothing. */
  lemma SoundMeans(cfg: H.Config<seq<Value>>, blank: seq<Value>, w: World<seq<Value>>, id: SubId)
    requires Ready(cfg, blank, w, id) && Sound(cfg, blank, w, id)
    ensures var h, got := w.hosts[w.reg.subs[id].actorId], ClientView(cfg, blank, w.reg.sent[id]).state;
      if Awaits(h, w.reg.attached[id], id) then got + h.phase.events == h.past else got == h.past
  {
    var h, got := w.hosts[w.reg.subs[id].actorId], ClientView(cfg, blank, w.reg.sent[id]).state;
    if Awaits(h, w.reg.attached[id], id) {
      FoldAppends(got, h.phase.events);
    }
  }

  ghost predicate EndsBroken(cfg: H.Config<seq<Value>>, blank: seq<Value>, w: World<seq<Value>>, id: SubId)
    requires Ready(cfg, blank, w, id)
  {
    var h := w.hosts[w.reg.subs[id].actorId];
    Broken(h, w.reg.attached[id], ClientView(cfg, blank, w.reg.sent[id]).state)
  }

  /** A step seen from one subscription: its host moves, and it is sent at most the batch of that step. */
  ghost predicate Seen(cfg: H.Config<seq<Value>>, blank: seq<Value>, w: World<seq<Value>>, s: Step, here: bool,
                       after: World<seq<Value>>, id: SubId)
    requires Ready(cfg, blank, w, id) && Ready(cfg, blank, after, id)
  {
    var a := w.reg.subs[id].actorId;
    && after.reg.subs[id] == w.reg.subs[id] && after.reg.attached[id] == w.reg.attached[id]
    && HostHop(s, here, w.hosts[a], after.hosts[a])
    && ClientView(cfg, blank, after.reg.sent[id]).state ==
       ClientView(cfg, blank, w.reg.sent[id]).state + Batch(s, here, w.hosts[a], w.reg.attached[id])
  }

  lemma StepSeen(cfg: H.Config<seq<Value>>, blank: seq<Value>, maxPerActor: nat, w: World<seq<Value>>, s: Step, id: SubId)
    requires WellFormed(w) && Ready(cfg, blank, w, id) && Ready(cfg, blank, Next(cfg, maxPerActor, w, s), id)
    ensures Seen(cfg, blank, w, s, Here(cfg, maxPerActor, w, s, w.reg.subs[id].actorId),
                 Next(cfg, maxPerActor, w, s), id)
  {
    StepSends(cfg, maxPerActor, w, s, id);
    StepBatch(cfg, blank, maxPerActor, w, s, id);
    StepHops(cfg, maxPerActor, w, s, w.reg.subs[id].actorId);
  }

  lemma StillBroken(cfg: H.Config<seq<Value>>, blank: seq<Value>, w: World<seq<Value>>, s: Step, here: bool,
                    after: World<seq<Value>>, id: SubId)
    requires Ready(cfg, blank, w, id) && Ready(cfg, blank, after, id) && Seen(cfg, blank, w, s, here, after, id)
    requires Distinct(after.hosts[after.reg.subs[id].actorId].past) && EndsBroken(cfg, blank, w, id)
    ensures EndsBroken(cfg, blank, after, id)
  {
    var a, serial := w.reg.subs[id].actorId, w.reg.attached[id];
    var h, next, got := w.hosts[a], after.hosts[a], ClientView(cfg, blank, w.reg.sent[id]).state;
    assert Ends(h) && Ends(next) && HostHop(s, here, h, next);
    assert Broken(next, serial, got + Batch(s, here, h, serial)) by {
      BrokenStays(s, here, h, next, serial, got);
    }
  }

  lemma FirstBroken(cfg: H.Config<seq<Value>>, blank: seq<Value>, maxPerActor: nat, w: World<seq<Value>>, s: Step,
                    after: World<seq<Value>>, id: SubId)
    requires Ready(cfg, blank, w, id) && Ready(cfg, blank, after, id) && Seen(cfg, blank, w, s, true, after, id)
    requires Distinct(after.hosts[after.reg.subs[id].actorId].past)
    requires Sound(cfg, blank, w, id) && Spoils(cfg, maxPerActor, w, s, id)
    ensures EndsBroken(cfg, blank, after, id)
  {
    var a := w.reg.subs[id].actorId;
    SoundMeans(cfg, blank, w, id);
    SpoilBreaks(s, w.hosts[a], after.hosts[a], w.reg.attached[id], ClientView(cfg, blank, w.reg.sent[id]).state);
  }

  lemma {:induction false} SpoiledIsBroken(cfg: H.Config<seq<Value>>, blank: seq<Value>, maxPerActor: nat,
                                           steps: seq<Step>, id: SubId)
    requires Keeps(cfg) && id in Run(cfg, maxPerActor, steps).reg.subs && Spoiled(cfg, maxPerActor, steps, id)
    requires Ready(cfg, blank, Run(cfg, maxPerActor, steps), id)
    requires var w := Run(cfg, maxPerActor, steps); Distinct(w.hosts[w.reg.subs[id].actorId].past)
    ensures EndsBroken(cfg, blank, Run(cfg, maxPerActor, steps), id)
  {
    var before, s := steps[..|steps| - 1], steps[|steps| - 1];
    var w := Run(cfg, maxPerActor, before);
    RunWellFormed(cfg, maxPerActor, before);
    StepSends(cfg, maxPerActor, w, s, id);
    if Spoiled(cfg, maxPerActor, before, id) {
      SpoiledWasSent(cfg, maxPerActor, before, id);
    }
    assert !Joins(cfg, maxPerActor, w, s, id);
    RunReady(cfg, blank, maxPerActor, before, id);
    var a := w.reg.subs[id].actorId;
    StepHops(cfg, maxPerActor, w, s, a);
    PastGrows(s, Here(cfg, maxPerActor, w, s, a), w.hosts[a], Next(cfg, maxPerActor, w, s).hosts[a]);
    var here, after := Here(cfg, maxPerActor, w, s, a), Next(cfg, maxPerActor, w, s);
    StepSeen(cfg, blank, maxPerActor, w, s, id);
    if Spoiled(cfg, maxPerActor, before, id) {
      SpoiledIsBroken(cfg, blank, maxPerActor, before, id);
      StillBroken(cfg, blank, w, s, here, after, id);
    } else {
      RunSound(cfg, blank, maxPerActor, before, id);
      FirstBroken(cfg, blank, maxPerActor, w, s, after, id);
    }
  }

  /**
   * The condition is exact. With a reducer that forgets nothing and events that are told apart, a
   * subscribed client whose host is between turns is in step if and only if no spoiling step hit it.
   */
  lemma {:induction false} ConvergesIff(cfg: H.Config<seq<Value>>, blank: seq<Value>, maxPerActor: nat, steps: seq<Step>,
                                        id: SubId)
    requires Keeps(cfg) && id in Run(cfg, maxPerActor, steps).reg.subs
    ensures var w := Run(cfg, maxPerActor, steps);
      && id in w.reg.sent && w.reg.subs[id].actorId in w.hosts
      && var h := w.hosts[w.reg.subs[id].actorId];
         h.phase.Quiet? && Distinct(h.past) ==>
           (InStep(cfg, blank, w, id) <==> !Spoiled(cfg, maxPerActor, steps, id))
  {
    var w := Run(cfg, maxPerActor, steps);
    RunReady(cfg, blank, maxPerActor, steps, id);
    var h := w.hosts[w.reg.subs[id].actorId];
    if h.phase.Quiet? && Distinct(h.past) {
      if Spoiled(cfg, maxPerActor, steps, id) {
        SpoiledIsBroken(cfg, blank, maxPerActor, steps, id);
        BrokenDiffers(h, w.reg.attached[id], ClientView(cfg, blank, w.reg.sent[id]).state);
      } else {
        Converges(cfg, blank, maxPerActor, steps, id);
      }
    }
  }

  // ---------------------------------------------------------------- The schedule alone decides

  /** Two worlds that differ only in the states and in what snapshots and batches carry. */
  ghost predicate RegAlike<S, T>(r: Reg<S>, q: Reg<T>) {
    r.subs == q.subs && r.byActor == q.byActor && r.byConnection == q.byConnection && r.attached == q.attached &&
    r.sent.Keys == q.sent.Keys
  }

  predicate HostAlike<S, T>(h: HostView<S>, g: HostView<T>) {
    h.phase == g.phase && h.serial == g.serial && h.past == g.past
  }

  ghost predicate Alike<S, T>(w: World<S>, v: World<T>) {
    && RegAlike(w.reg, v.reg) && w.asks == v.asks && w.hosts.Keys == v.hosts.Keys
    && forall a :: a in w.hosts ==> HostAlike(w.hosts[a], v.hosts[a])
  }

  lemma DeliverAlike<S, T>(r: Reg<S>, q: Reg<T>, id: SubId, i: Info, j: Info)
    requires RegAlike(r, q) && (i.TombstoneInfo? <==> j.TombstoneInfo?)
    ensures RegAlike(Deliver(r, id, i), Deliver(q, id, j))
  {
  }

  lemma {:induction false} DeliverSeqAlike<S, T>(r: Reg<S>, q: Reg<T>, order: seq<SubId>, i: Info, j: Info)
    requires RegAlike(r, q) && (i.TombstoneInfo? <==> j.TombstoneInfo?)
    ensures RegAlike(DeliverSeq(r, order, i), DeliverSeq(q, order, j))
  {
    if order != [] {
      var before, last := order[..|order| - 1], order[|order| - 1];
      DeliverSeqAlike(r, q, before, i, j);
      DeliverAlike(DeliverSeq(r, before, i), DeliverSeq(q, before, j), last, i, j);
    }
  }

  lemma EnabledAlike<S, T>(cfg: H.Config<S>, other: H.Config<T>, maxPerActor: nat, w: World<S>, v: World<T>, s: Step)
    requires Alike(w, v)
    ensures Enabled(cfg, maxPerActor, w, s) <==> Enabled(other, maxPerActor, v, s)
    ensures forall a :: HostAlike(HostOf(cfg, w, a), HostOf(other, v, a))
  {
    ListenersAlike(w.reg, v.reg);
  }

  lemma EmitAlike<S, T>(cfg: H.Config<S>, other: H.Config<T>, maxPerActor: nat, w: World<S>, v: World<T>, s: Step)
    requires Alike(w, v) && (s.EmitTurn? || s.EmitTombstone?)
    requires Enabled(cfg, maxPerActor, w, s) && Enabled(other, maxPerActor, v, s)
    ensures RegAlike(Next(cfg, maxPerActor, w, s).reg, Next(other, maxPerActor, v, s).reg)
  {
    var h, g := HostOf(cfg, w, s.actorId), HostOf(other, v, s.actorId);
    if s.EmitTurn? {
      DeliverSeqAlike(w.reg, v.reg, s.order, EventInfo(h.phase.events, h.mem.currentSeq),
                      EventInfo(g.phase.events, g.mem.currentSeq));
    } else {
      DeliverSeqAlike(w.reg, v.reg, s.order, TombstoneInfo, TombstoneInfo);
    }
  }

  lemma HostsAlike<S, T>(cfg: H.Config<S>, other: H.Config<T>, maxPerActor: nat, w: World<S>, v: World<T>, s: Step)
    requires Alike(w, v) && Enabled(cfg, maxPerActor, w, s) && Enabled(other, maxPerActor, v, s)
    requires forall a, serial: nat :: Listeners(w.reg, a, serial) == Listeners(v.reg, a, serial)
    ensures var after, twin := Next(cfg, maxPerActor, w, s), Next(other, maxPerActor, v, s);
      && after.hosts.Keys == twin.hosts.Keys && after.asks == twin.asks
      && forall a :: a in after.hosts ==> HostAlike(after.hosts[a], twin.hosts[a])
  {
  }

  lemma ListenersAlike<S, T>(r: Reg<S>, q: Reg<T>)
    requires RegAlike(r, q)
    ensures forall a, serial: nat :: Listeners(r, a, serial) == Listeners(q, a, serial)
  {
  }

  lemma NextAlike<S, T>(cfg: H.Config<S>, other: H.Config<T>, maxPerActor: nat, w: World<S>, v: World<T>, s: Step)
    requires Alike(w, v)
    ensures Alike(Next(cfg, maxPerActor, w, s), Next(other, maxPerActor, v, s))
  {
    EnabledAlike(cfg, other, maxPerActor, w, v, s);
    if Enabled(cfg, maxPerActor, w, s) {
      ListenersAlike(w.reg, v.reg);
      HostsAlike(cfg, other, maxPerActor, w, v, s);
      if s.EmitTurn? || s.EmitTombstone? {
        EmitAlike(cfg, other, maxPerActor, w, v, s);
      }
    }
  }

  lemma {:induction false} RunAlike<S, T>(cfg: H.Config<S>, other: H.Config<T>, maxPerActor: nat, steps: seq<Step>,
                                          id: SubId)
    ensures Alike(Run(cfg, maxPerActor, steps), Run(other, maxPerActor, steps))
    ensures Spoiled(cfg, maxPerActor, steps, id) <==> Spoiled(other, maxPerActor, steps, id)
  {
    if steps != [] {
      var before, s := steps[..|steps| - 1], steps[|steps| - 1];
      RunAlike(cfg, other, maxPerActor, before, id);
      var w, v := Run(cfg, maxPerActor, before), Run(other, maxPerActor, before);
      NextAlike(cfg, other, maxPerActor, w, v, s);
      SpoilsAlike(cfg, other, maxPerActor, w, v, s, id);
    }
  }

  lemma SpoilsAlike<S, T>(cfg: H.Config<S>, other: H.Config<T>, maxPerActor: nat, w: World<S>, v: World<T>, s: Step,
                          id: SubId)
    requires Alike(w, v)
    ensures Spoils(cfg, maxPerActor, w, s, id) <==> Spoils(other, maxPerActor, v, s, id)
  {
    EnabledAlike(cfg, other, maxPerActor, w, v, s);
  }

  /**
   * If the client that forgets nothing is in step, so is a client with any other state and reducer:
   * the order of steps decides, and nothing else does.
   */
  lemma {:induction false} EveryReducerConverges<S>(cfg: H.Config<S>, blank: S, log: H.Config<seq<Value>>, maxPerActor: nat,
                                 steps: seq<Step>, id: SubId)
    requires Keeps(log) && id in Run(log, maxPerActor, steps).reg.subs
    requires var w := Run(log, maxPerActor, steps);
      && id in w.reg.sent && w.reg.subs[id].actorId in w.hosts
      && w.hosts[w.reg.subs[id].actorId].phase.Quiet? && Distinct(w.hosts[w.reg.subs[id].actorId].past)
      && InStep(log, [], w, id)
    ensures var w := Run(cfg, maxPerActor, steps);
      id in w.reg.subs && id in w.reg.sent && w.reg.subs[id].actorId in w.hosts && InStep(cfg, blank, w, id)
  {
    ConvergesIff(log, [], maxPerActor, steps, id);
    RunAlike(cfg, log, maxPerActor, steps, id);
    Converges(cfg, blank, maxPerActor, steps, id);
  }
}
