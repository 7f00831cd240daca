/** Runs of a handful of steps that put a client out of step with its host. */
module Departures {
  import opened Wrappers
  import opened Events
  import opened Client
  import opened Registry
  import opened Subscribers
  import opened Convergence
  import H = Memory

  const Only: Sub := Sub("c", "a")

  lemma RunThen<S>(cfg: H.Config<S>, maxPerActor: nat, steps: seq<Step>, s: Step, id: SubId)
    ensures Run(cfg, maxPerActor, steps + [s]) == Next(cfg, maxPerActor, Run(cfg, maxPerActor, steps), s)
    ensures Spoiled(cfg, maxPerActor, steps + [s], id) <==>
            Spoiled(cfg, maxPerActor, steps, id) || Spoils(cfg, maxPerActor, Run(cfg, maxPerActor, steps), s, id)
  {
    assert (steps + [s])[..|steps|] == steps;
  }

  /** One client, on host object 0; where the host stands. */
  ghost predicate Stands<S>(w: World<S>, serial: nat, phase: Phase, past: seq<Value>) {
    && "s" in w.reg.subs && w.reg.subs["s"] == Only && "s" in w.reg.attached && w.reg.attached["s"] == 0
    && "a" in w.hosts && w.hosts["a"].serial == serial && w.hosts["a"].phase == phase && w.hosts["a"].past == past
    && Listeners(w.reg, "a", 0) == {"s"} && (serial > 0 ==> Listeners(w.reg, "a", serial) == {})
  }

  lemma Asks<S>(cfg: H.Config<S>, maxPerActor: nat)
    requires maxPerActor > 0
    ensures Run(cfg, maxPerActor, [Ask("t", Only)]) == Start<S>().(asks := map["t" := Only])
  {
    RunThen(cfg, maxPerActor, [], Ask("t", Only), "s");
    assert [] + [Ask("t", Only)] == [Ask("t", Only)];
  }

  lemma Attaches<S>(cfg: H.Config<S>, maxPerActor: nat, w: World<S>)
    requires w.asks == map["t" := Only] && w.reg == Start<S>().reg && HostOf(cfg, w, "a").serial == 0
    ensures var h := HostOf(cfg, w, "a"); Stands(Next(cfg, maxPerActor, w, Attach("t", "s")), 0, h.phase, h.past)
  {
  }

  lemma FoldStands<S>(cfg: H.Config<S>, maxPerActor: nat, w: World<S>, serial: nat, e: Value)
    requires Stands(w, serial, Quiet, [])
    ensures Stands(Next(cfg, maxPerActor, w, FoldTurn("a", [e])), serial,
                   Folded([e], if serial == 0 then {"s"} else {}), [e])
    ensures serial > 0 ==> Spoils(cfg, maxPerActor, w, FoldTurn("a", [e]), "s")
  {
    assert [] + [e] == [e];
  }

  lemma AckStands<S>(cfg: H.Config<S>, maxPerActor: nat, w: World<S>, ok: bool, e: Value, before: set<SubId>)
    requires Stands(w, 0, Folded([e], before), [e])
    ensures Stands(Next(cfg, maxPerActor, w, AckTurn("a", ok)), 0, if ok then Acked([e], before) else Quiet, [e])
    ensures !ok && "s" in before ==> Spoils(cfg, maxPerActor, w, AckTurn("a", ok), "s")
  {
  }

  lemma EmitStands<S>(cfg: H.Config<S>, maxPerActor: nat, w: World<S>, e: Value)
    requires Stands(w, 0, Acked([e], {}), [e])
    ensures Stands(Next(cfg, maxPerActor, w, EmitTurn("a", ["s"])), 0, Quiet, [e])
    ensures Spoils(cfg, maxPerActor, w, EmitTurn("a", ["s"]), "s")
  {
    var h := w.hosts["a"];
    var info := EventInfo([e], h.mem.currentSeq);
    assert ["s"][..0] == [] && DeliverSeq(w.reg, ["s"], info) == Deliver(w.reg, "s", info);
  }

  /** The client attached, the batch was folded, and the ack that comes before the emit was rejected. */
  function AckRejected(e: Value): seq<Step> {
    [Ask("t", Only)] + [Attach("t", "s")] + [FoldTurn("a", [e])] + [AckTurn("a", false)]
  }

  /** The batch was folded, the client attached, and then it was emitted. */
  function AttachedMidTurn(e: Value): seq<Step> {
    [Ask("t", Only)] + [FoldTurn("a", [e])] + [Attach("t", "s")] + [AckTurn("a", true)] + [EmitTurn("a", ["s"])]
  }

  /** The client attached, its host object was evicted, and the next one folded a batch. */
  function EvictedUnderIt(e: Value): seq<Step> {
    [Ask("t", Only)] + [Attach("t", "s")] + [Evict("a")] + [FoldTurn("a", [e])] + [AckTurn("a", true)] + [EmitTurn("a", [])]
  }

  /** At rest, with one event folded, and the client does not have the host's state. */
  ghost predicate OutOfStep(cfg: H.Config<seq<Value>>, maxPerActor: nat, steps: seq<Step>, e: Value) {
    var w := Run(cfg, maxPerActor, steps);
    && "s" in w.reg.subs && w.reg.subs["s"] == Only && "a" in w.hosts && w.hosts["a"].phase.Quiet?
    && w.hosts["a"].past == [e] && "s" in w.reg.sent && !InStep(cfg, [], w, "s")
  }

  lemma SpoiledIsOut(cfg: H.Config<seq<Value>>, maxPerActor: nat, steps: seq<Step>, serial: nat, e: Value)
    requires Keeps(cfg) && Stands(Run(cfg, maxPerActor, steps), serial, Quiet, [e]) && Spoiled(cfg, maxPerActor, steps, "s")
    ensures OutOfStep(cfg, maxPerActor, steps, e)
  {
    ConvergesIff(cfg, [], maxPerActor, steps, "s");
  }

  lemma AckRejectedIsOut(cfg: H.Config<seq<Value>>, maxPerActor: nat, e: Value)
    requires Keeps(cfg) && maxPerActor > 0
    ensures OutOfStep(cfg, maxPerActor, AckRejected(e), e)
  {
    var s1 := [Ask("t", Only)];
    var s2 := s1 + [Attach("t", "s")];
    var s3 := s2 + [FoldTurn("a", [e])];
    Asks(cfg, maxPerActor);
    RunThen(cfg, maxPerActor, s1, Attach("t", "s"), "s");
    Attaches(cfg, maxPerActor, Run(cfg, maxPerActor, s1));
    RunThen(cfg, maxPerActor, s2, FoldTurn("a", [e]), "s");
    FoldStands(cfg, maxPerActor, Run(cfg, maxPerActor, s2), 0, e);
    RunThen(cfg, maxPerActor, s3, AckTurn("a", false), "s");
    AckStands(cfg, maxPerActor, Run(cfg, maxPerActor, s3), false, e, {"s"});
    SpoiledIsOut(cfg, maxPerActor, AckRejected(e), 0, e);
  }

  lemma AttachedMidTurnIsOut(cfg: H.Config<seq<Value>>, maxPerActor: nat, e: Value)
    requires Keeps(cfg) && maxPerActor > 0
    ensures OutOfStep(cfg, maxPerActor, AttachedMidTurn(e), e)
  {
    var s1 := [Ask("t", Only)];
    var s2 := s1 + [FoldTurn("a", [e])];
    var s3 := s2 + [Attach("t", "s")];
    var s4 := s3 + [AckTurn("a", true)];
    Asks(cfg, maxPerActor);
    RunThen(cfg, maxPerActor, s1, FoldTurn("a", [e]), "s");
    assert [] + [e] == [e];
    RunThen(cfg, maxPerActor, s2, Attach("t", "s"), "s");
    Attaches(cfg, maxPerActor, Run(cfg, maxPerActor, s2));
    RunThen(cfg, maxPerActor, s3, AckTurn("a", true), "s");
    AckStands(cfg, maxPerActor, Run(cfg, maxPerActor, s3), true, e, {});
    RunThen(cfg, maxPerActor, s4, EmitTurn("a", ["s"]), "s");
    EmitStands(cfg, maxPerActor, Run(cfg, maxPerActor, s4), e);
    SpoiledIsOut(cfg, maxPerActor, AttachedMidTurn(e), 0, e);
  }

  lemma EvictStands<S>(cfg: H.Config<S>, maxPerActor: nat, w: World<S>)
    requires Stands(w, 0, Quiet, []) && Indexed(w.reg) && w.reg.subs.Keys == {"s"}
    ensures Stands(Next(cfg, maxPerActor, w, Evict("a")), 1, Quiet, [])
  {
  }

  lemma EvictedRests<S>(cfg: H.Config<S>, maxPerActor: nat, w: World<S>, e: Value)
    requires Stands(w, 1, Folded([e], {}), [e])
    ensures Stands(Next(cfg, maxPerActor, Next(cfg, maxPerActor, w, AckTurn("a", true)), EmitTurn("a", [])), 1, Quiet, [e])
  {
    var acked := Next(cfg, maxPerActor, w, AckTurn("a", true));
    assert DeliverSeq(acked.reg, [], EventInfo([e], acked.hosts["a"].mem.currentSeq)) == acked.reg;
  }

  lemma EvictedIsOut(cfg: H.Config<seq<Value>>, maxPerActor: nat, e: Value)
    requires Keeps(cfg) && maxPerActor > 0
    ensures OutOfStep(cfg, maxPerActor, EvictedUnderIt(e), e)
  {
    var s1 := [Ask("t", Only)];
    var s2 := s1 + [Attach("t", "s")];
    var s3 := s2 + [Evict("a")];
    var s4 := s3 + [FoldTurn("a", [e])];
    var s5 := s4 + [AckTurn("a", true)];
    Asks(cfg, maxPerActor);
    RunThen(cfg, maxPerActor, s1, Attach("t", "s"), "s");
    Attaches(cfg, maxPerActor, Run(cfg, maxPerActor, s1));
    RunWellFormed(cfg, maxPerActor, s2);
    RunThen(cfg, maxPerActor, s2, Evict("a"), "s");
    EvictStands(cfg, maxPerActor, Run(cfg, maxPerActor, s2));
    RunThen(cfg, maxPerActor, s3, FoldTurn("a", [e]), "s");
    FoldStands(cfg, maxPerActor, Run(cfg, maxPerActor, s3), 1, e);
    RunThen(cfg, maxPerActor, s4, AckTurn("a", true), "s");
    RunThen(cfg, maxPerActor, s5, EmitTurn("a", []), "s");
    EvictedRests(cfg, maxPerActor, Run(cfg, maxPerActor, s4), e);
    SpoiledIsOut(cfg, maxPerActor, EvictedUnderIt(e), 1, e);
  }

  /** Each of the three ways to fall out of step is a run of a handful of steps, whatever the event. */
  lemma ThreeWaysOut(cfg: H.Config<seq<Value>>, maxPerActor: nat, e: Value)
    requires Keeps(cfg) && maxPerActor > 0
    ensures OutOfStep(cfg, maxPerActor, AckRejected(e), e)
    ensures OutOfStep(cfg, maxPerActor, AttachedMidTurn(e), e)
    ensures OutOfStep(cfg, maxPerActor, EvictedUnderIt(e), e)
  {
    AckRejectedIsOut(cfg, maxPerActor, e);
    AttachedMidTurnIsOut(cfg, maxPerActor, e);
    EvictedIsOut(cfg, maxPerActor, e);
  }
}
