/** Fencing: several owners of one actor load, bump and write with the token each of them stashed. */
module Fence {
  import opened Wrappers
  import opened Events
  import opened Inbox
  import opened Storage

  type Owner = string

  datatype Act<S> =
    | LoadToken(owner: Owner)
    | Claim(owner: Owner)
    | WriteEvents(owner: Owner, rows: seq<EventRow>)
    | WriteSnapshot(owner: Owner, seqNo: int, state: S)
    | Reregister(owner: Owner)

  datatype Accepted = Accepted(owner: Owner, epoch: int)

  /**
   * The stored row, each owner's stashed token, and what has been accepted. Since the row was last
   * registered: `claims` are the epochs won by a bump and still stashed, `wins` the expected values of
   * successful bumps, in order, and `since` is the number of writes accepted before.
   */
  datatype World<S> = World(
    store: Store<S>,
    tokens: map<Owner, int>,
    claims: map<Owner, int>,
    wins: seq<int>,
    writes: seq<Accepted>,
    since: nat)

  function TokenOf<S>(w: World<S>, o: Owner): int { if o in w.tokens then w.tokens[o] else 0 }

  function Step<S>(w: World<S>, a: Act<S>): World<S> {
    var t := TokenOf(w, a.owner);
    match a
    case LoadToken(o) =>
      w.(tokens := w.tokens[o := FenceOf(w.store)], claims := w.claims - {o})
    case Claim(o) =>
      if FenceOf(w.store) != t then w
      else
        w.(store := Bump(w.store, t), tokens := w.tokens[o := t + 1], claims := w.claims[o := t + 1], wins := w.wins + [t])
    case WriteEvents(o, rows) =>
      if !Appends(w.store, Some(t)) then w
      else w.(store := AppendRows(w.store, rows, Some(t)), writes := w.writes + [Accepted(o, t)])
    case WriteSnapshot(o, seqNo, state) =>
      if !Passes(w.store, Some(t)) then w
      else w.(store := Save(w.store, seqNo, state, Some(t)), writes := w.writes + [Accepted(o, t)])
    // What a cold start without a snapshot does: the fence is 0 again, stashed tokens are not.
    case Reregister(_) => w.(store := Register(w.store), claims := map[], wins := [], since := |w.writes|)
  }

  /** A store whose actor row was registered before any owner started. */
  function Registered<S>(): World<S> {
    World(Register(NoStore()), map[], map[], [], [], 0)
  }

  function Run<S>(acts: seq<Act<S>>): World<S> {
    if acts == [] then Registered() else Step(Run(acts[..|acts| - 1]), acts[|acts| - 1])
  }

  /** No accepted write has an epoch below that of an earlier one. */
  predicate Forward(writes: seq<Accepted>) {
    forall i, j :: 0 <= i < j < |writes| ==> writes[i].epoch <= writes[j].epoch
  }

  ghost predicate ClaimsFenced<S>(w: World<S>) {
    && w.store.fence.Some?
    && w.store.fence.value == |w.wins|
    && (forall i :: 0 <= i < |w.wins| ==> w.wins[i] == i)
    && (forall o :: o in w.claims ==> o in w.tokens && w.claims[o] == w.tokens[o] && 1 <= w.claims[o] <= |w.wins|)
    && (forall o, p :: o in w.claims && p in w.claims && o != p ==> w.claims[o] != w.claims[p])
  }

  ghost predicate WritesFenced<S>(w: World<S>) {
    && w.since <= |w.writes|
    && (forall i :: 0 <= i < |w.writes| ==> 0 <= w.writes[i].epoch)
    && (forall i :: w.since <= i < |w.writes| ==> w.writes[i].epoch <= FenceOf(w.store))
    && Forward(w.writes[w.since..])
  }

  ghost predicate Fenced<S>(w: World<S>) { ClaimsFenced(w) && WritesFenced(w) }

  lemma StepClaims<S>(w: World<S>, a: Act<S>)
    requires ClaimsFenced(w)
    ensures ClaimsFenced(Step(w, a))
  {
  }

  /** A step accepts at most one write, and at the row's epoch. */
  lemma StepAccepts<S>(w: World<S>, a: Act<S>)
    requires w.store.fence.Some?
    ensures var after := Step(w, a);
      && (after.writes == w.writes || after.writes == w.writes + [Accepted(a.owner, FenceOf(w.store))])
      && (a.Reregister? || (after.since == w.since && FenceOf(w.store) <= FenceOf(after.store)))
  {
  }

  lemma ForwardMore(writes: seq<Accepted>, a: Accepted)
    requires Forward(writes) && forall i :: 0 <= i < |writes| ==> writes[i].epoch <= a.epoch
    ensures Forward(writes + [a])
  {
  }

  lemma StepWrites<S>(w: World<S>, a: Act<S>)
    requires ClaimsFenced(w) && WritesFenced(w)
    ensures WritesFenced(Step(w, a))
  {
    var after := Step(w, a);
    StepAccepts(w, a);
    if after.writes != w.writes {
      var last := Accepted(a.owner, FenceOf(w.store));
      ForwardMore(w.writes[w.since..], last);
      assert after.writes[w.since..] == w.writes[w.since..] + [last];
    }
  }

  /**
   * Over every interleaving, from one registration of the row to the next: successful bumps expected
   * 0, 1, 2, ... in that order, so no two expected the same value; owners that still hold a won claim
   * hold different epochs; accepted writes never go back to an earlier epoch.
   */
  lemma {:induction false} RunFenced<S>(acts: seq<Act<S>>)
    ensures Fenced(Run(acts))
  {
    if acts != [] {
      RunFenced(acts[..|acts| - 1]);
      StepClaims(Run(acts[..|acts| - 1]), acts[|acts| - 1]);
      StepWrites(Run(acts[..|acts| - 1]), acts[|acts| - 1]);
    }
  }

  // ---------------------------------------------------------------- What the store holds

  predicate IsWrite<S>(a: Act<S>) { a.WriteEvents? || a.WriteSnapshot? }

  /** A write is accepted if its owner's token is the stored one. */
  predicate Passed<S>(w: World<S>, a: Act<S>) { IsWrite(a) && TokenOf(w, a.owner) == FenceOf(w.store) }

  /** The rows of the accepted appends, in order. */
  function AcceptedRows<S>(acts: seq<Act<S>>): seq<EventRow> {
    if acts == [] then []
    else
      var before, a := acts[..|acts| - 1], acts[|acts| - 1];
      AcceptedRows(before) + if a.WriteEvents? && Passed(Run(before), a) then a.rows else []
  }

  /** The accepted snapshots, a later one in place of an earlier one. */
  function AcceptedSnaps<S>(acts: seq<Act<S>>): map<int, S> {
    if acts == [] then map[]
    else
      var before, a := acts[..|acts| - 1], acts[|acts| - 1];
      if a.WriteSnapshot? && Passed(Run(before), a) then AcceptedSnaps(before)[a.seqNo := a.state] else AcceptedSnaps(before)
  }

  /** Who wrote, and with which token. */
  function AcceptedWrites<S>(acts: seq<Act<S>>): seq<Accepted> {
    if acts == [] then []
    else
      var before, a := acts[..|acts| - 1], acts[|acts| - 1];
      AcceptedWrites(before) + if Passed(Run(before), a) then [Accepted(a.owner, TokenOf(Run(before), a.owner))] else []
  }

  /** Over every interleaving the store holds exactly what owners with the stored token wrote, and every such write. */
  lemma {:induction false} StoreHoldsAccepted<S>(acts: seq<Act<S>>)
    ensures Run(acts).store.log == AcceptedRows(acts)
    ensures Run(acts).store.snaps == AcceptedSnaps(acts)
    ensures Run(acts).writes == AcceptedWrites(acts)
  {
    if acts != [] {
      var before, a := acts[..|acts| - 1], acts[|acts| - 1];
      StoreHoldsAccepted(before);
      RunFenced(before);
      assert AcceptedRows(before) + [] == AcceptedRows(before) && AcceptedWrites(before) + [] == AcceptedWrites(before);
    }
  }

  /** The row is not registered again. */
  predicate Once<S>(acts: seq<Act<S>>) { forall i :: 0 <= i < |acts| ==> !acts[i].Reregister? }

  /** Of the owners that hold a won claim, only the one with the latest epoch can change anything. */
  lemma OneClaimantWrites<S>(acts: seq<Act<S>>, a: Act<S>, b: Act<S>)
    requires IsWrite(a) && IsWrite(b) && a.owner != b.owner
    requires a.owner in Run(acts).claims && b.owner in Run(acts).claims
    ensures Step(Run(acts), a) == Run(acts) || Step(Run(acts), b) == Run(acts)
  {
    RunFenced(acts);
  }

  /** Once another owner has claimed, whoever held the previous token changes nothing until it or the row is reloaded. */
  lemma {:induction false} StaleWritesChangeNothing<S>(acts: seq<Act<S>>, more: seq<Act<S>>, o: Owner, a: Act<S>)
    requires IsWrite(a) && a.owner == o
    requires TokenOf(Run(acts), o) < FenceOf(Run(acts).store)
    requires Once(more) && forall i :: 0 <= i < |more| ==> more[i] != LoadToken(o)
    ensures TokenOf(Run(acts + more), o) < FenceOf(Run(acts + more).store)
    ensures Step(Run(acts + more), a) == Run(acts + more)
    decreases |more|
  {
    if more == [] {
      assert acts + more == acts;
    } else {
      var before := more[..|more| - 1];
      StaleWritesChangeNothing(acts, before, o, a);
      RunFenced(acts + before);
      assert (acts + more)[..|acts + more| - 1] == acts + before;
    }
  }

  // ---------------------------------------------------------------- Where the premise is needed

  /** Two bumps with one expected value both succeed exactly when there is no row to remember the first. */
  lemma DoubleBumpIff<S>(st: Store<S>, expected: int)
    ensures (FenceOf(st) == expected && FenceOf(Bump(st, expected)) == expected) <==>
            st.fence.None? && expected == 0
  {
  }

  /** An accepted write of an epoch the row no longer reaches. */
  predicate Overtook<S>(w: World<S>) { exists i :: 0 <= i < |w.writes| && w.writes[i].epoch > FenceOf(w.store) }

  lemma StepForward<S>(w: World<S>, a: Act<S>)
    requires w.store.fence.Some? && !a.Reregister? && Forward(w.writes) && !Overtook(w)
    ensures Forward(Step(w, a).writes) && !Overtook(Step(w, a))
  {
    StepAccepts(w, a);
    if Step(w, a).writes != w.writes {
      ForwardMore(w.writes, Accepted(a.owner, FenceOf(w.store)));
    }
  }

  lemma {:induction false} StaysForward<S>(acts: seq<Act<S>>, more: seq<Act<S>>)
    requires Once(more) && Forward(Run(acts).writes) && !Overtook(Run(acts))
    ensures Forward(Run(acts + more).writes) && !Overtook(Run(acts + more))
    decreases |more|
  {
    if more == [] {
      assert acts + more == acts;
    } else {
      var before, last := more[..|more| - 1], more[|more| - 1];
      StaysForward(acts, before);
      assert Run(acts + before).store.fence.Some? by {
        RunFenced(acts + before);
      }
      assert (acts + more)[..|acts + more| - 1] == acts + before;
      StepForward(Run(acts + before), last);
    }
  }

  /** Some owner loads the token and writes: its epoch is the row's. */
  lemma OneMoreWrite<S>(acts: seq<Act<S>>, o: Owner, rows: seq<EventRow>)
    ensures var more := [LoadToken(o), WriteEvents(o, rows)];
      Run(acts + more).writes == Run(acts).writes + [Accepted(o, FenceOf(Run(acts).store))]
  {
    RunFenced(acts);
    var more := [LoadToken(o), WriteEvents(o, rows)];
    var mid := acts + [LoadToken(o)];
    assert mid[..|acts|] == acts && (acts + more)[..|acts| + 1] == mid;
    assert Run(mid) == Step(Run(acts), LoadToken(o));
    assert Run(acts + more) == Step(Run(mid), WriteEvents(o, rows));
  }

  /**
   * Exactly when accepted epochs can still go back without another registration: they have, or an
   * accepted write is ahead of the row.
   */
  lemma GoesBackIff<S(!new)>(acts: seq<Act<S>>)
    ensures (exists more: seq<Act<S>> :: Once(more) && !Forward(Run(acts + more).writes)) <==>
            !Forward(Run(acts).writes) || Overtook(Run(acts))
  {
    if Forward(Run(acts).writes) && !Overtook(Run(acts)) {
      forall more: seq<Act<S>> | Once(more) ensures Forward(Run(acts + more).writes) {
        StaysForward(acts, more);
      }
    } else if !Forward(Run(acts).writes) {
      var none: seq<Act<S>> := [];
      assert acts + none == acts && Once(none);
    } else {
      var more: seq<Act<S>> := [LoadToken("o"), WriteEvents("o", [])];
      OneMoreWrite(acts, "o", []);
      var w, after := Run(acts), Run(acts + more);
      var i :| 0 <= i < |w.writes| && w.writes[i].epoch > FenceOf(w.store);
      assert after.writes[i] == w.writes[i] && after.writes[|w.writes|].epoch == FenceOf(w.store);
      assert Once(more) && !Forward(after.writes);
    }
  }

  /** A write at a positive epoch was accepted. */
  predicate Claimed<S>(w: World<S>) { exists i :: 0 <= i < |w.writes| && w.writes[i].epoch > 0 }

  /**
   * What registering the row again costs: after it, accepted epochs can go back if and only if a write
   * at a positive epoch was accepted before it.
   */
  lemma ReregistrationGoesBackIff<S(!new)>(acts: seq<Act<S>>, o: Owner)
    ensures (exists more: seq<Act<S>> :: Once(more) && !Forward(Run(acts + [Reregister(o)] + more).writes)) <==>
            Claimed(Run(acts))
  {
    var again := acts + [Reregister(o)];
    assert again[..|acts|] == acts;
    RunFenced(acts);
    GoesBackIff(again);
    assert Run(again).writes == Run(acts).writes && FenceOf(Run(again).store) == 0;
    assert Overtook(Run(again)) <==> Claimed(Run(acts));
    if !Forward(Run(acts).writes) {
      assert Claimed(Run(acts));
    }
  }

  /** One owner claims and writes; another registers the row again, loads its token and writes. */
  function TakenBack<S>(rows: seq<EventRow>): seq<Act<S>> {
    [LoadToken("a")] + [Claim("a")] + [WriteEvents("a", rows)] + [Reregister("b")] +
    [LoadToken("b"), WriteEvents("b", rows)]
  }

  /** The second write is accepted at an epoch below that of the first. */
  lemma EpochsGoBack<S>(rows: seq<EventRow>)
    ensures Run(TakenBack<S>(rows)).writes == [Accepted("a", 1), Accepted("b", 0)]
    ensures !Forward(Run(TakenBack<S>(rows)).writes)
  {
    var a1: seq<Act<S>> := [LoadToken("a")];
    var a2 := a1 + [Claim("a")];
    var a3 := a2 + [WriteEvents("a", rows)];
    var a4 := a3 + [Reregister("b")];
    assert a1[..0] == [] && a2[..1] == a1 && a3[..2] == a2 && a4[..3] == a3;
    assert Run(a1) == Step(Registered(), LoadToken("a"));
    assert Run(a2) == Step(Run(a1), Claim("a"));
    assert Run(a3) == Step(Run(a2), WriteEvents("a", rows));
    assert Run(a4) == Step(Run(a3), Reregister("b"));
    OneMoreWrite(a4, "b", rows);
    var writes := [Accepted("a", 1), Accepted("b", 0)];
    assert Run(TakenBack<S>(rows)).writes == writes;
    assert writes[0].epoch > writes[1].epoch;
  }

  /** A row registered once: accepted epochs never go back, and every token is at most the row's. */
  lemma {:induction false} RegisteredOnceIsForward<S>(acts: seq<Act<S>>)
    requires Once(acts)
    ensures Forward(Run(acts).writes)
    ensures forall o :: TokenOf(Run(acts), o) <= FenceOf(Run(acts).store)
  {
    var none: seq<Act<S>> := [];
    StaysForward(none, acts);
    assert none + acts == acts;
    if acts != [] {
      var before := acts[..|acts| - 1];
      RegisteredOnceIsForward(before);
      RunFenced(before);
      forall o ensures TokenOf(Run(acts), o) <= FenceOf(Run(acts).store) {
        assert TokenOf(Run(before), o) <= FenceOf(Run(before).store);
      }
    }
  }
}
