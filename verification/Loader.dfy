/** The class loader's cache of compiled modules, keyed by source hash. */
module Loader {
  import opened Wrappers

  type Sha = string
  type Source = string

  datatype Key = Key(name: string, version: string)

  datatype Record = Record(sha: Sha, graceUntil: Option<int>)

  /** Published versions and their sources: `blobs` holds the source of every published hash. */
  datatype Registry = Registry(records: map<Key, Record>, blobs: map<Sha, Source>)

  /** The parts the loader cannot look into: the hash and the compiler (`None` is a compile error). */
  datatype Tools<!C> = Tools(hash: Source -> Sha, compile: Source -> Option<C>) {
    ghost predicate Injective() { forall a, b :: hash(a) == hash(b) ==> a == b }
  }

  datatype Entry<C> = Entry(sha: Sha, ctor: C, lastUsedAt: int, refCount: nat)

  datatype Outcome<+C> = Loaded(ctor: C) | SourceNotFound | Expired(graceUntil: int) | CompileError

  // ---------------------------------------------------------------- Without a cache

  function Publish<C>(tools: Tools<C>, r: Registry, key: Key, source: Source): Registry {
    if key in r.records then r
    else
      var sha := tools.hash(source);
      Registry(r.records[key := Record(sha, None)], r.blobs[sha := source])
  }

  function Deprecate(r: Registry, key: Key, grace: Option<int>): Registry {
    if key !in r.records then r
    else r.(records := r.records[key := r.records[key].(graceUntil := if grace.Some? then grace else r.records[key].graceUntil)])
  }

  /** Compiling the version's source every time: what a load means. */
  function Uncached<C>(tools: Tools<C>, r: Registry, key: Key, now: int): Outcome<C> {
    if key !in r.records then SourceNotFound
    else
      var record := r.records[key];
      if record.graceUntil.Some? && record.graceUntil.value <= now then Expired(record.graceUntil.value)
      else if record.sha !in r.blobs then SourceNotFound
      else
        var ctor := tools.compile(r.blobs[record.sha]);
        if ctor.None? then CompileError else Loaded(ctor.value)
  }

  // ---------------------------------------------------------------- The cache

  /** The JS map in insertion order: a list of entries with distinct hashes. */
  type Cache<C> = seq<Entry<C>>

  predicate Distinct<C>(c: Cache<C>) {
    forall i, j :: 0 <= i < j < |c| ==> c[i].sha != c[j].sha
  }

  function IndexOf<C>(c: Cache<C>, sha: Sha): (i: nat)
    ensures i <= |c|
    ensures i < |c| ==> c[i].sha == sha
    ensures forall j :: 0 <= j < i ==> c[j].sha != sha
  {
    if c == [] || c[0].sha == sha then 0 else 1 + IndexOf(c[1..], sha)
  }

  predicate Eligible<C>(c: Cache<C>, justAdded: Sha, i: nat) {
    i < |c| && c[i].refCount == 0 && c[i].sha != justAdded
  }

  /** The least recently used entry nobody holds, the oldest inserted among equals. */
  ghost predicate IsVictim<C>(c: Cache<C>, justAdded: Sha, i: nat) {
    Eligible(c, justAdded, i) &&
    forall j: nat :: Eligible(c, justAdded, j) ==>
      c[i].lastUsedAt < c[j].lastUsedAt || (c[i].lastUsedAt == c[j].lastUsedAt && i <= j)
  }

  function Without<C>(c: Cache<C>, i: nat): Cache<C>
    requires i < |c|
  {
    c[..i] + c[i + 1..]
  }

  /** `after` is the cache once an insertion has evicted at most one entry. */
  ghost predicate Evicted<C>(maxEntries: nat, c: Cache<C>, justAdded: Sha, after: Cache<C>) {
    if |c| <= maxEntries || (forall i: nat :: !Eligible(c, justAdded, i)) then after == c
    else exists i: nat :: IsVictim(c, justAdded, i) && after == Without(c, i)
  }

  function Touch<C>(c: Cache<C>, i: nat, now: int): Cache<C>
    requires i < |c|
  {
    c[i := c[i].(lastUsedAt := now)]
  }

  /** One load: what it returns and what it leaves in the cache. */
  ghost predicate Loads<C(!new)>(tools: Tools<C>, maxEntries: nat, r: Registry, c: Cache<C>, key: Key, now: int,
                           out: Outcome<C>, after: Cache<C>) {
    if key !in r.records then out == SourceNotFound && after == c
    else
      var record := r.records[key];
      if record.graceUntil.Some? && record.graceUntil.value <= now then
        out == Expired(record.graceUntil.value) && after == c
      else
        var i := IndexOf(c, record.sha);
        if i < |c| then out == Loaded(c[i].ctor) && after == Touch(c, i, now)
        else if record.sha !in r.blobs then out == SourceNotFound && after == c
        else
          var ctor := tools.compile(r.blobs[record.sha]);
          if ctor.None? then out == CompileError && after == c
          else
            out == Loaded(ctor.value) &&
            Evicted(maxEntries, c + [Entry(record.sha, ctor.value, now, 0)], record.sha, after)
  }

  function Acquire<C>(c: Cache<C>, sha: Sha): Cache<C> {
    var i := IndexOf(c, sha);
    if i < |c| then c[i := c[i].(refCount := c[i].refCount + 1)] else c
  }

  function Release<C>(c: Cache<C>, sha: Sha): Cache<C> {
    var i := IndexOf(c, sha);
    if i < |c| && c[i].refCount > 0 then c[i := c[i].(refCount := c[i].refCount - 1)] else c
  }

  // ---------------------------------------------------------------- What every step keeps

  /** Blobs sit under their own hash and every published version has one. */
  ghost predicate Consistent<C>(tools: Tools<C>, r: Registry) {
    && (forall sha :: sha in r.blobs ==> tools.hash(r.blobs[sha]) == sha)
    && (forall key :: key in r.records ==> r.records[key].sha in r.blobs)
  }

  /** Every cached constructor is what compiling the blob under its hash gives. */
  ghost predicate Faithful<C>(tools: Tools<C>, r: Registry, c: Cache<C>) {
    Distinct(c) &&
    forall i :: 0 <= i < |c| ==> c[i].sha in r.blobs && tools.compile(r.blobs[c[i].sha]) == Some(c[i].ctor)
  }

  function Held<C>(c: Cache<C>): nat {
    if c == [] then 0 else (if c[0].refCount > 0 then 1 else 0) + Held(c[1..])
  }

  /** A load over a faithful cache is the uncached load, and refuses an expired version it has cached. */
  lemma LoadRefinesUncached<C(!new)>(tools: Tools<C>, maxEntries: nat, r: Registry, c: Cache<C>, key: Key, now: int,
                               out: Outcome<C>, after: Cache<C>)
    requires Consistent(tools, r) && Faithful(tools, r, c)
    requires Loads(tools, maxEntries, r, c, key, now, out, after)
    ensures out == Uncached(tools, r, key, now)
    ensures Faithful(tools, r, after)
  {
    if key in r.records && after != c {
      var record := r.records[key];
      var i := IndexOf(c, record.sha);
      if i == |c| {
        var grown := c + [Entry(record.sha, tools.compile(r.blobs[record.sha]).value, now, 0)];
        assert Faithful(tools, r, grown);
        EvictedKeeps(tools, r, maxEntries, grown, record.sha, after);
      }
    }
  }

  lemma EvictedDistinct<C>(maxEntries: nat, c: Cache<C>, justAdded: Sha, after: Cache<C>)
    requires Distinct(c) && Evicted(maxEntries, c, justAdded, after)
    ensures Distinct(after)
  {
    if after != c {
      var v: nat :| IsVictim(c, justAdded, v) && after == Without(c, v);
      forall i | 0 <= i < |after| ensures after[i] == c[if i < v then i else i + 1] {
      }
    }
  }

  lemma EvictedKeeps<C>(tools: Tools<C>, r: Registry, maxEntries: nat, c: Cache<C>, justAdded: Sha, after: Cache<C>)
    requires Faithful(tools, r, c) && Evicted(maxEntries, c, justAdded, after)
    ensures Faithful(tools, r, after)
  {
    assert Distinct(after) by {
      EvictedDistinct(maxEntries, c, justAdded, after);
    }
    if after != c {
      var v: nat :| IsVictim(c, justAdded, v) && after == Without(c, v);
      forall i | 0 <= i < |after|
        ensures after[i].sha in r.blobs && tools.compile(r.blobs[after[i].sha]) == Some(after[i].ctor)
      {
        assert after[i] == c[if i < v then i else i + 1];
      }
    }
  }

  /** Publishing needs the hash to be injective: otherwise it could change the source of a cached class. */
  lemma PublishKeeps<C>(tools: Tools<C>, r: Registry, c: Cache<C>, key: Key, source: Source)
    requires tools.Injective() && Consistent(tools, r) && Faithful(tools, r, c)
    ensures Consistent(tools, Publish(tools, r, key, source)) && Faithful(tools, Publish(tools, r, key, source), c)
  {
    var sha := tools.hash(source);
    if sha in r.blobs {
      assert tools.hash(r.blobs[sha]) == tools.hash(source);
    }
  }

  lemma DeprecateKeeps<C>(tools: Tools<C>, r: Registry, c: Cache<C>, key: Key, grace: Option<int>)
    requires Consistent(tools, r) && Faithful(tools, r, c)
    ensures Consistent(tools, Deprecate(r, key, grace)) && Faithful(tools, Deprecate(r, key, grace), c)
  {
  }

  lemma CountsKeep<C>(tools: Tools<C>, r: Registry, c: Cache<C>, sha: Sha)
    requires Faithful(tools, r, c)
    ensures Faithful(tools, r, Acquire(c, sha)) && Faithful(tools, r, Release(c, sha))
  {
  }

  ghost predicate Keeps<C>(after: Cache<C>, e: Entry<C>) {
    exists j :: 0 <= j < |after| && after[j].sha == e.sha && after[j].ctor == e.ctor && after[j].refCount == e.refCount
  }

  lemma HeldSurvivesEviction<C>(maxEntries: nat, c: Cache<C>, justAdded: Sha, after: Cache<C>, i: nat)
    requires Evicted(maxEntries, c, justAdded, after) && i < |c| && c[i].refCount > 0
    ensures Keeps(after, c[i])
  {
    if after == c {
      assert after[i] == c[i];
    } else {
      var v: nat :| IsVictim(c, justAdded, v) && after == Without(c, v);
      assert after[if i < v then i else i - 1] == c[i];
    }
  }

  /** A release undoes an acquire. */
  lemma ReleaseUndoesAcquire<C>(c: Cache<C>, sha: Sha)
    ensures Release(Acquire(c, sha), sha) == c
  {
    var i := IndexOf(c, sha);
    if i < |c| {
      var a := Acquire(c, sha);
      assert forall j :: 0 <= j < |c| ==> a[j].sha == c[j].sha;
      assert IndexOf(a, sha) == i;
    }
  }

  /** A held entry survives every load, constructor and count unchanged. */
  lemma HeldIsNeverEvicted<C(!new)>(tools: Tools<C>, maxEntries: nat, r: Registry, c: Cache<C>, key: Key, now: int,
                              out: Outcome<C>, after: Cache<C>, i: nat)
    requires Loads(tools, maxEntries, r, c, key, now, out, after)
    requires i < |c| && c[i].refCount > 0
    ensures Keeps(after, c[i])
  {
    if after == c {
      assert after[i] == c[i];
    } else {
      var sha := r.records[key].sha;
      var k := IndexOf(c, sha);
      if k < |c| {
        assert after == Touch(c, k, now);
        assert after[i].sha == c[i].sha;
      } else {
        var grown := c + [Entry(sha, tools.compile(r.blobs[sha]).value, now, 0)];
        assert grown[i] == c[i];
        HeldSurvivesEviction(maxEntries, grown, sha, after, i);
      }
    }
  }

  /** Below the cap a load forgets nothing; above it, at most one entry, and never the one it returns. */
  lemma EvictsOnlyAboveCap<C(!new)>(tools: Tools<C>, maxEntries: nat, r: Registry, c: Cache<C>, key: Key, now: int,
                              out: Outcome<C>, after: Cache<C>)
    requires Distinct(c) && Loads(tools, maxEntries, r, c, key, now, out, after)
    ensures |c| <= |after| <= |c| + 1
    ensures |c| < maxEntries ==> forall i :: 0 <= i < |c| ==> Keeps(after, c[i])
    ensures out.Loaded? ==> IndexOf(after, r.records[key].sha) < |after|
  {
    if after != c {
      var sha := r.records[key].sha;
      var k := IndexOf(c, sha);
      if k < |c| {
        assert after == Touch(c, k, now);
        assert forall i :: 0 <= i < |c| ==> after[i].sha == c[i].sha;
      } else {
        var grown := c + [Entry(sha, tools.compile(r.blobs[sha]).value, now, 0)];
        assert grown[|c|].sha == sha;
        if after != grown {
          var v: nat :| IsVictim(grown, sha, v) && after == Without(grown, v);
          assert after[|c| - 1] == grown[|c|];
        } else {
          assert forall i :: 0 <= i < |c| ==> after[i] == c[i];
        }
      }
    }
  }

  // ---------------------------------------------------------------- Size

  lemma {:induction false} AllHeld<C>(c: Cache<C>)
    requires forall i :: 0 <= i < |c| ==> c[i].refCount > 0
    ensures Held(c) == |c|
  {
    if c != [] {
      AllHeld(c[1..]);
    }
  }

  /** Steps of one loader; `Load` carries the result and the cache it left. */
  datatype Step<C> =
    | DoPublish(key: Key, source: Source)
    | DoDeprecate(key: Key, grace: Option<int>)
    | DoLoad(key: Key, now: int, out: Outcome<C>, after: Cache<C>)
    | DoAcquire(sha: Sha)
    | DoRelease(sha: Sha)

  /** `peak` is the most entries ever held at once, `loadedAt` the time of each hash's last successful load. */
  datatype World<C> = World(registry: Registry, cache: Cache<C>, peak: nat, loadedAt: map<Sha, int>)

  ghost predicate CanStep<C(!new)>(tools: Tools<C>, maxEntries: nat, w: World<C>, s: Step<C>) {
    s.DoLoad? ==> Loads(tools, maxEntries, w.registry, w.cache, s.key, s.now, s.out, s.after)
  }

  function Next<C>(tools: Tools<C>, w: World<C>, s: Step<C>): World<C> {
    var after :=
      match s
      case DoPublish(key, source) => w.(registry := Publish(tools, w.registry, key, source))
      case DoDeprecate(key, grace) => w.(registry := Deprecate(w.registry, key, grace))
      case DoLoad(key, now, out, c) =>
        if out.Loaded? && key in w.registry.records
        then w.(cache := c, loadedAt := w.loadedAt[w.registry.records[key].sha := now]) else w.(cache := c)
      case DoAcquire(sha) => w.(cache := Acquire(w.cache, sha))
      case DoRelease(sha) => w.(cache := Release(w.cache, sha));
    after.(peak := Max(w.peak, Held(after.cache)))
  }

  /** `ws` are the worlds a run of `steps` goes through, from an empty registry and cache. */
  ghost predicate Trace<C(!new)>(tools: Tools<C>, maxEntries: nat, ws: seq<World<C>>, steps: seq<Step<C>>) {
    && |ws| == |steps| + 1
    && ws[0] == World(Registry(map[], map[]), [], 0, map[])
    && forall i :: 0 <= i < |steps| ==>
         CanStep(tools, maxEntries, ws[i], steps[i]) && ws[i + 1] == Next(tools, ws[i], steps[i])
  }

  /** The use time of an entry is the time of the last load that returned it. */
  ghost predicate Dated<C>(c: Cache<C>, loadedAt: map<Sha, int>) {
    forall i :: 0 <= i < |c| ==> c[i].sha in loadedAt && c[i].lastUsedAt == loadedAt[c[i].sha]
  }

  lemma DatedAfterEviction<C>(maxEntries: nat, c: Cache<C>, justAdded: Sha, after: Cache<C>, loadedAt: map<Sha, int>)
    requires Dated(c, loadedAt) && Evicted(maxEntries, c, justAdded, after)
    ensures Dated(after, loadedAt)
  {
    if after != c {
      var v: nat :| IsVictim(c, justAdded, v) && after == Without(c, v);
      forall i | 0 <= i < |after| ensures after[i] == c[if i < v then i else i + 1] {
      }
    }
  }

  lemma CountsDated<C>(c: Cache<C>, sha: Sha, loadedAt: map<Sha, int>)
    requires Dated(c, loadedAt)
    ensures Dated(Acquire(c, sha), loadedAt) && Dated(Release(c, sha), loadedAt)
  {
  }

  lemma LoadDated<C(!new)>(tools: Tools<C>, maxEntries: nat, w: World<C>, s: Step<C>)
    requires Good(tools, maxEntries, w) && s.DoLoad? && CanStep(tools, maxEntries, w, s)
    ensures Dated(s.after, Next(tools, w, s).loadedAt)
  {
    if s.out.Loaded? {
      var sha, c := w.registry.records[s.key].sha, w.cache;
      var k := IndexOf(c, sha);
      if k == |c| {
        var grown := c + [Entry(sha, s.out.ctor, s.now, 0)];
        assert Dated(grown, w.loadedAt[sha := s.now]);
        DatedAfterEviction(maxEntries, grown, sha, s.after, w.loadedAt[sha := s.now]);
      }
    }
  }

  /** Least recently used: of the entries nobody holds, the one that goes was loaded longest ago. */
  lemma VictimIsLeastRecentlyLoaded<C>(tools: Tools<C>, maxEntries: nat, w: World<C>, justAdded: Entry<C>, i: nat, j: nat)
    requires Good(tools, maxEntries, w) && (forall k :: 0 <= k < |w.cache| ==> w.cache[k].sha != justAdded.sha)
    requires IsVictim(w.cache + [justAdded], justAdded.sha, i) && j < |w.cache| && w.cache[j].refCount == 0
    ensures i < |w.cache| && w.loadedAt[w.cache[i].sha] <= w.loadedAt[w.cache[j].sha]
  {
    var grown := w.cache + [justAdded];
    assert grown[j] == w.cache[j] && Eligible(grown, justAdded.sha, j);
  }

  ghost predicate Good<C>(tools: Tools<C>, maxEntries: nat, w: World<C>) {
    && Consistent(tools, w.registry)
    && Faithful(tools, w.registry, w.cache)
    && Held(w.cache) <= w.peak
    && Dated(w.cache, w.loadedAt)
    && |w.cache| <= Max(maxEntries, 1 + w.peak)
  }

  lemma LoadKeepsSize<C(!new)>(tools: Tools<C>, maxEntries: nat, w: World<C>, s: Step<C>)
    requires Good(tools, maxEntries, w) && s.DoLoad? && CanStep(tools, maxEntries, w, s)
    ensures |s.after| <= Max(maxEntries, 1 + w.peak)
  {
    var c := w.cache;
    if |s.after| > |c| {
      var sha := w.registry.records[s.key].sha;
      var added := Entry(sha, tools.compile(w.registry.blobs[sha]).value, s.now, 0);
      var grown := c + [added];
      assert s.after == grown;
      if |grown| > maxEntries {
        forall i | 0 <= i < |c| ensures c[i].refCount > 0 {
          assert grown[i] == c[i] && !Eligible(grown, sha, i);
        }
        AllHeld(c);
      }
    }
  }

  lemma NextGood<C(!new)>(tools: Tools<C>, maxEntries: nat, w: World<C>, s: Step<C>)
    requires tools.Injective() && Good(tools, maxEntries, w) && CanStep(tools, maxEntries, w, s)
    ensures Good(tools, maxEntries, Next(tools, w, s))
  {
    match s {
      case DoPublish(key, source) => PublishKeeps(tools, w.registry, w.cache, key, source);
      case DoDeprecate(key, grace) => DeprecateKeeps(tools, w.registry, w.cache, key, grace);
      case DoLoad(key, now, out, after) =>
        LoadRefinesUncached(tools, maxEntries, w.registry, w.cache, key, now, out, after);
        LoadKeepsSize(tools, maxEntries, w, s);
        LoadDated(tools, maxEntries, w, s);
      case DoAcquire(sha) => CountsKeep(tools, w.registry, w.cache, sha); CountsDated(w.cache, sha, w.loadedAt);
      case DoRelease(sha) => CountsKeep(tools, w.registry, w.cache, sha); CountsDated(w.cache, sha, w.loadedAt);
    }
  }

  /**
   * Over every run of publishes, deprecations, loads, acquires and releases: the cache stays faithful,
   * so loads are uncached loads, and its size stays within the cap or one more than were ever held.
   */
  lemma {:induction false} RunGood<C(!new)>(tools: Tools<C>, maxEntries: nat, ws: seq<World<C>>, steps: seq<Step<C>>,
                                      k: nat)
    requires tools.Injective() && Trace(tools, maxEntries, ws, steps) && k <= |steps|
    ensures Good(tools, maxEntries, ws[k])
    ensures k < |steps| && steps[k].DoLoad? ==>
              steps[k].out == Uncached(tools, ws[k].registry, steps[k].key, steps[k].now)
  {
    if k > 0 {
      RunGood(tools, maxEntries, ws, steps, k - 1);
      NextGood(tools, maxEntries, ws[k - 1], steps[k - 1]);
      assert ws[k - 1 + 1] == ws[k];
    }
    if k < |steps| && steps[k].DoLoad? {
      var s := steps[k];
      assert CanStep(tools, maxEntries, ws[k], s);
      LoadRefinesUncached(tools, maxEntries, ws[k].registry, ws[k].cache, s.key, s.now, s.out, s.after);
    }
  }

  // ---------------------------------------------------------------- What a version is

  /** The source a version was first published with: later publishes of it are refused. */
  function FirstSource<C>(steps: seq<Step<C>>, key: Key): Option<Source> {
    if steps == [] then None
    else
      var before, last := FirstSource(steps[..|steps| - 1], key), steps[|steps| - 1];
      if before.None? && last.DoPublish? && last.key == key then Some(last.source) else before
  }

  /** The end of the grace period last given to a published version. */
  function LastGrace<C>(steps: seq<Step<C>>, key: Key): Option<int> {
    if steps == [] then None
    else
      var before, last := steps[..|steps| - 1], steps[|steps| - 1];
      if last.DoDeprecate? && last.key == key && last.grace.Some? && FirstSource(before, key).Some? then last.grace
      else LastGrace(before, key)
  }

  /** The registry knows a version by its first source and its last grace period. */
  ghost predicate Serves<C>(tools: Tools<C>, r: Registry, steps: seq<Step<C>>, key: Key) {
    && (key in r.records <==> FirstSource(steps, key).Some?)
    && (key in r.records ==>
          var sha := tools.hash(FirstSource(steps, key).value);
          && r.records[key] == Record(sha, LastGrace(steps, key))
          && sha in r.blobs && r.blobs[sha] == FirstSource(steps, key).value)
    && (key !in r.records ==> LastGrace(steps, key).None?)
  }

  lemma NextServes<C>(tools: Tools<C>, w: World<C>, steps: seq<Step<C>>, s: Step<C>, key: Key)
    requires tools.Injective() && Serves(tools, w.registry, steps, key)
    ensures Serves(tools, Next(tools, w, s).registry, steps + [s], key)
  {
    assert (steps + [s])[..|steps|] == steps;
    if s.DoPublish? && key in w.registry.records && tools.hash(s.source) == w.registry.records[key].sha {
      assert s.source == FirstSource(steps, key).value;
    }
  }

  lemma {:induction false} TraceServes<C(!new)>(tools: Tools<C>, maxEntries: nat, ws: seq<World<C>>, steps: seq<Step<C>>,
                                          k: nat, key: Key)
    requires tools.Injective() && Trace(tools, maxEntries, ws, steps) && k <= |steps|
    ensures Serves(tools, ws[k].registry, steps[..k], key)
    decreases k
  {
    if k > 0 {
      var before, s, w := steps[..k - 1], steps[k - 1], ws[k - 1];
      assert ws[k] == Next(tools, w, s) by {
        assert ws[k - 1 + 1] == Next(tools, ws[k - 1], steps[k - 1]);
      }
      assert before + [s] == steps[..k];
      TraceServes(tools, maxEntries, ws, steps, k - 1, key);
      NextServes(tools, w, before, s, key);
    }
  }

  /**
   * What a load gives, in every run, with the cache or without: the class compiled from the source the version
   * was first published with, unless the grace period it was last given is over.
   */
  lemma LoadsFirstSource<C(!new)>(tools: Tools<C>, maxEntries: nat, ws: seq<World<C>>, steps: seq<Step<C>>, k: nat)
    requires tools.Injective() && Trace(tools, maxEntries, ws, steps) && k < |steps| && steps[k].DoLoad?
    ensures var source, grace := FirstSource(steps[..k], steps[k].key), LastGrace(steps[..k], steps[k].key);
      steps[k].out ==
        if source.None? then SourceNotFound
        else if grace.Some? && grace.value <= steps[k].now then Expired(grace.value)
        else if tools.compile(source.value).None? then CompileError
        else Loaded(tools.compile(source.value).value)
  {
    TraceServes(tools, maxEntries, ws, steps, k, steps[k].key);
    RunGood(tools, maxEntries, ws, steps, k);
  }

  // ---------------------------------------------------------------- Held from acquire to release

  lemma NextDistinct<C(!new)>(tools: Tools<C>, maxEntries: nat, w: World<C>, s: Step<C>)
    requires Distinct(w.cache) && CanStep(tools, maxEntries, w, s)
    ensures Distinct(Next(tools, w, s).cache)
  {
    if s.DoLoad? && s.after != w.cache {
      var sha := w.registry.records[s.key].sha;
      if IndexOf(w.cache, sha) == |w.cache| {
        var grown := w.cache + [Entry(sha, s.out.ctor, s.now, 0)];
        EvictedDistinct(maxEntries, grown, sha, s.after);
      }
    }
  }

  /** The cache holds this constructor under this hash, with `n` references to it. */
  predicate Has<C(==)>(c: Cache<C>, sha: Sha, ctor: C, n: nat) {
    var i := IndexOf(c, sha);
    i < |c| && c[i].ctor == ctor && c[i].refCount == n
  }

  lemma KeepsHas<C>(c: Cache<C>, after: Cache<C>, sha: Sha, ctor: C, n: nat)
    requires Distinct(after) && Has(c, sha, ctor, n) && Keeps(after, c[IndexOf(c, sha)])
    ensures Has(after, sha, ctor, n)
  {
    var j :| 0 <= j < |after| && after[j].sha == sha && after[j].ctor == ctor && after[j].refCount == n;
    var i := IndexOf(after, sha);
    assert i <= j;
  }

  /** References gained and lost by one step. */
  function Delta<C>(s: Step<C>, sha: Sha): int {
    if s == DoAcquire(sha) then 1 else if s == DoRelease(sha) then -1 else 0
  }

  lemma CountsHave<C>(c: Cache<C>, sha: Sha, ctor: C, n: nat, other: Sha)
    requires Has(c, sha, ctor, n) && n > 0
    ensures Has(Acquire(c, other), sha, ctor, if other == sha then n + 1 else n)
    ensures Has(Release(c, other), sha, ctor, if other == sha then n - 1 else n)
  {
    SameShas(c, Acquire(c, other), sha);
    SameShas(c, Release(c, other), sha);
  }

  lemma SameShas<C>(c: Cache<C>, after: Cache<C>, sha: Sha)
    requires |after| == |c| && forall j :: 0 <= j < |c| ==> after[j].sha == c[j].sha
    ensures IndexOf(after, sha) == IndexOf(c, sha)
  {
  }

  lemma NextHas<C(!new)>(tools: Tools<C>, maxEntries: nat, w: World<C>, s: Step<C>, sha: Sha, ctor: C, n: nat)
    requires Distinct(w.cache) && CanStep(tools, maxEntries, w, s) && Has(w.cache, sha, ctor, n) && n > 0
    ensures n + Delta(s, sha) >= 0 && Has(Next(tools, w, s).cache, sha, ctor, n + Delta(s, sha))
  {
    match s {
      case DoLoad(key, now, out, after) =>
        NextDistinct(tools, maxEntries, w, s);
        HeldIsNeverEvicted(tools, maxEntries, w.registry, w.cache, key, now, out, after, IndexOf(w.cache, sha));
        KeepsHas(w.cache, after, sha, ctor, n);
      case DoAcquire(other) => CountsHave(w.cache, sha, ctor, n, other);
      case DoRelease(other) => CountsHave(w.cache, sha, ctor, n, other);
      case _ =>
    }
  }

  /** References a hash gains, net, from step `j` to step `k`. */
  function Net<C>(steps: seq<Step<C>>, j: nat, k: nat, sha: Sha): int
    requires j <= k <= |steps|
  {
    if j == k then 0 else Net(steps, j, k - 1, sha) + Delta(steps[k - 1], sha)
  }

  lemma {:induction false} RunDistinct<C(!new)>(tools: Tools<C>, maxEntries: nat, ws: seq<World<C>>,
                                                steps: seq<Step<C>>, k: nat)
    requires Trace(tools, maxEntries, ws, steps) && k <= |steps|
    ensures Distinct(ws[k].cache)
  {
    if k > 0 {
      RunDistinct(tools, maxEntries, ws, steps, k - 1);
      NextDistinct(tools, maxEntries, ws[k - 1], steps[k - 1]);
      assert ws[k - 1 + 1] == ws[k];
    }
  }

  /**
   * An acquired class stays: over any part of any run in which its references never ran out, the cache
   * holds the very constructor, with exactly the references acquired and not yet released.
   */
  lemma {:induction false} HeldUntilReleased<C(!new)>(tools: Tools<C>, maxEntries: nat, ws: seq<World<C>>,
      steps: seq<Step<C>>, j: nat, k: nat, sha: Sha, ctor: C, n: nat)
    requires Trace(tools, maxEntries, ws, steps) && j <= k <= |steps|
    requires Has(ws[j].cache, sha, ctor, n)
    requires forall i :: j <= i < k ==> n + Net(steps, j, i, sha) > 0
    ensures n + Net(steps, j, k, sha) >= 0 && Has(ws[k].cache, sha, ctor, n + Net(steps, j, k, sha))
    decreases k
  {
    if j < k {
      HeldUntilReleased(tools, maxEntries, ws, steps, j, k - 1, sha, ctor, n);
      RunDistinct(tools, maxEntries, ws, steps, k - 1);
      assert CanStep(tools, maxEntries, ws[k - 1], steps[k - 1]) && ws[k - 1 + 1] == ws[k];
      NextHas(tools, maxEntries, ws[k - 1], steps[k - 1], sha, ctor, n + Net(steps, j, k - 1, sha));
    }
  }

  // ---------------------------------------------------------------- The class

  class ClassLoader<C(!new)> {
    const tools: Tools<C>
    const maxEntries: nat
    var bySha: Cache<C>

    constructor (tools: Tools<C>, maxEntries: nat)
      ensures this.tools == tools && this.maxEntries == maxEntries && bySha == []
    {
      this.tools, this.maxEntries := tools, maxEntries;
      bySha := [];
    }

    method Load(registry: Registry, key: Key, now: int) returns (out: Outcome<C>)
      modifies this
      ensures Loads(tools, maxEntries, registry, old(bySha), key, now, out, bySha)
    {
      if key !in registry.records {
        return SourceNotFound;
      }
      var record := registry.records[key];
      if record.graceUntil.Some? && record.graceUntil.value <= now {
        return Expired(record.graceUntil.value);
      }
      var i := IndexOf(bySha, record.sha);
      if i < |bySha| {
        bySha := bySha[i := bySha[i].(lastUsedAt := now)];
        return Loaded(bySha[i].ctor);
      }
      if record.sha !in registry.blobs {
        return SourceNotFound;
      }
      var ctor := tools.compile(registry.blobs[record.sha]);
      if ctor.None? {
        return CompileError;
      }
      bySha := bySha + [Entry(record.sha, ctor.value, now, 0)];
      MaybeEvict(record.sha);
      return Loaded(ctor.value);
    }

    method MaybeEvict(justAdded: Sha)
      modifies this
      ensures Evicted(maxEntries, old(bySha), justAdded, bySha)
    {
      if |bySha| <= maxEntries {
        return;
      }
      var oldest: Option<nat> := None;
      for i := 0 to |bySha|
        invariant bySha == old(bySha)
        invariant oldest.None? ==> forall j: nat :: j < i ==> !Eligible(bySha, justAdded, j)
        invariant oldest.Some? ==> oldest.value < i && Eligible(bySha, justAdded, oldest.value)
        invariant oldest.Some? ==> forall j: nat :: j < i && Eligible(bySha, justAdded, j) ==>
                    bySha[oldest.value].lastUsedAt < bySha[j].lastUsedAt ||
                    (bySha[oldest.value].lastUsedAt == bySha[j].lastUsedAt && oldest.value <= j)
      {
        var e := bySha[i];
        if e.refCount > 0 || e.sha == justAdded {
          continue;
        }
        if oldest.None? || e.lastUsedAt < bySha[oldest.value].lastUsedAt {
          oldest := Some(i);
        }
      }
      if oldest.Some? {
        assert IsVictim(bySha, justAdded, oldest.value);
        bySha := bySha[..oldest.value] + bySha[oldest.value + 1..];
      }
    }

    method AcquireSha(sha: Sha)
      modifies this
      ensures bySha == Acquire(old(bySha), sha)
    {
      var i := IndexOf(bySha, sha);
      if i < |bySha| {
        bySha := bySha[i := bySha[i].(refCount := bySha[i].refCount + 1)];
      }
    }

    method ReleaseSha(sha: Sha)
      modifies this
      ensures bySha == Release(old(bySha), sha)
    {
      var i := IndexOf(bySha, sha);
      if i < |bySha| && bySha[i].refCount > 0 {
        bySha := bySha[i := bySha[i].(refCount := bySha[i].refCount - 1)];
      }
    }
  }
}
