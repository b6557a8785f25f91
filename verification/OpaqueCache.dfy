/**
 * The cache of active introspection answers of `OpaqueResolver`: a map in insertion order with a ceiling, whose entries
 * lapse on the monotonic clock while a token's `exp` is on the wall clock. Times are milliseconds, `exp` is in seconds.
 */
module OpaqueCache {
  import opened OrderedMap
  import opened Wrappers

  const MAX_CACHE_ENTRIES := 10_000

  datatype Held = Held(identity: string, expiresAt: int)

  /** A token and what is known of it. */
  type Entry = Pair<Held>

  /** An active answer: who, and until when the token itself is valid, if the answer says. */
  datatype Answer = Answer(identity: string, exp: Option<int>)

  function Lifetime(answer: Answer, ttl: int, wall: int): int {
    if answer.exp.Some? && answer.exp.value * 1000 - wall < ttl then answer.exp.value * 1000 - wall else ttl
  }

  /** The entries that have not lapsed, in order. */
  function Live(cache: seq<Entry>, now: int): (live: seq<Entry>)
    ensures |live| <= |cache|
    ensures forall e :: e in live <==> e in cache && e.value.expiresAt > now
  {
    if cache == [] then []
    else
      var front, last := Live(cache[..|cache| - 1], now), cache[|cache| - 1];
      assert cache == cache[..|cache| - 1] + [last];
      if last.value.expiresAt > now then front + [last] else front
  }

  lemma {:induction false} LiveDistinct(cache: seq<Entry>, now: int)
    requires DistinctKeys(cache)
    ensures DistinctKeys(Live(cache, now))
  {
    if cache != [] {
      var front, last := Live(cache[..|cache| - 1], now), cache[|cache| - 1];
      LiveDistinct(cache[..|cache| - 1], now);
      forall i | 0 <= i < |front|
        ensures front[i].key != last.key
      {
        assert front[i] in front;
        var j :| 0 <= j < |cache| - 1 && cache[j] == front[i];
      }
    }
  }

  lemma {:induction false} AllLive(cache: seq<Entry>, now: int)
    ensures |Live(cache, now)| == |cache| <==> forall e :: e in cache ==> e.value.expiresAt > now
    ensures |Live(cache, now)| == |cache| ==> Live(cache, now) == cache
  {
    if cache != [] {
      AllLive(cache[..|cache| - 1], now);
      assert cache == cache[..|cache| - 1] + [cache[|cache| - 1]];
    }
  }

  /** What making room leaves: of a full cache the live entries, without the oldest ones that still fill it. */
  function Roomy(cache: seq<Entry>, now: int): (r: seq<Entry>)
    ensures |r| < MAX_CACHE_ENTRIES
    ensures forall e :: e in r ==> e in cache
  {
    if |cache| < MAX_CACHE_ENTRIES then cache
    else
      var live := Live(cache, now);
      if |live| < MAX_CACHE_ENTRIES then live else live[|live| - MAX_CACHE_ENTRIES + 1..]
  }

  function Stored(cache: seq<Entry>, entry: Entry, now: int): (r: seq<Entry>)
    ensures |r| <= MAX_CACHE_ENTRIES
    ensures entry in r && forall e :: e in r && e != entry ==> e in cache && e.key != entry.key
  {
    Remove(Roomy(cache, now), entry.key) + [entry]
  }

  lemma StoredDistinct(cache: seq<Entry>, entry: Entry, now: int)
    requires DistinctKeys(cache)
    ensures DistinctKeys(Stored(cache, entry, now))
  {
    LiveDistinct(cache, now);
    var r := Roomy(cache, now);
    assert DistinctKeys(r);
    RemoveDistinct(r, entry.key);
    var rest := Remove(r, entry.key);
    assert forall i :: 0 <= i < |rest| ==> rest[i] in rest;
  }

  // Steps

  /**
   * What requests do to the cache: look a token up, forget one that introspection calls inactive, or keep an active
   * answer. Between its steps a request waits for the IdP, and other requests take theirs.
   */
  datatype Step =
    | Lookup(token: string, now: int)
    | Inactive(token: string)
    | Active(token: string, answer: Answer, wall: int, mono: int)

  /** The identity a look-up returns without asking the IdP. */
  function Hit(cache: seq<Entry>, ttl: int, token: string, now: int): Option<string> {
    var held := Get(cache, token);
    if ttl > 0 && held.Some? && now < held.value.expiresAt then Some(held.value.identity) else None
  }

  function EntryOf(step: Step, ttl: int): Entry
    requires step.Active?
  {
    Pair(step.token, Held(step.answer.identity, step.mono + Lifetime(step.answer, ttl, step.wall)))
  }

  /** The step puts its answer into the cache. */
  predicate Stores(step: Step, ttl: int) {
    step.Active? && ttl > 0 && Lifetime(step.answer, ttl, step.wall) > 0
  }

  /** The step takes what the cache holds of its token out: introspection said no, or the entry has lapsed. */
  predicate Drops(cache: seq<Entry>, ttl: int, step: Step) {
    step.Inactive? || (step.Lookup? && ttl > 0 && Hit(cache, ttl, step.token, step.now).None?)
  }

  function Apply(cache: seq<Entry>, ttl: int, step: Step): seq<Entry> {
    if Drops(cache, ttl, step) then Remove(cache, step.token)
    else if Stores(step, ttl) then Stored(cache, EntryOf(step, ttl), step.mono)
    else cache
  }

  /** The steps of any number of requests, one after the other, from the empty cache. */
  ghost predicate IsRun(caches: seq<seq<Entry>>, steps: seq<Step>, ttl: int) {
    && |caches| == |steps| + 1 && caches[0] == []
    && forall j :: 0 <= j < |steps| ==> caches[j + 1] == Apply(caches[j], ttl, steps[j])
  }

  // The bound

  /** Over every run: never more than ten thousand entries, one a token, and none at all with `ttl` 0. */
  lemma {:induction false} Bounded(caches: seq<seq<Entry>>, steps: seq<Step>, ttl: int, n: nat)
    requires IsRun(caches, steps, ttl) && n < |caches|
    ensures |caches[n]| <= MAX_CACHE_ENTRIES && DistinctKeys(caches[n])
    ensures ttl <= 0 ==> caches[n] == []
  {
    hide Stored, Roomy, Lifetime;
    if n > 0 {
      Bounded(caches, steps, ttl, n - 1);
      var cache, step := caches[n - 1], steps[n - 1];
      assert caches[n - 1 + 1] == Apply(cache, ttl, step);
      RemoveDistinct(cache, step.token);
      if Stores(step, ttl) { StoredDistinct(cache, EntryOf(step, ttl), step.mono); }
    }
  }

  // Where entries come from

  /** Step `k` stored this entry, and no step since has stored or dropped its token. */
  ghost predicate IsSource(caches: seq<seq<Entry>>, steps: seq<Step>, ttl: int, n: nat, k: nat, e: Entry)
    requires |caches| == |steps| + 1 && n <= |steps|
  {
    && k < n && Stores(steps[k], ttl) && EntryOf(steps[k], ttl) == e
    && forall j :: k < j < n && steps[j].token == e.key ==> !Stores(steps[j], ttl) && !Drops(caches[j], ttl, steps[j])
  }

  lemma {:induction false} EntriesHaveSources(
      caches: seq<seq<Entry>>, steps: seq<Step>, ttl: int, n: nat, e: Entry) returns (k: nat)
    requires IsRun(caches, steps, ttl) && n <= |steps| && e in caches[n]
    ensures IsSource(caches, steps, ttl, n, k, e)
  {
    hide Stored, Lifetime, Hit;
    var cache, step := caches[n - 1], steps[n - 1];
    assert caches[n - 1 + 1] == Apply(cache, ttl, step);
    if Stores(step, ttl) && e == EntryOf(step, ttl) {
      k := n - 1;
    } else {
      k := EntriesHaveSources(caches, steps, ttl, n - 1, e);
    }
  }

  /** Later stored stands later. */
  ghost predicate StoredBefore(caches: seq<seq<Entry>>, steps: seq<Step>, ttl: int, n: nat, p: Entry, q: Entry)
    requires |caches| == |steps| + 1 && n <= |steps|
  {
    forall k: nat, l: nat :: IsSource(caches, steps, ttl, n, k, p) && IsSource(caches, steps, ttl, n, l, q) ==> k < l
  }

  lemma {:induction false} LiveKeepsOrder(cache: seq<Entry>, now: int, ordered: (Entry, Entry) -> bool)
    requires InOrder(cache, ordered)
    ensures InOrder(Live(cache, now), ordered)
  {
    if cache != [] {
      var front, last := cache[..|cache| - 1], cache[|cache| - 1];
      LiveKeepsOrder(front, now, ordered);
      forall i | 0 <= i < |Live(front, now)|
        ensures ordered(Live(front, now)[i], last)
      {
        assert Live(front, now)[i] in front;
        var j :| 0 <= j < |front| && front[j] == Live(front, now)[i];
        assert cache[j] == front[j];
      }
    }
  }

  /** Everything but the new entry keeps its place in the order. */
  lemma StoredKeepsOrder(cache: seq<Entry>, entry: Entry, now: int, ordered: (Entry, Entry) -> bool)
    requires InOrder(cache, ordered)
    ensures
      var r := Stored(cache, entry, now);
      r[|r| - 1] == entry && InOrder(r[..|r| - 1], ordered)
  {
    LiveKeepsOrder(cache, now, ordered);
    var roomy := Roomy(cache, now);
    assert InOrder(roomy, ordered);
    RemoveKeepsOrder(roomy, entry.key, ordered);
    var r := Stored(cache, entry, now);
    assert r[..|r| - 1] == Remove(roomy, entry.key);
  }

  lemma StepKeepsOrder(cache: seq<Entry>, ttl: int, step: Step, ordered: (Entry, Entry) -> bool)
    requires InOrder(cache, ordered)
    ensures
      var r := Apply(cache, ttl, step);
      if Stores(step, ttl) then r != [] && r[|r| - 1] == EntryOf(step, ttl) && InOrder(r[..|r| - 1], ordered)
      else InOrder(r, ordered)
  {
    hide Stored, Lifetime, Hit, InOrder, Remove;
    RemoveKeepsOrder(cache, step.token, ordered);
    if Stores(step, ttl) { StoredKeepsOrder(cache, EntryOf(step, ttl), step.mono, ordered); }
  }

  /** Two entries in order after a step were so before it, or the later one is the step's own. */
  lemma OrderAt(r: seq<Entry>, last: bool, entry: Entry, ordered: (Entry, Entry) -> bool, i: nat, j: nat)
    requires i < j < |r| && DistinctKeys(r)
    requires if last then r[|r| - 1] == entry && InOrder(r[..|r| - 1], ordered) else InOrder(r, ordered)
    ensures r[i].key != r[j].key && (ordered(r[i], r[j]) || (last && r[j] == entry))
    ensures last ==> r[i].key != entry.key
  {
    if last && j < |r| - 1 { assert r[..|r| - 1][i] == r[i] && r[..|r| - 1][j] == r[j]; }
  }

  /** Over every run the cache stands in the order of storing. */
  lemma {:induction false} OldestFirst(caches: seq<seq<Entry>>, steps: seq<Step>, ttl: int, n: nat)
    requires IsRun(caches, steps, ttl) && n <= |steps|
    ensures forall i, j :: 0 <= i < j < |caches[n]| ==> StoredBefore(caches, steps, ttl, n, caches[n][i], caches[n][j])
  {
    hide StoredBefore, Apply, EntryOf, Stores;
    if n > 0 {
      OldestFirst(caches, steps, ttl, n - 1);
      var cache, step := caches[n - 1], steps[n - 1];
      assert caches[n - 1 + 1] == Apply(cache, ttl, step);
      var ordered := (p: Entry, q: Entry) => StoredBefore(caches, steps, ttl, n - 1, p, q);
      StepKeepsOrder(cache, ttl, step, ordered);
      Bounded(caches, steps, ttl, n);
      forall i, j | 0 <= i < j < |caches[n]|
        ensures StoredBefore(caches, steps, ttl, n, caches[n][i], caches[n][j])
      {
        var stores := Stores(step, ttl);
        OrderAt(caches[n], stores, if stores then EntryOfStore(step, ttl) else caches[n][i], ordered, i, j);
        OrderGoesOn(caches, steps, ttl, n, caches[n][i], caches[n][j]);
      }
    }
  }

  ghost function EntryOfStore(step: Step, ttl: int): (e: Entry)
    requires Stores(step, ttl)
    ensures step.Active? && e == EntryOf(step, ttl) && e.key == step.token
  {
    EntryOf(step, ttl)
  }

  lemma OrderGoesOn(caches: seq<seq<Entry>>, steps: seq<Step>, ttl: int, n: nat, p: Entry, q: Entry)
    requires IsRun(caches, steps, ttl) && 0 < n <= |steps| && p.key != q.key
    requires
      || StoredBefore(caches, steps, ttl, n - 1, p, q)
      || (Stores(steps[n - 1], ttl) && q == EntryOf(steps[n - 1], ttl))
    requires !(Stores(steps[n - 1], ttl) && p == EntryOf(steps[n - 1], ttl))
    requires Stores(steps[n - 1], ttl) && q.key == steps[n - 1].token ==> q == EntryOf(steps[n - 1], ttl)
    ensures StoredBefore(caches, steps, ttl, n, p, q)
  {
    hide Lifetime, Drops;
    forall k: nat, l: nat | IsSource(caches, steps, ttl, n, k, p) && IsSource(caches, steps, ttl, n, l, q)
      ensures k < l
    {
      if l < n - 1 {
        assert IsSource(caches, steps, ttl, n - 1, k, p) && IsSource(caches, steps, ttl, n - 1, l, q);
      }
    }
  }

  /** Whose answer a hit repeats, and that it is still good: within `ttl` of its storing, and of `exp` by its clock. */
  predicate ServedFrom(step: Step, identity: string, ttl: int, now: int)
    requires step.Active?
  {
    && identity == step.answer.identity && now < step.mono + ttl
    && (step.answer.exp.Some? ==> now - step.mono < step.answer.exp.value * 1000 - step.wall)
  }

  /** Step `k` is the active introspection of this token that a look-up at `now` may repeat. */
  ghost predicate MayRepeat(caches: seq<seq<Entry>>, steps: seq<Step>, ttl: int, n: nat, k: nat, token: string,
                            identity: string, now: int)
    requires |caches| == |steps| + 1 && n <= |steps|
  {
    && k < n && steps[k].Active? && steps[k].token == token && ServedFrom(steps[k], identity, ttl, now)
    && IsSource(caches, steps, ttl, n, k, EntryOf(steps[k], ttl))
  }

  /**
   * Over every run: a hit repeats an active introspection of that token made earlier in the run, within its lifetime,
   * and nothing has been stored for or dropped from that token since. With `ttl` 0 there are no hits.
   */
  lemma HitsRepeatActiveAnswers(caches: seq<seq<Entry>>, steps: seq<Step>, ttl: int, n: nat, token: string, now: int)
    requires IsRun(caches, steps, ttl) && n <= |steps| && Hit(caches[n], ttl, token, now).Some?
    ensures ttl > 0
    ensures exists k: nat :: MayRepeat(caches, steps, ttl, n, k, token, Hit(caches[n], ttl, token, now).value, now)
  {
    hide IsSource, Drops;
    var e := Pair(token, Get(caches[n], token).value);
    var k := EntriesHaveSources(caches, steps, ttl, n, e);
    SourceStores(caches, steps, ttl, n, k, e);
    assert MayRepeat(caches, steps, ttl, n, k, token, e.value.identity, now);
  }

  lemma SourceStores(caches: seq<seq<Entry>>, steps: seq<Step>, ttl: int, n: nat, k: nat, e: Entry)
    requires |caches| == |steps| + 1 && n <= |steps| && IsSource(caches, steps, ttl, n, k, e)
    ensures k < n && Stores(steps[k], ttl) && EntryOf(steps[k], ttl) == e
  {
    hide Drops, Lifetime;
  }

  /**
   * So a token served from the cache has not expired, up to what the wall clock has gained on the monotonic one since
   * the introspection.
   */
  lemma ServedBeforeExpiry(caches: seq<seq<Entry>>, steps: seq<Step>, ttl: int, n: nat, token: string, now: int,
      wall: int, gained: int)
    requires IsRun(caches, steps, ttl) && n <= |steps| && Hit(caches[n], ttl, token, now).Some?
    ensures exists k: nat ::
      && MayRepeat(caches, steps, ttl, n, k, token, Hit(caches[n], ttl, token, now).value, now)
      && (steps[k].answer.exp.Some? && wall - steps[k].wall <= now - steps[k].mono + gained ==>
            wall < steps[k].answer.exp.value * 1000 + gained)
  {
    hide IsSource;
    HitsRepeatActiveAnswers(caches, steps, ttl, n, token, now);
  }

  // When there is a hit

  /** An active answer that is cached at all: there is a cache, and the token is still valid. */
  predicate Cacheable(step: Step, ttl: int) {
    step.Active? && ttl > 0 && (step.answer.exp.Some? ==> step.wall < step.answer.exp.value * 1000)
  }

  /** At `at` the answer is younger than `ttl`, and than the token had left. */
  predicate Fresh(step: Step, ttl: int, at: int)
    requires step.Active?
  {
    && at < step.mono + ttl
    && (step.answer.exp.Some? ==> at < step.mono + (step.answer.exp.value * 1000 - step.wall))
  }

  /** Nothing that happened to the token after step `k` ended what that step stored. */
  predicate Undone(steps: seq<Step>, ttl: int, k: nat, j: nat)
    requires k < |steps| && j < |steps| && steps[k].Active?
  {
    match steps[j]
    case Lookup(_, at) => ttl > 0 && !Fresh(steps[k], ttl, at)
    case Inactive(_) => true
    case Active(_, _, _, _) => Cacheable(steps[j], ttl)
  }

  /** Step `k` answered for the token, is fresh, and neither undone nor evicted since. */
  ghost predicate StillAnswers(caches: seq<seq<Entry>>, steps: seq<Step>, ttl: int, n: nat, k: nat, token: string,
                               identity: string, now: int)
    requires |caches| == |steps| + 1 && n <= |steps|
  {
    && k < n && Cacheable(steps[k], ttl) && steps[k].token == token && steps[k].answer.identity == identity
    && Fresh(steps[k], ttl, now)
    && forall j :: k < j < n ==>
         if steps[j].token == token then !Undone(steps, ttl, k, j) else !EvictedAt(caches, j, EntryOf(steps[k], ttl))
  }

  ghost predicate EvictedAt(caches: seq<seq<Entry>>, j: nat, e: Entry)
    requires j + 1 < |caches|
  {
    e in caches[j] && e !in caches[j + 1]
  }

  lemma CacheableStores(step: Step, ttl: int)
    ensures Cacheable(step, ttl) <==> Stores(step, ttl)
    ensures step.Active? ==> forall at :: Fresh(step, ttl, at) <==> at < EntryOf(step, ttl).value.expiresAt
  {
  }

  lemma DistinctGet(cache: seq<Entry>, e: Entry)
    requires DistinctKeys(cache) && e in cache
    ensures Get(cache, e.key) == Some(e.value)
  {
    var found := Pair(e.key, Get(cache, e.key).value);
    var i :| 0 <= i < |cache| && cache[i] == found;
    var j :| 0 <= j < |cache| && cache[j] == e;
  }

  /** What step `k` stored is still there. */
  lemma {:induction false} StaysCached(caches: seq<seq<Entry>>, steps: seq<Step>, ttl: int, n: nat, k: nat,
                                       token: string, identity: string, now: int)
    requires IsRun(caches, steps, ttl) && n <= |steps| && StillAnswers(caches, steps, ttl, n, k, token, identity, now)
    ensures EntryOf(steps[k], ttl) in caches[n]
    decreases n
  {
    hide Stored, Lifetime;
    var e, step := EntryOf(steps[k], ttl), steps[n - 1];
    assert caches[n - 1 + 1] == Apply(caches[n - 1], ttl, step);
    CacheableStores(steps[k], ttl);
    if k < n - 1 {
      StaysCached(caches, steps, ttl, n - 1, k, token, identity, now);
      CacheableStores(step, ttl);
      if step.token == token {
        assert !Undone(steps, ttl, k, n - 1);
        Bounded(caches, steps, ttl, n - 1);
        DistinctGet(caches[n - 1], e);
      } else {
        assert !EvictedAt(caches, n - 1, e);
      }
    }
  }

  /** An entry that is there now was there all the time since the step that stored it. */
  lemma {:induction false} WasCached(caches: seq<seq<Entry>>, steps: seq<Step>, ttl: int, n: nat, k: nat, e: Entry)
    requires IsRun(caches, steps, ttl) && n <= |steps| && IsSource(caches, steps, ttl, n, k, e) && e in caches[n]
    ensures forall j :: k < j <= n ==> e in caches[j]
    decreases n
  {
    hide Lifetime, Roomy, EntryOf;
    if k + 1 < n {
      assert caches[n - 1 + 1] == Apply(caches[n - 1], ttl, steps[n - 1]);
      SourceStores(caches, steps, ttl, n, k, e);
      StoredByOwn(caches[n - 1], ttl, steps[n - 1], e);
      WasCached(caches, steps, ttl, n - 1, k, e);
    }
  }

  lemma StoredByOwn(cache: seq<Entry>, ttl: int, step: Step, e: Entry)
    requires e in Apply(cache, ttl, step)
    ensures e in cache || (Stores(step, ttl) && step.token == e.key)
  {
    hide Lifetime, Roomy;
  }

  /**
   * Over every run, a look-up hits if and only if some active answer for the token is fresh, has since been neither
   * replaced, nor withdrawn, nor found lapsed, and has not been evicted for other tokens.
   */
  lemma HitsExactly(caches: seq<seq<Entry>>, steps: seq<Step>, ttl: int, n: nat, token: string, identity: string,
                    now: int)
    requires IsRun(caches, steps, ttl) && n <= |steps|
    ensures Hit(caches[n], ttl, token, now) == Some(identity) <==>
      exists k: nat :: StillAnswers(caches, steps, ttl, n, k, token, identity, now)
  {
    hide Stored, Lifetime, Apply;
    Bounded(caches, steps, ttl, n);
    if k: nat :| StillAnswers(caches, steps, ttl, n, k, token, identity, now) {
      StaysCached(caches, steps, ttl, n, k, token, identity, now);
      CacheableStores(steps[k], ttl);
      DistinctGet(caches[n], EntryOf(steps[k], ttl));
    }
    if Hit(caches[n], ttl, token, now) == Some(identity) {
      var e := Pair(token, Get(caches[n], token).value);
      var k := EntriesHaveSources(caches, steps, ttl, n, e);
      WasCached(caches, steps, ttl, n, k, e);
      CacheableStores(steps[k], ttl);
      forall j | k < j < n
        ensures if steps[j].token == token then !Undone(steps, ttl, k, j) else !EvictedAt(caches, j, e)
      {
        CacheableStores(steps[j], ttl);
        Bounded(caches, steps, ttl, j);
        DistinctGet(caches[j], e);
      }
      assert StillAnswers(caches, steps, ttl, n, k, token, identity, now);
    }
  }

  // Eviction

  /** Storing evicts from a full cache only, and a live entry only when all are live, and then the oldest. */
  lemma EvictsOldestAfterLapsed(cache: seq<Entry>, entry: Entry, now: int, gone: Entry)
    requires |cache| <= MAX_CACHE_ENTRIES
    requires gone in cache && gone.key != entry.key && gone !in Stored(cache, entry, now)
    ensures |cache| == MAX_CACHE_ENTRIES
    ensures gone.value.expiresAt > now ==> gone == cache[0] && forall e :: e in cache ==> e.value.expiresAt > now
  {
    AllLive(cache, now);
    var r := Roomy(cache, now);
    assert gone in r ==> gone in Remove(r, entry.key);
    if |Live(cache, now)| == MAX_CACHE_ENTRIES {
      assert cache == [cache[0]] + cache[1..];
    }
  }

  /**
   * Over every run: an entry goes, other than by a step for its own token, only when an answer is stored into a full
   * cache; if it is live, then every entry is, and it is the one stored first of all.
   */
  lemma EvictedInRuns(caches: seq<seq<Entry>>, steps: seq<Step>, ttl: int, n: nat, gone: Entry)
    requires IsRun(caches, steps, ttl) && n < |steps|
    requires gone in caches[n] && gone !in caches[n + 1] && gone.key != steps[n].token
    ensures Stores(steps[n], ttl) && |caches[n]| == MAX_CACHE_ENTRIES
    ensures gone.value.expiresAt > steps[n].mono ==>
      && (forall e :: e in caches[n] ==> e.value.expiresAt > steps[n].mono)
      && (forall e :: e in caches[n] && e != gone ==> StoredBefore(caches, steps, ttl, n, gone, e))
  {
    hide Stored, StoredBefore, Lifetime;
    Bounded(caches, steps, ttl, n);
    OldestFirst(caches, steps, ttl, n);
    var step := steps[n];
    assert caches[n + 1] == Apply(caches[n], ttl, step);
    EvictsOldestAfterLapsed(caches[n], EntryOf(step, ttl), step.mono, gone);
    if gone.value.expiresAt > step.mono {
      forall e | e in caches[n] && e != gone
        ensures StoredBefore(caches, steps, ttl, n, gone, e)
      {
        var j :| 0 <= j < |caches[n]| && caches[n][j] == e;
      }
    }
  }

  // The resolver

  class OpaqueResolver {
    const ttl: int
    var cache: seq<Entry>
    ghost var history: seq<Step>
    ghost var caches: seq<seq<Entry>>

    /** The cache is what the steps so far, all of them, made of the empty one. */
    ghost predicate Valid()
      reads this
    {
      IsRun(caches, history, ttl) && caches[|history|] == cache
    }

    constructor (ttl: int)
      ensures Valid() && history == [] && cache == [] && this.ttl == ttl
    {
      this.ttl, cache, history, caches := ttl, [], [], [[]];
    }

    ghost method Record(step: Step)
      requires IsRun(caches, history, ttl) && cache == Apply(caches[|history|], ttl, step)
      modifies `history, `caches
      ensures Valid() && history == old(history) + [step] && caches == old(caches) + [cache]
    {
      history, caches := history + [step], caches + [cache];
    }

    /** Any steps of other requests. */
    method Others()
      requires Valid()
      modifies this
      ensures Valid() && old(history) <= history
    {
      var steps: seq<Step> := *;
      for i := 0 to |steps|
        invariant Valid() && old(history) <= history
      {
        match steps[i]
        case Lookup(token, now) => var identity := Look(token, now);
        case Inactive(token) => Forget(token);
        case Active(token, answer, wall, mono) => Store(token, answer, wall, mono);
      }
    }

    method Look(token: string, now: int) returns (identity: Option<string>)
      requires Valid()
      modifies this
      ensures Valid() && history == old(history) + [Lookup(token, now)]
      ensures identity == Hit(old(cache), ttl, token, now)
    {
      if ttl > 0 {
        var hit := Get(cache, token);
        if hit.Some? && now < hit.value.expiresAt {
          Record(Lookup(token, now));
          return Some(hit.value.identity);
        }
        RemoveMissing(cache, token);
        if hit.Some? {
          cache := Remove(cache, token);
        }
      }
      Record(Lookup(token, now));
      return None;
    }

    method Forget(token: string)
      requires Valid()
      modifies this
      ensures Valid() && history == old(history) + [Inactive(token)]
    {
      cache := Remove(cache, token);
      Record(Inactive(token));
    }

    /** The two eviction loops. */
    method MakeRoom(now: int)
      modifies `cache
      ensures cache == Roomy(old(cache), now)
    {
      if |cache| < MAX_CACHE_ENTRIES {
        return;
      }
      var all, kept := cache, [];
      for i := 0 to |all|
        invariant kept == Live(all[..i], now)
      {
        assert all[..i + 1][..i] == all[..i];
        if all[i].value.expiresAt > now {
          kept := kept + [all[i]];
        }
      }
      assert all[..|all|] == all;
      cache := kept;
      DropOldest();
    }

    method DropOldest()
      modifies `cache
      ensures cache ==
        if |old(cache)| < MAX_CACHE_ENTRIES then old(cache) else old(cache)[|old(cache)| - MAX_CACHE_ENTRIES + 1..]
    {
      ghost var all := cache;
      while |cache| >= MAX_CACHE_ENTRIES
        invariant |cache| <= |all| && cache == all[|all| - |cache|..]
        invariant |all| >= MAX_CACHE_ENTRIES ==> |cache| >= MAX_CACHE_ENTRIES - 1
        invariant |all| < MAX_CACHE_ENTRIES ==> cache == all
        decreases |cache|
      {
        cache := cache[1..];
      }
    }

    /** `#store`, when there is a cache at all. */
    method Store(token: string, answer: Answer, wall: int, now: int)
      requires Valid()
      modifies this
      ensures Valid() && history == old(history) + [Active(token, answer, wall, now)]
    {
      hide Roomy, Remove;
      var lifetime := Lifetime(answer, ttl, wall);
      if ttl > 0 && lifetime > 0 {
        MakeRoom(now);
        cache := Remove(cache, token);
        cache := cache + [Pair(token, Held(answer.identity, now + lifetime))];
      }
      Record(Active(token, answer, wall, now));
    }

    /**
     * `resolve`. `answer` is what introspection says, `None` for an inactive token, after `url` was found. The call
     * looks up once, and on a miss ends with what introspection said. A hit repeats an introspection made earlier in
     * the run.
     */
    method Resolve(token: Option<string>, now: int, url: bool, answer: Option<Answer>, wall: int, storeNow: int)
      returns (identity: Option<string>)
      requires Valid()
      modifies this
      ensures Valid()
      ensures token.None? || token.value == "" ==> identity == None && history == old(history)
      ensures token.Some? && token.value != "" ==>
        var hit := Hit(old(cache), ttl, token.value, now);
        && old(history) + [Lookup(token.value, now)] <= history
        && (hit.Some? ==>
              && identity == hit && history == old(history) + [Lookup(token.value, now)]
              && exists k: nat ::
                   MayRepeat(old(caches), old(history), ttl, |old(history)|, k, token.value, identity.value, now))
        && (hit.None? && !url ==> identity == None)
        && (hit.None? && url ==>
              && |history| > |old(history)| + 1
              && identity == (if answer.Some? then Some(answer.value.identity) else None)
              && history[|history| - 1] ==
                   if answer.Some? then Active(token.value, answer.value, wall, storeNow) else Inactive(token.value))
      ensures ttl <= 0 && token.Some? && token.value != "" && url ==>
        identity == if answer.Some? then Some(answer.value.identity) else None
    {
      hide MayRepeat, IsRun, Apply;
      if token.None? || token.value == "" {
        return None;
      }
      identity := Look(token.value, now);
      if identity.Some? {
        HitsRepeatActiveAnswers(old(caches), old(history), ttl, |old(history)|, token.value, now);
        return;
      }
      Others();
      if !url {
        return None;
      }
      Others();
      if answer.None? {
        Forget(token.value);
        return None;
      }
      Store(token.value, answer.value, wall, storeNow);
      return Some(answer.value.identity);
    }
  }

  lemma {:induction false} RemoveMissing(cache: seq<Entry>, token: string)
    ensures Get(cache, token).None? ==> Remove(cache, token) == cache
  {
    if cache != [] {
      RemoveMissing(cache[1..], token);
    }
  }
}
