/**
 * Open-mode discovery of an agent's keys: a bounded cache, in insertion order, of the promises of past fetches. A fetch
 * is known by its number in the order of starting. Times are epoch milliseconds.
 */
module AgentDiscovery {
  import opened OrderedMap
  import opened Wrappers

  const DISCOVERY_TTL_MS := 3_600_000
  const DISCOVERY_FAILURE_TTL_MS := 60_000
  const MAX_CACHED_ISSUERS := 1000

  /** The promise of a fetch, and until when it is handed out. */
  datatype Promised = Promised(fetch: nat, expiresAt: int)

  /** An issuer and its promise. */
  type Entry = Pair<Promised>

  datatype Fetch = Fetch(issuer: string, at: int)

  /** `outcomes`: the fetches that have ended, with the `jwks_uri` or `None`. */
  datatype State = State(cache: seq<Entry>, started: seq<Fetch>, outcomes: map<nat, Option<string>>)

  const EMPTY := State([], [], map[])

  /** `setBounded`. */
  function SetBounded(cache: seq<Entry>, entry: Entry): seq<Entry> {
    var grown := Remove(cache, entry.key) + [entry];
    if |grown| > MAX_CACHED_ISSUERS then grown[1..] else grown
  }

  datatype Step = Discover(issuer: string, now: int) | Ended(fetch: nat, uri: Option<string>)

  /** A valid entry answers; otherwise a fetch starts. */
  predicate Starts(s: State, issuer: string, now: int) {
    var cached := Get(s.cache, issuer);
    cached.None? || cached.value.expiresAt <= now
  }

  /** The fetch a call of `#discover` waits for. */
  function SharedFetch(s: State, issuer: string, now: int): nat {
    if Starts(s, issuer, now) then |s.started| else Get(s.cache, issuer).value.fetch
  }

  /** A failure shortens the entry of that fetch, if it is still there. */
  function Shortened(cache: seq<Entry>, fetch: nat, expiresAt: int): (r: seq<Entry>)
    ensures |r| == |cache|
    ensures forall i :: 0 <= i < |cache| ==>
      r[i] == if cache[i].value.fetch == fetch then cache[i].(value := cache[i].value.(expiresAt := expiresAt))
        else cache[i]
  {
    seq(|cache|, i requires 0 <= i < |cache| =>
      if cache[i].value.fetch == fetch then cache[i].(value := cache[i].value.(expiresAt := expiresAt)) else cache[i])
  }

  predicate Enabled(s: State, step: Step) {
    step.Ended? ==> step.fetch < |s.started| && step.fetch !in s.outcomes
  }

  function Apply(s: State, step: Step): State
    requires Enabled(s, step)
  {
    match step
    case Discover(issuer, now) =>
      if !Starts(s, issuer, now) then s
      else
        s.(cache := SetBounded(s.cache, Pair(issuer, Promised(|s.started|, now + DISCOVERY_TTL_MS))),
           started := s.started + [Fetch(issuer, now)])
    case Ended(fetch, uri) =>
      s.(outcomes := s.outcomes[fetch := uri],
         cache := if uri.None? then Shortened(s.cache, fetch, s.started[fetch].at + DISCOVERY_FAILURE_TTL_MS)
           else s.cache)
  }

  ghost predicate IsRun(ss: seq<State>, steps: seq<Step>) {
    && |ss| == |steps| + 1 && ss[0] == EMPTY
    && forall j :: 0 <= j < |steps| ==> Enabled(ss[j], steps[j]) && ss[j + 1] == Apply(ss[j], steps[j])
  }

  // What every state keeps

  function TtlOf(s: State, fetch: nat): int {
    if fetch in s.outcomes && s.outcomes[fetch].None? then DISCOVERY_FAILURE_TTL_MS else DISCOVERY_TTL_MS
  }

  /** The entry of a fetch, valid for as long as its outcome deserves. */
  predicate EntryOK(s: State, e: Entry) {
    e.value.fetch < |s.started| && s.started[e.value.fetch].issuer == e.key
    && e.value.expiresAt == s.started[e.value.fetch].at + TtlOf(s, e.value.fetch)
  }

  /** Oldest fetch first, one entry an issuer. */
  predicate OldestFirst(cache: seq<Entry>) {
    forall i, j :: 0 <= i < j < |cache| ==> cache[i].value.fetch < cache[j].value.fetch && cache[i].key != cache[j].key
  }

  predicate Cached(cache: seq<Entry>, fetch: nat) {
    exists i :: 0 <= i < |cache| && cache[i].value.fetch == fetch
  }

  ghost predicate Replaced(s: State, fetch: nat)
    requires fetch < |s.started|
  {
    exists g :: fetch < g < |s.started| && s.started[g].issuer == s.started[fetch].issuer
  }

  /** A fetch is in the cache until its issuer is fetched again or a thousand fetches have started after it. */
  ghost predicate Kept(s: State) {
    forall f: nat :: f < |s.started| ==> Cached(s.cache, f) || Replaced(s, f) || |s.started| - f > MAX_CACHED_ISSUERS
  }

  ghost predicate Inv(s: State) {
    && |s.cache| <= MAX_CACHED_ISSUERS && OldestFirst(s.cache)
    && (forall e :: e in s.cache ==> EntryOK(s, e))
    && (forall f :: f in s.outcomes ==> f < |s.started|)
    && Kept(s)
  }

  lemma RemoveOldestFirst(cache: seq<Entry>, issuer: string)
    requires OldestFirst(cache)
    ensures OldestFirst(Remove(cache, issuer))
  {
    RemoveKeepsOrder(cache, issuer, (p: Entry, q: Entry) => p.value.fetch < q.value.fetch && p.key != q.key);
  }

  /** In an ascending list the first and the last number are at least the length apart. */
  lemma {:induction false} Spread(cache: seq<Entry>, i: nat)
    requires OldestFirst(cache) && i < |cache|
    ensures cache[0].value.fetch + i <= cache[i].value.fetch
  {
    if i > 0 {
      Spread(cache, i - 1);
    }
  }

  lemma AppendOldestFirst(cache: seq<Entry>, entry: Entry)
    requires OldestFirst(cache) && forall e :: e in cache ==> e.value.fetch < entry.value.fetch && e.key != entry.key
    ensures OldestFirst(cache + [entry])
  {
    assert forall i :: 0 <= i < |cache| ==> cache[i] in cache;
  }

  lemma TailOldestFirst(cache: seq<Entry>)
    requires OldestFirst(cache) && cache != []
    ensures OldestFirst(cache[1..])
    ensures forall e :: e in cache ==> e == cache[0] || e in cache[1..]
  {
    assert cache == [cache[0]] + cache[1..];
  }

  /** Adding a later entry keeps the order and the ceiling, and drops at most the oldest entry, of a full cache. */
  lemma SetBoundedKeeps(cache: seq<Entry>, entry: Entry)
    requires |cache| <= MAX_CACHED_ISSUERS && OldestFirst(cache)
    requires forall e :: e in cache ==> e.value.fetch < entry.value.fetch
    ensures
      var r := SetBounded(cache, entry);
      && |r| <= MAX_CACHED_ISSUERS && OldestFirst(r) && entry in r && (forall e :: e in r ==> e == entry || e in cache)
      && forall e :: e in cache && e.key != entry.key ==>
        e in r || entry.value.fetch - e.value.fetch >= MAX_CACHED_ISSUERS
  {
    hide OldestFirst;
    var rest := Remove(cache, entry.key);
    RemoveOldestFirst(cache, entry.key);
    AppendOldestFirst(rest, entry);
    var grown := rest + [entry];
    if |grown| > MAX_CACHED_ISSUERS {
      Spread(grown, MAX_CACHED_ISSUERS);
      TailOldestFirst(grown);
    }
  }

  lemma EntriesBelow(s: State)
    requires Inv(s)
    ensures |s.cache| <= MAX_CACHED_ISSUERS && OldestFirst(s.cache)
    ensures forall e :: e in s.cache ==> EntryOK(s, e) && e.value.fetch < |s.started|
    ensures |s.started| !in s.outcomes
  {
  }

  lemma CachedEntry(s: State, f: nat) returns (e: Entry)
    requires Inv(s) && Cached(s.cache, f)
    ensures e in s.cache && e.value.fetch == f && EntryOK(s, e)
  {
    var i :| 0 <= i < |s.cache| && s.cache[i].value.fetch == f;
    e := s.cache[i];
  }

  lemma EntryCached(cache: seq<Entry>, e: Entry)
    requires e in cache
    ensures Cached(cache, e.value.fetch)
  {
    var i :| 0 <= i < |cache| && cache[i] == e;
  }

  lemma StartKeepsAll(s: State, issuer: string, now: int, f: nat)
    requires Inv(s) && Starts(s, issuer, now) && f <= |s.started|
    ensures
      var s' := Apply(s, Discover(issuer, now));
      Cached(s'.cache, f) || Replaced(s', f) || |s'.started| - f > MAX_CACHED_ISSUERS
  {
    hide OldestFirst, SetBounded, Starts, Cached, EntryOK;
    var s' := Apply(s, Discover(issuer, now));
    var entry := Pair(issuer, Promised(|s.started|, now + DISCOVERY_TTL_MS));
    EntriesBelow(s);
    SetBoundedKeeps(s.cache, entry);
    EntryCached(s'.cache, entry);
    if f < |s.started| {
      if Replaced(s, f) {
        var g :| f < g < |s.started| && s.started[g].issuer == s.started[f].issuer;
        assert s'.started[g].issuer == s'.started[f].issuer;
      } else if Cached(s.cache, f) {
        var e := CachedEntry(s, f);
        IssuerOf(s, e);
        if e.key == issuer {
          assert s'.started[|s.started|].issuer == s'.started[f].issuer;
        } else if e in s'.cache {
          EntryCached(s'.cache, e);
        }
      }
    }
  }

  lemma IssuerOf(s: State, e: Entry)
    requires EntryOK(s, e)
    ensures e.value.fetch < |s.started| && s.started[e.value.fetch].issuer == e.key
  {
  }

  lemma StartKeeps(s: State, issuer: string, now: int)
    requires Inv(s) && Starts(s, issuer, now)
    ensures Inv(Apply(s, Discover(issuer, now)))
  {
    hide OldestFirst, SetBounded, Starts, Cached, Replaced;
    var s' := Apply(s, Discover(issuer, now));
    EntriesBelow(s);
    SetBoundedKeeps(s.cache, Pair(issuer, Promised(|s.started|, now + DISCOVERY_TTL_MS)));
    forall f: nat | f < |s'.started|
      ensures Cached(s'.cache, f) || Replaced(s', f) || |s'.started| - f > MAX_CACHED_ISSUERS
    {
      StartKeepsAll(s, issuer, now, f);
    }
  }

  lemma EndKeeps(s: State, fetch: nat, uri: Option<string>)
    requires Inv(s) && Enabled(s, Ended(fetch, uri))
    ensures Inv(Apply(s, Ended(fetch, uri)))
  {
    var s' := Apply(s, Ended(fetch, uri));
    forall i | 0 <= i < |s'.cache|
      ensures EntryOK(s', s'.cache[i])
    {
      assert EntryOK(s, s.cache[i]);
    }
    forall f: nat | f < |s.started|
      ensures Cached(s'.cache, f) || Replaced(s', f) || |s'.started| - f > MAX_CACHED_ISSUERS
    {
      if Cached(s.cache, f) {
        var i :| 0 <= i < |s.cache| && s.cache[i].value.fetch == f;
        assert s'.cache[i].value.fetch == f;
      }
      assert Replaced(s, f) ==> Replaced(s', f);
    }
  }

  lemma {:induction false} RunInv(ss: seq<State>, steps: seq<Step>, n: nat)
    requires IsRun(ss, steps) && n < |ss|
    ensures Inv(ss[n])
  {
    hide Inv, Starts;
    if n == 0 {
      assert Inv(EMPTY) by { EmptyInv(); }
    } else {
      RunInv(ss, steps, n - 1);
      var s, step := ss[n - 1], steps[n - 1];
      assert Enabled(s, step) && ss[n - 1 + 1] == Apply(s, step);
      match step
      case Discover(issuer, now) => if Starts(s, issuer, now) { StartKeeps(s, issuer, now); }
      case Ended(fetch, uri) => EndKeeps(s, fetch, uri);
    }
  }

  lemma EmptyInv()
    ensures Inv(EMPTY)
  {
  }

  // The theorems

  /** Never more than a thousand entries, one an issuer, oldest fetch first: the one that goes on overflow. */
  lemma Bounded(ss: seq<State>, steps: seq<Step>, n: nat)
    requires IsRun(ss, steps) && n < |ss|
    ensures |ss[n].cache| <= MAX_CACHED_ISSUERS && OldestFirst(ss[n].cache)
  {
    RunInv(ss, steps, n);
  }

  /** The fetch of an issuer whose entry has not been evicted. */
  ghost predicate IsCurrent(s: State, issuer: string, fetch: nat) {
    Cached(s.cache, fetch) && fetch < |s.started| && s.started[fetch].issuer == issuer
  }

  lemma CurrentEntry(s: State, issuer: string, fetch: nat)
    requires Inv(s) && IsCurrent(s, issuer, fetch)
    ensures Get(s.cache, issuer).Some?
    ensures Get(s.cache, issuer).value.fetch == fetch && EntryOK(s, Pair(issuer, Get(s.cache, issuer).value))
  {
    var i :| 0 <= i < |s.cache| && s.cache[i].value.fetch == fetch;
    assert s.cache[i] in s.cache && EntryOK(s, s.cache[i]);
    var e := Pair(issuer, Get(s.cache, issuer).value);
    var j :| 0 <= j < |s.cache| && s.cache[j] == e;
  }

  /**
   * Over every run: as long as the entry of an issuer's fetch is not evicted, every caller shares that fetch precisely
   * until its validity ends, an hour after it started or a minute if it has failed by then; only then does a new one
   * start.
   */
  lemma OneFetchAtATime(ss: seq<State>, steps: seq<Step>, n: nat, issuer: string, now: int, fetch: nat)
    requires IsRun(ss, steps) && n < |ss| && IsCurrent(ss[n], issuer, fetch)
    ensures
      var validFor := if fetch in ss[n].outcomes && ss[n].outcomes[fetch].None? then 60_000 else 3_600_000;
      SharedFetch(ss[n], issuer, now) == fetch <==> now < ss[n].started[fetch].at + validFor
    ensures Starts(ss[n], issuer, now) ==>
      && now >= ss[n].started[fetch].at + 60_000
      && (fetch in ss[n].outcomes && ss[n].outcomes[fetch].Some? ==> now >= ss[n].started[fetch].at + 3_600_000)
  {
    RunInv(ss, steps, n);
    CurrentEntry(ss[n], issuer, fetch);
  }

  /** The last fetch of an issuer is not evicted before a thousand others have started after it. */
  lemma NotEvictedEarly(ss: seq<State>, steps: seq<Step>, n: nat, issuer: string, fetch: nat)
    requires IsRun(ss, steps) && n < |ss| && fetch < |ss[n].started| && ss[n].started[fetch].issuer == issuer
    requires !Replaced(ss[n], fetch) && |ss[n].started| - fetch <= MAX_CACHED_ISSUERS
    ensures IsCurrent(ss[n], issuer, fetch)
  {
    RunInv(ss, steps, n);
  }

  /**
   * An entry leaves the cache only when its own issuer is fetched again, or as the oldest of a full cache when another
   * issuer's fetch starts.
   */
  lemma EvictedOnlyWhenOldest(s: State, step: Step, fetch: nat)
    requires Inv(s) && Enabled(s, step) && Cached(s.cache, fetch) && !Cached(Apply(s, step).cache, fetch)
    ensures step.Discover? && Starts(s, step.issuer, step.now) && fetch < |s.started|
    ensures s.started[fetch].issuer != step.issuer ==>
      |s.cache| == MAX_CACHED_ISSUERS && s.cache[0].value.fetch == fetch && Get(s.cache, step.issuer).None?
  {
    hide Starts;
    var e := CachedEntry(s, fetch);
    EntriesBelow(s);
    EndingKeeps(s, step, fetch);
    if Starts(s, step.issuer, step.now) && e.key != step.issuer {
      DroppedIsOldest(s.cache, Pair(step.issuer, Promised(|s.started|, step.now + DISCOVERY_TTL_MS)), e);
    }
  }

  lemma ShortenedKeeps(cache: seq<Entry>, ended: nat, expiresAt: int, fetch: nat)
    requires Cached(cache, fetch)
    ensures Cached(Shortened(cache, ended, expiresAt), fetch)
  {
    var i :| 0 <= i < |cache| && cache[i].value.fetch == fetch;
    assert Shortened(cache, ended, expiresAt)[i].value.fetch == fetch;
  }

  lemma EndingKeeps(s: State, step: Step, fetch: nat)
    requires Enabled(s, step) && Cached(s.cache, fetch)
    ensures step.Ended? ==> Cached(Apply(s, step).cache, fetch)
  {
    if step.Ended? { ShortenedKeeps(s.cache, step.fetch, s.started[step.fetch].at + DISCOVERY_FAILURE_TTL_MS, fetch); }
  }

  lemma DroppedIsOldest(cache: seq<Entry>, entry: Entry, e: Entry)
    requires |cache| <= MAX_CACHED_ISSUERS && e in cache && e.key != entry.key
    requires !Cached(SetBounded(cache, entry), e.value.fetch)
    ensures |cache| == MAX_CACHED_ISSUERS && cache[0] == e && Get(cache, entry.key).None?
  {
    hide Cached;
    var rest := Remove(cache, entry.key);
    RemoveShortens(cache, entry.key);
    NotAmong(SetBounded(cache, entry), e);
    FirstOrLater(rest, entry, e);
  }

  lemma NotAmong(cache: seq<Entry>, e: Entry)
    requires !Cached(cache, e.value.fetch)
    ensures e !in cache
  {
    if e in cache { EntryCached(cache, e); }
  }

  lemma FirstOrLater(rest: seq<Entry>, entry: Entry, e: Entry)
    requires e in rest
    ensures e in rest + [entry] && (e !in (rest + [entry])[1..] ==> e == rest[0])
  {
    var i :| 0 <= i < |rest| && rest[i] == e;
    assert i > 0 ==> (rest + [entry])[1..][i - 1] == e;
  }

  /** Removing a key that is there leaves less; removing another leaves everything. */
  lemma {:induction false} RemoveShortens(cache: seq<Entry>, issuer: string)
    ensures if Get(cache, issuer).Some? then |Remove(cache, issuer)| < |cache| else Remove(cache, issuer) == cache
  {
    if cache != [] && cache[0].key != issuer {
      RemoveShortens(cache[1..], issuer);
    }
  }

  // The map

  class Verifier {
    var discovered: seq<Entry>
    var fetches: nat

    constructor ()
      ensures discovered == [] && fetches == 0
    {
      discovered, fetches := [], 0;
    }

    /** `#discover`: the number of the fetch whose promise is returned. */
    method Discover(issuer: string, now: int, ghost s: State) returns (fetch: nat)
      requires discovered == s.cache && fetches == |s.started|
      modifies this
      ensures fetch == SharedFetch(s, issuer, now)
      ensures discovered == Apply(s, Step.Discover(issuer, now)).cache
      ensures fetches == |Apply(s, Step.Discover(issuer, now)).started|
    {
      var cached := Get(discovered, issuer);
      if cached.Some? && cached.value.expiresAt > now {
        return cached.value.fetch;
      }
      fetch := fetches;
      fetches := fetches + 1;
      Put(Pair(issuer, Promised(fetch, now + DISCOVERY_TTL_MS)));
    }

    method Put(entry: Entry)
      modifies `discovered
      ensures discovered == SetBounded(old(discovered), entry)
    {
      discovered := Remove(discovered, entry.key);
      discovered := discovered + [entry];
      if |discovered| > MAX_CACHED_ISSUERS {
        discovered := discovered[1..];
      }
    }

    /** The `then` of a fetch: only a failure changes its entry. */
    method FetchEnded(fetch: nat, startedAt: int, uri: Option<string>)
      modifies `discovered
      ensures discovered == if uri.None? then Shortened(old(discovered), fetch, startedAt + DISCOVERY_FAILURE_TTL_MS)
        else old(discovered)
    {
      if uri.None? {
        discovered := Shortened(discovered, fetch, startedAt + DISCOVERY_FAILURE_TTL_MS);
      }
    }
  }
}
