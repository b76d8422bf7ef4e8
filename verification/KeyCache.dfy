/**
  * The signing-key cache of the Access verifier: a clocked cache with a TTL, a minimum spacing between fetches,
  * a single flight and a stale grace. Any interleaving of lookups, settling fetches and resuming callers over a
  * clock that never goes back is a run.
  */
module KeyCache {
  import opened Wrappers

  datatype JsonWebKey = JsonWebKey(n: string, e: string)

  /** A fetched key set; a set without usable keys is a failed fetch. */
  type KeySet = m: map<string, JsonWebKey> | |m| > 0 witness map["k" := JsonWebKey("", "")]

  datatype Limits = Limits(ttlMs: int, minRefetchMs: int, staleGraceMs: int)

  datatype Answer = Key(jwk: JsonWebKey) | UnknownKey | Unavailable

  /** What the synchronous start of a lookup led to: an answer, a fetch to wait for, or a refused refetch. */
  datatype Begun = Answered(answer: Answer) | Joined | Refused

  /** The fields of the verifier; None stands for "never". */
  datatype Cache = Cache(keys: map<string, JsonWebKey>, fetchedAt: Option<int>, attemptedAt: Option<int>,
                         inFlight: bool)

  const EMPTY := Cache(map[], None, None, false)

  predicate Younger(since: Option<int>, now: int, span: int) { since.Some? && now - since.value < span }

  function Fallback(c: Cache, limits: Limits, kid: string, now: int): Answer {
    if kid !in c.keys then
      if c.keys != map[] && Younger(c.fetchedAt, now, limits.ttlMs) then UnknownKey else Unavailable
    else if c.fetchedAt.None? || now - c.fetchedAt.value > limits.staleGraceMs then Unavailable
    else Key(c.keys[kid])
  }

  /** Whether the refresh of a lookup that reads the clock again at `again` starts a fetch. */
  predicate StartsFetch(c: Cache, limits: Limits, again: int) {
    !c.inFlight && !Younger(c.attemptedAt, again, limits.minRefetchMs)
  }

  function Begin(c: Cache, limits: Limits, kid: string, now: int, again: int): (Cache, Begun) {
    if kid in c.keys && Younger(c.fetchedAt, now, limits.ttlMs) then (c, Answered(Key(c.keys[kid])))
    else if c.keys != map[] && Younger(c.attemptedAt, now, limits.minRefetchMs) then
      (c, Answered(Fallback(c, limits, kid, now)))
    else if c.inFlight then (c, Joined)
    else if StartsFetch(c, limits, again) then (c.(attemptedAt := Some(again), inFlight := true), Joined)
    else (c, Refused)
  }

  function Settle(c: Cache, fetched: Option<KeySet>, now: int): Cache {
    if fetched.Some? then c.(keys := fetched.value, fetchedAt := Some(now)) else c
  }

  /** The answer to a lookup that waited. */
  function Resume(c: Cache, limits: Limits, kid: string, fetched: Option<KeySet>, now: int): Answer {
    if fetched.Some? then if kid in fetched.value then Key(fetched.value[kid]) else UnknownKey
    else Fallback(c, limits, kid, now)
  }

  class AccessJwtVerifier {
    const limits: Limits
    var keys: map<string, JsonWebKey>
    var fetchedAt: Option<int>
    var attemptedAt: Option<int>
    var fetchInFlight: bool

    constructor (l: Limits)
      ensures limits == l && View() == EMPTY
    {
      limits := l;
      keys, fetchedAt, attemptedAt, fetchInFlight := map[], None, None, false;
    }

    function View(): Cache
      reads this
    {
      Cache(keys, fetchedAt, attemptedAt, fetchInFlight)
    }

    /** `fallback`. */
    method FallbackFor(kid: string, now: int) returns (answer: Answer)
      ensures answer == Fallback(View(), limits, kid, now)
    {
      if kid !in keys {
        if keys != map[] && fetchedAt.Some? && now - fetchedAt.value < limits.ttlMs {
          return UnknownKey;
        }
        return Unavailable;
      }
      if fetchedAt.None? || now - fetchedAt.value > limits.staleGraceMs {
        return Unavailable;
      }
      answer := Key(keys[kid]);
    }

    /** The synchronous part of `refreshKeys`. */
    method RefreshKeys(again: int) returns (joined: bool)
      modifies this
      ensures joined <==> old(fetchInFlight) || StartsFetch(old(View()), limits, again)
      ensures View() == if StartsFetch(old(View()), limits, again)
                        then old(View()).(attemptedAt := Some(again), inFlight := true) else old(View())
    {
      if fetchInFlight {
        return true;
      }
      if attemptedAt.Some? && again - attemptedAt.value < limits.minRefetchMs {
        return false;
      }
      attemptedAt := Some(again);
      fetchInFlight := true;
      joined := true;
    }

    /** The synchronous part of `keyFor`. */
    method KeyFor(kid: string, now: int, again: int) returns (begun: Begun)
      modifies this
      ensures (View(), begun) == Begin(old(View()), limits, kid, now, again)
    {
      if kid in keys && fetchedAt.Some? && now - fetchedAt.value < limits.ttlMs {
        return Answered(Key(keys[kid]));
      }
      if keys != map[] && attemptedAt.Some? && now - attemptedAt.value < limits.minRefetchMs {
        var answer := FallbackFor(kid, now);
        return Answered(answer);
      }
      var joined := RefreshKeys(again);
      begun := if joined then Joined else Refused;
    }

    /** A fetch that brought keys; one that failed touches nothing. */
    method FetchSettled(fetched: Option<KeySet>, now: int)
      modifies this
      ensures View() == Settle(old(View()), fetched, now)
    {
      if fetched.Some? {
        keys := fetched.value;
        fetchedAt := Some(now);
      }
    }

    method ClearInFlight()
      modifies this
      ensures View() == old(View()).(inFlight := false)
    {
      fetchInFlight := false;
    }
  }

  // ---- runs ----

  /** A fetch: when it started, what came of it and when, and when it stopped counting as in flight. */
  datatype Fetch = Fetch(startedAt: int, settledAt: Option<int>, keys: Option<KeySet>, clearedAt: Option<int>)

  /** A lookup that waits for a fetch; None when its refetch was refused. */
  datatype Waiter = Waiter(kid: string, began: int, fetch: Option<nat>)

  /** An answer given at `at` to a lookup that began at `began`. */
  datatype Given = Given(kid: string, began: int, at: int, answer: Answer)

  datatype World = World(cache: Cache, now: int, fetches: seq<Fetch>, waiting: map<nat, Waiter>, given: seq<Given>)

  datatype Event =
    | Looks(id: nat, kid: string, now: int, again: int)
    | Settles(now: int, fetched: Option<KeySet>)
    | Clears(now: int)
    | Resumes(id: nat, now: int)

  predicate Unsettled(w: World) { w.fetches != [] && w.fetches[|w.fetches| - 1].settledAt.None? }

  /** Events that can happen; the others change nothing. */
  predicate CanHappen(w: World, e: Event) {
    match e
    case Looks(id, _, now, again) => id !in w.waiting && w.now <= now <= again
    case Settles(now, _) => Unsettled(w) && w.now <= now
    case Clears(now) => w.cache.inFlight && w.fetches != [] && !Unsettled(w) && w.now <= now
    case Resumes(id, now) =>
      && id in w.waiting && w.now <= now
      && (var f := w.waiting[id].fetch; f.Some? ==> f.value < |w.fetches| && w.fetches[f.value].clearedAt.Some?)
  }

  function Look(w: World, limits: Limits, id: nat, kid: string, now: int, again: int): World {
    var (cache, begun) := Begin(w.cache, limits, kid, now, again);
    var fetches := if cache.inFlight && !w.cache.inFlight then w.fetches + [Fetch(again, None, None, None)]
                   else w.fetches;
    match begun
    case Answered(answer) => w.(cache := cache, now := now, given := w.given + [Given(kid, now, now, answer)])
    case Refused => w.(cache := cache, now := again, waiting := w.waiting[id := Waiter(kid, now, None)])
    case Joined =>
      w.(cache := cache, now := again, fetches := fetches,
      waiting := if fetches == [] then w.waiting else w.waiting[id := Waiter(kid, now, Some(|fetches| - 1))])
  }

  function Step(w: World, limits: Limits, e: Event): World {
    if !CanHappen(w, e) then w
    else
      var last := |w.fetches| - 1;
      match e
      case Looks(id, kid, now, again) => Look(w, limits, id, kid, now, again)
      case Settles(now, fetched) =>
        w.(cache := Settle(w.cache, fetched, now), now := now,
        fetches := w.fetches[last := w.fetches[last].(settledAt := Some(now), keys := fetched)])
      case Clears(now) =>
        w.(cache := w.cache.(inFlight := false), now := now,
        fetches := w.fetches[last := w.fetches[last].(clearedAt := Some(now))])
      case Resumes(id, now) =>
        var waiter := w.waiting[id];
        var fetched := if waiter.fetch.Some? then w.fetches[waiter.fetch.value].keys else None;
        w.(now := now, waiting := w.waiting - {id},
        given := w.given + [Given(waiter.kid, waiter.began, now, Resume(w.cache, limits, waiter.kid, fetched, now))])
  }

  function RunOf(limits: Limits, start: int, events: seq<Event>): World {
    if events == [] then World(EMPTY, start, [], map[], [])
    else Step(RunOf(limits, start, events[..|events| - 1]), limits, events[|events| - 1])
  }

  // ---- what every run keeps ----

  /** Fetches start in order, at least the minimum spacing apart, each after the one before was cleared. */
  predicate Spaced(fetches: seq<Fetch>, limits: Limits) {
    forall i, j :: 0 <= i < j < |fetches| ==>
                     && fetches[j].startedAt - fetches[i].startedAt >= limits.minRefetchMs
                     && fetches[i].startedAt <= fetches[j].startedAt
                     && fetches[i].clearedAt.Some? && fetches[i].clearedAt.value <= fetches[j].startedAt
  }

  predicate WellTimed(f: Fetch, now: int) {
    && f.startedAt <= now
    && (f.settledAt.Some? ==> f.startedAt <= f.settledAt.value <= now)
    && (f.clearedAt.Some? ==> f.settledAt.Some? && f.settledAt.value <= f.clearedAt.value <= now)
    && (f.keys.Some? ==> f.settledAt.Some?)
  }

  /** At most the last fetch is in flight. */
  predicate SingleFlight(w: World) {
    && (w.cache.inFlight <==> w.fetches != [] && w.fetches[|w.fetches| - 1].clearedAt.None?)
    && w.cache.attemptedAt == if w.fetches == [] then None else Some(w.fetches[|w.fetches| - 1].startedAt)
  }

  /** The last fetch that brought keys. */
  function LastGood(fetches: seq<Fetch>): (r: Option<Fetch>)
    ensures r.Some? ==> r.value in fetches && r.value.keys.Some?
  {
    if fetches == [] then None
    else
      var last := |fetches| - 1;
      if fetches[last].keys.Some? then Some(fetches[last]) else LastGood(fetches[..last])
  }

  /** The cached keys are those of the last fetch that brought any: a failed fetch changes nothing. */
  predicate KeysConfirmed(w: World) {
    match LastGood(w.fetches)
    case None => w.cache.keys == map[] && w.cache.fetchedAt == None
    case Some(f) => w.cache.keys == f.keys.value && w.cache.fetchedAt == f.settledAt
  }

  /** The fetch still counted as in flight when the lookup began. */
  predicate JustFetched(f: Fetch, began: int) { f.clearedAt.None? || f.clearedAt.value >= began }

  function Longest(limits: Limits): int {
    if limits.ttlMs > limits.staleGraceMs then limits.ttlMs else limits.staleGraceMs
  }

  /** The fetch had brought the key when it was given. */
  predicate Brings(f: Fetch, g: Given) {
    && g.answer.Key? && f.keys.Some? && f.settledAt.Some? && f.settledAt.value <= g.at
    && g.kid in f.keys.value && f.keys.value[g.kid] == g.answer.jwk
  }

  predicate Lacks(f: Fetch, g: Given) {
    f.keys.Some? && f.settledAt.Some? && f.settledAt.value <= g.at && g.kid !in f.keys.value
  }

  predicate KeyFrom(f: Fetch, limits: Limits, g: Given) {
    && Brings(f, g)
    && (g.at - f.settledAt.value <= Longest(limits) || JustFetched(f, g.began))
  }

  predicate UnknownFrom(f: Fetch, limits: Limits, g: Given) {
    && Lacks(f, g)
    && (g.at - f.settledAt.value < limits.ttlMs || JustFetched(f, g.began))
  }

  function Shortest(limits: Limits): int {
    if limits.ttlMs < limits.staleGraceMs then limits.ttlMs else limits.staleGraceMs
  }

  /** No set fetched before the answer was younger than both limits. */
  predicate NothingFresh(fetches: seq<Fetch>, limits: Limits, g: Given) {
    forall f | f in fetches ::
      f.keys.Some? && f.settledAt.Some? && f.settledAt.value < g.at ==> g.at - f.settledAt.value >= Shortest(limits)
  }

  /** The fetch had brought keys by then. */
  predicate GoodBy(f: Fetch, at: int) { f.keys.Some? && f.settledAt.Some? && f.settledAt.value <= at }

  /**
    * Unless a later set replaced it, a set fetched before the answer is past the stale grace if it holds the key, and
    * past the TTL if it does not.
    */
  predicate LatestTooOld(fetches: seq<Fetch>, limits: Limits, g: Given) {
    forall i | 0 <= i < |fetches| && GoodBy(fetches[i], g.at) && fetches[i].settledAt.value < g.at ::
      || (exists j | i < j < |fetches| :: GoodBy(fetches[j], g.at))
      || TooOld(fetches[i], limits, g)
  }

  predicate TooOld(f: Fetch, limits: Limits, g: Given)
    requires GoodBy(f, g.at)
  {
    if g.kid in f.keys.value then g.at - f.settledAt.value > limits.staleGraceMs
    else g.at - f.settledAt.value >= limits.ttlMs
  }

  /**
    * Each key comes from a fetched set that is young enough, and so does each "unknown key"; "unavailable" is only
    * answered when no fetched set is fresh.
    */
  predicate Sound(fetches: seq<Fetch>, limits: Limits, g: Given) {
    match g.answer
    case Key(_) => exists f | f in fetches :: KeyFrom(f, limits, g)
    case UnknownKey => exists f | f in fetches :: UnknownFrom(f, limits, g)
    case Unavailable => NothingFresh(fetches, limits, g) && LatestTooOld(fetches, limits, g)
  }

  predicate WaiterKept(w: World, waiter: Waiter) {
    && waiter.began <= w.now
    && (waiter.fetch.Some? ==> waiter.fetch.value < |w.fetches|
                               && JustFetched(w.fetches[waiter.fetch.value], waiter.began))
  }

  predicate FetchesKept(w: World, limits: Limits) {
    Spaced(w.fetches, limits) && SingleFlight(w) && KeysConfirmed(w) && forall f | f in w.fetches :: WellTimed(f, w.now)
  }

  predicate Kept(w: World, limits: Limits) {
    && FetchesKept(w, limits)
    && (forall id | id in w.waiting :: WaiterKept(w, w.waiting[id]))
    && (forall g | g in w.given :: g.began <= g.at <= w.now && Sound(w.fetches, limits, g))
  }

  /** How the list of fetches grows: settled ones keep their keys, clearing happens no earlier than now. */
  predicate Grows(before: seq<Fetch>, after: seq<Fetch>, now: int) {
    && |before| <= |after|
    && (forall i :: 0 <= i < |before| ==> after[i].startedAt == before[i].startedAt)
    && (forall i :: 0 <= i < |before| ==>
                      && (before[i].keys.Some? ==>
                            after[i].keys == before[i].keys && after[i].settledAt == before[i].settledAt)
                      && (before[i].keys.None? && after[i].keys.Some? ==>
                            after[i].settledAt.Some? && after[i].settledAt.value >= now)
                      && (after[i].clearedAt == before[i].clearedAt
                          || (&& before[i].clearedAt.None?
                              && after[i].clearedAt.Some? && after[i].clearedAt.value >= now)))
    && forall i :: |before| <= i < |after| ==> after[i].keys.None?
  }

  lemma SoundStays(before: seq<Fetch>, after: seq<Fetch>, limits: Limits, now: int, g: Given)
    requires Grows(before, after, now) && Sound(before, limits, g) && g.began <= g.at <= now
    ensures Sound(after, limits, g)
  {
    if g.answer.Key? {
      var f :| f in before && KeyFrom(f, limits, g);
      var i :| 0 <= i < |before| && before[i] == f;
      assert KeyFrom(after[i], limits, g) && after[i] in after;
    } else if g.answer.UnknownKey? {
      var f :| f in before && UnknownFrom(f, limits, g);
      var i :| 0 <= i < |before| && before[i] == f;
      assert UnknownFrom(after[i], limits, g) && after[i] in after;
    } else {
      forall f | f in after && f.keys.Some? && f.settledAt.Some? && f.settledAt.value < g.at
        ensures g.at - f.settledAt.value >= Shortest(limits)
      {
        var i :| 0 <= i < |after| && after[i] == f;
        assert i < |before| && before[i] in before;
      }
      LatestStays(before, after, limits, now, g);
    }
  }

  lemma LatestStays(before: seq<Fetch>, after: seq<Fetch>, limits: Limits, now: int, g: Given)
    requires Grows(before, after, now) && LatestTooOld(before, limits, g) && g.at <= now
    ensures LatestTooOld(after, limits, g)
  {
    forall i | 0 <= i < |after| && GoodBy(after[i], g.at) && after[i].settledAt.value < g.at
      ensures (exists j | i < j < |after| :: GoodBy(after[j], g.at)) || TooOld(after[i], limits, g)
    {
      assert i < |before| && GoodBy(before[i], g.at);
      if j :| i < j < |before| && GoodBy(before[j], g.at) {
        assert GoodBy(after[j], g.at);
      } else {
        assert TooOld(before[i], limits, g);
      }
    }
  }

  lemma WaiterStays(w: World, after: World, waiter: Waiter)
    requires WaiterKept(w, waiter) && Grows(w.fetches, after.fetches, w.now) && w.now <= after.now
    ensures WaiterKept(after, waiter)
  {
  }

  /** What carries over when the fetches grow and time passes. */
  lemma RestStays(w: World, after: World, limits: Limits)
    requires Kept(w, limits) && Grows(w.fetches, after.fetches, w.now) && w.now <= after.now
    ensures forall id | id in w.waiting :: WaiterKept(after, w.waiting[id])
    ensures forall g | g in w.given :: g.began <= g.at <= after.now && Sound(after.fetches, limits, g)
  {
    hide Grows, WaiterKept, Sound, FetchesKept;
    forall id | id in w.waiting ensures WaiterKept(after, w.waiting[id]) {
      WaiterStays(w, after, w.waiting[id]);
    }
    forall g | g in w.given ensures Sound(after.fetches, limits, g) {
      SoundStays(w.fetches, after.fetches, limits, w.now, g);
    }
  }

  lemma NothingGrows(fetches: seq<Fetch>, now: int)
    ensures Grows(fetches, fetches, now)
  {
  }

  /** No good fetch is newer than the last one. */
  lemma {:induction false} LastGoodIsLatest(fetches: seq<Fetch>, limits: Limits, now: int, f: Fetch)
    requires Spaced(fetches, limits) && (forall x | x in fetches :: WellTimed(x, now)) && f in fetches && f.keys.Some?
    ensures LastGood(fetches).Some? && f.settledAt.Some?
    ensures LastGood(fetches).value.settledAt.Some? && f.settledAt.value <= LastGood(fetches).value.settledAt.value
    decreases |fetches|
  {
    var last := |fetches| - 1;
    var i :| 0 <= i <= last && fetches[i] == f;
    assert fetches[last] in fetches;
    if fetches[last].keys.None? {
      assert forall x | x in fetches[..last] :: x in fetches;
      assert fetches[..last][i] == f;
      LastGoodIsLatest(fetches[..last], limits, now, f);
    }
  }

  /** A fallback answer is sound: it rests on the last fetch that brought keys. */
  lemma FallbackSound(w: World, limits: Limits, kid: string, began: int, now: int)
    requires FetchesKept(w, limits) && w.now <= now
    ensures Sound(w.fetches, limits, Given(kid, began, now, Fallback(w.cache, limits, kid, now)))
  {
    hide Spaced, SingleFlight, WellTimed, JustFetched;
    var g := Given(kid, began, now, Fallback(w.cache, limits, kid, now));
    forall f | f in w.fetches && f.keys.Some?
      ensures LastGood(w.fetches).Some? && f.settledAt.Some? && LastGood(w.fetches).value.settledAt.Some?
      ensures f.settledAt.value <= LastGood(w.fetches).value.settledAt.value
    {
      LastGoodIsLatest(w.fetches, limits, w.now, f);
    }
    if LastGood(w.fetches).Some? {
      var f := LastGood(w.fetches).value;
      assert f in w.fetches && f.settledAt.value <= now by { SettledByNow(w, limits, f); }
      if g.answer.Key? {
        assert KeyFrom(f, limits, g);
      } else if g.answer.UnknownKey? {
        assert UnknownFrom(f, limits, g);
      }
    }
    if g.answer.Unavailable? {
      FallbackTooOld(w, limits, g);
    }
  }

  lemma SettledByNow(w: World, limits: Limits, f: Fetch)
    requires FetchesKept(w, limits) && f in w.fetches && f.keys.Some?
    ensures f.settledAt.Some? && f.settledAt.value <= w.now
  {
    hide Spaced, SingleFlight, KeysConfirmed;
  }

  lemma {:induction false} LastGoodIsLast(fetches: seq<Fetch>) returns (k: nat)
    requires LastGood(fetches).Some?
    ensures k < |fetches| && fetches[k] == LastGood(fetches).value
    ensures forall i | k < i < |fetches| :: fetches[i].keys.None?
    decreases |fetches|
  {
    k := |fetches| - 1;
    if fetches[k].keys.None? {
      assert forall i | 0 <= i < k :: fetches[..k][i] == fetches[i];
      k := LastGoodIsLast(fetches[..k]);
    }
  }

  lemma {:induction false} NoneGood(fetches: seq<Fetch>)
    requires LastGood(fetches).None?
    ensures forall i | 0 <= i < |fetches| :: fetches[i].keys.None?
    decreases |fetches|
  {
    if fetches != [] {
      var last := |fetches| - 1;
      NoneGood(fetches[..last]);
      assert forall i | 0 <= i < last :: fetches[..last][i] == fetches[i];
    }
  }

  lemma FallbackTooOld(w: World, limits: Limits, g: Given)
    requires FetchesKept(w, limits) && w.now <= g.at
    requires g.answer == Fallback(w.cache, limits, g.kid, g.at) == Unavailable
    ensures LatestTooOld(w.fetches, limits, g)
  {
    hide Spaced, SingleFlight, WellTimed;
    if LastGood(w.fetches).Some? {
      var k := LastGoodIsLast(w.fetches);
      assert w.fetches[k] in w.fetches;
      SettledByNow(w, limits, w.fetches[k]);
      assert GoodBy(w.fetches[k], g.at) && TooOld(w.fetches[k], limits, g);
    } else {
      NoneGood(w.fetches);
    }
  }

  lemma CachedSound(w: World, limits: Limits, kid: string, now: int)
    requires FetchesKept(w, limits) && kid in w.cache.keys && Younger(w.cache.fetchedAt, now, limits.ttlMs)
             && w.now <= now
    ensures Sound(w.fetches, limits, Given(kid, now, now, Key(w.cache.keys[kid])))
  {
    hide Spaced, SingleFlight, WellTimed, JustFetched;
    var f := LastGood(w.fetches).value;
    SettledByNow(w, limits, f);
    assert KeyFrom(f, limits, Given(kid, now, now, Key(w.cache.keys[kid])));
  }

  lemma LaterIsKept(w: World, now: int, limits: Limits)
    requires FetchesKept(w, limits) && w.now <= now
    ensures FetchesKept(w.(now := now), limits)
  {
  }

  lemma LastGoodOfMore(fetches: seq<Fetch>, f: Fetch)
    ensures LastGood(fetches + [f]) == if f.keys.Some? then Some(f) else LastGood(fetches)
  {
    assert (fetches + [f])[..|fetches|] == fetches;
  }

  lemma LastGoodOfChanged(fetches: seq<Fetch>, f: Fetch)
    requires fetches != []
    ensures LastGood(fetches[|fetches| - 1 := f]) == if f.keys.Some? then Some(f)
                                                     else LastGood(fetches[..|fetches| - 1])
  {
    var after := fetches[|fetches| - 1 := f];
    assert after[..|fetches| - 1] == fetches[..|fetches| - 1];
  }

  lemma SpacedOneMore(fetches: seq<Fetch>, limits: Limits, again: int)
    requires Spaced(fetches, limits)
    requires fetches != [] ==>
               var last := fetches[|fetches| - 1];
               && again - last.startedAt >= limits.minRefetchMs && again >= last.startedAt
               && last.clearedAt.Some? && last.clearedAt.value <= again
    ensures Spaced(fetches + [Fetch(again, None, None, None)], limits)
  {
    var more := fetches + [Fetch(again, None, None, None)];
    var last := |fetches| - 1;
    forall i, j | 0 <= i < j < |more|
      ensures more[j].startedAt - more[i].startedAt >= limits.minRefetchMs && more[i].startedAt <= more[j].startedAt
      ensures more[i].clearedAt.Some? && more[i].clearedAt.value <= more[j].startedAt
    {
      if j == |fetches| && i < last {
        assert fetches[i].startedAt <= fetches[last].startedAt;
      }
    }
  }

  /** A fetch that starts is spaced from all earlier ones, and nothing else is in flight. */
  lemma StartKeeps(w: World, limits: Limits, again: int)
    requires FetchesKept(w, limits) && w.now <= again && StartsFetch(w.cache, limits, again)
    ensures FetchesKept(w.(cache := w.cache.(attemptedAt := Some(again), inFlight := true), now := again,
                        fetches := w.fetches + [Fetch(again, None, None, None)]), limits)
    ensures Grows(w.fetches, w.fetches + [Fetch(again, None, None, None)], w.now)
  {
    hide Spaced, LastGood;
    var f := Fetch(again, None, None, None);
    LastGoodOfMore(w.fetches, f);
    assert w.fetches != [] ==> w.fetches[|w.fetches| - 1] in w.fetches;
    SpacedOneMore(w.fetches, limits, again);
    assert forall x :: x in w.fetches + [f] <==> x in w.fetches || x == f;
  }

  lemma AddGiven(w: World, limits: Limits, g: Given)
    requires Kept(w, limits) && g.began <= g.at <= w.now && Sound(w.fetches, limits, g)
    ensures Kept(w.(given := w.given + [g]), limits)
  {
    hide Sound, Spaced, WellTimed, LastGood, JustFetched;
    assert forall x :: x in w.given + [g] <==> x in w.given || x == g;
  }

  lemma AddWaiter(w: World, limits: Limits, id: nat, waiter: Waiter)
    requires Kept(w, limits) && WaiterKept(w, waiter)
    ensures Kept(w.(waiting := w.waiting[id := waiter]), limits)
  {
    hide Sound, Spaced, WellTimed, LastGood, JustFetched;
  }

  lemma DropWaiter(w: World, limits: Limits, id: nat)
    requires Kept(w, limits)
    ensures Kept(w.(waiting := w.waiting - {id}), limits)
  {
    hide Sound, Spaced, WellTimed, LastGood, JustFetched;
  }

  /** The cache and the fetches change; waiters and answers carry over. */
  lemma ChangeKeeps(w: World, limits: Limits, cache: Cache, fetches: seq<Fetch>, now: int)
    requires Kept(w, limits) && Grows(w.fetches, fetches, w.now) && w.now <= now
    requires FetchesKept(w.(cache := cache, fetches := fetches, now := now), limits)
    ensures Kept(w.(cache := cache, fetches := fetches, now := now), limits)
  {
    hide FetchesKept, Grows, Sound, WaiterKept;
    RestStays(w, w.(cache := cache, fetches := fetches, now := now), limits);
  }

  lemma TimeKeeps(w: World, limits: Limits, now: int)
    requires Kept(w, limits) && w.now <= now
    ensures Kept(w.(now := now), limits)
  {
    hide FetchesKept, Sound, WaiterKept;
    LaterIsKept(w, now, limits);
    NothingGrows(w.fetches, w.now);
    ChangeKeeps(w, limits, w.cache, w.fetches, now);
  }

  lemma LookKeeps(w: World, limits: Limits, id: nat, kid: string, now: int, again: int)
    requires Kept(w, limits) && id !in w.waiting && w.now <= now <= again
    ensures Kept(Look(w, limits, id, kid, now, again), limits)
  {
    hide Kept, FetchesKept, Sound, Grows, Fallback;
    assert FetchesKept(w, limits) by { KeptFetches(w, limits); }
    var (cache, begun) := Begin(w.cache, limits, kid, now, again);
    SameCacheLooks(w, limits, id, kid, now, again);
    match begun {
      case Answered(answer) =>
        TimeKeeps(w, limits, now);
        if kid in w.cache.keys && Younger(w.cache.fetchedAt, now, limits.ttlMs) {
          CachedSound(w, limits, kid, now);
        } else {
          FallbackSound(w, limits, kid, now, now);
        }
        AddGiven(w.(now := now), limits, Given(kid, now, now, answer));
      case Refused =>
        TimeKeeps(w, limits, again);
        AddWaiter(w.(now := again), limits, id, Waiter(kid, now, None));
      case Joined =>
        if cache == w.cache {
          InFlightIsFresh(w, limits, now);
          TimeKeeps(w, limits, again);
          AddWaiter(w.(now := again), limits, id, Waiter(kid, now, Some(|w.fetches| - 1)));
        } else {
          var f := Fetch(again, None, None, None);
          StartKeeps(w, limits, again);
          ChangeKeeps(w, limits, cache, w.fetches + [f], again) by { GrowsByStart(w, limits, again); }
          var started := w.(cache := cache, fetches := w.fetches + [f], now := again);
          AddWaiter(started, limits, id, Waiter(kid, now, Some(|w.fetches|)));
        }
    }
  }

  lemma KeptFetches(w: World, limits: Limits)
    requires Kept(w, limits)
    ensures FetchesKept(w, limits)
  {
  }

  lemma GrowsByStart(w: World, limits: Limits, again: int)
    ensures Grows(w.fetches, w.fetches + [Fetch(again, None, None, None)], w.now)
  {
  }

  lemma InFlightIsFresh(w: World, limits: Limits, began: int)
    requires FetchesKept(w, limits)
    ensures w.cache.inFlight ==> w.fetches != [] && JustFetched(w.fetches[|w.fetches| - 1], began)
  {
  }

  lemma SameCacheLooks(w: World, limits: Limits, id: nat, kid: string, now: int, again: int)
    ensures var (cache, begun) := Begin(w.cache, limits, kid, now, again);
            && (cache != w.cache ==> begun.Joined? && StartsFetch(w.cache, limits, again) && !w.cache.inFlight
                                     && cache == w.cache.(attemptedAt := Some(again), inFlight := true))
            && (begun.Joined? && cache == w.cache ==> w.cache.inFlight)
  {
  }

  /** A settling fetch: the keys are replaced or left alone. */
  lemma SettleKeeps(w: World, limits: Limits, now: int, fetched: Option<KeySet>)
    requires Kept(w, limits) && Unsettled(w) && w.now <= now
    ensures Kept(Step(w, limits, Settles(now, fetched)), limits)
  {
    hide Spaced, LastGood, Sound, WaiterKept;
    var last := |w.fetches| - 1;
    var f := w.fetches[last].(settledAt := Some(now), keys := fetched);
    var fetches := w.fetches[last := f];
    assert w.fetches[last] in w.fetches;
    LastGoodOfChanged(w.fetches, f);
    LastGoodOfChanged(w.fetches, w.fetches[last]);
    assert w.fetches[last := w.fetches[last]] == w.fetches;
    SpacedChanged(w.fetches, limits, f);
    forall x | x in fetches ensures WellTimed(x, now) {
      assert x in w.fetches || x == f;
    }
    ChangeKeeps(w, limits, Settle(w.cache, fetched, now), fetches, now);
  }

  lemma SpacedChanged(fetches: seq<Fetch>, limits: Limits, f: Fetch)
    requires Spaced(fetches, limits) && fetches != [] && f.startedAt == fetches[|fetches| - 1].startedAt
    ensures Spaced(fetches[|fetches| - 1 := f], limits)
  {
  }

  lemma ClearKeeps(w: World, limits: Limits, now: int)
    requires Kept(w, limits) && CanHappen(w, Clears(now))
    ensures Kept(Step(w, limits, Clears(now)), limits)
  {
    hide Spaced, LastGood, Sound, WaiterKept;
    var last := |w.fetches| - 1;
    var f := w.fetches[last].(clearedAt := Some(now));
    var fetches := w.fetches[last := f];
    assert w.fetches[last] in w.fetches;
    LastGoodOfChanged(w.fetches, f);
    LastGoodOfChanged(w.fetches, w.fetches[last]);
    assert w.fetches[last := w.fetches[last]] == w.fetches;
    SpacedChanged(w.fetches, limits, f);
    forall x | x in fetches ensures WellTimed(x, now) {
      assert x in w.fetches || x == f;
    }
    ChangeKeeps(w, limits, w.cache.(inFlight := false), fetches, now);
  }

  lemma ResumeKeeps(w: World, limits: Limits, id: nat, now: int)
    requires Kept(w, limits) && CanHappen(w, Resumes(id, now))
    ensures Kept(Step(w, limits, Resumes(id, now)), limits)
  {
    hide Spaced, LastGood, SingleFlight, KeysConfirmed, Fallback;
    var waiter := w.waiting[id];
    assert WaiterKept(w, waiter);
    var fetched := if waiter.fetch.Some? then w.fetches[waiter.fetch.value].keys else None;
    var g := Given(waiter.kid, waiter.began, now, Resume(w.cache, limits, waiter.kid, fetched, now));
    if fetched.Some? {
      var f := w.fetches[waiter.fetch.value];
      assert f in w.fetches && WellTimed(f, w.now);
      assert g.answer.Key? ==> KeyFrom(f, limits, g);
      assert g.answer.UnknownKey? ==> UnknownFrom(f, limits, g);
    } else {
      FallbackSound(w, limits, waiter.kid, waiter.began, now);
    }
    TimeKeeps(w, limits, now);
    DropWaiter(w.(now := now), limits, id);
    AddGiven(w.(now := now, waiting := w.waiting - {id}), limits, g);
  }

  /**
    * Over every run: fetches start at least the minimum spacing apart with at most one in flight, a failed fetch
    * leaves the keys of the last good one, and every key and every "unknown key" comes from a set that is young
    * enough or was still being fetched when the lookup began.
    */
  lemma {:induction false} RunKeeps(limits: Limits, start: int, events: seq<Event>)
    ensures Kept(RunOf(limits, start, events), limits)
    decreases |events|
  {
    hide Kept, Look, CanHappen;
    if events == [] {
      assert Kept(World(EMPTY, start, [], map[], []), limits) by { StartKept(limits, start); }
    } else {
      var n := |events| - 1;
      RunKeeps(limits, start, events[..n]);
      var w := RunOf(limits, start, events[..n]);
      if CanHappen(w, events[n]) {
        CanHappenMeans(w, events[n]);
        match events[n]
        case Looks(id, kid, now, again) => LookKeeps(w, limits, id, kid, now, again);
        case Settles(now, fetched) => SettleKeeps(w, limits, now, fetched);
        case Clears(now) => ClearKeeps(w, limits, now);
        case Resumes(id, now) => ResumeKeeps(w, limits, id, now);
      }
    }
  }

  lemma StartKept(limits: Limits, start: int)
    ensures Kept(World(EMPTY, start, [], map[], []), limits)
  {
  }

  lemma CanHappenMeans(w: World, e: Event)
    requires CanHappen(w, e)
    ensures e.Looks? ==> e.id !in w.waiting && w.now <= e.now <= e.again
    ensures e.Settles? ==> Unsettled(w) && w.now <= e.now
  {
  }

  // ---- how old a key can be ----

  /** A settled fetch is cleared at once, and a caller that waited for it goes on at most `lag` later. */
  predicate Prompt(w: World, lag: int, e: Event) {
    match e
    case Clears(now) => w.fetches != [] ==> w.fetches[|w.fetches| - 1].settledAt == Some(now)
    case Resumes(id, now) =>
      id in w.waiting ==>
        var f := w.waiting[id].fetch;
        f.Some? && f.value < |w.fetches| && w.fetches[f.value].clearedAt.Some? ==>
          now - w.fetches[f.value].clearedAt.value <= lag
    case _ => true
  }

  predicate PromptRun(limits: Limits, start: int, lag: int, events: seq<Event>) {
    events == []
    || (&& PromptRun(limits, start, lag, events[..|events| - 1])
        && Prompt(RunOf(limits, start, events[..|events| - 1]), lag, events[|events| - 1]))
  }

  predicate ClearedAtOnce(fetches: seq<Fetch>) {
    forall f | f in fetches && f.clearedAt.Some? :: f.clearedAt == f.settledAt
  }

  predicate KeyWithin(f: Fetch, limits: Limits, lag: int, g: Given) {
    && Brings(f, g)
    && (g.at - f.settledAt.value <= Longest(limits) || g.at - f.settledAt.value <= lag)
  }

  predicate UnknownWithin(f: Fetch, limits: Limits, lag: int, g: Given) {
    && Lacks(f, g)
    && (g.at - f.settledAt.value < limits.ttlMs || g.at - f.settledAt.value <= lag)
  }

  /** Each key, and each "unknown key", comes from a set whose age is bounded. */
  predicate Bounded(fetches: seq<Fetch>, limits: Limits, lag: int, g: Given) {
    match g.answer
    case Key(_) => exists f | f in fetches :: KeyWithin(f, limits, lag, g)
    case UnknownKey => exists f | f in fetches :: UnknownWithin(f, limits, lag, g)
    case Unavailable => true
  }

  lemma BoundedStays(before: seq<Fetch>, after: seq<Fetch>, limits: Limits, lag: int, now: int, g: Given)
    requires Grows(before, after, now) && Bounded(before, limits, lag, g)
    ensures Bounded(after, limits, lag, g)
  {
    if g.answer.Key? {
      var f :| f in before && KeyWithin(f, limits, lag, g);
      var i :| 0 <= i < |before| && before[i] == f;
      assert KeyWithin(after[i], limits, lag, g) && after[i] in after;
    } else if g.answer.UnknownKey? {
      var f :| f in before && UnknownWithin(f, limits, lag, g);
      var i :| 0 <= i < |before| && before[i] == f;
      assert UnknownWithin(after[i], limits, lag, g) && after[i] in after;
    }
  }

  /** A fallback answer rests on the last fetch that brought keys. */
  lemma FallbackBounded(w: World, limits: Limits, lag: int, kid: string, began: int, now: int)
    requires FetchesKept(w, limits) && w.now <= now
    ensures Bounded(w.fetches, limits, lag, Given(kid, began, now, Fallback(w.cache, limits, kid, now)))
  {
    var g := Given(kid, began, now, Fallback(w.cache, limits, kid, now));
    hide Spaced, SingleFlight, WellTimed;
    if LastGood(w.fetches).Some? {
      var f := LastGood(w.fetches).value;
      SettledByNow(w, limits, f);
      assert g.answer.Key? ==> KeyWithin(f, limits, lag, g);
      assert g.answer.UnknownKey? ==> UnknownWithin(f, limits, lag, g);
    }
  }

  lemma CachedBounded(w: World, limits: Limits, lag: int, kid: string, now: int)
    requires FetchesKept(w, limits) && kid in w.cache.keys && Younger(w.cache.fetchedAt, now, limits.ttlMs)
             && w.now <= now
    ensures Bounded(w.fetches, limits, lag, Given(kid, now, now, Key(w.cache.keys[kid])))
  {
    hide Spaced, SingleFlight, WellTimed;
    SettledByNow(w, limits, LastGood(w.fetches).value);
    assert KeyWithin(LastGood(w.fetches).value, limits, lag, Given(kid, now, now, Key(w.cache.keys[kid])));
  }

  /** A caller that waited for a fetch with keys answers from a set no older than the time since it was cleared. */
  lemma WaitedBounded(w: World, limits: Limits, lag: int, id: nat, now: int)
    requires Kept(w, limits) && ClearedAtOnce(w.fetches) && CanHappen(w, Resumes(id, now))
             && Prompt(w, lag, Resumes(id, now))
    ensures forall g | g in Step(w, limits, Resumes(id, now)).given ::
              g in w.given || Bounded(w.fetches, limits, lag, g)
  {
    hide Spaced, LastGood, SingleFlight, KeysConfirmed, Fallback, Sound;
    var waiter := w.waiting[id];
    var fetched := if waiter.fetch.Some? then w.fetches[waiter.fetch.value].keys else None;
    var g := Given(waiter.kid, waiter.began, now, Resume(w.cache, limits, waiter.kid, fetched, now));
    if fetched.Some? {
      var f := w.fetches[waiter.fetch.value];
      assert f in w.fetches && f.clearedAt == f.settledAt;
      assert g.answer.Key? ==> KeyWithin(f, limits, lag, g);
      assert g.answer.UnknownKey? ==> UnknownWithin(f, limits, lag, g);
    } else {
      FallbackBounded(w, limits, lag, waiter.kid, waiter.began, now);
    }
    assert forall x :: x in w.given + [g] <==> x in w.given || x == g;
  }

  lemma LookedBounded(w: World, limits: Limits, lag: int, id: nat, kid: string, now: int, again: int)
    requires FetchesKept(w, limits) && w.now <= now
    ensures forall g | g in Look(w, limits, id, kid, now, again).given ::
              g in w.given || Bounded(w.fetches, limits, lag, g)
  {
    hide FetchesKept, Fallback, Bounded;
    var begun := Begin(w.cache, limits, kid, now, again).1;
    if begun.Answered? {
      if kid in w.cache.keys && Younger(w.cache.fetchedAt, now, limits.ttlMs) {
        CachedBounded(w, limits, lag, kid, now);
      } else {
        FallbackBounded(w, limits, lag, kid, now, now);
      }
      var g := Given(kid, now, now, begun.answer);
      assert forall x :: x in w.given + [g] <==> x in w.given || x == g;
    }
  }

  lemma StepGrows(w: World, limits: Limits, e: Event)
    requires Kept(w, limits)
    ensures Grows(w.fetches, Step(w, limits, e).fetches, w.now)
  {
    hide Spaced, KeysConfirmed, Sound, WaiterKept, Fallback, Resume;
    assert forall i | 0 <= i < |w.fetches| :: w.fetches[i] in w.fetches;
  }

  lemma StepClearsAtOnce(w: World, limits: Limits, lag: int, e: Event)
    requires Kept(w, limits) && ClearedAtOnce(w.fetches) && Prompt(w, lag, e)
    ensures ClearedAtOnce(Step(w, limits, e).fetches)
  {
    hide Spaced, KeysConfirmed, Sound, WaiterKept, Fallback, Resume;
    var after := Step(w, limits, e).fetches;
    forall f | f in after && f.clearedAt.Some? ensures f.clearedAt == f.settledAt {
      var i :| 0 <= i < |after| && after[i] == f;
      assert i < |w.fetches| ==> w.fetches[i] in w.fetches;
    }
  }

  lemma NewAnswersBounded(w: World, limits: Limits, lag: int, e: Event)
    requires Kept(w, limits) && ClearedAtOnce(w.fetches) && Prompt(w, lag, e)
    ensures forall g | g in Step(w, limits, e).given :: g in w.given || Bounded(w.fetches, limits, lag, g)
  {
    hide Kept, Look, Resume, Bounded, Prompt, ClearedAtOnce;
    if CanHappen(w, e) {
      match e
      case Looks(id, kid, now, again) =>
        KeptFetches(w, limits);
        CanHappenMeans(w, e);
        LookedBounded(w, limits, lag, id, kid, now, again);
      case Resumes(id, now) => WaitedBounded(w, limits, lag, id, now);
      case _ =>
    }
  }

  /**
    * In every run that is prompt up to `lag`, each key comes from a set no older than the longest of the TTL, the stale
    * grace and `lag`, and each "unknown key" from one younger than the TTL or no older than `lag`.
    */
  lemma {:induction false} KeysStayYoung(limits: Limits, start: int, lag: int, events: seq<Event>)
    requires PromptRun(limits, start, lag, events)
    ensures var w := RunOf(limits, start, events);
            ClearedAtOnce(w.fetches) && forall g | g in w.given :: Bounded(w.fetches, limits, lag, g)
    decreases |events|
  {
    hide Step, Prompt, ClearedAtOnce, Bounded, Kept, Grows;
    if events == [] {
      assert ClearedAtOnce([]) by { NothingCleared(); }
    } else {
      var n := |events| - 1;
      KeysStayYoung(limits, start, lag, events[..n]);
      RunKeeps(limits, start, events[..n]);
      var w := RunOf(limits, start, events[..n]);
      var after := Step(w, limits, events[n]);
      StepGrows(w, limits, events[n]);
      StepClearsAtOnce(w, limits, lag, events[n]);
      NewAnswersBounded(w, limits, lag, events[n]);
      forall g | g in after.given ensures Bounded(after.fetches, limits, lag, g) {
        BoundedStays(w.fetches, after.fetches, limits, lag, w.now, g);
      }
    }
  }

  lemma NothingCleared()
    ensures ClearedAtOnce([])
  {
  }

  /** A caller that goes on late gets a key as old as it was late. */
  lemma LateCallerGetsOldKey(limits: Limits, keys: KeySet, kid: string, late: nat)
    requires kid in keys
    ensures var w := RunOf(limits, 0, [Looks(0, kid, 0, 0), Settles(0, Some(keys)), Clears(0), Resumes(0, late)]);
            && w.given == [Given(kid, 0, late, Key(keys[kid]))]
            && w.fetches == [Fetch(0, Some(0), Some(keys), Some(0))]
  {
    var look, settle, clear := Looks(0, kid, 0, 0), Settles(0, Some(keys)), Clears(0);
    var fetches := [Fetch(0, None, None, None)];
    var none: seq<Event> := [];
    assert none + [look] == [look] && [look] + [settle] == [look, settle];
    assert [look, settle] + [clear] == [look, settle, clear];
    assert [look, settle, clear] + [Resumes(0, late)] == [look, settle, clear, Resumes(0, late)];
    RunSteps(limits, 0, none, look);
    RunSteps(limits, 0, [look], settle);
    RunSteps(limits, 0, [look, settle], clear);
    RunSteps(limits, 0, [look, settle, clear], Resumes(0, late));
    hide RunOf;
    assert RunOf(limits, 0, none) == World(EMPTY, 0, [], map[], []) by { RunOfNothing(limits); }
    var w1 := RunOf(limits, 0, [look]);
    assert w1 == World(Cache(map[], None, Some(0), true), 0, fetches, map[0 := Waiter(kid, 0, Some(0))], []);
    var w2 := RunOf(limits, 0, [look, settle]);
    assert w2.fetches == [Fetch(0, Some(0), Some(keys), None)];
    var w3 := RunOf(limits, 0, [look, settle, clear]);
    assert w3.fetches == [Fetch(0, Some(0), Some(keys), Some(0))];
  }

  lemma RunOfNothing(limits: Limits)
    ensures RunOf(limits, 0, []) == World(EMPTY, 0, [], map[], [])
  {
  }

  lemma RunSteps(limits: Limits, start: int, events: seq<Event>, e: Event)
    ensures RunOf(limits, start, events + [e]) == Step(RunOf(limits, start, events), limits, e)
  {
    hide Step;
    assert (events + [e])[..|events|] == events;
  }

  // ---- when keys are fetched again ----

  /** The key comes from a set younger than the TTL. */
  predicate FreshKey(fetches: seq<Fetch>, limits: Limits, g: Given) {
    exists f | f in fetches :: Brings(f, g) && g.at - f.settledAt.value < limits.ttlMs
  }

  /** By then a fetch had started less than the spacing before the lookup, or was in flight when the lookup began. */
  predicate FetchTried(fetches: seq<Fetch>, limits: Limits, began: int, at: int) {
    exists f | f in fetches && f.startedAt <= at ::
      began - f.startedAt < limits.minRefetchMs || JustFetched(f, began)
  }

  predicate Refetched(fetches: seq<Fetch>, limits: Limits, g: Given) {
    FreshKey(fetches, limits, g) || FetchTried(fetches, limits, g.began, g.at)
  }

  /** No lookup waits without a fetch tried for it, and no answer is given without one but a fresh key. */
  predicate AllTried(w: World, limits: Limits) {
    && (forall id | id in w.waiting :: FetchTried(w.fetches, limits, w.waiting[id].began, w.now))
    && (forall g | g in w.given :: Refetched(w.fetches, limits, g))
  }

  lemma TriedStays(before: seq<Fetch>, after: seq<Fetch>, limits: Limits, now: int, began: int, at: int, later: int)
    requires Grows(before, after, now) && FetchTried(before, limits, began, at) && began <= now && at <= later
    ensures FetchTried(after, limits, began, later)
  {
    var f :| f in before && f.startedAt <= at && (began - f.startedAt < limits.minRefetchMs || JustFetched(f, began));
    var i :| 0 <= i < |before| && before[i] == f;
    assert after[i] in after;
  }

  lemma RefetchedStays(before: seq<Fetch>, after: seq<Fetch>, limits: Limits, now: int, g: Given)
    requires Grows(before, after, now) && Refetched(before, limits, g) && g.began <= now
    ensures Refetched(after, limits, g)
  {
    if FreshKey(before, limits, g) {
      var f :| f in before && Brings(f, g) && g.at - f.settledAt.value < limits.ttlMs;
      var i :| 0 <= i < |before| && before[i] == f;
      assert after[i] in after && Brings(after[i], g);
    } else {
      TriedStays(before, after, limits, now, g.began, g.at, g.at);
    }
  }

  /** A fetch attempted less than the spacing ago. */
  lemma AttemptTried(w: World, limits: Limits, began: int, again: int)
    requires FetchesKept(w, limits) && w.now <= again && began <= again
    requires Younger(w.cache.attemptedAt, again, limits.minRefetchMs)
    ensures FetchTried(w.fetches, limits, began, again)
  {
    hide Spaced, KeysConfirmed;
    var f := w.fetches[|w.fetches| - 1];
    assert f in w.fetches;
  }

  lemma FlightTried(w: World, limits: Limits, began: int, again: int)
    requires FetchesKept(w, limits) && w.now <= again && w.cache.inFlight
    ensures FetchTried(w.fetches, limits, began, again)
  {
    hide Spaced, KeysConfirmed;
    var f := w.fetches[|w.fetches| - 1];
    assert f in w.fetches && JustFetched(f, began);
  }

  lemma StartTried(fetches: seq<Fetch>, limits: Limits, began: int, again: int)
    ensures FetchTried(fetches + [Fetch(again, None, None, None)], limits, began, again)
  {
    var f := Fetch(again, None, None, None);
    assert f in fetches + [f] && JustFetched(f, began);
  }

  lemma CachedIsFresh(w: World, limits: Limits, kid: string, now: int)
    requires FetchesKept(w, limits) && w.now <= now
    requires kid in w.cache.keys && Younger(w.cache.fetchedAt, now, limits.ttlMs)
    ensures FreshKey(w.fetches, limits, Given(kid, now, now, Key(w.cache.keys[kid])))
  {
    hide Spaced, SingleFlight, WellTimed;
    var f := LastGood(w.fetches).value;
    SettledByNow(w, limits, f);
    assert Brings(f, Given(kid, now, now, Key(w.cache.keys[kid])));
  }

  /** What a lookup adds was tried. */
  lemma LookTries(w: World, limits: Limits, id: nat, kid: string, now: int, again: int)
    requires FetchesKept(w, limits) && w.now <= now <= again && id !in w.waiting
    ensures var after := Look(w, limits, id, kid, now, again);
            && (id in after.waiting ==> FetchTried(after.fetches, limits, after.waiting[id].began, after.now))
            && (forall x | x in after.waiting && x != id :: x in w.waiting && after.waiting[x] == w.waiting[x])
            && (forall g | g in after.given :: g in w.given || Refetched(after.fetches, limits, g))
  {
    hide FetchesKept, Fallback, FreshKey, FetchTried;
    var begun := Begin(w.cache, limits, kid, now, again).1;
    match begun {
      case Answered(answer) =>
        var g := Given(kid, now, now, answer);
        assert forall x :: x in w.given + [g] <==> x in w.given || x == g;
        if kid in w.cache.keys && Younger(w.cache.fetchedAt, now, limits.ttlMs) {
          CachedIsFresh(w, limits, kid, now);
        } else {
          AttemptTried(w, limits, now, now);
        }
      case Refused => AttemptTried(w, limits, now, again);
      case Joined =>
        if w.cache.inFlight {
          FlightTried(w, limits, now, again);
        } else {
          StartTried(w.fetches, limits, now, again);
        }
    }
  }

  lemma ResumeTries(w: World, limits: Limits, id: nat, now: int)
    requires AllTried(w, limits) && CanHappen(w, Resumes(id, now))
    ensures forall g | g in Step(w, limits, Resumes(id, now)).given :: g in w.given || Refetched(w.fetches, limits, g)
    ensures forall x | x in Step(w, limits, Resumes(id, now)).waiting ::
              x in w.waiting && Step(w, limits, Resumes(id, now)).waiting[x] == w.waiting[x]
  {
    hide Resume;
    var waiter := w.waiting[id];
    NothingGrows(w.fetches, waiter.began);
    TriedStays(w.fetches, w.fetches, limits, waiter.began, waiter.began, w.now, now);
    var fetched := if waiter.fetch.Some? then w.fetches[waiter.fetch.value].keys else None;
    var g := Given(waiter.kid, waiter.began, now, Resume(w.cache, limits, waiter.kid, fetched, now));
    assert forall x :: x in w.given + [g] <==> x in w.given || x == g;
  }

  /** What a step adds was tried; the other waiting lookups stay. */
  lemma StepTries(w: World, limits: Limits, e: Event)
    requires Kept(w, limits) && AllTried(w, limits)
    ensures var after := Step(w, limits, e);
            && (forall id | id in after.waiting ::
                  || (id in w.waiting && after.waiting[id] == w.waiting[id])
                  || FetchTried(after.fetches, limits, after.waiting[id].began, after.now))
            && (forall g | g in after.given :: g in w.given || Refetched(after.fetches, limits, g))
  {
    hide Kept, AllTried, Look, Resume, FetchTried, Refetched, CanHappen;
    if CanHappen(w, e) {
      CanHappenMeans(w, e);
      match e
      case Looks(id, kid, now, again) =>
        KeptFetches(w, limits);
        LookTries(w, limits, id, kid, now, again);
      case Resumes(id, now) => ResumeTries(w, limits, id, now);
      case _ =>
    }
  }

  lemma StepIsLater(w: World, limits: Limits, e: Event)
    ensures w.now <= Step(w, limits, e).now
  {
    hide Begin, Resume, Settle;
  }

  /**
    * Over every run: an answer that is no key from a set younger than the TTL is only given when a fetch had started
    * within the minimum spacing of the lookup, or was in flight when the lookup began or later. So a cache never
    * settles on stale keys, unknown keys or no keys without fetching again.
    */
  lemma {:induction false} EveryAnswerIsTried(limits: Limits, start: int, events: seq<Event>)
    ensures AllTried(RunOf(limits, start, events), limits)
    decreases |events|
  {
    hide Step, Kept, Grows, FetchTried, Refetched;
    if events != [] {
      var n := |events| - 1;
      EveryAnswerIsTried(limits, start, events[..n]);
      RunKeeps(limits, start, events[..n]);
      var w := RunOf(limits, start, events[..n]);
      var after := Step(w, limits, events[n]);
      StepGrows(w, limits, events[n]);
      StepIsLater(w, limits, events[n]);
      StepTries(w, limits, events[n]);
      forall id | id in after.waiting ensures FetchTried(after.fetches, limits, after.waiting[id].began, after.now) {
        if id in w.waiting && after.waiting[id] == w.waiting[id] {
          BeganBefore(w, limits, id);
          TriedStays(w.fetches, after.fetches, limits, w.now, w.waiting[id].began, w.now, after.now);
        }
      }
      forall g | g in after.given ensures Refetched(after.fetches, limits, g) {
        if g in w.given {
          GivenBefore(w, limits, g);
          RefetchedStays(w.fetches, after.fetches, limits, w.now, g);
        }
      }
    }
  }

  lemma BeganBefore(w: World, limits: Limits, id: nat)
    requires Kept(w, limits) && id in w.waiting
    ensures w.waiting[id].began <= w.now
  {
    assert WaiterKept(w, w.waiting[id]);
  }

  lemma GivenBefore(w: World, limits: Limits, g: Given)
    requires Kept(w, limits) && g in w.given
    ensures g.began <= g.at <= w.now
  {
  }

  // ---- what a lookup does, on the fetches so far ----

  /** At least the minimum spacing after the last fetch started, or no fetch yet. */
  predicate SpacingOver(fetches: seq<Fetch>, limits: Limits, now: int) {
    fetches == [] || now - fetches[|fetches| - 1].startedAt >= limits.minRefetchMs
  }

  predicate FlightGoesOn(fetches: seq<Fetch>) { fetches != [] && fetches[|fetches| - 1].clearedAt.None? }

  /** The last set that was fetched holds the key and is younger than the TTL. */
  predicate HoldsFresh(fetches: seq<Fetch>, limits: Limits, kid: string, now: int) {
    var good := LastGood(fetches);
    && good.Some? && kid in good.value.keys.value
    && good.value.settledAt.Some? && now - good.value.settledAt.value < limits.ttlMs
  }

  /**
    * In every run a lookup gives a fresh key at once and fetches nothing; otherwise, within the spacing, it answers
    * at once when there are keys; otherwise it waits for the fetch in flight, or starts one once the spacing is over.
    */
  lemma LookDecides(limits: Limits, start: int, events: seq<Event>, id: nat, kid: string, now: int, again: int)
    requires var w := RunOf(limits, start, events); id !in w.waiting && w.now <= now <= again
    ensures var w := RunOf(limits, start, events);
            var after := Step(w, limits, Looks(id, kid, now, again));
            var good := LastGood(w.fetches);
            var soon := good.Some? && !SpacingOver(w.fetches, limits, now);
            && (HoldsFresh(w.fetches, limits, kid, now) ==>
                  after.given == w.given + [Given(kid, now, now, Key(good.value.keys.value[kid]))]
                  && after.fetches == w.fetches && after.waiting == w.waiting)
            && (!HoldsFresh(w.fetches, limits, kid, now) && soon ==>
                  |after.given| == |w.given| + 1 && after.fetches == w.fetches && after.waiting == w.waiting)
            && (!HoldsFresh(w.fetches, limits, kid, now) && !soon && FlightGoesOn(w.fetches) ==>
                  after.waiting == w.waiting[id := Waiter(kid, now, Some(|w.fetches| - 1))]
                  && after.fetches == w.fetches && after.given == w.given)
            && (!HoldsFresh(w.fetches, limits, kid, now) && !soon && !FlightGoesOn(w.fetches)
                && SpacingOver(w.fetches, limits, again) ==>
                  after.waiting == w.waiting[id := Waiter(kid, now, Some(|w.fetches|))]
                  && after.fetches == w.fetches + [Fetch(again, None, None, None)] && after.given == w.given)
  {
    hide RunOf, Spaced, Sound, WaiterKept, Fallback, WellTimed;
    var w := RunOf(limits, start, events);
    RunKeeps(limits, start, events);
    KeptFetches(w, limits);
  }
}
