/**
  * Idempotent effects: any number of callers load, claim, run the effect and complete, one store operation at a
  * time, in any interleaving. A caller may vanish at any point.
  */
module Approvals {
  import opened Wrappers

  datatype Record<T> = InProgress | Completed(result: T)

  /** `Memory` overwrites on completion; `Durable` stores the value's JSON form and only completes a claim. */
  datatype Store<!T> = Memory | Durable(json: T -> T)

  /** Reading JSON back and writing it again changes nothing. */
  ghost predicate JsonStable<T(!new)>(kind: Store<T>) {
    kind.Durable? ==> forall v :: kind.json(kind.json(v)) == kind.json(v)
  }

  function Frozen<T>(kind: Store<T>, result: T): T { if kind.Durable? then kind.json(result) else result }

  // ---- the store operations ----

  function Claim<T>(records: map<string, Record<T>>, key: string): (map<string, Record<T>>, bool) {
    if key in records then (records, false) else (records[key := InProgress], true)
  }

  /** The records after a completion, false when the claim was lost. */
  function Complete<T>(
    kind: Store<T>, records: map<string, Record<T>>, key: string, result: T): (map<string, Record<T>>, bool) {
    if kind.Durable? && !(key in records && records[key].InProgress?) then (records, false)
    else (records[key := Completed(Frozen(kind, result))], true)
  }

  class MemoryIdempotencyStore<T> {
    var records: map<string, Record<T>>

    constructor ()
      ensures records == map[]
    {
      records := map[];
    }

    method ClaimKey(key: string) returns (claimed: bool)
      modifies this
      ensures (records, claimed) == Claim(old(records), key)
    {
      if key in records {
        return false;
      }
      records := records[key := InProgress];
      claimed := true;
    }

    method Load(key: string) returns (record: Option<Record<T>>)
      ensures record == if key in records then Some(records[key]) else None
    {
      record := if key in records then Some(records[key]) else None;
    }

    method CompleteKey(key: string, result: T)
      modifies this
      ensures (records, true) == Complete(Memory, old(records), key, result)
    {
      records := records[key := Completed(result)];
    }
  }

  datatype Row<T> = Row(inProgress: bool, resultJson: Option<T>, createdAt: int, updatedAt: int)

  /** The table of the durable store: one row a key, conditional insert and update. */
  class D1IdempotencyStore<T> {
    const json: T -> T
    const nothing: T
    var rows: map<string, Row<T>>

    constructor (stringifyAndParse: T -> T, nullValue: T)
      ensures rows == map[] && json == stringifyAndParse && nothing == nullValue
    {
      json := stringifyAndParse;
      nothing := nullValue;
      rows := map[];
    }

    function RecordOf(row: Row<T>): Record<T> {
      if row.inProgress then InProgress else Completed(if row.resultJson.Some? then row.resultJson.value else nothing)
    }

    function View(): (r: map<string, Record<T>>)
      reads this
      ensures r.Keys == rows.Keys
    {
      map key | key in rows :: RecordOf(rows[key])
    }

    /** INSERT ... ON CONFLICT DO NOTHING. */
    method ClaimKey(key: string, now: int) returns (claimed: bool)
      modifies this
      ensures (View(), claimed) == Claim(old(View()), key)
    {
      claimed := key !in rows;
      if claimed {
        rows := rows[key := Row(true, None, now, now)];
        assert View() == old(View())[key := InProgress];
      }
    }

    method Load(key: string) returns (record: Option<Record<T>>)
      ensures record == if key in View() then Some(View()[key]) else None
    {
      record := if key in rows then Some(RecordOf(rows[key])) else None;
    }

    /** UPDATE ... WHERE status = 'in_progress'; false when no row changed. */
    method CompleteKey(key: string, result: T, now: int) returns (completed: bool)
      modifies this
      ensures (View(), completed) == Complete(Durable(json), old(View()), key, result)
    {
      completed := key in rows && rows[key].inProgress;
      if completed {
        rows := rows[key := Row(false, Some(json(result)), rows[key].createdAt, now)];
        assert View() == old(View())[key := Completed(json(result))];
      }
    }
  }

  // ---- one caller alone ----

  /** What a call of `run` ends with; `Conflict` is the error that asks for reconciliation. */
  datatype Ended<T> = Gave(result: T) | Conflict | EffectThrew | LostClaim

  /** `IdempotentExecutor.run` with no other caller around; `effect` is None when the effect throws. */
  method RunAlone<T>(store: MemoryIdempotencyStore<T>, key: string, effect: Option<T>)
    returns (ended: Ended<T>, started: bool)
    modifies store
    ensures started <==> key !in old(store.records)
    ensures key in old(store.records) ==>
              store.records == old(store.records)
              && ended == (if store.records[key].Completed? then Gave(store.records[key].result) else Conflict)
    ensures key !in old(store.records) ==>
              && store.records == old(store.records)[key := if effect.Some? then Completed(effect.value)
                                  else InProgress]
              && ended == if effect.Some? then Gave(effect.value) else EffectThrew
  {
    started := false;
    var existing := store.Load(key);
    if existing.Some? && existing.value.Completed? {
      return Gave(existing.value.result), false;
    }
    var claimed := store.ClaimKey(key);
    if !claimed {
      // The second load: with nobody else around it finds the record in progress again.
      var again := store.Load(key);
      assert again == existing;
      return Conflict, false;
    }
    started := true;
    if effect.None? {
      return EffectThrew, true;
    }
    store.CompleteKey(key, effect.value);
    ended := Gave(effect.value);
  }

  /**
    * The same over the durable store. A later call finds the stored form of the result; with nobody else around the
    * claim is never lost.
    */
  method RunAloneDurably<T>(store: D1IdempotencyStore<T>, key: string, effect: Option<T>, claimAt: int, completeAt: int)
    returns (ended: Ended<T>, started: bool)
    modifies store
    ensures started <==> key !in old(store.View())
    ensures key in old(store.View()) ==>
              store.View() == old(store.View())
              && ended == (if store.View()[key].Completed? then Gave(store.View()[key].result) else Conflict)
    ensures key !in old(store.View()) ==>
              && store.View()
                 == old(store.View())[key := if effect.Some? then Completed(store.json(effect.value)) else InProgress]
              && ended == if effect.Some? then Gave(effect.value) else EffectThrew
  {
    started := false;
    var existing := store.Load(key);
    if existing.Some? && existing.value.Completed? {
      return Gave(existing.value.result), false;
    }
    var claimed := store.ClaimKey(key, claimAt);
    if !claimed {
      var again := store.Load(key);
      assert again == existing;
      return Conflict, false;
    }
    started := true;
    if effect.None? {
      return EffectThrew, true;
    }
    var completed := store.CompleteKey(key, effect.value, completeAt);
    ended := if completed then Gave(effect.value) else LostClaim;
  }

  // ---- callers ----

  /** Where a caller of `IdempotentExecutor.run` is. */
  datatype Caller<T> =
    | Starting(key: string)
    | Claiming(key: string)
    | Rechecking(key: string)
    | Running(key: string)
    | Completing(key: string, result: T)
    | Returned(key: string, result: T)
    | Thrown(key: string)

  datatype World<!T> = World(
    kind: Store<T>, records: map<string, Record<T>>, callers: map<nat, Caller<T>>,
    started: seq<string>, failed: set<string>, lost: nat)

  datatype Event<T> =
    | Arrives(id: nat, key: string)
    | Advances(id: nat)
    | Succeeds(id: nat, result: T)
    | Fails(id: nat)
    | Vanishes(id: nat)

  /** One store operation of one caller. */
  function Advance<T>(w: World<T>, id: nat): World<T>
    requires id in w.callers
  {
    match w.callers[id]
    case Starting(key) =>
      if key in w.records && w.records[key].Completed? then
        w.(callers := w.callers[id := Returned(key, w.records[key].result)])
      else w.(callers := w.callers[id := Claiming(key)])
    case Claiming(key) =>
      var (records, claimed) := Claim(w.records, key);
      if claimed then w.(records := records, callers := w.callers[id := Running(key)],
                      started := w.started + [key])
      else w.(callers := w.callers[id := Rechecking(key)])
    case Rechecking(key) =>
      if key in w.records && w.records[key].Completed? then
        w.(callers := w.callers[id := Returned(key, w.records[key].result)])
      else w.(callers := w.callers[id := Thrown(key)])
    case Completing(key, result) =>
      var (records, completed) := Complete(w.kind, w.records, key, result);
      if completed then w.(records := records, callers := w.callers[id := Returned(key, result)])
      else w.(callers := w.callers[id := Thrown(key)], lost := w.lost + 1)
    case _ => w
  }

  function Step<T>(w: World<T>, e: Event<T>): World<T> {
    match e
    case Arrives(id, key) => if id in w.callers then w else w.(callers := w.callers[id := Starting(key)])
    case Advances(id) => if id in w.callers then Advance(w, id) else w
    case Succeeds(id, result) =>
      if id in w.callers && w.callers[id].Running? then
        w.(callers := w.callers[id := Completing(w.callers[id].key, result)])
      else w
    case Fails(id) =>
      if id in w.callers && w.callers[id].Running? then
        w.(callers := w.callers[id := Thrown(w.callers[id].key)], failed := w.failed + {w.callers[id].key})
      else w
    case Vanishes(id) => if id in w.callers && !w.callers[id].Returned? then w.(callers := w.callers - {id}) else w
  }

  function RunOf<T>(kind: Store<T>, events: seq<Event<T>>): World<T> {
    if events == [] then World(kind, map[], map[], [], {}, 0)
    else Step(RunOf(kind, events[..|events| - 1]), events[|events| - 1])
  }

  // ---- what every interleaving keeps ----

  predicate Active<T>(c: Caller<T>) { c.Running? || c.Completing? }

  /** One caller and the store agree. */
  predicate CallerKept<T>(w: World<T>, id: nat)
    requires id in w.callers
  {
    var c := w.callers[id];
    && (Active(c) ==> c.key in w.records && w.records[c.key].InProgress? && c.key !in w.failed)
    && (c.Rechecking? ==> c.key in w.records)
  }

  ghost predicate ReturnKept<T>(w: World<T>, id: nat)
    requires id in w.callers
  {
    var c := w.callers[id];
    c.Returned? ==>
      c.key in w.records && w.records[c.key].Completed? && Frozen(w.kind, c.result) == w.records[c.key].result
  }

  predicate OneActive<T>(w: World<T>) {
    forall a, b | a in w.callers && b in w.callers && a != b ::
      Active(w.callers[a]) && Active(w.callers[b]) ==> w.callers[a].key != w.callers[b].key
  }

  /** Exactly the claimed keys were started, each once. */
  ghost predicate StartedOnce<T>(w: World<T>) {
    && (forall i, j :: 0 <= i < j < |w.started| ==> w.started[i] != w.started[j])
    && (forall key :: key in w.started <==> key in w.records)
  }

  predicate FailuresKept<T>(w: World<T>) {
    forall key | key in w.failed :: key in w.records && w.records[key].InProgress?
  }

  /** Stored results are JSON forms already. */
  ghost predicate StoredFrozen<T>(w: World<T>) {
    forall key | key in w.records && w.records[key].Completed? ::
      Frozen(w.kind, w.records[key].result) == w.records[key].result
  }

  ghost predicate Kept<T>(w: World<T>) {
    && OneActive(w) && StartedOnce(w) && FailuresKept(w) && StoredFrozen(w) && w.lost == 0
    && (forall id | id in w.callers :: CallerKept(w, id) && ReturnKept(w, id))
  }

  /** A caller that moves on without running or completing an effect. */
  lemma MoveKeeps<T(!new)>(w: World<T>, id: nat, c: Caller<T>)
    requires Kept(w) && !Active(c)
    requires c.Rechecking? ==> c.key in w.records
    requires c.Returned? ==> c.key in w.records && w.records[c.key].Completed?
                             && Frozen(w.kind, c.result) == w.records[c.key].result
    ensures Kept(w.(callers := w.callers[id := c]))
  {
    hide StartedOnce, StoredFrozen, Frozen;
    var after := w.(callers := w.callers[id := c]);
    forall x | x in after.callers ensures CallerKept(after, x) && ReturnKept(after, x) {
      assert x != id ==> CallerKept(w, x) && ReturnKept(w, x);
    }
    SameRecords(w, after);
  }

  lemma SameRecords<T(!new)>(w: World<T>, after: World<T>)
    requires after.records == w.records && after.started == w.started && after.kind == w.kind
    ensures StartedOnce(w) ==> StartedOnce(after)
    ensures StoredFrozen(w) ==> StoredFrozen(after)
  {
  }

  /** A claim that wins: the key is new, so nobody else is active on it. */
  lemma ClaimKeeps<T(!new)>(w: World<T>, id: nat, key: string)
    requires Kept(w) && id in w.callers && key !in w.records
    ensures Kept(w.(records := w.records[key := InProgress], callers := w.callers[id := Running(key)],
                 started := w.started + [key]))
  {
    hide Frozen;
    var after := w.(records := w.records[key := InProgress], callers := w.callers[id := Running(key)],
    started := w.started + [key]);
    assert key !in w.started;
    forall x | x in after.callers ensures CallerKept(after, x) && ReturnKept(after, x) {
      assert x != id ==> CallerKept(w, x) && ReturnKept(w, x);
    }
    forall x | x in w.callers && Active(w.callers[x]) ensures w.callers[x].key != key {
      assert CallerKept(w, x);
    }
    forall k ensures k in after.started <==> k in after.records {
      assert k in after.started <==> k in w.started || k == key;
    }
  }

  /** A completion: the claim is still there, since nobody else can complete it. */
  lemma CompleteKeeps<T(!new)>(w: World<T>, id: nat)
    requires Kept(w) && JsonStable(w.kind) && id in w.callers && w.callers[id].Completing?
    ensures var key, result := w.callers[id].key, w.callers[id].result;
            && Complete(w.kind, w.records, key, result) == (w.records[key := Completed(Frozen(w.kind, result))], true)
            && w.records[key].InProgress?
            && Kept(w.(records := w.records[key := Completed(Frozen(w.kind, result))],
                    callers := w.callers[id := Returned(key, result)]))
  {
    assert CallerKept(w, id);
    var key, result := w.callers[id].key, w.callers[id].result;
    var after := w.(records := w.records[key := Completed(Frozen(w.kind, result))],
    callers := w.callers[id := Returned(key, result)]);
    FrozenTwice(w.kind, result);
    hide Frozen, StartedOnce;
    forall x | x in after.callers ensures CallerKept(after, x) && ReturnKept(after, x) {
      assert x != id ==> CallerKept(w, x) && ReturnKept(w, x);
    }
    assert StartedOnce(after) by { SameKeys(w, after); }
  }

  lemma FrozenTwice<T(!new)>(kind: Store<T>, result: T)
    requires JsonStable(kind)
    ensures Frozen(kind, Frozen(kind, result)) == Frozen(kind, result)
  {
  }

  lemma SameKeys<T(!new)>(w: World<T>, after: World<T>)
    requires StartedOnce(w) && after.records.Keys == w.records.Keys && after.started == w.started
    ensures StartedOnce(after)
  {
    forall key ensures key in after.started <==> key in after.records {
      assert key in after.records.Keys <==> key in w.records.Keys;
    }
  }

  /** A failed effect: its claim stays, and nobody else was active on the key. */
  lemma FailKeeps<T(!new)>(w: World<T>, id: nat)
    requires Kept(w) && id in w.callers && w.callers[id].Running?
    ensures Kept(w.(callers := w.callers[id := Thrown(w.callers[id].key)], failed := w.failed + {w.callers[id].key}))
  {
    hide Frozen, StartedOnce, StoredFrozen;
    var key := w.callers[id].key;
    var after := w.(callers := w.callers[id := Thrown(key)], failed := w.failed + {key});
    assert CallerKept(w, id);
    forall x | x in after.callers ensures CallerKept(after, x) && ReturnKept(after, x) {
      assert x != id ==> CallerKept(w, x) && ReturnKept(w, x);
    }
    SameRecords(w, after);
  }

  lemma ResultKeeps<T(!new)>(w: World<T>, id: nat, result: T)
    requires Kept(w) && id in w.callers && w.callers[id].Running?
    ensures Kept(w.(callers := w.callers[id := Completing(w.callers[id].key, result)]))
  {
    hide Frozen, StartedOnce, StoredFrozen;
    var after := w.(callers := w.callers[id := Completing(w.callers[id].key, result)]);
    assert CallerKept(w, id);
    forall x | x in after.callers ensures CallerKept(after, x) && ReturnKept(after, x) {
      assert x != id ==> CallerKept(w, x) && ReturnKept(w, x);
    }
    SameRecords(w, after);
  }

  lemma VanishKeeps<T(!new)>(w: World<T>, id: nat)
    requires Kept(w)
    ensures Kept(w.(callers := w.callers - {id}))
  {
    hide Frozen, StartedOnce, StoredFrozen;
    var after := w.(callers := w.callers - {id});
    forall x | x in after.callers ensures CallerKept(after, x) && ReturnKept(after, x) {
      assert CallerKept(w, x) && ReturnKept(w, x);
    }
    SameRecords(w, after);
  }

  lemma AdvanceKeeps<T(!new)>(w: World<T>, id: nat)
    requires Kept(w) && JsonStable(w.kind) && id in w.callers
    ensures Kept(Advance(w, id)) && Advance(w, id).kind == w.kind
    ensures forall key | key in w.records && w.records[key].Completed? ::
              key in Advance(w, id).records && Advance(w, id).records[key] == w.records[key]
  {
    hide OneActive, StartedOnce, FailuresKept, StoredFrozen, Complete, Frozen;
    assert CallerKept(w, id);
    var c := w.callers[id];
    if c.Claiming? && c.key !in w.records {
      ClaimKeeps(w, id, c.key);
    } else if c.Completing? {
      CompleteKeeps(w, id);
    } else if !Active(c) {
      var key := c.key;
      if key in w.records && w.records[key].Completed? {
        StoredIsFrozen(w, key);
        MoveKeeps(w, id, Returned(key, w.records[key].result));
      }
      MoveKeeps(w, id, Claiming(key));
      MoveKeeps(w, id, Thrown(key));
      if key in w.records {
        MoveKeeps(w, id, Rechecking(key));
      }
    }
  }

  lemma StoredIsFrozen<T(!new)>(w: World<T>, key: string)
    requires StoredFrozen(w) && key in w.records && w.records[key].Completed?
    ensures Frozen(w.kind, w.records[key].result) == w.records[key].result
  {
  }

  lemma StepKeeps<T(!new)>(w: World<T>, e: Event<T>)
    requires Kept(w) && JsonStable(w.kind)
    ensures Kept(Step(w, e)) && Step(w, e).kind == w.kind
    ensures forall key | key in w.records && w.records[key].Completed? ::
              key in Step(w, e).records && Step(w, e).records[key] == w.records[key]
  {
    hide Kept, Advance;
    match e
    case Arrives(id, key) => MoveKeeps(w, id, Starting(key));
    case Advances(id) =>
      if id in w.callers {
        AdvanceKeeps(w, id);
      }
    case Succeeds(id, result) =>
      if id in w.callers && w.callers[id].Running? {
        ResultKeeps(w, id, result);
      }
    case Fails(id) =>
      if id in w.callers && w.callers[id].Running? {
        FailKeeps(w, id);
      }
    case Vanishes(id) => VanishKeeps(w, id);
  }

  lemma {:induction false} RunKeeps<T(!new)>(kind: Store<T>, events: seq<Event<T>>)
    requires JsonStable(kind)
    ensures Kept(RunOf(kind, events)) && RunOf(kind, events).kind == kind
    decreases |events|
  {
    hide Kept, Step;
    if events == [] {
      assert Kept(RunOf(kind, events)) by { StartKept(kind); }
    } else {
      RunKeeps(kind, events[..|events| - 1]);
      StepKeeps(RunOf(kind, events[..|events| - 1]), events[|events| - 1]);
    }
  }

  lemma StartKept<T(!new)>(kind: Store<T>)
    ensures Kept<T>(World(kind, map[], map[], [], {}, 0))
  {
  }

  /** A run that goes on: completed records stay, later on as well. */
  lemma {:induction false} CompletedForever<T(!new)>(
    kind: Store<T>, events: seq<Event<T>>, more: seq<Event<T>>, key: string)
    requires JsonStable(kind)
    requires var w := RunOf(kind, events); key in w.records && w.records[key].Completed?
    ensures var w := RunOf(kind, events);
            var later := RunOf(kind, events + more);
            key in later.records && later.records[key] == w.records[key]
    decreases |more|
  {
    hide Step, Kept;
    if more == [] {
      assert events + more == events;
    } else {
      var n := |more| - 1;
      CompletedForever(kind, events, more[..n], key);
      assert (events + more)[..|events + more| - 1] == events + more[..n]
             && (events + more)[|events + more| - 1] == more[n];
      RunKeeps(kind, events + more[..n]);
      StepKeeps(RunOf(kind, events + more[..n]), more[n]);
    }
  }

  /** The caller returned what the store holds. */
  predicate ReturnedStored<T(==)>(w: World<T>, id: nat)
    requires id in w.callers && w.callers[id].Returned?
  {
    var c := w.callers[id];
    c.key in w.records && w.records[c.key] == Completed(c.result)
  }

  /**
    * Under every interleaving: the effect of a key starts at most once; in the durable store the stored result is the
    * JSON form of every returned value, and the value itself exactly when it is its own JSON form; after a failed
    * effect the key never completes and nobody returns; and no completion finds its claim lost.
    */
  lemma EffectsAreIdempotent<T(!new)>(kind: Store<T>, events: seq<Event<T>>)
    requires JsonStable(kind)
    ensures var w := RunOf(kind, events);
            && (forall i, j :: 0 <= i < j < |w.started| ==> w.started[i] != w.started[j])
            && (forall id | id in w.callers && w.callers[id].Returned? ::
                  var c := w.callers[id];
                  && c.key in w.records && w.records[c.key] == Completed(Frozen(kind, c.result)) && c.key !in w.failed
                  && (ReturnedStored(w, id) <==> kind.Memory? || kind.json(c.result) == c.result))
            && (forall key | key in w.failed :: key in w.records && w.records[key].InProgress? && key in w.started)
            && w.lost == 0
  {
    RunKeeps(kind, events);
    var w := RunOf(kind, events);
    hide RunOf;
    forall id | id in w.callers && w.callers[id].Returned?
      ensures var c := w.callers[id];
              c.key in w.records && w.records[c.key] == Completed(Frozen(kind, c.result)) && c.key !in w.failed
    {
      assert ReturnKept(w, id);
    }
  }

  /** Any two callers of a key that return, return values with the same stored form. */
  lemma ReturnsAgree<T(!new)>(kind: Store<T>, events: seq<Event<T>>, a: nat, b: nat)
    requires JsonStable(kind)
    requires var w := RunOf(kind, events);
             && a in w.callers && w.callers[a].Returned? && b in w.callers && w.callers[b].Returned?
             && w.callers[a].key == w.callers[b].key
    ensures var w := RunOf(kind, events); Frozen(kind, w.callers[a].result) == Frozen(kind, w.callers[b].result)
  {
    hide RunOf, Frozen;
    EffectsAreIdempotent(kind, events);
  }

  // ---- a caller of a completed key gets its result ----

  /** The caller has not run the effect, and has not ended. */
  predicate Asking<T>(c: Caller<T>) { c.Starting? || c.Claiming? || c.Rechecking? }

  /** How many of its own steps a caller of a completed key needs. */
  function StepsLeft<T>(c: Caller<T>): nat { if c.Claiming? then 2 else 1 }

  function OwnSteps<T>(events: seq<Event<T>>, id: nat): nat {
    if events == [] then 0
    else
      var last := events[|events| - 1];
      OwnSteps(events[..|events| - 1], id) + (if last.Advances? && last.id == id then 1 else 0)
  }

  predicate Stays<T>(events: seq<Event<T>>, id: nat) {
    forall i | 0 <= i < |events| :: !(events[i].Vanishes? && events[i].id == id)
  }

  /** The caller has returned the stored result, or the steps it made are less than it needs. */
  predicate OnItsWay<T(==)>(w: World<T>, id: nat, key: string, stored: T, needed: nat, made: nat) {
    && id in w.callers
    && (|| w.callers[id] == Returned(key, stored)
        || (Asking(w.callers[id]) && w.callers[id].key == key && made + StepsLeft(w.callers[id]) <= needed))
  }

  /** One step of anybody brings the caller nearer to the stored result or leaves it where it is. */
  lemma StepNearer<T(!new)>(w: World<T>, e: Event<T>, id: nat, key: string, stored: T, needed: nat, made: nat)
    requires OnItsWay(w, id, key, stored, needed, made) && !(e.Vanishes? && e.id == id)
    requires key in w.records && w.records[key] == Completed(stored)
    ensures OnItsWay(Step(w, e), id, key, stored, needed, made + (if e.Advances? && e.id == id then 1 else 0))
  {
    hide Complete, Frozen;
  }

  /**
    * Once a key is completed, every caller of it that is still asking returns the stored result after at most two steps
    * of its own, whatever other callers do in between.
    */
  lemma {:induction false} AskingGetsStored<T(!new)>(
    kind: Store<T>, events: seq<Event<T>>, more: seq<Event<T>>, id: nat, key: string)
    requires JsonStable(kind) && Stays(more, id)
    requires var w := RunOf(kind, events);
             && key in w.records && w.records[key].Completed?
             && id in w.callers && Asking(w.callers[id]) && w.callers[id].key == key
    ensures var w := RunOf(kind, events);
            var later := RunOf(kind, events + more);
            && OnItsWay(later, id, key, w.records[key].result, StepsLeft(w.callers[id]), OwnSteps(more, id))
            && (OwnSteps(more, id) >= StepsLeft(w.callers[id]) ==>
                  later.callers[id] == Returned(key, w.records[key].result))
    decreases |more|
  {
    hide Step, RunOf;
    if more == [] {
      assert events + more == events;
    } else {
      var n := |more| - 1;
      AskingGetsStored(kind, events, more[..n], id, key);
      CompletedForever(kind, events, more[..n], key);
      OneMore(kind, events + more[..n], more[n]);
      assert events + more == events + more[..n] + [more[n]];
      var w := RunOf(kind, events);
      StepNearer(RunOf(kind, events + more[..n]), more[n], id, key, w.records[key].result,
                 StepsLeft(w.callers[id]), OwnSteps(more[..n], id));
    }
  }

  /**
    * In every run, a caller ends in an error only because its own effect failed, or while the record of its key is in
    * progress.
    */
  lemma ThrownOnlyInProgress<T(!new)>(kind: Store<T>, events: seq<Event<T>>, e: Event<T>, id: nat)
    requires JsonStable(kind)
    requires var w, after := RunOf(kind, events), Step(RunOf(kind, events), e);
             id in after.callers && after.callers[id].Thrown? && !(id in w.callers && w.callers[id].Thrown?)
    ensures var w := RunOf(kind, events);
            && id in w.callers && w.callers[id].key in w.records && w.records[w.callers[id].key].InProgress?
            && ((e == Fails(id) && w.callers[id].Running?) || (e == Advances(id) && w.callers[id].Rechecking?))
  {
    hide RunOf, Frozen;
    var w := RunOf(kind, events);
    RunKeeps(kind, events);
    assert CallerKept(w, id);
    if w.callers[id].Completing? {
      CompleteKeeps(w, id);
    }
  }

  /** A caller that runs alone on a new key, in any run: it claims, runs the effect, completes and returns its value. */
  lemma SoloCallerReturns<T(!new)>(kind: Store<T>, events: seq<Event<T>>, id: nat, key: string, v: T)
    requires var w := RunOf(kind, events); id !in w.callers && key !in w.records
    ensures var w := RunOf(kind, events);
            var call := [Arrives(id, key), Advances(id), Advances(id), Succeeds(id, v), Advances(id)];
            var after := RunOf(kind, events + call);
            && after.callers == w.callers[id := Returned(key, v)]
            && after.records == w.records[key := Completed(Frozen(kind, v))] && after.started == w.started + [key]
  {
    hide Frozen;
    KindStays(kind, events);
    var e1, e2 := events + [Arrives(id, key)], events + [Arrives(id, key)] + [Advances(id)];
    var e3, e4 := e2 + [Advances(id)], e2 + [Advances(id)] + [Succeeds(id, v)];
    OneMore(kind, events, Arrives(id, key));
    OneMore(kind, e1, Advances(id));
    OneMore(kind, e2, Advances(id));
    OneMore(kind, e3, Succeeds(id, v));
    OneMore(kind, e4, Advances(id));
    hide RunOf;
    var w := RunOf(kind, events);
    assert RunOf(kind, e1) == w.(callers := w.callers[id := Starting(key)]);
    assert RunOf(kind, e2) == w.(callers := w.callers[id := Claiming(key)]);
    assert RunOf(kind, e3) == w.(callers := w.callers[id := Running(key)], records := w.records[key := InProgress],
                                 started := w.started + [key]);
    assert RunOf(kind, e4).callers == w.callers[id := Completing(key, v)];
    assert e4 + [Advances(id)]
        == events + [Arrives(id, key), Advances(id), Advances(id), Succeeds(id, v), Advances(id)];
  }

  lemma {:induction false} KindStays<T(!new)>(kind: Store<T>, events: seq<Event<T>>)
    ensures RunOf(kind, events).kind == kind
    decreases |events|
  {
    hide Complete, Claim;
    if events != [] {
      KindStays(kind, events[..|events| - 1]);
    }
  }

  // ---- what callers of the durable store see ----

  /** Of two callers of a key that returned, one returned what the store holds: the other may have run the effect. */
  predicate OneRanIt<T(==)>(w: World<T>) {
    forall a, b | a in w.callers && b in w.callers && a != b && w.callers[a].Returned? && w.callers[b].Returned? ::
      w.callers[a].key == w.callers[b].key ==> ReturnedStored(w, a) || ReturnedStored(w, b)
  }

  lemma ReturnKeepsOne<T(!new)>(w: World<T>, id: nat, records: map<string, Record<T>>, result: T)
    requires OneRanIt(w) && id in w.callers
    requires forall key | key in w.records && w.records[key].Completed? ::
               key in records && records[key] == w.records[key]
    requires records[w.callers[id].key := Completed(result)] == records
             || forall x | x in w.callers && w.callers[x].Returned? :: w.callers[x].key != w.callers[id].key
    ensures OneRanIt(w.(records := records, callers := w.callers[id := Returned(w.callers[id].key, result)]))
  {
    var after := w.(records := records, callers := w.callers[id := Returned(w.callers[id].key, result)]);
    forall x | x in w.callers && x != id && w.callers[x].Returned? && ReturnedStored(w, x)
      ensures ReturnedStored(after, x)
    {
    }
  }

  lemma OthersKeepOne<T(!new)>(w: World<T>, after: World<T>)
    requires OneRanIt(w)
    requires forall key | key in w.records && w.records[key].Completed? ::
               key in after.records && after.records[key] == w.records[key]
    requires forall x | x in after.callers && after.callers[x].Returned? ::
               x in w.callers && w.callers[x] == after.callers[x]
    ensures OneRanIt(after)
  {
    forall x | x in after.callers && after.callers[x].Returned? && ReturnedStored(w, x)
      ensures ReturnedStored(after, x)
    {
    }
  }

  lemma NobodyReturnedYet<T(!new)>(w: World<T>, id: nat)
    requires Kept(w) && id in w.callers && Active(w.callers[id])
    ensures forall x | x in w.callers && w.callers[x].Returned? :: w.callers[x].key != w.callers[id].key
  {
    assert CallerKept(w, id);
    forall x | x in w.callers && w.callers[x].Returned? ensures w.callers[x].key != w.callers[id].key {
      assert ReturnKept(w, x);
    }
  }

  lemma StepKeepsOne<T(!new)>(w: World<T>, e: Event<T>)
    requires Kept(w) && JsonStable(w.kind) && OneRanIt(w)
    ensures OneRanIt(Step(w, e))
  {
    hide Kept, OneRanIt, Complete, Frozen;
    StepKeeps(w, e);
    if e.Advances? && e.id in w.callers {
      var c := w.callers[e.id];
      if c.Completing? {
        CompleteKeeps(w, e.id);
        NobodyReturnedYet(w, e.id);
        ReturnKeepsOne(w, e.id, w.records[c.key := Completed(Frozen(w.kind, c.result))], c.result);
      } else if (c.Starting? || c.Rechecking?) && c.key in w.records && w.records[c.key].Completed? {
        ReturnKeepsOne(w, e.id, w.records, w.records[c.key].result);
      } else {
        OthersKeepOne(w, Step(w, e));
      }
    } else {
      OthersKeepOne(w, Step(w, e));
    }
  }

  lemma {:induction false} RunKeepsOne<T(!new)>(kind: Store<T>, events: seq<Event<T>>)
    requires JsonStable(kind)
    ensures OneRanIt(RunOf(kind, events))
    decreases |events|
  {
    hide Step, Kept;
    if events != [] {
      var n := |events| - 1;
      RunKeepsOne(kind, events[..n]);
      RunKeeps(kind, events[..n]);
      StepKeepsOne(RunOf(kind, events[..n]), events[n]);
    }
  }

  /** Two callers of a key return the same value exactly when both values are stored as they are. */
  lemma ReturnsAreEqual<T(!new)>(kind: Store<T>, events: seq<Event<T>>, a: nat, b: nat)
    requires JsonStable(kind) && a != b
    requires var w := RunOf(kind, events);
             && a in w.callers && w.callers[a].Returned? && b in w.callers && w.callers[b].Returned?
             && w.callers[a].key == w.callers[b].key
    ensures var x, y := RunOf(kind, events).callers[a].result, RunOf(kind, events).callers[b].result;
            x == y <==> kind.Memory? || (kind.json(x) == x && kind.json(y) == y)
  {
    hide RunOf, Frozen;
    RunKeepsOne(kind, events);
    EffectsAreIdempotent(kind, events);
    ReturnsAgree(kind, events, a, b);
    var w := RunOf(kind, events);
    assert ReturnedStored(w, a) || ReturnedStored(w, b);
  }

  /** A run of the durable store in which the first caller returns its own value and a later one its JSON form. */
  lemma LaterCallerGetsJson<T(!new)>(json: T -> T, v: T, key: string)
    requires json(v) != v
    ensures var first := [Arrives(0, key), Advances(0), Advances(0), Succeeds(0, v), Advances(0)];
            var w := RunOf(Durable(json), first + [Arrives(1, key), Advances(1)]);
            && w.callers == map[0 := Returned(key, v), 1 := Returned(key, json(v))]
            && w.callers[0].result != w.callers[1].result
  {
    var kind: Store<T> := Durable(json);
    var none: seq<Event<T>> := [];
    var first := [Arrives(0, key), Advances(0), Advances(0), Succeeds(0, v), Advances(0)];
    assert RunOf(kind, none) == World(kind, map[], map[], [], {}, 0) && none + first == first;
    SoloCallerReturns(kind, none, 0, key, v);
    hide RunOf;
    OneMore(kind, first, Arrives(1, key));
    OneMore(kind, first + [Arrives(1, key)], Advances(1));
    assert first + [Arrives(1, key)] + [Advances(1)] == first + [Arrives(1, key), Advances(1)];
  }

  lemma OneMore<T(!new)>(kind: Store<T>, events: seq<Event<T>>, e: Event<T>)
    ensures RunOf(kind, events + [e]) == Step(RunOf(kind, events), e)
  {
    hide Step;
    assert (events + [e])[..|events|] == events;
  }
}
