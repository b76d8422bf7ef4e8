/**
  * The two ledgers of a turn agree: rebuilding from the labelled payloads gives the chunk-to-label
  * bijection, documents, sections and texts that the live searches recorded.
  */
module LedgerAgreement {
  import opened Wrappers
  import opened Text
  import opened Evidence

  predicate Trimmed(hit: SearchHit) { hit.chunkId != "" && Trim(hit.chunkId) == hit.chunkId }

  /** The chunk of every entry keeps its place. */
  predicate Extends(more: seq<Entry>, entries: seq<Entry>) {
    && |entries| <= |more|
    && forall i :: 0 <= i < |entries| ==> more[i].identity.chunkId == entries[i].identity.chunkId
  }

  /** Each hit carries the label of the entry that holds its chunk. */
  predicate Recorded(entries: seq<Entry>, hits: seq<SearchHit>, numbers: seq<nat>) {
    && |hits| == |numbers|
    && forall i :: 0 <= i < |hits| ==>
                     1 <= numbers[i] <= |entries| && entries[numbers[i] - 1].identity.chunkId == hits[i].chunkId
  }

  predicate WellKept(entries: seq<Entry>) { Sequential(entries) && DistinctKeys(entries) }

  // ---- one identity ----

  lemma SequentialMax(entries: seq<Entry>)
    requires Sequential(entries)
    ensures MaxLabel(entries) == |entries|
  {
    if entries != [] {
      SequentialMax(entries[..|entries| - 1]);
    }
  }

  lemma SequentialFind(entries: seq<Entry>, number: nat)
    requires Sequential(entries) && number >= 1
    ensures FindLabel(entries, number) == if number <= |entries| then Some(number - 1) else None
  {
    if 1 <= number <= |entries| {
      assert entries[number - 1].number == number;
    }
  }

  /** What recording one unlabelled identity does. */
  predicate AppendsOne(before: Ledger, identity: Identity, a: Added) {
    && WellKept(a.ledger.entries) && Extends(a.ledger.entries, before.entries)
    && a.number.Some? && 1 <= a.number.value <= |a.ledger.entries|
    && a.ledger.entries[a.number.value - 1].identity.chunkId == identity.chunkId
    && |a.ledger.entries| <= |before.entries| + 1
    && a.ledger == before.(entries := a.ledger.entries)
  }

  lemma NoLabelParsesToNone()
    ensures ParseCitationLabel(None) == None
  {
  }

  /** An unlabelled identity is recorded under the next label, or found under the label it has. */
  lemma AddLive(ledger: Ledger, identity: Identity)
    requires WellKept(ledger.entries) && identity.chunkId != ""
    ensures AppendsOne(ledger, identity, AddIdentity(ledger, identity, None))
  {
    hide ParseCitationLabel, FindLabel, FindChunk, MaxLabel, WellKept, Extends;
    NoLabelParsesToNone();
    WellKeptIsSequential(ledger.entries);
    SequentialMax(ledger.entries);
    if FindChunk(ledger.entries, identity.chunkId).Some? {
      FillKeeps(ledger.entries, FindChunk(ledger.entries, identity.chunkId).value, identity);
    } else {
      PushKeeps(ledger.entries, identity);
    }
  }

  lemma WellKeptIsSequential(entries: seq<Entry>)
    requires WellKept(entries)
    ensures Sequential(entries)
  {
  }

  lemma FillKeeps(entries: seq<Entry>, k: nat, identity: Identity)
    requires WellKept(entries) && k < |entries|
    ensures var after := entries[k := FilledEntry(entries[k], identity)];
            WellKept(after) && Extends(after, entries)
  {
    var after := entries[k := FilledEntry(entries[k], identity)];
    assert forall i :: 0 <= i < |after| ==>
                         after[i].number == entries[i].number
                         && after[i].identity.chunkId == entries[i].identity.chunkId;
  }

  lemma PushKeeps(entries: seq<Entry>, identity: Identity)
    requires WellKept(entries) && forall i :: 0 <= i < |entries| ==> entries[i].identity.chunkId != identity.chunkId
    ensures var after := entries + [Entry(|entries| + 1, identity)];
            WellKept(after) && Extends(after, entries)
  {
  }

  /** Replaying the identity with the label the live ledger gave it has the same effect, with no conflict. */
  lemma AddReplays(ledger: Ledger, identity: Identity)
    requires WellKept(ledger.entries) && identity.chunkId != ""
    ensures var a := AddIdentity(ledger, identity, None);
            a.number.Some? && AddIdentity(ledger, identity, Some(LabelText(a.number.value))) == a
  {
    hide ParseCitationLabel, LabelText, FindLabel, FindChunk, MaxLabel;
    NoLabelParsesToNone();
    var a := AddIdentity(ledger, identity, None);
    AddLive(ledger, identity);
    SequentialMax(ledger.entries);
    LabelRoundTrip(a.number.value);
    SequentialFind(ledger.entries, a.number.value);
  }

  /** A citation that names a recorded chunk under its own label changes nothing. */
  lemma CitationChangesNothing(ledger: Ledger, identity: Identity, number: nat)
    requires WellKept(ledger.entries) && identity.chunkId != "" && identity.text == ""
    requires 1 <= number <= |ledger.entries| && ledger.entries[number - 1].identity.chunkId == identity.chunkId
    ensures AddIdentity(ledger, identity, Some(LabelText(number))).ledger == ledger
  {
    hide ParseCitationLabel, LabelText, FindLabel, FindChunk;
    LabelRoundTrip(number);
    SequentialFind(ledger.entries, number);
    var k := FindChunk(ledger.entries, identity.chunkId).value;
    assert k == number - 1;
    assert ledger.entries[k := ledger.entries[k]] == ledger.entries;
  }

  // ---- one search ----

  lemma HitIdentityReadsBack(hit: SearchHit, number: nat)
    requires Trimmed(hit)
    ensures IdentityFromHit(LabelledHit(hit, number)) == Some(HitIdentity(hit))
    ensures HitLabel(LabelledHit(hit, number)) == LabelledCitation(hit, number).labelText == Some(LabelText(number))
    ensures IdentityFromCitation(LabelledCitation(hit, number))
         == Some(Identity(hit.chunkId, hit.documentId, None, "", ""))
  {
  }

  lemma RecordedCons(entries: seq<Entry>, hits: seq<SearchHit>, numbers: seq<nat>)
    requires hits != [] && |hits| == |numbers| && Recorded(entries, hits[1..], numbers[1..])
    requires 1 <= numbers[0] <= |entries| && entries[numbers[0] - 1].identity.chunkId == hits[0].chunkId
    ensures Recorded(entries, hits, numbers)
  {
    forall i | 0 <= i < |hits|
      ensures 1 <= numbers[i] <= |entries| && entries[numbers[i] - 1].identity.chunkId == hits[i].chunkId
    {
      if i > 0 {
        assert hits[i] == hits[1..][i - 1] && numbers[i] == numbers[1..][i - 1];
      }
    }
  }

  lemma {:induction false} AppendKeeps(ledger: Ledger, hits: seq<SearchHit>)
    requires WellKept(ledger.entries) && forall h | h in hits :: h.chunkId != ""
    ensures var r := AppendHits(ledger, hits);
            && WellKept(r.0.entries) && Extends(r.0.entries, ledger.entries) && r.0 == ledger.(entries := r.0.entries)
            && r.1.Some? && Recorded(r.0.entries, hits, r.1.value)
            && |r.0.entries| <= |ledger.entries| + |hits|
    decreases |hits|
  {
    hide AddIdentity, WellKept, Recorded;
    if hits == [] {
      NothingRecorded(ledger.entries);
    } else {
      var added := AddIdentity(ledger, HitIdentity(hits[0]), None);
      AddLive(ledger, HitIdentity(hits[0]));
      AppendKeeps(added.ledger, hits[1..]);
      var r := AppendHits(added.ledger, hits[1..]);
      var numbers := [added.number.value] + r.1.value;
      assert numbers[1..] == r.1.value;
      RecordedCons(r.0.entries, hits, numbers);
    }
  }

  lemma NothingRecorded(entries: seq<Entry>)
    ensures Recorded(entries, [], [])
  {
  }

  /** What is recorded depends on the entries alone. */
  lemma SameEntriesAddAlike(live: Ledger, rebuilt: Ledger, identity: Identity)
    requires rebuilt.entries == live.entries && WellKept(live.entries) && identity.chunkId != ""
    ensures var added := AddIdentity(live, identity, None);
            AddIdentity(rebuilt, identity, None) == Added(rebuilt.(entries := added.ledger.entries), added.number)
  {
    hide ParseCitationLabel;
    NoLabelParsesToNone();
  }

  lemma {:induction false} HitsAgree(live: Ledger, rebuilt: Ledger, hits: seq<SearchHit>)
    requires WellKept(live.entries) && rebuilt.entries == live.entries
    requires forall h | h in hits :: Trimmed(h)
    ensures var r := AppendHits(live, hits);
            r.1.Some? && IngestHits(rebuilt, HitsJson(hits, r.1.value)) == rebuilt.(entries := r.0.entries)
    decreases |hits|
  {
    hide AddIdentity, WellKept, Recorded, LabelledHit, IdentityFromHit, HitLabel;
    AppendKeeps(live, hits) by { assert forall h | h in hits :: Trimmed(h); }
    if hits != [] {
      assert Trimmed(hits[0]);
      var identity := HitIdentity(hits[0]);
      var added := AddIdentity(live, identity, None);
      var again := AddIdentity(rebuilt, identity, None);
      AddLive(live, identity);
      AddReplays(rebuilt, identity);
      SameEntriesAddAlike(live, rebuilt, identity);
      HitIdentityReadsBack(hits[0], added.number.value);
      HitsAgree(added.ledger, again.ledger, hits[1..]);
      var numbers := AppendHits(live, hits).1.value;
      assert HitsJson(hits, numbers)[1..] == HitsJson(hits[1..], numbers[1..]);
    }
  }

  lemma TrimmedMeans(hit: SearchHit)
    requires Trimmed(hit)
    ensures hit.chunkId != ""
  {
  }

  lemma RecordedParts(entries: seq<Entry>, hits: seq<SearchHit>, numbers: seq<nat>)
    requires Recorded(entries, hits, numbers) && hits != []
    ensures |hits| == |numbers| && Recorded(entries, hits[1..], numbers[1..])
    ensures 1 <= numbers[0] <= |entries| && entries[numbers[0] - 1].identity.chunkId == hits[0].chunkId
  {
    forall i | 0 <= i < |hits| - 1
      ensures 1 <= numbers[1..][i] <= |entries| && entries[numbers[1..][i] - 1].identity.chunkId == hits[1..][i].chunkId
    {
      assert numbers[1..][i] == numbers[i + 1] && hits[1..][i] == hits[i + 1];
    }
  }

  lemma {:induction false} CitationsAgree(ledger: Ledger, hits: seq<SearchHit>, numbers: seq<nat>)
    requires WellKept(ledger.entries) && Recorded(ledger.entries, hits, numbers)
    requires forall h | h in hits :: Trimmed(h)
    ensures IngestCitations(ledger, CitationsJson(hits, numbers)) == ledger
    decreases |hits|
  {
    hide AddIdentity, WellKept, LabelledCitation, IdentityFromCitation, Recorded, Trimmed;
    if hits != [] {
      RecordedParts(ledger.entries, hits, numbers);
      TrimmedMeans(hits[0]);
      HitIdentityReadsBack(hits[0], numbers[0]);
      CitationChangesNothing(ledger, Identity(hits[0].chunkId, hits[0].documentId, None, "", ""), numbers[0]);
      assert CitationsJson(hits, numbers)[1..] == CitationsJson(hits[1..], numbers[1..]);
      CitationsAgree(ledger, hits[1..], numbers[1..]);
    }
  }

  lemma SomethingRecorded(entries: seq<Entry>, hits: seq<SearchHit>, numbers: seq<nat>)
    requires Recorded(entries, hits, numbers)
    ensures hits != [] ==> entries != []
  {
    if hits != [] {
      assert numbers[0] <= |entries|;
    }
  }

  /** A search that returned: the payload it leaves rebuilds the entries the live ledger holds. */
  lemma SearchAgrees(live: Ledger, rebuilt: Ledger, outcome: SearchOutcome)
    requires WellKept(live.entries) && rebuilt.entries == live.entries
    requires outcome.Returned? && forall h | h in outcome.hits :: Trimmed(h)
    ensures var (after, payload) := Execute(live, outcome);
            var again := Ingest(rebuilt, Some(payload));
            && payload.Results? && WellKept(after.entries) && again.entries == after.entries
            && Extends(after.entries, live.entries)
            && after.labelConflict == live.labelConflict && again.labelConflict == rebuilt.labelConflict
            && after.searchError == live.searchError && again.searchError == rebuilt.searchError
            && again.successfulSearchCount == rebuilt.successfulSearchCount + 1
            && (again.emptyOrInsufficient <==>
                if outcome.hits == [] then live.entries == [] || rebuilt.emptyOrInsufficient else false)
            && (after.entries == [] <==> live.entries == [] && outcome.hits == [])
  {
    hide AddIdentity, WellKept, IngestHits, IngestCitations, AppendHits, HitsJson, CitationsJson, Recorded;
    var counted := if outcome.vectorFailed then live.(vectorDegradedCount := live.vectorDegradedCount + 1) else live;
    AppendKeeps(counted, outcome.hits);
    var numbers := AppendHits(counted, outcome.hits).1.value;
    var recounted := rebuilt.(successfulSearchCount := rebuilt.successfulSearchCount + 1);
    HitsAgree(counted, recounted, outcome.hits);
    CitationsAgree(recounted.(entries := AppendHits(counted, outcome.hits).0.entries), outcome.hits, numbers);
    SomethingRecorded(AppendHits(counted, outcome.hits).0.entries, outcome.hits, numbers);
  }

  // ---- a turn ----

  predicate AllReturned(outcomes: seq<SearchOutcome>) { forall o | o in outcomes :: o.Returned? }

  predicate AllTrimmed(outcomes: seq<SearchOutcome>) {
    forall o | o in outcomes && o.Returned? :: forall h | h in o.hits :: Trimmed(h)
  }

  /** Over any number of searches none of which failed, the rebuilt ledger equals the live one. */
  lemma {:induction false} RebuiltEqualsLive(outcomes: seq<SearchOutcome>)
    requires AllReturned(outcomes) && AllTrimmed(outcomes)
    ensures var live := LiveLedger(outcomes);
            var rebuilt := RebuiltLedger(outcomes);
            && rebuilt.entries == live.entries && WellKept(live.entries)
            && !live.labelConflict && !rebuilt.labelConflict && !live.searchError && !rebuilt.searchError
            && rebuilt.successfulSearchCount == |outcomes|
            && (rebuilt.emptyOrInsufficient <==> live.entries == [] && outcomes != [])
    decreases |outcomes|
  {
    if outcomes != [] {
      var n := |outcomes| - 1;
      RebuiltEqualsLive(outcomes[..n]);
      assert Payloads(outcomes)[..n] == Payloads(outcomes[..n]);
      assert outcomes[n] in outcomes;
      SearchAgrees(LiveLedger(outcomes[..n]), RebuiltLedger(outcomes[..n]), outcomes[n]);
    }
  }

  // ---- exactly when they agree ----

  predicate TrimmedEntries(entries: seq<Entry>) {
    forall i :: 0 <= i < |entries| ==> Trim(entries[i].identity.chunkId) == entries[i].identity.chunkId
  }

  predicate Holds(entries: seq<Entry>, chunkId: string) {
    exists i :: 0 <= i < |entries| && entries[i].identity.chunkId == chunkId
  }

  lemma TrimTwice(s: string)
    ensures Trim(Trim(s)) == Trim(s)
  {
    var lead, tail := TrimParts(s);
    TrimTight(Trim(s));
  }

  lemma AddKeepsTrimmed(ledger: Ledger, identity: Identity, labelText: Option<string>)
    requires TrimmedEntries(ledger.entries) && Trim(identity.chunkId) == identity.chunkId
    ensures var after := AddIdentity(ledger, identity, labelText).ledger;
            TrimmedEntries(after.entries) && after.searchError == ledger.searchError
  {
    hide ParseCitationLabel, Trim;
  }

  lemma {:induction false} IngestHitsKeepsTrimmed(ledger: Ledger, hits: seq<HitJson>)
    requires TrimmedEntries(ledger.entries)
    ensures var after := IngestHits(ledger, hits);
            TrimmedEntries(after.entries) && after.searchError == ledger.searchError
    decreases |hits|
  {
    hide Trim, AddIdentity, TrimmedEntries;
    if hits != [] {
      var identity := IdentityFromHit(hits[0]);
      if identity.Some? {
        TrimTwice((if Present(hits[0].chunkId) then hits[0].chunkId else hits[0].citation.value.chunkId).value);
        AddKeepsTrimmed(ledger, identity.value, HitLabel(hits[0]));
        IngestHitsKeepsTrimmed(AddIdentity(ledger, identity.value, HitLabel(hits[0])).ledger, hits[1..]);
      } else {
        IngestHitsKeepsTrimmed(ledger, hits[1..]);
      }
    }
  }

  lemma {:induction false} IngestCitationsKeepsTrimmed(ledger: Ledger, citations: seq<CitationJson>)
    requires TrimmedEntries(ledger.entries)
    ensures var after := IngestCitations(ledger, citations);
            TrimmedEntries(after.entries) && after.searchError == ledger.searchError
    decreases |citations|
  {
    hide Trim, AddIdentity, TrimmedEntries;
    if citations != [] {
      var identity := IdentityFromCitation(citations[0]);
      if identity.Some? {
        TrimTwice(citations[0].chunkId.value);
        AddKeepsTrimmed(ledger, identity.value, citations[0].labelText);
        IngestCitationsKeepsTrimmed(AddIdentity(ledger, identity.value, citations[0].labelText).ledger, citations[1..]);
      } else {
        IngestCitationsKeepsTrimmed(ledger, citations[1..]);
      }
    }
  }

  /** Whatever the payloads say, rebuilding only ever records trimmed chunk ids. */
  lemma {:induction false} RebuiltIsTrimmed(payloads: seq<Option<Payload>>)
    ensures var rebuilt := IngestAll(CreateLedger(), payloads);
            TrimmedEntries(rebuilt.entries) && (rebuilt.searchError <==> Some(ErrorPayload) in payloads)
    decreases |payloads|
  {
    if payloads != [] {
      var n := |payloads| - 1;
      RebuiltIsTrimmed(payloads[..n]);
      assert payloads == payloads[..n] + [payloads[n]];
      var before := IngestAll(CreateLedger(), payloads[..n]);
      if payloads[n].Some? && payloads[n].value.Results? {
        var counted := before.(successfulSearchCount := before.successfulSearchCount + 1);
        IngestHitsKeepsTrimmed(counted, payloads[n].value.hits);
        IngestCitationsKeepsTrimmed(IngestHits(counted, payloads[n].value.hits), payloads[n].value.citations);
      }
    }
  }

  /** Appending keeps the live ledger in order even when it throws half way through a result. */
  lemma {:induction false} AppendAny(ledger: Ledger, hits: seq<SearchHit>)
    requires WellKept(ledger.entries)
    ensures var r := AppendHits(ledger, hits);
            && WellKept(r.0.entries) && Extends(r.0.entries, ledger.entries)
            && |r.0.entries| <= |ledger.entries| + |hits| && r.0 == ledger.(entries := r.0.entries)
            && (r.1.Some? <==> forall h | h in hits :: h.chunkId != "")
    decreases |hits|
  {
    hide WellKept;
    if hits != [] {
      assert hits == [hits[0]] + hits[1..];
      if hits[0].chunkId != "" {
        AddLive(ledger, HitIdentity(hits[0]));
        AppendAny(AddIdentity(ledger, HitIdentity(hits[0]), None).ledger, hits[1..]);
      }
    }
  }

  /** The live ledger over any searches: labels 1, 2, 3, ..., at most one per returned hit. */
  lemma {:induction false} LiveIsWellKept(outcomes: seq<SearchOutcome>, most: nat)
    requires forall o | o in outcomes && o.Returned? :: |o.hits| <= most
    ensures WellKept(LiveLedger(outcomes).entries) && |LiveLedger(outcomes).entries| <= |outcomes| * most
    decreases |outcomes|
  {
    hide WellKept, Execute;
    if outcomes == [] {
      EmptyWellKept();
    } else {
      var n := |outcomes| - 1;
      LiveIsWellKept(outcomes[..n], most);
      var before := LiveLedger(outcomes[..n]);
      assert |outcomes| * most == n * most + most;
      assert outcomes[n] in outcomes;
      ExecuteKeeps(before, outcomes[n]);
    }
  }

  lemma ExecuteKeeps(live: Ledger, outcome: SearchOutcome)
    requires WellKept(live.entries)
    ensures var after := Execute(live, outcome).0.entries;
            && WellKept(after) && Extends(after, live.entries)
            && |after| <= |live.entries| + (if outcome.Returned? then |outcome.hits| else 0)
  {
    hide WellKept, AppendHits;
    if outcome.Returned? {
      AppendAny(if outcome.vectorFailed then live.(vectorDegradedCount := live.vectorDegradedCount + 1) else live,
                outcome.hits);
    }
  }

  lemma EmptyWellKept()
    ensures WellKept(CreateLedger().entries)
  {
  }

  /** A search that failed, or returned a hit the ledger refuses. */
  predicate Fails(outcome: SearchOutcome) {
    outcome.Failed? || exists h | h in outcome.hits :: h.chunkId == ""
  }

  predicate AnyFails(outcomes: seq<SearchOutcome>) { exists o | o in outcomes :: Fails(o) }

  lemma AnyFailsLast(before: seq<SearchOutcome>, o: SearchOutcome)
    ensures AnyFails(before + [o]) <==> AnyFails(before) || Fails(o)
  {
    hide Fails;
    assert forall x :: x in before + [o] <==> x in before || x == o;
  }

  lemma ExecuteReports(live: Ledger, outcome: SearchOutcome)
    requires WellKept(live.entries)
    ensures var (after, payload) := Execute(live, outcome);
            && (after.searchError <==> live.searchError || Fails(outcome))
            && (payload == ErrorPayload <==> Fails(outcome))
  {
    hide WellKept, AppendHits;
    if outcome.Returned? {
      AppendAny(if outcome.vectorFailed then live.(vectorDegradedCount := live.vectorDegradedCount + 1) else live,
                outcome.hits);
    }
  }

  lemma {:induction false} LiveReports(outcomes: seq<SearchOutcome>)
    ensures LiveLedger(outcomes).searchError <==> AnyFails(outcomes)
    decreases |outcomes|
  {
    if outcomes != [] {
      var n := |outcomes| - 1;
      LiveReports(outcomes[..n]);
      hide Fails, AnyFails, Execute, WellKept;
      LiveOnlyGrows(outcomes[..n]);
      ExecuteReports(LiveLedger(outcomes[..n]), outcomes[n]);
      AnyFailsLast(outcomes[..n], outcomes[n]);
      assert outcomes == outcomes[..n] + [outcomes[n]];
    }
  }

  lemma InLast<T>(a: seq<T>, x: T, y: T)
    ensures y in a + [x] <==> y in a || y == x
  {
  }

  lemma {:induction false} PayloadsReport(outcomes: seq<SearchOutcome>)
    ensures Some(ErrorPayload) in Payloads(outcomes) <==> AnyFails(outcomes)
    decreases |outcomes|
  {
    if outcomes != [] {
      var n := |outcomes| - 1;
      PayloadsReport(outcomes[..n]);
      LastPayload(outcomes);
      hide Fails, AnyFails, Execute, WellKept, Payloads, LiveLedger;
      LiveOnlyGrows(outcomes[..n]);
      ExecuteReports(LiveLedger(outcomes[..n]), outcomes[n]);
      AnyFailsLast(outcomes[..n], outcomes[n]);
      assert outcomes == outcomes[..n] + [outcomes[n]];
      InLast(Payloads(outcomes[..n]), Some(Execute(LiveLedger(outcomes[..n]), outcomes[n]).1), Some(ErrorPayload));
    }
  }

  lemma LastPayload(outcomes: seq<SearchOutcome>)
    requires outcomes != []
    ensures var n := |outcomes| - 1;
            Payloads(outcomes) == Payloads(outcomes[..n]) + [Some(Execute(LiveLedger(outcomes[..n]), outcomes[n]).1)]
  {
  }

  /** Both ledgers report a failed search, or neither does. */
  lemma SearchErrorAgrees(outcomes: seq<SearchOutcome>)
    ensures LiveLedger(outcomes).searchError <==> AnyFails(outcomes)
    ensures RebuiltLedger(outcomes).searchError <==> AnyFails(outcomes)
  {
    LiveReports(outcomes);
    PayloadsReport(outcomes);
    RebuiltIsTrimmed(Payloads(outcomes));
  }

  lemma LiveOnlyGrows(outcomes: seq<SearchOutcome>)
    ensures WellKept(LiveLedger(outcomes).entries)
  {
    LiveIsWellKept(outcomes, MostHits(outcomes));
  }

  function MostHits(outcomes: seq<SearchOutcome>): (m: nat)
    ensures forall o | o in outcomes && o.Returned? :: |o.hits| <= m
  {
    if outcomes == [] then 0
    else
      var m := MostHits(outcomes[1..]);
      if outcomes[0].Returned? && |outcomes[0].hits| > m then |outcomes[0].hits| else m
  }

  lemma HoldsExtends(entries: seq<Entry>, more: seq<Entry>, chunkId: string)
    requires Holds(entries, chunkId) && Extends(more, entries)
    ensures Holds(more, chunkId)
  {
    var i :| 0 <= i < |entries| && entries[i].identity.chunkId == chunkId;
    assert more[i].identity.chunkId == chunkId;
  }

  lemma RecordedHolds(entries: seq<Entry>, hits: seq<SearchHit>, numbers: seq<nat>, h: SearchHit)
    requires Recorded(entries, hits, numbers) && h in hits
    ensures Holds(entries, h.chunkId)
  {
    var i :| 0 <= i < |hits| && hits[i] == h;
    assert entries[numbers[i] - 1].identity.chunkId == h.chunkId;
  }

  lemma ExecuteHolds(live: Ledger, outcome: SearchOutcome, h: SearchHit)
    requires WellKept(live.entries) && outcome.Returned? && !Fails(outcome) && h in outcome.hits
    ensures Holds(Execute(live, outcome).0.entries, h.chunkId)
  {
    hide WellKept, Recorded, Holds, AppendHits;
    var counted := if outcome.vectorFailed then live.(vectorDegradedCount := live.vectorDegradedCount + 1) else live;
    AppendKeeps(counted, outcome.hits);
    RecordedHolds(AppendHits(counted, outcome.hits).0.entries, outcome.hits,
                  AppendHits(counted, outcome.hits).1.value, h);
  }

  /** Every hit of every search is in the live ledger under its own chunk id. */
  lemma {:induction false} LiveHoldsHits(outcomes: seq<SearchOutcome>, o: SearchOutcome, h: SearchHit)
    requires (forall x | x in outcomes :: !Fails(x)) && o in outcomes && o.Returned? && h in o.hits
    ensures Holds(LiveLedger(outcomes).entries, h.chunkId)
    decreases |outcomes|
  {
    hide Execute, Holds, WellKept;
    var n := |outcomes| - 1;
    LiveOnlyGrows(outcomes[..n]);
    assert outcomes == outcomes[..n] + [outcomes[n]];
    if o in outcomes[..n] {
      LiveHoldsHits(outcomes[..n], o, h);
      ExecuteKeeps(LiveLedger(outcomes[..n]), outcomes[n]);
      HoldsExtends(LiveLedger(outcomes[..n]).entries, LiveLedger(outcomes).entries, h.chunkId);
    } else {
      ExecuteHolds(LiveLedger(outcomes[..n]), outcomes[n], h);
    }
  }

  /**
    * When no search failed, the two ledgers hold the same entries exactly when every returned chunk
    * id is already trimmed: the rebuild trims ids, the live append does not.
    */
  lemma AgreeExactlyWhenTrimmed(outcomes: seq<SearchOutcome>)
    requires !LiveLedger(outcomes).searchError
    ensures RebuiltLedger(outcomes).entries == LiveLedger(outcomes).entries <==> AllTrimmed(outcomes)
  {
    SearchErrorAgrees(outcomes);
    assert forall o | o in outcomes :: !Fails(o);
    if AllTrimmed(outcomes) {
      RebuiltEqualsLive(outcomes);
    } else {
      var o :| o in outcomes && o.Returned? && exists h :: h in o.hits && !Trimmed(h);
      var h :| h in o.hits && !Trimmed(h);
      LiveHoldsHits(outcomes, o, h);
      RebuiltIsTrimmed(Payloads(outcomes));
    }
  }

  // ---- where the evidence comes from ----

  /** A search returned this chunk with this section and text. */
  predicate Found(outcomes: seq<SearchOutcome>, e: Entry) {
    exists o | o in outcomes && o.Returned? ::
      exists h | h in o.hits ::
        h.chunkId == e.identity.chunkId && h.section == e.identity.section && h.content == e.identity.text
  }

  predicate AllFound(outcomes: seq<SearchOutcome>, entries: seq<Entry>) {
    forall e | e in entries :: Found(outcomes, e)
  }

  lemma AddKeepsFound(outcomes: seq<SearchOutcome>, ledger: Ledger, o: SearchOutcome, h: SearchHit)
    requires AllFound(outcomes, ledger.entries) && o in outcomes && o.Returned? && h in o.hits
    ensures AllFound(outcomes, AddIdentity(ledger, HitIdentity(h), None).ledger.entries)
  {
    hide Found, FindLabel, MaxLabel;
    NoLabelParsesToNone();
    hide ParseCitationLabel;
    var entries, after := ledger.entries, AddIdentity(ledger, HitIdentity(h), None).ledger.entries;
    forall e | e in after ensures Found(outcomes, e) {
      if e !in entries {
        HitIsFound(outcomes, o, h, e);
      }
    }
  }

  lemma HitIsFound(outcomes: seq<SearchOutcome>, o: SearchOutcome, h: SearchHit, e: Entry)
    requires o in outcomes && o.Returned? && h in o.hits
    requires h.chunkId == e.identity.chunkId && h.section == e.identity.section && h.content == e.identity.text
    ensures Found(outcomes, e)
  {
  }

  lemma {:induction false} AppendKeepsFound(
    outcomes: seq<SearchOutcome>, ledger: Ledger, o: SearchOutcome, hits: seq<SearchHit>)
    requires AllFound(outcomes, ledger.entries) && o in outcomes && o.Returned? && forall h | h in hits :: h in o.hits
    ensures AllFound(outcomes, AppendHits(ledger, hits).0.entries)
    decreases |hits|
  {
    hide AllFound, AddIdentity;
    if hits != [] {
      assert hits[0] in hits && forall h | h in hits[1..] :: h in hits;
      AddKeepsFound(outcomes, ledger, o, hits[0]);
      AppendKeepsFound(outcomes, AddIdentity(ledger, HitIdentity(hits[0]), None).ledger, o, hits[1..]);
    }
  }

  lemma ExecuteKeepsFound(outcomes: seq<SearchOutcome>, live: Ledger, o: SearchOutcome)
    requires AllFound(outcomes, live.entries) && o in outcomes
    ensures AllFound(outcomes, Execute(live, o).0.entries)
  {
    hide AllFound, AppendHits;
    if o.Returned? {
      AppendKeepsFound(
        outcomes,
        if o.vectorFailed then live.(vectorDegradedCount := live.vectorDegradedCount + 1) else live, o, o.hits);
    }
  }

  /** Whatever the searches did, every entry of the live ledger has the section and the text of a hit they returned. */
  lemma {:induction false} LiveIsFound(outcomes: seq<SearchOutcome>)
    ensures AllFound(outcomes, LiveLedger(outcomes).entries)
    decreases |outcomes|
  {
    hide Execute, Found;
    if outcomes != [] {
      var n := |outcomes| - 1;
      LiveIsFound(outcomes[..n]);
      hide AllFound;
      MoreOutcomesFind(outcomes[..n], outcomes, LiveLedger(outcomes[..n]).entries);
      ExecuteKeepsFound(outcomes, LiveLedger(outcomes[..n]), outcomes[n]);
    }
  }

  lemma MoreOutcomesFind(few: seq<SearchOutcome>, many: seq<SearchOutcome>, entries: seq<Entry>)
    requires AllFound(few, entries) && few <= many
    ensures AllFound(many, entries)
  {
    forall e | e in entries ensures Found(many, e) {
      var o :| o in few && o.Returned? && exists h | h in o.hits ::
          h.chunkId == e.identity.chunkId && h.section == e.identity.section && h.content == e.identity.text;
      assert o in many;
    }
  }

  /** One search that returned the chunk id " a": the live ledger keeps the id, the rebuilt one trims it. */
  lemma UntrimmedIdDisagrees(document: string, section: string, content: string)
    ensures var outcomes := [Returned([SearchHit(" a", document, section, content)], false)];
            !LiveLedger(outcomes).searchError && RebuiltLedger(outcomes).entries != LiveLedger(outcomes).entries
  {
    var hit := SearchHit(" a", document, section, content);
    var outcomes := [Returned([hit], false)];
    hide Trim, LiveLedger, RebuiltLedger;
    assert outcomes[0] in outcomes && hit in outcomes[0].hits;
    SpaceFirst();
    assert !AllTrimmed(outcomes);
    LiveReports(outcomes);
    assert forall o | o in outcomes :: !Fails(o);
    AgreeExactlyWhenTrimmed(outcomes);
  }

  lemma SpaceFirst()
    ensures Trim(" a") != " a"
  {
    var lead, tail := TrimParts(" a");
    assert !Tight(" a");
  }
}
