/**
  * The evidence ledger of one turn on values: what a search appends while the agent runs (live),
  * and what is rebuilt from the labelled payloads of the transcript.
  */
module Evidence {
  import opened Wrappers
  import opened Text

  datatype Identity = Identity(chunkId: string, documentId: string, version: Option<string>, section: string,
                               text: string)

  /** One label of the ledger with the identity it names; entries stand in the order they were added. */
  datatype Entry = Entry(number: nat, identity: Identity)

  datatype Ledger = Ledger(
    entries: seq<Entry>, successfulSearchCount: nat, emptyOrInsufficient: bool,
    searchError: bool, labelConflict: bool, vectorDegradedCount: nat)

  function CreateLedger(): Ledger { Ledger([], 0, false, false, false, 0) }

  predicate DistinctKeys(entries: seq<Entry>) {
    && (forall i, j :: 0 <= i < j < |entries| ==> entries[i].number != entries[j].number)
    && (forall i, j :: 0 <= i < j < |entries| ==> entries[i].identity.chunkId != entries[j].identity.chunkId)
  }

  /** Labels are 1, 2, 3, ... in the order the chunks were first seen. */
  predicate Sequential(entries: seq<Entry>) {
    forall i :: 0 <= i < |entries| ==> entries[i].number == i + 1
  }

  function FindChunk(entries: seq<Entry>, chunkId: string): (k: Option<nat>)
    ensures k.Some? ==> k.value < |entries| && entries[k.value].identity.chunkId == chunkId
    ensures k.None? ==> forall i :: 0 <= i < |entries| ==> entries[i].identity.chunkId != chunkId
  {
    if entries == [] then None
    else if entries[|entries| - 1].identity.chunkId == chunkId then Some(|entries| - 1)
    else FindChunk(entries[..|entries| - 1], chunkId)
  }

  function FindLabel(entries: seq<Entry>, number: nat): (k: Option<nat>)
    ensures k.Some? ==> k.value < |entries| && entries[k.value].number == number
    ensures k.None? ==> forall i :: 0 <= i < |entries| ==> entries[i].number != number
  {
    if entries == [] then None
    else if entries[|entries| - 1].number == number then Some(|entries| - 1)
    else FindLabel(entries[..|entries| - 1], number)
  }

  function MaxLabel(entries: seq<Entry>): (m: nat)
    ensures forall i :: 0 <= i < |entries| ==> entries[i].number <= m
    ensures entries != [] ==> exists i :: 0 <= i < |entries| && entries[i].number == m
    ensures entries == [] ==> m == 0
  {
    if entries == [] then 0
    else
      var m := MaxLabel(entries[..|entries| - 1]);
      if entries[|entries| - 1].number >= m then entries[|entries| - 1].number else m
  }

  // ---- labels as text ----

  function LabelText(n: nat): string { "[" + Decimal(n) + "]" }

  function DigitValue(c: char): nat
    requires IsDigit(c)
  {
    (c - '0') as nat
  }

  /** The number written by one or two digits; None when the text is anything else. */
  function ShortNumber(s: string): Option<nat> {
    if |s| == 1 && IsDigit(s[0]) then Some(DigitValue(s[0]))
    else if |s| == 2 && IsDigit(s[0]) && IsDigit(s[1]) then Some(10 * DigitValue(s[0]) + DigitValue(s[1]))
    else None
  }

  /** `[n]` with one or two digits and n >= 1, white space around it allowed. */
  function ParseCitationLabel(value: Option<string>): Option<nat> {
    if value.None? then None
    else
      var t := Trim(value.value);
      if |t| >= 2 && t[0] == '[' && t[|t| - 1] == ']' then
        match ShortNumber(t[1..|t| - 1])
        case Some(n) => if n >= 1 then Some(n) else None
        case None => None
      else None
  }

  lemma DecimalLength(n: nat)
    ensures n >= 100 ==> |Decimal(n)| >= 3
    ensures n < 100 ==> ShortNumber(Decimal(n)) == Some(n)
  {
    if n >= 10 {
      assert Decimal(n) == Decimal(n / 10) + ['0' + (n % 10) as char];
      if n >= 100 {
        assert Decimal(n / 10) == Decimal(n / 10 / 10) + ['0' + (n / 10 % 10) as char];
      }
    }
  }

  /** The parser reads back every label up to 99 and no label above. */
  lemma LabelRoundTrip(n: nat)
    requires n >= 1
    ensures ParseCitationLabel(Some(LabelText(n))) == if n <= 99 then Some(n) else None
  {
    DecimalLength(n);
    TrimTight(LabelText(n));
    assert LabelText(n)[1..|LabelText(n)| - 1] == Decimal(n);
  }

  // ---- recording an identity ----

  /** The ledger after `addIdentity`, and the label it returned. */
  datatype Added = Added(ledger: Ledger, number: Option<nat>)

  function FilledEntry(entry: Entry, identity: Identity): Entry {
    if entry.identity.text == "" && identity.text != ""
    then entry.(identity := entry.identity.(text := identity.text, section := identity.section))
    else entry
  }

  /** The chunk is entry k already: its text is filled in, and a label that disagrees is a conflict. */
  function AddKnown(ledger: Ledger, k: nat, identity: Identity, requested: Option<nat>): Added
    requires k < |ledger.entries|
  {
    var entries := ledger.entries;
    var occupant := if requested.Some? then FindLabel(entries, requested.value) else None;
    var clash := requested.Some? && (
                   || (occupant.Some? && entries[occupant.value].identity.chunkId != identity.chunkId)
                   || entries[k].number != requested.value);
    Added(ledger.(entries := entries[k := FilledEntry(entries[k], identity)],
          labelConflict := ledger.labelConflict || clash),
          Some(entries[k].number))
  }

  /** The chunk is new: it takes the requested label when that is free, the next label when none was requested. */
  function AddNew(ledger: Ledger, identity: Identity, requested: Option<nat>): Added {
    if requested.Some? && FindLabel(ledger.entries, requested.value).Some? then
      Added(ledger.(labelConflict := true), None)
    else
      var chosen := if requested.Some? then requested.value else MaxLabel(ledger.entries) + 1;
      Added(ledger.(entries := ledger.entries + [Entry(chosen, identity)]), Some(chosen))
  }

  function AddIdentity(ledger: Ledger, identity: Identity, labelText: Option<string>): Added {
    var requested := ParseCitationLabel(labelText);
    var known := FindChunk(ledger.entries, identity.chunkId);
    if identity.chunkId == "" then Added(ledger, None)
    else if known.Some? then AddKnown(ledger, known.value, identity, requested)
    else AddNew(ledger, identity, requested)
  }

  // ---- the live ledger ----

  datatype SearchHit = SearchHit(chunkId: string, documentId: string, section: string, content: string)

  datatype SearchOutcome =
    | Returned(hits: seq<SearchHit>, vectorFailed: bool)
    | Failed

  datatype CitationJson = CitationJson(
    chunkId: Option<string>, documentId: Option<string>, version: Option<string>,
    section: Option<string>, labelText: Option<string>)

  datatype HitJson = HitJson(
    labelText: Option<string>, chunkId: Option<string>, documentId: Option<string>,
    content: Option<string>, citation: Option<CitationJson>)

  datatype Payload =
    | ErrorPayload
    | Results(hits: seq<HitJson>, citations: seq<CitationJson>, notEnough: bool)

  function HitIdentity(hit: SearchHit): Identity {
    Identity(hit.chunkId, hit.documentId, None, hit.section, hit.content)
  }

  function LabelledHit(hit: SearchHit, number: nat): HitJson {
    HitJson(Some(LabelText(number)), Some(hit.chunkId), None, Some(hit.content),
            Some(CitationJson(Some(hit.chunkId), Some(hit.documentId), None, Some(hit.section),
                              Some(LabelText(number)))))
  }

  function LabelledCitation(hit: SearchHit, number: nat): CitationJson {
    CitationJson(Some(hit.chunkId), Some(hit.documentId), None, None, Some(LabelText(number)))
  }

  /** The labels and the ledger after the hits are appended; None as labels when an append threw. */
  function AppendHits(ledger: Ledger, hits: seq<SearchHit>): (r: (Ledger, Option<seq<nat>>))
    ensures r.1.Some? ==> |r.1.value| == |hits|
    decreases |hits|
  {
    if hits == [] then (ledger, Some([]))
    else
      var added := AddIdentity(ledger, HitIdentity(hits[0]), None);
      if added.number.None? then (added.ledger, None)
      else
        var rest := AppendHits(added.ledger, hits[1..]);
        (rest.0, if rest.1.None? then None else Some([added.number.value] + rest.1.value))
  }

  function HitsJson(hits: seq<SearchHit>, labels: seq<nat>): (r: seq<HitJson>)
    requires |hits| == |labels|
    ensures |r| == |hits|
  {
    if hits == [] then [] else [LabelledHit(hits[0], labels[0])] + HitsJson(hits[1..], labels[1..])
  }

  function CitationsJson(hits: seq<SearchHit>, labels: seq<nat>): (r: seq<CitationJson>)
    requires |hits| == |labels|
    ensures |r| == |hits|
  {
    if hits == [] then [] else [LabelledCitation(hits[0], labels[0])] + CitationsJson(hits[1..], labels[1..])
  }

  /** One executed search: the live ledger afterwards and the payload that enters the transcript. */
  function Execute(ledger: Ledger, outcome: SearchOutcome): (Ledger, Payload) {
    match outcome
    case Failed => (ledger.(searchError := true), ErrorPayload)
    case Returned(hits, vectorFailed) =>
      var counted := if vectorFailed then ledger.(vectorDegradedCount := ledger.vectorDegradedCount + 1) else ledger;
      var appended := AppendHits(counted, hits);
      if appended.1.None? then (appended.0.(searchError := true), ErrorPayload)
      else (appended.0,
            Results(HitsJson(hits, appended.1.value), CitationsJson(hits, appended.1.value), hits == []))
  }

  // ---- the rebuilt ledger ----

  predicate Present(s: Option<string>) { s.Some? && Trim(s.value) != "" }

  function OrEmpty(s: Option<string>): string { if s.Some? then s.value else "" }

  function IdentityFromHit(hit: HitJson): Option<Identity> {
    var nested := if hit.citation.Some? then hit.citation.value.chunkId else None;
    var chunkId := if Present(hit.chunkId) then hit.chunkId else nested;
    if !Present(chunkId) then None
    else
      var citation := hit.citation;
      var documentId := if citation.Some? then OrEmpty(citation.value.documentId) else "";
      Some(Identity(
             Trim(chunkId.value),
             if documentId == "" then OrEmpty(hit.documentId) else documentId,
             if citation.Some? && Present(citation.value.version) then citation.value.version else None,
             if citation.Some? then OrEmpty(citation.value.section) else "",
             OrEmpty(hit.content)))
  }

  function IdentityFromCitation(citation: CitationJson): Option<Identity> {
    if !Present(citation.chunkId) then None
    else Some(Identity(
                Trim(citation.chunkId.value), OrEmpty(citation.documentId),
                if Present(citation.version) then citation.version else None, OrEmpty(citation.section), ""))
  }

  function HitLabel(hit: HitJson): Option<string> {
    if hit.labelText.Some? then hit.labelText else if hit.citation.Some? then hit.citation.value.labelText else None
  }

  function IngestHits(ledger: Ledger, hits: seq<HitJson>): Ledger
    decreases |hits|
  {
    if hits == [] then ledger
    else
      var identity := IdentityFromHit(hits[0]);
      IngestHits(if identity.Some? then AddIdentity(ledger, identity.value, HitLabel(hits[0])).ledger
                 else ledger, hits[1..])
  }

  function IngestCitations(ledger: Ledger, citations: seq<CitationJson>): Ledger
    decreases |citations|
  {
    if citations == [] then ledger
    else
      var identity := IdentityFromCitation(citations[0]);
      IngestCitations(if identity.Some? then AddIdentity(ledger, identity.value, citations[0].labelText).ledger
                      else ledger,
                      citations[1..])
  }

  /** `ingestSearchPayload`; None is a tool result that is not a JSON object. */
  function Ingest(ledger: Ledger, payload: Option<Payload>): Ledger {
    match payload
    case None => ledger
    case Some(ErrorPayload) => ledger.(searchError := true)
    case Some(Results(hits, citations, notEnough)) =>
      var counted := ledger.(successfulSearchCount := ledger.successfulSearchCount + 1);
      var filled := IngestCitations(IngestHits(counted, hits), citations);
      var added := |filled.entries| - |ledger.entries|;
      if notEnough || (added == 0 && hits == [] && citations == []) then
        if filled.entries == [] then filled.(emptyOrInsufficient := true) else filled
      else if filled.entries != [] then filled.(emptyOrInsufficient := false)
      else filled
  }

  function IngestAll(ledger: Ledger, payloads: seq<Option<Payload>>): Ledger
  {
    if payloads == [] then ledger
    else Ingest(IngestAll(ledger, payloads[..|payloads| - 1]), payloads[|payloads| - 1])
  }

  /** The live ledger after a run of searches. */
  function LiveLedger(outcomes: seq<SearchOutcome>): Ledger {
    if outcomes == [] then CreateLedger()
    else Execute(LiveLedger(outcomes[..|outcomes| - 1]), outcomes[|outcomes| - 1]).0
  }

  /** The payloads the same searches left in the transcript. */
  function Payloads(outcomes: seq<SearchOutcome>): (r: seq<Option<Payload>>)
    ensures |r| == |outcomes|
  {
    if outcomes == [] then []
    else
      var before := outcomes[..|outcomes| - 1];
      Payloads(before) + [Some(Execute(LiveLedger(before), outcomes[|outcomes| - 1]).1)]
  }

  function RebuiltLedger(outcomes: seq<SearchOutcome>): Ledger { IngestAll(CreateLedger(), Payloads(outcomes)) }
}
