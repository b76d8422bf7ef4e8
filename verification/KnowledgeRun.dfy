/** One whole run: the tool loop, the two ledgers, the answer passes and the structured answer. */
module KnowledgeRun {
  import opened Wrappers
  import opened Text
  import opened Paragraphs
  import Support
  import opened Evidence
  import opened Markers
  import opened LedgerAgreement
  import opened Transcript
  import opened Grounding
  import opened HostStrings
  import opened Budgets
  import opened ToolLoop
  import opened AnswerPasses
  import opened AnswerContract
  import opened Structuring
  import Salvage

  /** The approved retrieval profile returns up to eight chunks. */
  const TOP_K := 8

  /** The messages of the run: what came before, the question and what the loop added. */
  function MessagesOf(prior: seq<Message>, question: string, r: Run): seq<Message> {
    prior + [User(question)] + r.transcript
  }

  function LastAssistant(messages: seq<Message>): string {
    if messages == [] then BRAIN_MUST_RETRIEVE
    else
      var last := messages[|messages| - 1];
      if last.Assistant? then last.content else LastAssistant(messages[..|messages| - 1])
  }

  predicate NoAssistant(messages: seq<Message>) { forall m | m in messages :: !m.Assistant? }

  /** The text is that of an assistant message behind which there is none. */
  ghost predicate IsLastAssistant(messages: seq<Message>, text: string) {
    exists i | 0 <= i < |messages| :: messages[i] == Assistant(text) && NoAssistant(messages[i + 1..])
  }

  lemma LastStaysLast(before: seq<Message>, last: Message, text: string)
    requires IsLastAssistant(before, text) && !last.Assistant?
    ensures IsLastAssistant(before + [last], text)
  {
    var messages := before + [last];
    var i :| 0 <= i < |before| && before[i] == Assistant(text) && NoAssistant(before[i + 1..]);
    assert messages[i + 1..] == before[i + 1..] + [last] && messages[i] == before[i];
  }

  lemma LastIsLast(before: seq<Message>, text: string)
    ensures IsLastAssistant(before + [Assistant(text)], text)
  {
    var messages := before + [Assistant(text)];
    assert messages[|before|] == Assistant(text) && messages[|before| + 1..] == [];
  }

  /** The draft is the text of the last assistant message, the must-retrieve sentence when there is none. */
  lemma {:induction false} LastAssistantIsLast(messages: seq<Message>)
    ensures || (LastAssistant(messages) == BRAIN_MUST_RETRIEVE && NoAssistant(messages))
            || IsLastAssistant(messages, LastAssistant(messages))
    decreases |messages|
  {
    hide BRAIN_MUST_RETRIEVE, IsLastAssistant;
    if messages != [] {
      var n := |messages| - 1;
      var before, last := messages[..n], messages[n];
      assert messages == before + [last];
      if last.Assistant? {
        LastIsLast(before, last.content);
      } else {
        LastAssistantIsLast(before);
        if IsLastAssistant(before, LastAssistant(before)) {
          LastStaysLast(before, last, LastAssistant(before));
        }
      }
    }
  }

  /** The last batch ended on its own: every call of its message terminated. */
  predicate EndedItself(r: Run) { r.message != [] && r.terminated == |r.message| }

  predicate LastIsResult(r: Run) { r.transcript != [] && r.transcript[|r.transcript| - 1].Tool? }

  /** The budget failure known before the answer passes. */
  function BudgetFailure(r: Run, overTime: bool, overTokens: bool): Option<string> {
    if overTokens then Some(ErrorMessage(TokenLimit))
    else if overTime then Some(ErrorMessage(WallTime))
    else if r.hook.blocked != {} && r.hook.hardBlock.Some? then r.hook.hardBlock
    else if r.turnLimitStopped && r.hook.blocked != {} && LastIsResult(r) && !EndedItself(r) then
      Some(ErrorMessage(TurnLimit))
    else None
  }

  /**
    * A budget ended the run: tokens or time ran out, or after a soft search cap a hard block came, or the turn limit
    * cut the run off behind a tool result whose message had calls that did not terminate.
    */
  predicate CutOff(r: Run, overTime: bool, overTokens: bool) {
    || overTokens || overTime
    || (&& r.hook.blocked != {}
        && (|| r.hook.hardBlock.Some?
            || (&& r.turnLimitStopped && r.transcript != [] && r.transcript[|r.transcript| - 1].Tool?
                && (r.message == [] || r.terminated != |r.message|))))
  }

  lemma BudgetFailsWhenCutOff(r: Run, overTime: bool, overTokens: bool)
    ensures BudgetFailure(r, overTime, overTokens).Some? <==> CutOff(r, overTime, overTokens)
  {
  }

  /** The host around the loop: its question, callbacks and what it saw when the loop ended. */
  datatype Host = Host(
    lang: Salvage.Language, prior: seq<Message>, text: string, question: Question, hasRepair: bool, hasCover: bool,
    failed: bool, overTime: bool, overTokens: bool)

  function TurnOf(h: Host, allowed: set<string>, r: Run): Turn {
    Turn(h.lang, h.question, BuildTurnLedger(h.lang.script, MessagesOf(h.prior, h.text, r)), r.ledger,
         SEARCH_KNOWLEDGE_TOOL in allowed, h.failed, SearchFailed(r), r.hook.blocked != {}, h.hasRepair, h.hasCover,
         BudgetFailure(r, h.overTime, h.overTokens))
  }

  predicate FewHits(outcomes: seq<SearchOutcome>) { forall o | o in outcomes && o.Returned? :: |o.hits| <= TOP_K }

  lemma NoUserMessages(allowed: set<string>, events: seq<Event>)
    ensures forall m | m in RunOf(allowed, events).transcript :: !m.User?
  {
    hide Decide, Execute;
    if events != [] {
      NoUserMessages(allowed, events[..|events| - 1]);
      StepAddsNoUser(RunOf(allowed, events[..|events| - 1]), allowed, events[|events| - 1]);
    }
  }

  lemma PerformAddsNoUser(r: Run, call: Call, search: SearchRan, other: OtherRan)
    requires forall m | m in r.transcript :: !m.User?
    ensures forall m | m in Perform(r, call, search, other).transcript :: !m.User?
  {
    hide Execute;
  }

  lemma StepAddsNoUser(r: Run, allowed: set<string>, e: Event)
    requires forall m | m in r.transcript :: !m.User?
    ensures forall m | m in Step(r, allowed, e).transcript :: !m.User?
  {
    hide Decide, Perform, CountToolCall, CountTurn, CountTokens, SearchOnly;
    if e.Tries? {
      var (hook, _) := Decide(r.hook, r.message, e.call, allowed, r.ledger.entries != [], e.policy);
      var error := CountToolCall(r.hook.counters, e.call.name).1;
      PerformAddsNoUser(r.(hook := hook, passed := if error.None? then r.passed + 1 else r.passed), e.call, e.search,
                        e.other);
    }
  }

  /** The turn the transcript ends with holds no evidence from before the question. */
  predicate OwnTurn(h: Host) {
    !IsSynthetic(h.lang.script, h.text) || Parsed(TurnPayloads(h.lang.script, h.prior)) == []
  }

  lemma {:induction false} ParsedConcat(a: seq<Option<Payload>>, b: seq<Option<Payload>>)
    ensures Parsed(a + b) == Parsed(a) + Parsed(b)
    decreases |b|
  {
    if b == [] {
      assert a + b == a;
    } else {
      var n := |b| - 1;
      assert (a + b)[..|a + b| - 1] == a + b[..n];
      ParsedConcat(a, b[..n]);
    }
  }

  /** Every finished search left its result, or a failure. */
  predicate NothingLost(r: Run) { LostCount(r.results) == 0 }

  /** Without a failed or lost search the rebuilt ledger validates exactly like the live one. */
  lemma LedgersAgree(h: Host, allowed: set<string>, events: seq<Event>)
    requires OwnTurn(h)
    requires var r := RunOf(allowed, events); !SearchFailed(r) && NothingLost(r) && AllTrimmed(r.outcomes)
    ensures var r := RunOf(allowed, events);
            var rebuilt := BuildTurnLedger(h.lang.script, MessagesOf(h.prior, h.text, r));
            rebuilt.entries == r.ledger.entries && !rebuilt.labelConflict && !r.ledger.labelConflict
  {
    hide RunOf, IsSynthetic, Execute, HasRealFailure, SearchFailed, Ingest, WellKept, AllTrimmed, TurnPayloads,
      LostCount;
    var r := RunOf(allowed, events);
    NoUserMessages(allowed, events);
    TurnStartsAtQuestion(h.lang.script, h.prior, h.text, r.transcript);
    RunFollows(allowed, events);
    CapHidesNoFailure(allowed, events);
    NoErrorSeen(r);
    LiveReports(r.outcomes);
    assert AllReturned(r.outcomes);
    RebuiltEqualsLive(r.outcomes);
    var before := if IsSynthetic(h.lang.script, h.text) then TurnPayloads(h.lang.script, h.prior) else [];
    ParsedConcat(before, SearchPayloads(r.transcript));
    assert Parsed(before) + Parsed(SearchPayloads(r.transcript)) == Parsed(SearchPayloads(r.transcript));
    IngestSkipsUnparsed(CreateLedger(), before + SearchPayloads(r.transcript));
  }

  /** A lost search alone makes the ledgers differ: nothing failed, ids are trimmed, the turn is its own. */
  lemma LostSearchDisagrees(
    h: Host, allowed: set<string>, call: Call, hit: SearchHit, json: string, other: OtherRan, events: seq<Event>)
    requires OwnTurn(h) && call.name == SEARCH_KNOWLEDGE_TOOL && call.name in allowed && Trimmed(hit)
    requires events == [Says("", [call]), Tries(call, Allow, Searches(SearchOutcome.Returned([hit], false), json,
                                                                      Some(ErrorText(PENDING_APPROVAL, None))), other)]
    ensures var r := RunOf(allowed, events);
            var rebuilt := BuildTurnLedger(h.lang.script, MessagesOf(h.prior, h.text, r));
            && !SearchFailed(r) && AllTrimmed(r.outcomes) && !NothingLost(r)
            && rebuilt.entries == [] && r.ledger.entries != []
  {
    hide RunOf, IsSynthetic, SearchFailed, TurnPayloads, LostCount, Trimmed;
    TrimmedMeans(hit);
    ErrorInApprovalWords(allowed, call, hit, json, other);
    var r := RunOf(allowed, events);
    TurnStartsAtQuestion(h.lang.script, h.prior, h.text, r.transcript);
    assert r.transcript[..1] == [Assistant("")] && [Assistant("")][..0] == [];
    assert SearchPayloads(r.transcript) == [None];
    assert Parsed([None]) == [];
    var before := if IsSynthetic(h.lang.script, h.text) then TurnPayloads(h.lang.script, h.prior) else [];
    ParsedConcat(before, SearchPayloads(r.transcript));
    IngestSkipsUnparsed(CreateLedger(), before + SearchPayloads(r.transcript));
  }

  lemma NoErrorSeen(r: Run)
    requires !SearchFailed(r)
    ensures !r.ledger.searchError
  {
  }

  /** The live labels are 1, 2, 3 and so on; searches of at most eight hits make at most 32. */
  lemma FewLabels(allowed: set<string>, events: seq<Event>)
    ensures var r := RunOf(allowed, events);
            && WellKept(r.ledger.entries)
            && (FewHits(r.outcomes) ==> |r.ledger.entries| <= MAX_SEARCH_KNOWLEDGE * TOP_K)
  {
    hide RunOf, Execute, WellKept;
    var r := RunOf(allowed, events);
    RunFollows(allowed, events);
    BudgetsHold(allowed, events);
    LiveOnlyGrows(r.outcomes);
    if FewHits(r.outcomes) {
      LiveIsWellKept(r.outcomes, TOP_K);
    }
  }

  datatype KnowledgeResult =
    KnowledgeResult(final: string, aborted: bool, evidence: seq<Cited>, outcome: Outcome, trail: Trail)

  lemma AnswerIsNotUnavailable(text: string)
    requires AnswerBearing(text)
    ensures text != BRAIN_KNOWLEDGE_UNAVAILABLE && text != "" && Trim(text) != "" && Trim(text) !in HOST_STRINGS
  {
    hide Trim;
    HostStringsAreTight(BRAIN_KNOWLEDGE_UNAVAILABLE);
    BearingIsNotBlank(text);
  }

  /** The structured answer keeps every paragraph of the prose, its markers and its claims. */
  predicate StructuredInFull(script: Support.Script, text: string, ledger: Ledger) {
    var ps := ParagraphsOf(text);
    var answer := StructuredAnswer(script, text, None, EvidenceFromLedger(ledger));
    && ps != [] && answer.Grounded? && |answer.paragraphs| == |ps|
    && (forall i :: 0 <= i < |ps| ==> Kept(script, ps[i], answer.paragraphs[i], ledger))
    && AnswerFromEvidence(script, answer, EvidenceFromLedger(ledger)) == answer
  }

  lemma SameEntriesValidate(script: Support.Script, text: string, a: Ledger, b: Ledger)
    requires a.entries == b.entries && !a.labelConflict && !b.labelConflict
    ensures MarkersValid(script, text, a) <==> MarkersValid(script, text, b)
  {
    hide AllValid, ParagraphsOf;
  }

  /** A hit that a search of the run returned, recorded under this label, has the claim in its section or content. */
  predicate FoundInHit(script: Support.Script, r: Run, number: nat, claim: string) {
    exists e, o | e in r.ledger.entries && o in r.outcomes && e.number == number && o.Returned? ::
      exists h | h in o.hits && h.chunkId == e.identity.chunkId ::
        || Includes(Support.NormalizeSupportText(script, h.section), claim)
        || Includes(Support.NormalizeSupportText(script, h.content), claim)
  }

  /** Every claim of every paragraph has three words or more and was found under a label the paragraph cites. */
  predicate ClaimsFound(script: Support.Script, text: string, r: Run) {
    forall p | p in ParagraphsOf(text) ::
      && MarkerNumbers(p) != [] && ClaimsOf(script, p) != []
      && forall c | c in ClaimsOf(script, p) ::
           Support.FieldCount(c) >= 3 && exists n | n in MarkerNumbers(p) :: FoundInHit(script, r, n, c)
  }

  lemma StatedIsFound(script: Support.Script, r: Run, number: nat, claim: string)
    requires AllFound(r.outcomes, r.ledger.entries) && States(script, r.ledger.entries, number, claim)
    ensures FoundInHit(script, r, number, claim)
  {
    hide Includes, Support.NormalizeSupportText;
    var e :| e in r.ledger.entries && e.number == number
             && (|| Includes(Support.NormalizeSupportText(script, e.identity.section), claim)
                 || Includes(Support.NormalizeSupportText(script, e.identity.text), claim));
    assert Found(r.outcomes, e);
    var o :| o in r.outcomes && o.Returned? && exists h | h in o.hits ::
        h.chunkId == e.identity.chunkId && h.section == e.identity.section && h.content == e.identity.text;
    var h :| h in o.hits && h.chunkId == e.identity.chunkId && h.section == e.identity.section
             && h.content == e.identity.text;
  }

  /** What is valid on the live ledger was found by the searches of the run. */
  lemma ValidIsFound(script: Support.Script, allowed: set<string>, events: seq<Event>, text: string)
    requires text != "" && MarkersValid(script, text, RunOf(allowed, events).ledger)
    ensures ClaimsFound(script, text, RunOf(allowed, events))
  {
    hide RunOf, HasRealFailure, MarkersValid, ParagraphsOf, States, AllFound, FoundInHit, ClaimsOf, Support.FieldCount,
      LostCount, Carries;
    var r := RunOf(allowed, events);
    RunFollows(allowed, events);
    LiveIsFound(r.outcomes);
    ValidMeans(script, text, r.ledger);
    forall p | p in ParagraphsOf(text)
      ensures MarkerNumbers(p) != [] && ClaimsOf(script, p) != []
      ensures forall c | c in ClaimsOf(script, p) ::
                Support.FieldCount(c) >= 3 && exists n | n in MarkerNumbers(p) :: FoundInHit(script, r, n, c)
    {
      assert WellCited(script, p, r.ledger.entries);
      forall c, n | c in ClaimsOf(script, p) && n in MarkerNumbers(p) && States(script, r.ledger.entries, n, c)
        ensures FoundInHit(script, r, n, c)
      {
        StatedIsFound(script, r, n, c);
      }
    }
  }

  /**
    * A published answer of a run is grounded in the live ledger: every claim occurs in the section or the content of
    * a hit that a search of this run returned and whose label its paragraph cites. It survives structuring.
    */
  lemma PublishedAnswerIsGrounded(h: Host, allowed: set<string>, events: seq<Event>, text: string)
    requires h.lang.script.Valid() && OwnTurn(h) && AnswerBearing(text)
    requires var r := RunOf(allowed, events); !SearchFailed(r) && NothingLost(r) && AllTrimmed(r.outcomes)
    requires Accepted(TurnOf(h, allowed, RunOf(allowed, events)), text)
    ensures var r := RunOf(allowed, events);
            && MarkersValid(h.lang.script, text, r.ledger) && StructuredInFull(h.lang.script, text, r.ledger)
            && ClaimsFound(h.lang.script, text, r)
  {
    hide ClaimsFound, RunOf, OwnTurn, BuildTurnLedger, SearchFailed, AllTrimmed, MarkersValid, Trim, StructuredAnswer,
      Kept, AnswerFromEvidence, ParagraphsOf, EvidenceFromLedger, NothingLost;
    var r := RunOf(allowed, events);
    LedgersAgree(h, allowed, events);
    AnswerIsNotUnavailable(text);
    SameEntriesValidate(h.lang.script, text, BuildTurnLedger(h.lang.script, MessagesOf(h.prior, h.text, r)), r.ledger);
    StructuringLosesNothing(h.lang.script, text, r.ledger);
    ValidIsFound(h.lang.script, allowed, events, text);
  }

  /** The searches found something, none failed, and no soft cap came. */
  predicate ModelMayHelp(r: Run) { r.ledger.entries != [] && !SearchFailed(r) && r.hook.blocked == {} }

  /** The run keeps what the live ledger's agreement with the transcript rests on. */
  ghost predicate Traceable(h: Host, r: Run) {
    h.lang.script.Valid() && OwnTurn(h) && AllTrimmed(r.outcomes) && NothingLost(r)
  }

  /**
    * Every run of the agent, for every question, model, tool, callback and abort schedule: a result that is not
    * aborted is blank, "(empty)", a host sentence, or an answer whose every paragraph cites evidence of this turn's
    * transcript. If the transcript can be traced, that is the live evidence, and structuring keeps the answer in full.
    * The live labels are 1, 2, 3 and so on, at most 32 for searches of at most eight hits. After a soft search cap the
    * final is the model's own last text or a host sentence. A calm run within its budgets is not aborted.
    */
  method RunKnowledgeAgent(h: Host, allowed: set<string>, events: seq<Event>, w: World) returns (k: KnowledgeResult)
    requires NeverReset(w)
    ensures var r := RunOf(allowed, events);
            && k.evidence == EvidenceFromLedger(r.ledger)
            && WellKept(r.ledger.entries) && (FewHits(r.outcomes) ==> |k.evidence| <= 32)
            && (!k.aborted ==> Accepted(TurnOf(h, allowed, r), k.final))
            && (!k.aborted && AnswerBearing(k.final) && Traceable(h, r) ==>
                  && MarkersValid(h.lang.script, k.final, r.ledger) && ClaimsFound(h.lang.script, k.final, r)
                  && StructuredInFull(h.lang.script, k.final, r.ledger))
            && (!k.aborted && AnswerBearing(k.final) ==>
                  var rebuilt := BuildTurnLedger(h.lang.script, MessagesOf(h.prior, h.text, r));
                  && SEARCH_KNOWLEDGE_TOOL in allowed && rebuilt.successfulSearchCount > 0 && rebuilt.entries != []
                  && forall p | p in ParagraphsOf(k.final) :: WellCited(h.lang.script, p, rebuilt.entries))
            && (k.outcome.asked != [] ==> ModelMayHelp(r))
            && (Calm(w) && !h.failed && h.hasRepair && ModelMayHelp(r)
                && k.trail.host.grounded == BRAIN_INVALID_CITATION ==>
                  Repair in k.outcome.asked)
            && (SearchFailed(r) ==> k.final == BRAIN_KNOWLEDGE_UNAVAILABLE)
            && WithinBudgets(r)
            && (r.hook.blocked != {} ==> k.outcome.asked == [])
            && (r.hook.blocked != {} && !k.aborted ==>
                  k.final in HOST_STRINGS || k.final == LastAssistant(MessagesOf(h.prior, h.text, r)))
            && (Calm(w) && !h.failed && !CutOff(r, h.overTime, h.overTokens) ==> !k.aborted)
            && (CutOff(r, h.overTime, h.overTokens) ==> k.aborted && k.final == BRAIN_KNOWLEDGE_UNAVAILABLE)
            && (h.failed ==> k.aborted)
  {
    hide RunOf, OwnTurn, BuildTurnLedger, SearchFailed, AllTrimmed, MarkersValid, Trim, StructuredInFull, FewHits,
      ClaimsFound, WellCited, ParagraphsOf, AsksOnlyWhenDue, AsksWhenDue, TakesWhatStands, AppendsWhatStands,
      WellKept, EvidenceFromLedger, WithinBudgets, MessagesOf, LastAssistant, HOST_STRINGS, NothingLost,
      CutOff, BudgetFailure;
    var r := RunOf(allowed, events);
    BudgetsHold(allowed, events);
    FewLabels(allowed, events);
    BudgetFailsWhenCutOff(r, h.overTime, h.overTokens);
    var raw := LastAssistant(MessagesOf(h.prior, h.text, r));
    var failed := FindSearchFailure(r.results, r.hook.blocked, r.ledger.searchError);
    assert failed == SearchFailed(r) by { FailedMeans(r); }
    var turn := TurnOf(h, allowed, r);
    var o, trail, salvaged := AnswerOf(turn, w, raw);
    k := KnowledgeResult(o.final, o.aborted, EvidenceFromLedger(r.ledger), o, trail);
    EvidenceCount(r.ledger);
    if !k.aborted && AnswerBearing(k.final) {
      AnswerIsNotUnavailable(k.final);
      ValidMeans(h.lang.script, k.final, turn.rebuilt);
      if Traceable(h, r) {
        PublishedAnswerIsGrounded(h, allowed, events, k.final);
      }
    }
  }

  lemma FailedMeans(r: Run)
    ensures SearchFailed(r) <==> r.ledger.searchError || SomeFailed(r.results, r.results, r.hook.blocked)
  {
  }

  lemma EvidenceCount(ledger: Ledger)
    ensures |EvidenceFromLedger(ledger)| == |ledger.entries|
  {
  }
}
