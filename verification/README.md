# Useful Brain: a Dafny model of grounding, access control and effects

This project models the parts of Useful Brain that decide what an answer may say, who may read a document, and
whether a side effect may happen, and proves what they promise. It is written in Dafny 4.11. `dafny verify
dfyconfig.toml` checks all of it.

## What is modelled

**Grounding.** A model searches a knowledge base; each search labels chunks in a live evidence ledger and leaves a
payload in the transcript. A second ledger is rebuilt from the transcript. The final draft passes through completion,
salvage, refusal, repair, identifier recovery, recheck and coverage, and the surviving text becomes structured
paragraphs. `KnowledgeRun` puts these together: any sequence of model messages and tool calls, any callback outcome and
any schedule of abort signals that never reset is a run.

- `Text`, `Paragraphs`, `Markers`, `Support`: strings, `split(/\n\s*\n/u)`, citation markers, the verbatim-support test.
- `Evidence`, `LedgerAgreement`, `TurnLedger`, `Transcript`: the ledger as a value, the agreement of the two ledgers,
  the ledger as the mutable `TurnEvidenceLedger`, and the turn of a transcript.
- `Grounding`, `Salvage`, `QuoteCandidates`, `SalvageDrafts`, `BrokenDraft`: validator, completion, salvage, what may be
  quoted, the drafts whose salvage is valid, and one whose salvage is not.
- `AnswerContract`, `AnswerReading`, `Structuring`: answer contract, reading of JSON drafts, structuring.
- `HostStrings`, `Budgets`, `ToolLoop`, `AnswerPasses`, `KnowledgeRun`: one whole run.

**Access.** `Access` is the direct decision, `AclGroup` the hashed group keys, `AccessSql` the generated SQL as syntax
trees under three-valued logic. Both fast forms decide like the direct one.

**Effects.** `Approvals` is the idempotent executor under every interleaving; `Json` and `Policy` are canonical arguments,
their fingerprints and the policy gateway.

**Signing keys.** `KeyCache` is the clocked cache of the Access verifier over every interleaving of lookups and fetches.

**Bytes and ranges.** `Utf8Bound`, `ReaderSegments`, `Png` and `Metrics`.

## Conventions

- A `char` stands for a UTF-16 code unit outside the surrogate range. `Utf8Bound` works on Unicode scalar values.
- `Script` carries the Unicode facts the support test needs: a lower case per character and the class of word characters.
  `Valid()` says that white space is caseless and no word character. `Language` adds the refusal patterns as one predicate.
- A citation label `[n]` of a structured paragraph is the number n. A payload written as JSON and parsed again is itself.
- A callback either returns text or nothing, or throws. Every look at an abort signal is an instant of its own, so a
  signal may fire between any two statements, which allows more than a single-threaded event loop does.
- In `KeyCache` a fetch stays in flight until its promise is cleared, and "just fetched" means cleared no earlier than the
  lookup began.
- `KeyOrder` is the order object keys end up in, integer-like keys first. A total order without ties is assumed where
  stated, and `Policy.TiesBreakFingerprints` shows that ties are exactly what would break fingerprints.
- In `AnswerPasses` and `ToolLoop` a call that the hook blocks yields one error result with the hook's reason.

## Findings

Where the code does not do what one would expect, a lemma shows it on one input and another says exactly when it happens.

- The two ledgers agree exactly when every returned chunk id is already trimmed, because only the rebuild trims ids
  (`UntrimmedIdDisagrees`, `AgreeExactlyWhenTrimmed`). Agreement does not depend on labels staying below 100: both sides
  then fall back to the same next label.
- Salvaged text validates exactly when no kept quote contains a blank line. One can appear when stripping removes a marker
  that stood alone on its line, and then the salvage pass discards the whole text (`SalvageIsDiscarded`). A draft
  whose stripped pieces have no blank line and no new marker always salvages to valid text (`SolidDraftSalvagesValid`).
- A question that reads as a synthetic message makes the rebuilt ledger take in the previous turn's searches
  (`SyntheticQuestionReachesBack`); the turn is the run's own exactly when the question is ordinary or nothing was searched
  before it (`TurnIsTheRun`).
- A search that fails with the exact text "pending_approval" is recorded as pending, so the run need not count as failed
  (`ErrorInApprovalWords`), and the two ledgers can then differ (`LostSearchDisagrees`). Every other search error counts
  (`RawErrorFails`, `RawErrorsCount`).
- A result blocked by policy is recorded as an error, not as denied, since the error flag is read first
  (`PolicyErrorIsError`, `BlockedIsNotDenied`); a finished search is recorded as denied when its evidence says so
  (`EvidenceCanReadAsDenied`).
- A text cut to its byte bound loses a leading byte order mark; a text that fits keeps it (`MarkIsLost`, `BomIsDropped`).
- The wall-time check during a run throws only past the edge, while the final check already counts the edge itself
  (`EdgeIsLeftToTheEnd`).
- In the durable store the caller that ran an effect returns its own value and later callers its JSON form
  (`LaterCallerGetsJson`); the two are equal exactly when both are their own JSON form (`ReturnsAreEqual`).
- The generated SQL counts the admin role and the direct decision does not (`AdminRowDiffers`); they agree exactly for
  filters without it, as every filter made for a principal is (`AclSqlAgrees`, `PrincipalSqlDecides`).
- The age of a signing key is bounded only up to the time a caller takes to go on after its fetch
  (`LateCallerGetsOldKey`, `KeysStayYoung`).

## Model

| member | source | states |
|---|---|---|
| KnowledgeRun.RunKnowledgeAgent | src/lib/agent/run.ts:274-937 | for every question, sequence of model and tool events, callback outcome and abort schedule: a result that is not aborted is blank, "(empty)", a host sentence, or an answer whose every paragraph cites labels of this turn's transcript that state its claims; whenever the transcript can be traced, every claim occurs in the section or content of a hit that a search of this run returned under a cited label, and structuring keeps the answer in full; live labels are 1, 2, 3 and so on, at most 32 for searches of at most eight hits; a failed search or a budget that cut the run off makes it unavailable; after a soft cap no model is called and the final is the model's own last text or a host sentence; a calm run that no budget cut off is not aborted |
| KnowledgeRun.PublishedAnswerIsGrounded | src/lib/agent/run.ts:604-617 | an answer accepted against the ledger rebuilt from the transcript is valid on the live ledger, has every claim in the section or content of a hit of this run under a cited label, and structures without loss, when no search failed or was lost, chunk ids are trimmed, and the turn holds no evidence from before the question |
| KnowledgeRun.ValidIsFound | src/lib/agent/host-grounding.ts:111-152 | whatever validates on the live ledger of a run has every claim, three words or more, in the section or content of a hit that a search of the run returned and whose label the paragraph cites |
| KnowledgeRun.LastAssistantIsLast | src/lib/agent/run.ts:602-605 | the draft is the text of an assistant message behind which there is none, or the must-retrieve sentence when there is none at all |
| KnowledgeRun.BudgetFailsWhenCutOff | src/lib/agent/run.ts:554-600 | a budget failure is recorded exactly when tokens or time ran out, or after a soft cap a hard block came or the turn limit cut the run off |
| KnowledgeRun.LedgersAgree | src/lib/agent/host-grounding.ts:390-414 | over any run without a failed or lost search, of trimmed chunk ids, in a turn without evidence from before its question, the rebuilt ledger has the entries of the live one and neither has a label conflict |
| KnowledgeRun.LostSearchDisagrees | src/lib/agent/run.ts:244-256 | in a turn of its own with trimmed ids and no failed search, one finished search lost in a "pending_approval" error leaves the rebuilt ledger empty and the live one not |
| KnowledgeRun.FewLabels | src/lib/agent/run.ts:939-958 | the labels of every run are 1, 2, 3 and so on, and at most 32 when searches return at most eight hits, so two digits suffice |
| AnswerPasses.AnswerOf | src/lib/agent/run.ts:617-937 | the passes together: what is published unless aborted; each model call only when it is due and, in a calm run, whenever it is due, on the fields of the turn; what each call brings is enforced and taken exactly when it stands; an invalid outcome of the host passes spends a repair call whenever repair is possible, and the repaired text is the answer if it stands; a draft that stands is only ever extended; where every answer may come from; a recorded refusal reason means a refusal; a calm run within its budgets is not aborted and adopts valid additions |
| AnswerPasses.HostPasses | src/lib/agent/run.ts:617-684 | without an abort the outcome is the first of draft, completion and salvaged quotes that stands, else a refusal after a cap or in the model's own words, else the invalid-citation sentence |
| AnswerPasses.ModelPasses | src/lib/agent/run.ts:726-845 | repair, identifier recovery and recheck are called only with a callback, evidence, no failed search and no cap, each on the outcome it is for, and in a calm run whenever that holds; valid answers are left alone, and what is brought is adopted exactly when it stands |
| AnswerPasses.EnforceSettles | src/lib/agent/host-grounding.ts:446-484 | enforcement returns a text unchanged exactly when it is no answer or is valid on evidence of this turn, and a host sentence otherwise |
| AnswerPasses.BearsExactly | src/lib/agent/host-grounding.ts:644-657 | what counts as an answer: any text but white space, "(empty)" and the four host sentences |
| AnswerPasses.EnforceSays | src/lib/agent/host-grounding.ts:446-484 | which sentence refuses an answer: no search tool, no search that ended well, no evidence, or citations that do not hold |
| AnswerPasses.SignalsMean | src/lib/agent/host-grounding.ts:187-207 | a draft declines in the model's own words exactly when it is a host sentence or at most 240 characters without markers that read as a refusal |
| AnswerPasses.CompletePass | src/lib/agent/run.ts:635-640 | only an invalid draft is completed, and the completion is enforced again |
| AnswerPasses.SalvagePass | src/lib/agent/run.ts:651-662 | salvage applies only to an invalid draft that is no refusal, and is adopted exactly when enforcement keeps it as it is |
| AnswerPasses.RefusalPass | src/lib/agent/run.ts:668-684 | an invalid draft becomes the refusal exactly after a cap or when the model declined; a reason is recorded only for a refusal, and for every refusal despite evidence |
| AnswerPasses.RepairPass | src/lib/agent/run.ts:733-757 | at most one repair, exactly when it may run; its text is enforced again and is adopted only so |
| AnswerPasses.RecoveryPass | src/lib/agent/run.ts:763-803 | one strict retry exactly when an asked identifier is in evidence; text that mentions none of the found identifiers or does not validate changes nothing |
| AnswerPasses.RecheckPass | src/lib/agent/run.ts:812-838 | an abstention despite evidence is rechecked once; only text that validates as it stands replaces it and clears the reason |
| AnswerPasses.ExtendedValid | src/lib/agent/run.ts:887-895 | the combined answer of draft, blank line and additions is enforced unchanged exactly when the additions are valid on their own |
| AnswerPasses.CoverPass | src/lib/agent/run.ts:860-902 | coverage keeps the draft or appends the trimmed additions, and appends them exactly when they are valid; one call at most, only when coverage applies |
| ToolLoop.ToolCallHook.DecideToolCall | src/lib/agent/run.ts:376-453 | the hook's state and decision for every call: soft cap, hard block, tool not enabled, evidence needed first, policy outcome |
| ToolLoop.ProceedsExactly | src/lib/agent/run.ts:376-453 | a call proceeds exactly when it is among the first eight attempts, for a search among the first four, its tool is enabled, a ticket has evidence, and the policy allows it |
| ToolLoop.BudgetBlocks | src/lib/agent/run.ts:381-407 | a call over budget is blocked with the message of the budget it met and ends the batch, except softly in a message of searches alone |
| ToolLoop.GateBlocks | src/lib/agent/run.ts:408-453 | the reason and whether the batch ends for a tool not enabled, a ticket without evidence and every answer of the policy |
| ToolLoop.HookRemembers | src/lib/agent/run.ts:376-407 | every attempt is counted, a soft cap marks the call, the first hard block leaves its message |
| ToolLoop.StepRunsOnlyThen | src/lib/agent/run.ts:376-453 | in a run every attempt leaves one result; unless the call may run it is an error and no search takes place, otherwise it is what the tool produced |
| ToolLoop.RunsExactly | src/lib/agent/run.ts:376-453 | the next call of a run runs exactly when the attempts so far, the enabled tools, the live evidence and the policy allow it |
| ToolLoop.CallsThatRan | src/lib/agent/run.ts:376-453 | the calls that ran are enabled, at most eight, and the searches among them are the searches that took place, at most four |
| ToolLoop.TicketNeedsHit | src/lib/agent/run.ts:411-419 | no ticket is created in a run before a search of that run returned a hit |
| ToolLoop.BudgetsHold | src/lib/agent/run.ts:376-407 | over every run at most eight calls pass the budget, at most four searches run, and a soft cap comes only after four searches were granted |
| ToolLoop.TurnsHold | src/lib/agent/run.ts:486-500 | a loop that stops when asked ends at most eight turns; while it goes on every turn is counted and both token totals are within their limits, and the turn limit stops it exactly at the eighth turn |
| ToolLoop.RunFollows | src/lib/agent/search-knowledge.ts:67-151 | over every run the live ledger is that of the searches that ran; without a failed search result the transcript carries their payloads, fewer by the searches lost in a "pending_approval" error, and exactly their payloads if and only if none was so lost |
| ToolLoop.FindSearchFailure | src/lib/agent/run.ts:699-716 | the loops over result ids and statuses compute the failure predicate |
| ToolLoop.CapHidesNoFailure | src/lib/agent/run.ts:699-716 | a run counts as failed exactly when the ledger saw an error, a search recorded with status error is no soft cap block, or a cap block's id is repeated by another result |
| ToolLoop.StatusExactly | src/lib/agent/run.ts:244-256 | the recorded status on the result's own fields: approval first, then error, then denied by its text |
| ToolLoop.RawErrorFails | src/lib/agent/run.ts:244-256 | a search that came back as an error is recorded as failed exactly when its text is not "pending_approval" |
| ToolLoop.RawErrorsCount | src/lib/agent/run.ts:699-716 | the same for what the tools returned, over every run: it counts as failed exactly when the ledger saw an error, a search that was not capped came back as an error in other words than "pending_approval", or a cap block's id is repeated |
| ToolLoop.ErrorInApprovalWords | src/lib/agent/run.ts:246-255 | a run whose only search finished and whose result was replaced by an error with that text does not count as failed, and its transcript carries no payload |
| ToolLoop.BlockedIsNotDenied | src/lib/agent/run.ts:244-256 | no result of a blocked call is recorded as denied: it is an error, or awaits approval exactly when the policy was asked and answered with an approval or its words |
| ToolLoop.PolicyErrorIsError | src/lib/agent/run.ts:244-256 | a policy error is recorded as an error although its text says "denied by policy" |
| ToolLoop.EvidenceCanReadAsDenied | src/lib/agent/run.ts:244-256 | a finished search whose evidence says "denied by policy" is recorded as denied |
| Budgets.BudgetTracker.RemainingWallTimeMs | src/lib/agent/budgets.ts:33-35 | zero exactly from the wall-time edge on, and the time to the edge before it |
| Budgets.EdgeIsLeftToTheEnd | src/lib/agent/budgets.ts:33-41 | no time is left and the check during the run still passes at exactly the edge and nowhere else |
| Budgets.BudgetTracker.NoteTurn | src/lib/agent/budgets.ts:43-48 | the new counters and the turn-limit error |
| Budgets.BudgetTracker.NoteToolCall | src/lib/agent/budgets.ts:50-61 | the new counters and the error: the total cap first, then the search cap |
| Budgets.BudgetTracker.AssertTokenTotals | src/lib/agent/budgets.ts:67-76 | the totals are replaced and checked against both limits |
| LedgerAgreement.RebuiltEqualsLive | src/lib/agent/host-grounding.ts:351-388 | over any sequence of finished searches with trimmed chunk ids both ledgers have the same entries, labelled 1, 2, 3 and so on, without conflict; the counters follow |
| LedgerAgreement.AgreeExactlyWhenTrimmed | src/lib/agent/host-grounding.ts:565-591 | without a search error the two ledgers agree exactly when every returned chunk id is already trimmed |
| LedgerAgreement.UntrimmedIdDisagrees | src/lib/agent/host-grounding.ts:565-591 | after one search that returned the chunk id " a" the two ledgers differ |
| LedgerAgreement.SearchErrorAgrees | src/lib/agent/search-knowledge.ts:133-151 | both ledgers report a search error exactly when a search failed or returned a hit without a chunk id |
| LedgerAgreement.LiveIsWellKept | src/lib/agent/host-grounding.ts:517-563 | live labels are consecutive, chunk ids distinct, and their number is bounded by searches times hits |
| LedgerAgreement.LiveIsFound | src/lib/agent/host-grounding.ts:517-563 | every entry of the live ledger has the chunk id, section and text of a hit that a search returned |
| Evidence.LabelRoundTrip | src/lib/agent/host-grounding.ts:486-496 | a printed label is read back exactly up to 99 |
| Transcript.TurnStartsAtQuestion | src/lib/agent/host-grounding.ts:390-414 | the rebuilt turn is what the run added after the question; a question that reads as synthetic takes in the previous turn too |
| Transcript.TurnIsTheRun | src/lib/agent/host-grounding.ts:390-414 | the turn is what the run added exactly when the question is ordinary or nothing was searched before it |
| Transcript.SyntheticExactly | src/lib/agent/host-grounding.ts:633-642 | which questions read as synthetic |
| Transcript.SyntheticQuestionReachesBack | src/lib/agent/host-grounding.ts:633-642 | the question "[System:incomplete" takes in the search of the turn before |
| TurnLedger.TurnEvidenceLedger.LabelForChunk | src/lib/agent/host-grounding.ts:508-515 | the label of a recorded chunk, none otherwise |
| TurnLedger.TurnEvidenceLedger.NextSequentialLabel | src/lib/agent/host-grounding.ts:517-522 | one past the largest label |
| TurnLedger.TurnEvidenceLedger.AddIdentity | src/lib/agent/host-grounding.ts:524-563 | the whole new ledger and the label returned, for new and known chunks, with and without a requested label |
| TurnLedger.TurnEvidenceLedger.AppendSearchHit | src/lib/agent/host-grounding.ts:343-349 | the printed label of the recorded identity, none where it throws |
| TurnLedger.TurnEvidenceLedger.IngestHits | src/lib/agent/host-grounding.ts:366-371 | the ledger after the hits of a payload |
| TurnLedger.TurnEvidenceLedger.IngestCitations | src/lib/agent/host-grounding.ts:372-377 | the ledger after the citations of a payload |
| TurnLedger.TurnEvidenceLedger.IngestSearchPayload | src/lib/agent/host-grounding.ts:351-388 | the whole new ledger for every payload, errors and non-objects included |
| TurnLedger.CollectTurnPayloads | src/lib/agent/host-grounding.ts:392-410 | the backward scan collects exactly the search payloads of the turn |
| TurnLedger.BuildTurnLedger | src/lib/agent/host-grounding.ts:390-414 | the rebuilt ledger object holds the rebuilt ledger of the messages |
| TurnLedger.TurnEvidenceLedger.AppendHits | src/lib/agent/search-knowledge.ts:82-113 | labels of the hits in order and the ledger after them, or where appending stopped |
| TurnLedger.TurnEvidenceLedger.ExecuteSearch | src/lib/agent/search-knowledge.ts:67-151 | the live ledger and the payload of one search, failures included |
| Paragraphs.JoinConcatenates | src/lib/agent/run.ts:891 | the paragraphs of two texts joined by a blank line are those of the first followed by those of the second, whatever white space they end or start with |
| Paragraphs.TrimKeepsParagraphs | src/lib/answer/prose-to-structured.ts:35-46 | trimming a draft does not change its paragraphs |
| Paragraphs.SplitGivesPieces | src/lib/agent/host-grounding.ts:214-215 | pieces of a split have no blank line inside and no newline where they meet a separator |
| Paragraphs.SplitUndoesJoin | src/lib/agent/host-grounding.ts:214-246 | splitting a blank-line join of such pieces gives them back |
| Markers.MarkersExactly | src/lib/agent/host-grounding.ts:95-109 | a marker is one or two digits between brackets of either kind, and its number is what the digits say |
| Markers.MarkersConcat | src/lib/agent/host-grounding.ts:95-109 | markers and stripped text of a concatenation that meets at an opening bracket |
| Markers.AppendLabels | src/lib/agent/host-grounding.ts:245 | appending labels up to 99 adds exactly those markers and leaves the stripped text alone |
| Support.SupportMeans | src/lib/answer/contract.ts:220-229 | a text is supported exactly when it makes a claim and every claim has three words or more and occurs in a normalised passage |
| Support.ClaimsAreWords | src/lib/answer/contract.ts:231-236 | every claim is a list of words with single spaces between them, as many as its fields |
| Support.SupportMonotone | src/lib/answer/contract.ts:220-229 | more passages never lose support |
| Support.ClaimsByScan | src/lib/answer/contract.ts:231-236 | the claim sentences of the split-then-normalise code are those of a single left-to-right scan |
| Support.ClaimsIgnoreSpacing | src/lib/answer/prose-to-structured.ts:51 | collapsing white space and trimming leave the claims of a text alone |
| Grounding.ValidMeans | src/lib/agent/host-grounding.ts:111-152 | a valid text has in every paragraph a known label and a claim, and every claim, three words or more, in the section or text of an entry whose label the paragraph cites; where labels name one entry each, only such texts are valid |
| Grounding.JoinValid | src/lib/agent/host-grounding.ts:111-136 | a blank-line join is valid exactly when both parts are and the labels do not conflict |
| Grounding.AdditionsExactly | src/lib/agent/host-grounding.ts:209-257 | a label is added exactly when it is not cited yet and its entry states a sentence, in its section or its text |
| Grounding.CollectAdditions | src/lib/agent/host-grounding.ts:226-241 | the loop over the labels collects the uncited ones that state a sentence of the paragraph |
| Grounding.CompletedSplits | src/lib/agent/host-grounding.ts:209-247 | a completed draft splits into exactly the completed pieces |
| Grounding.CompletionKeepsValid | src/lib/agent/host-grounding.ts:209-247 | completion keeps a valid draft valid |
| Grounding.CompletionIsIdempotent | src/lib/agent/host-grounding.ts:209-247 | completing twice is completing once |
| Grounding.CompletedParagraphValid | src/lib/agent/host-grounding.ts:245 | a valid paragraph stays valid when ledger labels are appended |
| QuoteCandidates.QuotedExactly | src/lib/agent/host-grounding.ts:259-341 | a span is quoted exactly when it is a cleaned candidate of a donating piece, of three fields or more, that the text of one entry supports |
| QuoteCandidates.CandidatesExactly | src/lib/agent/host-grounding.ts:282-300 | a candidate is a quoted run, a sentence, or what follows the label of a sentence |
| QuoteCandidates.QuotedRunIsCandidate | src/lib/agent/host-grounding.ts:283-285 | a run of ten characters or more up to the next closing mark is a candidate, and reading goes on behind it; behind a shorter one right after its opening mark |
| QuoteCandidates.RemainderIsCandidate | src/lib/agent/host-grounding.ts:291-300 | what follows a colon is a candidate exactly behind a label of up to four fields without a digit |
| QuoteCandidates.DonatesExactly | src/lib/agent/host-grounding.ts:271-281 | a piece donates exactly when it has text beside its markers and none of it is a host sentence or reads as a refusal |
| QuoteCandidates.CleanPeels | src/lib/agent/host-grounding.ts:301-306 | cleaning takes opening marks and white space from the front and closing ones from the back, nothing else, and leaves none there |
| Salvage.CollectQuotes | src/lib/agent/host-grounding.ts:310-332 | the loop over candidates keeps exactly the supported ones, in order |
| Salvage.QuotesAreSupportedCandidates | src/lib/agent/host-grounding.ts:310-332 | a cleaned span is quoted exactly when some candidate cleans to it and an evidence body contains it |
| Salvage.SelectQuotes | src/lib/agent/host-grounding.ts:337-347 | kept keys are pairwise not contained in each other, at most six; every quote is contained in a kept one, or the cap was reached by quotes at least as long |
| Salvage.SalvageVerbatimQuotes | src/lib/agent/host-grounding.ts:259-341 | the same for the whole draft, in draft order, each quote labelled with exactly the evidence bodies that contain it |
| Salvage.SalvagedValidWhenSolid | src/lib/agent/host-grounding.ts:259-341 | salvaged text passes the validator exactly when no kept quote has a blank line inside |
| SalvageDrafts.CandidatesDecide | src/lib/agent/host-grounding.ts:259-341 | when no cleaned candidate span of the draft has a blank line or a marker inside, whatever is salvaged validates, for every ledger |
| SalvageDrafts.SolidDraftSalvagesValid | src/lib/agent/host-grounding.ts:259-341 | so it does when no piece of the draft has a blank line or a marker inside once its markers are stripped |
| SalvageDrafts.CandidatesInside | src/lib/agent/host-grounding.ts:271-300 | every candidate span of a text, cleaned, is a part of it |
| BrokenDraft.BrokenDraftSalvagesInvalid | src/lib/agent/host-grounding.ts:259-341 | from a draft of an unsupported paragraph and one with a marker alone on its line exactly one paragraph is salvaged, with a blank line inside, and it does not validate |
| BrokenDraft.SalvageIsDiscarded | src/lib/agent/run.ts:617-662 | that draft does not validate, completion changes nothing, its quotes may be salvaged, enforcement rejects what is salvaged, and the invalid-citation sentence is left |
| AnswerContract.CollectSupportedLabels | src/lib/answer/contract.ts:245-272 | the loop over the evidence appends the labels that state a claim, each once |
| AnswerContract.SettledAnswerStays | src/lib/answer/contract.ts:156-204 | reading back an answer of settled paragraphs changes nothing |
| AnswerContract.EvidenceIsEntries | src/lib/agent/run.ts:939-958 | one evidence item per entry, in the order of the labels, with its chunk id, document id, section and text |
| AnswerContract.ParagraphSupportedMeans | src/lib/answer/contract.ts:206-229 | a paragraph is supported exactly when it makes a claim and every claim, three words or more, occurs in the section or text of an item it cites |
| AnswerContract.AddedExactly | src/lib/answer/contract.ts:245-272 | a label is added exactly when an item under it has a claim of three words or more in its section or text |
| AnswerContract.AnswerExactly | src/lib/answer/contract.ts:135-204 | a paragraph is kept exactly when it is one of those with text, as it is read, and every claim occurs in evidence it cites |
| AnswerContract.AnswerIsSound | src/lib/answer/contract.ts:135-218 | whatever paragraphs and numbers are read, every kept paragraph cites known labels and is supported by the passages it cites |
| AnswerReading.NormalizeRawCitations | src/lib/answer/contract.ts:313-334 | the nested loops over citation strings and their labels collect the known ones, each once, in order |
| AnswerReading.CitedExactly | src/lib/answer/contract.ts:313-354 | a label is read exactly when it is known and some citation string writes its numeral inside a bracket group |
| AnswerReading.ListReadsBack | src/lib/answer/contract.ts:336-354 | a bracket group written with any labels reads back as their numerals |
| AnswerReading.RawAnswerIsSound | src/lib/answer/contract.ts:135-354 | the same soundness for a parsed draft of any shape: no record, foreign answer type, paragraphs that are no array, texts and citations that are no strings |
| AnswerReading.RawAnswerExactly | src/lib/answer/contract.ts:135-354 | which paragraphs a parsed draft yields: those of a grounded answer that are records with text, as they are read, whose every claim occurs in evidence they cite |
| AnswerReading.WrittenAnswerReadsBack | src/lib/answer/contract.ts:156-354 | a settled answer written as JSON and read again is itself |
| Structuring.ParagraphIsKept | src/lib/answer/prose-to-structured.ts:41-59 | a valid paragraph keeps its visible text without the markers, its claims and all its markers, and gains only supporting labels |
| Structuring.StructuringLosesNothing | src/lib/answer/prose-to-structured.ts:31-63 | valid prose becomes a grounded answer with one paragraph per prose paragraph, each kept, and reading the answer back changes nothing |
| AclGroup.SortForgetsOrder | src/lib/acl/acl-group.ts:29-30 | two lists sort to the same list exactly when they hold the same elements equally often |
| AclGroup.EncodeInjective | src/lib/acl/acl-group.ts:22-24 | the length-prefixed encoding is injective |
| AclGroup.CanonicalIdentifiesShape | src/lib/acl/acl-group.ts:26-33 | two shapes have the same text under the hash exactly when they are equal up to list order |
| AclGroup.KeyIdentifiesShape | src/lib/acl/acl-group.ts:26-34 | without digest collisions a group key names one shape up to list order |
| Access.ReadsExactly | src/lib/acl/access.ts:48-88 | who may read: everybody, a shared department, a shared role other than "admin", or the owner the metadata or else the record names |
| Access.RefusedBecause | src/lib/acl/access.ts:55-88 | the reason of every refusal |
| Access.FilterExactly | src/lib/acl/access.ts:35-46 | there is a filter exactly up to 40 distinct roles other than "admin" and 40 distinct departments, and it holds those once each |
| Access.FilterDecidesLikePrincipal | src/lib/acl/access.ts:35-95 | the filter decides like its principal for every chunk; the admin role grants nothing |
| Access.ShapeDecidesLikeChunk | src/lib/acl/access.ts:126-137 | a chunk and its shape are decided alike |
| Access.EnumerateAllowedAclGroups | src/lib/acl/access.ts:139-161 | the keys are sorted, distinct and exactly those of the matching shapes |
| Access.VectorFilterEqualsAcl | src/lib/acl/access.ts:54-161 | for shapes that cover the chunk, its key is enumerated exactly when the principal may read the chunk |
| AccessSql.AclSqlAndParams | src/lib/acl/access.ts:174-197 | branches and positional parameters are pushed side by side |
| AccessSql.OrAllHolds | src/lib/acl/access.ts:196 | a disjunction with its parameters in order is true exactly when one of its branches is |
| AccessSql.AclSqlDecides | src/lib/acl/access.ts:174-197 | under three-valued logic the predicate is true of a row exactly when the direct decision allows its chunk, or the filter and the row both carry the admin role, NULLs and foreign values included |
| AccessSql.AclSqlAgrees | src/lib/acl/access.ts:90-95 | predicate and direct decision agree on every row of every database exactly for filters without the admin role |
| AccessSql.AdminRowDiffers | src/lib/acl/access.ts:174-197 | a filter with the admin role opens a row shared with that role alone, which the direct decision denies |
| AccessSql.PrincipalSqlDecides | src/lib/acl/access.ts:35-46 | the predicate made for a principal is true of a row exactly when the principal may read its chunk |
| AccessSql.ReadableDocumentDecides | src/lib/acl/access.ts:208-223 | the document predicate is true exactly when the catalog row is of the generation and allowed, a body exists, and every one of at least one chunk is allowed |
| KeyCache.AccessJwtVerifier.KeyFor | src/lib/auth/access-jwt.ts:314-337 | answer, wait or refusal of a lookup up to its first await, and the new fields |
| KeyCache.AccessJwtVerifier.FallbackFor | src/lib/auth/access-jwt.ts:339-353 | key, unknown or unavailable by presence and age |
| KeyCache.AccessJwtVerifier.RefreshKeys | src/lib/auth/access-jwt.ts:355-374 | joins a fetch in flight, refuses within the minimum spacing, starts one otherwise |
| KeyCache.AccessJwtVerifier.FetchSettled | src/lib/auth/access-jwt.ts:364-369 | a good fetch replaces keys and their time, a failed one changes nothing |
| KeyCache.RunKeeps | src/lib/auth/access-jwt.ts:314-374 | over every interleaving and non-decreasing clock: fetch starts are spaced, one in flight, keys are those of the last good fetch, each key or "unknown key" comes from a set young enough or still being fetched when the lookup began, and "unavailable" is only answered when no set fetched before is younger than both limits |
| KeyCache.EveryAnswerIsTried | src/lib/auth/access-jwt.ts:314-374 | over every run, an answer that is no key from a set younger than the TTL is only given when a fetch had started within the minimum spacing of the lookup, or was in flight when the lookup began or later |
| KeyCache.LookDecides | src/lib/auth/access-jwt.ts:314-374 | in every run a lookup gives a fresh key at once and fetches nothing, answers at once within the spacing when there are keys, and otherwise waits for the fetch in flight or starts one once the spacing is over |
| KeyCache.KeysStayYoung | src/lib/auth/access-jwt.ts:314-374 | over every run in which a settled fetch is cleared at once and its callers go on within a lag, each key is no older than the longest of TTL, stale grace and lag, and each "unknown key" younger than the TTL or no older than the lag |
| KeyCache.LateCallerGetsOldKey | src/lib/auth/access-jwt.ts:314-374 | without a bound on the lag there is none on the age: a caller that goes on late gets a key exactly as old as it is late |
| Approvals.MemoryIdempotencyStore.ClaimKey | src/lib/agent/approvals.ts:21-27 | the first claim of a key wins and marks it in progress |
| Approvals.MemoryIdempotencyStore.CompleteKey | src/lib/agent/approvals.ts:33-35 | the record becomes completed with the result |
| Approvals.D1IdempotencyStore.ClaimKey | src/lib/agent/approvals.ts:41-52 | the conditional insert is the same claim |
| Approvals.D1IdempotencyStore.Load | src/lib/agent/approvals.ts:54-68 | the record of a row, none without one |
| Approvals.D1IdempotencyStore.CompleteKey | src/lib/agent/approvals.ts:70-86 | the conditional update completes only a row in progress, and reports a lost claim |
| Approvals.RunAlone | src/lib/agent/approvals.ts:92-107 | what one call does on its own over the memory store, for every record and effect outcome: the result, whether the effect starts, the whole new store |
| Approvals.RunAloneDurably | src/lib/agent/approvals.ts:38-107 | the same over the durable store, which keeps the JSON form; the lost-claim report cannot occur |
| Approvals.RunKeeps | src/lib/agent/approvals.ts:89-107 | the invariant of every interleaving of any number of callers on any keys |
| Approvals.AskingGetsStored | src/lib/agent/approvals.ts:92-101 | once a key is completed, every caller of it still loading, claiming or loading again returns the stored result after at most two of its own steps, whatever others do in between |
| Approvals.ThrownOnlyInProgress | src/lib/agent/approvals.ts:97-107 | in every run a caller ends in an error only because its own effect failed, or while the record of its key is in progress |
| Approvals.SoloCallerReturns | src/lib/agent/approvals.ts:92-107 | a caller alone on a new key claims, runs the effect once, completes and returns its value, in any run |
| Approvals.EffectsAreIdempotent | src/lib/agent/approvals.ts:89-107 | an effect starts at most once per key; the stored result is the stored form of every returned value, and that value itself exactly for the memory store or a value that is its own JSON form; a failed effect leaves its key in progress with nobody returning; no completion finds its claim lost |
| Approvals.ReturnsAgree | src/lib/agent/approvals.ts:89-107 | two callers of a key that return, return values with the same stored form |
| Approvals.RunKeepsOne | src/lib/agent/approvals.ts:92-107 | of two callers of a key that returned, at least one returned what the store holds |
| Approvals.ReturnsAreEqual | src/lib/agent/approvals.ts:54-107 | they return the same value exactly for the memory store or when both values are their own JSON form |
| Approvals.LaterCallerGetsJson | src/lib/agent/approvals.ts:54-107 | a run of the durable store in which the first caller returns its own value and a later one its different JSON form |
| Approvals.CompletedForever | src/lib/agent/approvals.ts:89-107 | a completed record never changes, however the run goes on |
| Json.StringifyInjective | src/lib/agent/policy.ts:115-117 | equal JSON texts come from equal values, key order included |
| Policy.NormalFormIdentifies | src/lib/agent/policy.ts:101-113 | normal forms are equal exactly when the values are equal up to key order at every depth |
| Policy.FingerprintIdentifies | src/lib/agent/policy.ts:101-117 | so are fingerprints |
| Policy.NormalizeTwice | src/lib/agent/policy.ts:101-113 | normalising is idempotent |
| Policy.TiesBreakFingerprints | src/lib/agent/policy.ts:105-107 | fingerprints forget key order exactly when the key comparison has no ties |
| Policy.DecisionByTool | src/lib/agent/policy.ts:39-99 | the decision by tool name: read tools are allowed, a write needs an approval for this very attempt and otherwise asks for one that lasts fifteen minutes, deletion is denied, any other tool is an error |
| Policy.AllowedExactlyAsApproved | src/lib/agent/policy.ts:66-135 | a gated write approved for one attempt is allowed in another exactly when nothing but argument key order differs and the approval has not expired |
| Policy.PendingThenAllowed | src/lib/agent/policy.ts:83-98 | the approval an attempt asked for allows it until it expires |
| Utf8Bound.RoundTrip | src/lib/agent/redact-tool-result.ts:25-37 | decoding undoes encoding for every text |
| Utf8Bound.FitsIsLongest | src/lib/agent/redact-tool-result.ts:25-37 | the counted prefix fits and one more code point does not |
| Utf8Bound.BoundUtf8Bytes | src/lib/agent/redact-tool-result.ts:25-38 | for every bound: a text that fits is returned, a longer one is cut to the longest prefix of code points that fits |
| Utf8Bound.BomIsDropped | src/lib/agent/redact-tool-result.ts:37 | a cut text is that prefix exactly unless it starts with a byte order mark |
| Utf8Bound.MarkIsLost | src/lib/agent/redact-tool-result.ts:25-38 | a byte order mark followed by "ab" is five bytes long; cut to four it comes back as "a" |
| ReaderSegments.SegmentsFor | src/components/chat/answer-view.ts:220-251 | segments concatenate to the text, none is empty, a position is marked exactly when a labelled span covers it, and the span that starts first inside the paragraph gives the mark |
| ReaderSegments.PartsSplit | src/components/chat/answer-view.ts:261 | parts tile the text with runs of two newlines or more between them and no blank line inside |
| ReaderSegments.CursorFindsPart | src/components/chat/answer-view.ts:262-263 | searching from the end of the previous part finds the true offset of every part that is not empty |
| ReaderSegments.SectionView | src/components/chat/answer-view.ts:253-269 | each paragraph with text is segmented at its true offset, in order |
| Png.PredictionIs | macos/scripts/png_bbox.py:43-60 | what is predicted from the three neighbours is exactly the prediction of the filter type: left, above, the rounded-down mean, or the first of them nearest to left + above - above left |
| Png.UnfilterInvertsFilter | macos/scripts/png_bbox.py:38-62 | reconstruction gives a line exactly when each byte of the data is that of the line minus its prediction, for every filter type |
| Png.UnfilterLine | macos/scripts/png_bbox.py:43-60 | the in-place loops compute the reconstruction |
| Png.ReadScanlines | macos/scripts/png_bbox.py:34-64 | the scanline loop writes the reconstructed rows, each from the one above, whatever follows the scanlines |
| Png.ImageRoundTrip | macos/scripts/png_bbox.py:34-64 | reading data gives an image exactly when every line is filtered from its row and the one above; every choice of filter types gives such data |
| Png.SelectsBySum | macos/scripts/png_bbox.py:67-93 | which pixels a mode selects, on the sum of the colours |
| Png.BoundingBox | macos/scripts/png_bbox.py:67-93 | none exactly when no pixel is selected; otherwise the box holds every selected pixel and touches one on each side |
| Metrics.RankedDocumentIds | src/lib/eval/metrics.ts:1-12 | first occurrences in order |
| Metrics.RecallOf | src/lib/eval/metrics.ts:14-24 | the loop computes recall |
| Metrics.RecallIsShare | src/lib/eval/metrics.ts:14-24 | recall lies in [0, 1]; 1 exactly when all (or any) wanted documents are ranked, 0 exactly when none is |
| Metrics.RecallCounts | src/lib/eval/metrics.ts:14-24 | with all documents required, recall times the wanted documents is the number of them that are ranked |
| Metrics.ReciprocalRankOf | src/lib/eval/metrics.ts:26-37 | the loop computes the reciprocal rank |
| Metrics.ReciprocalRankIsShare | src/lib/eval/metrics.ts:26-37 | in [0, 1]; 1 exactly when a wanted document leads, 0 exactly when none is ranked |
| Metrics.ReciprocalRankAt | src/lib/eval/metrics.ts:26-37 | the first wanted document counts with one over its place among the distinct documents |
| Metrics.NdcgOf | src/lib/eval/metrics.ts:39-65 | the loops compute nDCG, none for a k that is not positive |
| Metrics.GainAtMostIdeal | src/lib/eval/metrics.ts:55-63 | rearrangement: hits gain at most what as many leading hits would, and that only when they lead |
| Metrics.EarlierGainsMore | src/lib/eval/metrics.ts:55-63 | a hit that moves up gains the difference of the discounts, which is positive |
| Metrics.NdcgIsShare | src/lib/eval/metrics.ts:39-65 | nDCG lies in [0, 1]; 1 exactly when the first min(k, wanted) places all hold wanted documents |

## Left out

- KnowledgeRun.RunKnowledgeAgent: a published text is structured as prose; of a final that is itself JSON, `AnswerReading` gives the soundness of the structured answer.
- Structuring.StructuringLosesNothing: for drafts without code fences and not JSON-shaped; those are parsed as structured answers instead.
- Salvage.SalvagedValidWhenSolid: for quotes in which stripping formed no new marker, such as the one left by "[[1]2]", and labels up to 99. Which quotes are kept depends on the evidence; on the draft alone the condition of `SalvageDrafts` is sufficient, not necessary.
- Grounding.CompletionKeepsValid: for labels up to 99, the largest the marker pattern reads.
- Access.VectorFilterEqualsAcl: for a digest that does not collide on the shapes at hand; hashing itself is not modelled.
- Approvals.EffectsAreIdempotent: JSON text itself is one function from values to values that changes nothing when applied twice.
- Metrics.NdcgIsShare: over real numbers and any positive, strictly falling discount that starts at 1; floating-point rounding is not modelled.
- Png.BoundingBox: tight for images up to the starting value of the search, 10^9 pixels wide or high; printing is left out.
- KeyCache.RunKeeps: the age of a key from a fetch that was joined is bounded in `KeysStayYoung`, not here. Parsing of fetched key sets and signature verification are left out; a set without usable keys is a failed fetch.
- The agent loop, the model, prompts, streaming and deadlines: the environment of `ToolLoop` and `AnswerPasses`.
- Scores, sources, file names and versions of evidence, token estimates and the redaction of stored tool results: they decide nothing modelled here.
- Rewriting of assistant transcripts, brain profiles and the action-note paragraph: one reading settles them.
- JSON text itself: `AnswerReading` starts from the parsed value, and an array of citations that is none is the empty list.
- Size limits of serialized vector filters, full-text queries and the removal reasons of filtered chunks.
- SQL text, JSON text inside columns and malformed JSON: conditions are syntax trees and list columns hold their values.
- Building and validation of idempotency keys and the hash in them; the execution mode of tools only as far as the gateway reads it.
- PNG chunk parsing and decompression: the scanline data is an input.
- Astral characters and context-sensitive lower case in strings.
