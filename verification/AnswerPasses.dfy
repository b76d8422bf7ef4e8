/**
  * The chain of passes between the model's draft and the answer: enforcement, completion, salvage, refusal,
  * repair, identifier recovery, abstention recheck and coverage.
  */
module AnswerPasses {
  import opened Wrappers
  import opened Text
  import opened Paragraphs
  import opened Support
  import opened Evidence
  import opened Markers
  import opened Grounding
  import opened Salvage
  import opened HostStrings
  import opened Budgets

  /** What an untrusted callback did: it returned text or nothing, or it threw. */
  datatype Callback = Returned(text: Option<string>) | Threw(truncated: bool)

  /**
    * The world the passes run in. Each look at the abort signals or the clock is an instant of its own;
    * `elapsed` is the time since the run started, in milliseconds.
    */
  datatype World = World(
    caller: nat -> bool, wall: nat -> bool, elapsed: nat -> int,
    repaired: Callback, recovered: Callback, rechecked: Callback, covered: Callback, turnLeft: bool)

  predicate Interrupted(w: World, k: nat) { w.caller(k) || w.wall(k) }

  /** Abort signals never reset. */
  ghost predicate NeverReset(w: World) {
    && (forall i: nat, j: nat :: i <= j && w.caller(i) ==> w.caller(j))
    && (forall i: nat, j: nat :: i <= j && w.wall(i) ==> w.wall(j))
  }

  datatype Question = Question(identifiers: seq<string>, multiPart: bool, hintsAtUncited: string -> bool)

  /** What the tool loop left behind: the ledger rebuilt from the transcript, the live one, and the run's outcome. */
  datatype Turn = Turn(
    lang: Language, question: Question, rebuilt: Ledger, live: Ledger, hasSearch: bool, failed: bool,
    searchFailed: bool, capped: bool, hasRepair: bool, hasCover: bool, budgetError: Option<string>)

  datatype Reason = ModelAbstained | ModelAbstainedWithEvidence | SearchCapInvalidDraft

  const EMPTY := "(empty)"
  const MAX_REFUSAL_LENGTH := 240

  predicate Blankish(text: string) { Trim(text) == "" || Trim(text) == EMPTY }

  // ---- enforcement ----

  predicate AnswerBearing(text: string) { !Blankish(text) && Trim(text) !in HOST_STRINGS }

  function Enforce(t: Turn, interrupted: bool, text: string): string {
    if interrupted || t.failed || !AnswerBearing(text) then text
    else if !t.hasSearch then BRAIN_KNOWLEDGE_UNAVAILABLE
    else if t.rebuilt.successfulSearchCount == 0 then
      if t.rebuilt.searchError then BRAIN_KNOWLEDGE_UNAVAILABLE else BRAIN_MUST_RETRIEVE
    else if t.rebuilt.entries == [] || t.rebuilt.emptyOrInsufficient then BRAIN_NOT_ENOUGH_EVIDENCE
    else if !MarkersValid(t.lang.script, text, t.rebuilt) then BRAIN_INVALID_CITATION
    else text
  }

  /** This turn's transcript holds evidence to validate against. */
  predicate HasEvidence(t: Turn) {
    t.hasSearch && t.rebuilt.successfulSearchCount > 0 && t.rebuilt.entries != [] && !t.rebuilt.emptyOrInsufficient
  }

  /** A final the host may publish: no answer at all, or one that validates on evidence of this turn. */
  predicate Accepted(t: Turn, text: string) {
    Blankish(text) || Trim(text) in HOST_STRINGS || (HasEvidence(t) && MarkersValid(t.lang.script, text, t.rebuilt))
  }

  /** What counts as an answer: any text but white space, "(empty)" and the four host sentences. */
  lemma BearsExactly(text: string)
    ensures AnswerBearing(text)
       <==> Trim(text) !in {"", "(empty)", BRAIN_NOT_ENOUGH_EVIDENCE, BRAIN_KNOWLEDGE_UNAVAILABLE, BRAIN_MUST_RETRIEVE,
                            BRAIN_INVALID_CITATION}
  {
    hide Trim;
  }

  lemma HostStringsAreTight(s: string)
    requires s in HOST_STRINGS
    ensures Trim(s) == s
  {
    assert Tight(s);
    TrimTight(s);
  }

  lemma EnforceSettles(t: Turn, text: string)
    requires !t.failed
    ensures var done := Enforce(t, false, text);
            && Accepted(t, done) && (done == text || done in HOST_STRINGS)
            && (done == text <==>
                !AnswerBearing(text) || (HasEvidence(t) && MarkersValid(t.lang.script, text, t.rebuilt)))
            && (HasEvidence(t) && done != text ==> done == BRAIN_INVALID_CITATION)
  {
    hide MarkersValid, Trim;
    forall h | h in HOST_STRINGS ensures Trim(h) == h {
      HostStringsAreTight(h);
    }
  }

  /**
    * Why an answer is refused: no search tool, no search that ended well, no evidence, or citations that do not
    * hold.
    */
  lemma EnforceSays(t: Turn, text: string)
    requires !t.failed && AnswerBearing(text)
    ensures !t.hasSearch ==> Enforce(t, false, text) == BRAIN_KNOWLEDGE_UNAVAILABLE
    ensures t.hasSearch && t.rebuilt.successfulSearchCount == 0 ==>
              Enforce(t, false, text)
              == if t.rebuilt.searchError then BRAIN_KNOWLEDGE_UNAVAILABLE else BRAIN_MUST_RETRIEVE
    ensures t.hasSearch && t.rebuilt.successfulSearchCount > 0
            && (t.rebuilt.entries == [] || t.rebuilt.emptyOrInsufficient)
            ==> Enforce(t, false, text) == BRAIN_NOT_ENOUGH_EVIDENCE
    ensures t.hasSearch && t.rebuilt.successfulSearchCount > 0 && t.rebuilt.entries != []
            && !t.rebuilt.emptyOrInsufficient
            ==> Enforce(t, false, text)
                == if MarkersValid(t.lang.script, text, t.rebuilt) then text else BRAIN_INVALID_CITATION
  {
    hide MarkersValid, AnswerBearing;
  }

  // ---- refusals ----

  predicate ModelSignalsRefusal(lang: Language, text: string) {
    var trimmed := Trim(text);
    && trimmed != ""
    && (trimmed in HOST_STRINGS
        || (MarkerNumbers(trimmed) == [] && |trimmed| <= MAX_REFUSAL_LENGTH && lang.refusal(trimmed)))
  }

  /** A refusal in the model's own words: a host sentence, or a short text without markers that reads as one. */
  lemma SignalsMean(lang: Language, text: string)
    ensures ModelSignalsRefusal(lang, text)
       <==> || Trim(text) in HOST_STRINGS
            || (0 < |Trim(text)| <= 240 && MarkerNumbers(Trim(text)) == [] && lang.refusal(Trim(text)))
  {
    hide Trim, MarkerNumbers, HOST_STRINGS;
    if Trim(text) in HOST_STRINGS {
      HostStringIsLong(Trim(text));
    }
  }

  lemma HostStringIsLong(s: string)
    requires s in HOST_STRINGS
    ensures s != ""
  {
    HostStringsDiffer();
  }

  predicate IsRefusal(text: string) { Trim(text) == BRAIN_NOT_ENOUGH_EVIDENCE }

  /** A draft whose verbatim quotes may be salvaged. */
  predicate Salvageable(t: Turn, raw: string) {
    && t.live.entries != [] && !t.capped && !ModelSignalsRefusal(t.lang, raw)
    && !(MarkerNumbers(raw) == [] && SentenceSignalsInsufficientEvidence(t.lang, raw))
  }

  /**
    * Quotes are salvaged with evidence and without a cap, from a draft that neither declines nor, unmarked, has a
    * refusal.
    */
  lemma SalvageableMeans(t: Turn, raw: string)
    ensures Salvageable(t, raw)
       <==> && |t.live.entries| > 0 && !t.capped && !ModelSignalsRefusal(t.lang, raw)
            && (MarkerNumbers(raw) != [] || !SentenceSignalsInsufficientEvidence(t.lang, raw))
  {
    hide ModelSignalsRefusal, MarkerNumbers, SentenceSignalsInsufficientEvidence;
  }

  ghost predicate IsSalvage(t: Turn, raw: string, text: string) {
    exists kept :: Salvage.Salvaged(t.lang, raw, t.live, Some(text), kept)
  }

  // ---- the passes ----

  /** The passes that call a model. */
  datatype Pass = Repair | Recovery | Recheck | Coverage

  /** The answer so far, why a refusal was kept, the calls made in order and the last instant looked at. */
  datatype Progress =
    Progress(grounded: string, reason: Option<Reason>, truncated: nat, asked: seq<Pass>, instant: nat)

  /** Unless the run already counts as aborted, the answer so far may be published. */
  predicate Safe(t: Turn, w: World, p: Progress) {
    Accepted(t, p.grounded) || t.failed || Interrupted(w, p.instant)
  }

  /** The run has not been aborted up to this instant. */
  predicate Clear(t: Turn, w: World, k: nat) { !t.failed && !Interrupted(w, k) }

  lemma ClearBefore(t: Turn, w: World, early: nat, late: nat)
    requires NeverReset(w) && early <= late && Clear(t, w, late)
    ensures Clear(t, w, early)
  {
  }

  /** One more look at the signals by `enforce`. */
  method EnforceNow(t: Turn, w: World, p: Progress, text: string) returns (done: string, k: nat)
    requires NeverReset(w)
    ensures k == p.instant + 1
    ensures Clear(t, w, k) ==> done == Enforce(t, false, text) && Accepted(t, done)
    ensures done == text || done in HOST_STRINGS
  {
    hide MarkersValid, Trim;
    k := p.instant + 1;
    done := Enforce(t, Interrupted(w, k), text);
    if !t.failed {
      EnforceSettles(t, text);
    }
  }

  /** Pass 1: an under-cited draft is completed from the ledger. */
  method CompletePass(t: Turn, w: World, p: Progress, raw: string) returns (q: Progress)
    requires NeverReset(w) && Safe(t, w, p)
    ensures Safe(t, w, q) && q.instant >= p.instant && q == p.(grounded := q.grounded, instant := q.instant)
    ensures var completed := CompleteProseCitations(t.lang.script, raw, t.live);
            var runs := p.grounded == BRAIN_INVALID_CITATION && t.live.entries != [] && !t.capped && completed != raw;
            && (!runs ==> q.grounded == p.grounded)
            && (q.grounded == p.grounded || q.grounded == completed || q.grounded in HOST_STRINGS)
            && (runs && Clear(t, w, q.instant) ==> q.grounded == Enforce(t, false, completed))
  {
    hide MarkersValid, Trim, Enforce, CompleteProseCitations, Accepted;
    q := p;
    if p.grounded == BRAIN_INVALID_CITATION && t.live.entries != [] && !t.capped {
      var completed := CompleteProseCitations(t.lang.script, raw, t.live);
      if completed != raw {
        var done, k := EnforceNow(t, w, p, completed);
        q := p.(grounded := done, instant := k);
      }
    }
  }

  /** Pass 2: verbatim quotes are salvaged from a draft that is no refusal. */
  method SalvagePass(t: Turn, w: World, p: Progress, raw: string) returns (q: Progress, salvaged: Option<string>)
    requires NeverReset(w) && Safe(t, w, p)
    ensures Safe(t, w, q) && q.instant >= p.instant && q == p.(grounded := q.grounded, instant := q.instant)
    ensures q.grounded == p.grounded || salvaged == Some(q.grounded)
    ensures salvaged.Some? ==> IsSalvage(t, raw, salvaged.value) && !ModelSignalsRefusal(t.lang, raw) && !t.capped
    ensures salvaged.Some? ==> DraftQuotes(t.lang, raw, t.live) != []
    ensures p.grounded == BRAIN_INVALID_CITATION && Salvageable(t, raw) && DraftQuotes(t.lang, raw, t.live) != []
            ==> salvaged.Some?
    ensures p.grounded != BRAIN_INVALID_CITATION || !Salvageable(t, raw) ==>
              q.grounded == p.grounded && salvaged == None
    ensures salvaged.Some? && salvaged.value != "" && Clear(t, w, q.instant) ==>
              (q.grounded == salvaged.value <==> Enforce(t, false, salvaged.value) == salvaged.value)
  {
    hide MarkersValid, Trim, Enforce, Accepted, ModelSignalsRefusal, InPlace, Ordered, KeysApart, Covered,
      DraftQuotes, QuoteParagraphs;
    q, salvaged := p, None;
    if p.grounded == BRAIN_INVALID_CITATION && Salvageable(t, raw) {
      var kept;
      salvaged, kept := SalvageVerbatimQuotes(t.lang, raw, t.live);
      if salvaged.Some? && salvaged.value != "" {
        var done, k := EnforceNow(t, w, p, salvaged.value);
        q := p.(grounded := if done == salvaged.value then done else p.grounded, instant := k);
        InvalidIsAccepted(t);
      }
    }
  }

  lemma InvalidIsAccepted(t: Turn)
    ensures Accepted(t, BRAIN_INVALID_CITATION) && Accepted(t, BRAIN_NOT_ENOUGH_EVIDENCE)
    ensures Enforce(t, false, BRAIN_INVALID_CITATION) == BRAIN_INVALID_CITATION
  {
    hide MarkersValid, Trim;
    HostStringsAreTight(BRAIN_INVALID_CITATION);
    HostStringsAreTight(BRAIN_NOT_ENOUGH_EVIDENCE);
  }

  /** Pass 3: an intended refusal is honoured, and after a cap anything that did not validate is one. */
  method RefusalPass(t: Turn, w: World, p: Progress, raw: string) returns (q: Progress)
    requires Safe(t, w, p) && p.reason == None
    ensures Safe(t, w, q) && q == p.(grounded := q.grounded, reason := q.reason)
    ensures q.grounded == (if p.grounded == BRAIN_INVALID_CITATION && (t.capped || ModelSignalsRefusal(t.lang, raw))
                           then BRAIN_NOT_ENOUGH_EVIDENCE else p.grounded)
    ensures q.reason.Some? ==> IsRefusal(q.grounded)
    ensures q.reason == Some(ModelAbstainedWithEvidence) ==> t.live.entries != []
    ensures q.reason == Some(SearchCapInvalidDraft) ==> t.capped && !ModelSignalsRefusal(t.lang, raw)
    ensures p.grounded == BRAIN_INVALID_CITATION ==>
              && (t.capped && !ModelSignalsRefusal(t.lang, raw) ==> q.reason == Some(SearchCapInvalidDraft))
              && (ModelSignalsRefusal(t.lang, raw) ==>
                    q.reason == Some(if t.live.entries != [] then ModelAbstainedWithEvidence else ModelAbstained))
    ensures q.reason == None && t.live.entries != [] ==> !IsRefusal(q.grounded)
  {
    hide MarkersValid, Trim, Accepted, ModelSignalsRefusal;
    InvalidIsAccepted(t);
    HostStringsAreTight(BRAIN_NOT_ENOUGH_EVIDENCE);
    q := p;
    if p.grounded == BRAIN_INVALID_CITATION && (t.capped || ModelSignalsRefusal(t.lang, raw)) {
      var reason :=
        if t.capped && !ModelSignalsRefusal(t.lang, raw) then SearchCapInvalidDraft
        else if t.live.entries != [] then ModelAbstainedWithEvidence
        else ModelAbstained;
      q := p.(grounded := BRAIN_NOT_ENOUGH_EVIDENCE, reason := Some(reason));
    } else if IsRefusal(p.grounded) && t.live.entries != [] {
      q := p.(reason := Some(ModelAbstainedWithEvidence));
    }
  }

  /** No repair starts without a callback, after an abort, a failed search or a cap, or without evidence. */
  predicate MayRepair(t: Turn) { t.hasRepair && !t.searchFailed && !t.capped && t.live.entries != [] }

  predicate CanRepair(t: Turn, w: World, k: nat) { MayRepair(t) && !Interrupted(w, k) }

  /** The text a callback brought back. */
  function Brought(c: Callback): Option<string> {
    if c.Returned? && c.text.Some? && c.text.value != "" then c.text else None
  }

  /** A world without an abort, within the wall time throughout. */
  ghost predicate Calm(w: World) {
    forall k: nat :: !w.caller(k) && !w.wall(k) && w.elapsed(k) < WALL_TIME_MS
  }

  /** The next call is made with no signal up and the wall time not run out. */
  predicate AskedInTime(w: World, p: Progress) {
    !w.caller(p.instant + 1) && !w.wall(p.instant + 1) && w.elapsed(p.instant + 2) <= 90000
  }

  predicate OverTime(w: World, k: nat) { w.elapsed(k) > WALL_TIME_MS }

  /** The progress once a callback was awaited. */
  function Awaited(p: Progress, pass: Pass, c: Callback, k: nat): Progress {
    p.(asked := p.asked + [pass], instant := k,
    truncated := if c.Threw? && c.truncated then p.truncated + 1 else p.truncated)
  }

  /** Pass 4: an invalid draft is repaired once; what comes back is enforced again. */
  method RepairPass(t: Turn, w: World, p: Progress) returns (q: Progress)
    requires NeverReset(w) && Safe(t, w, p)
    ensures Safe(t, w, q) && q.instant >= p.instant && q.reason == p.reason
    ensures q.asked == p.asked || q.asked == p.asked + [Repair]
    ensures q.asked != p.asked ==> AskedInTime(w, p)
    ensures q.truncated - p.truncated <= |q.asked| - |p.asked|
    ensures q.asked == p.asked ==> q.grounded == p.grounded
    ensures q.asked != p.asked ==> p.grounded == BRAIN_INVALID_CITATION && MayRepair(t)
    ensures Calm(w) && p.grounded == BRAIN_INVALID_CITATION && MayRepair(t) ==> q.asked == p.asked + [Repair]
    ensures q.grounded == p.grounded || q.grounded in HOST_STRINGS || Brought(w.repaired) == Some(q.grounded)
    ensures q.asked != p.asked && Clear(t, w, q.instant) ==>
              q.grounded == if Brought(w.repaired).Some? then Enforce(t, false, Brought(w.repaired).value)
              else p.grounded
  {
    hide MarkersValid, Trim, Enforce, Accepted;
    q := p;
    if p.grounded == BRAIN_INVALID_CITATION && CanRepair(t, w, p.instant + 1) {
      q := p.(instant := p.instant + 2);
      if !OverTime(w, q.instant) {
        q := Awaited(p, Repair, w.repaired, p.instant + 3);
        var brought := Brought(w.repaired);
        if brought.Some? && !Interrupted(w, q.instant) {
          var done, k := EnforceNow(t, w, q, brought.value);
          q := q.(grounded := done, instant := k);
        }
      }
    }
  }

  /** The asked identifiers that this turn's evidence contains. */
  function FoundTokens(t: Turn, tokens: seq<string>): (r: seq<string>)
    ensures forall x :: x in r <==> x in tokens && InEvidence(t, x)
  {
    if tokens == [] then []
    else
      assert forall x :: x in tokens <==> x == tokens[0] || x in tokens[1..];
      (if InEvidence(t, tokens[0]) then [tokens[0]] else []) + FoundTokens(t, tokens[1..])
  }

  predicate Mentions(t: Turn, text: string, token: string) {
    Includes(Lower(t.lang.script, text), Lower(t.lang.script, token))
  }

  predicate InEvidence(t: Turn, token: string) {
    exists e | e in t.live.entries :: Mentions(t, e.identity.text, token)
  }

  predicate MentionsAny(t: Turn, text: string, tokens: seq<string>) {
    exists token | token in tokens :: Mentions(t, text, token)
  }

  /** A kept refusal despite evidence. */
  predicate Abstained(p: Progress) { IsRefusal(p.grounded) && p.reason == Some(ModelAbstainedWithEvidence) }

  /** What replaces an outcome: text that validates as it stands; it clears the reason of the refusal. */
  predicate Replaced(t: Turn, w: World, p: Progress, q: Progress, c: Callback) {
    && Brought(c) == Some(q.grounded) && q.reason == None
    && (Clear(t, w, q.instant) ==> Enforce(t, false, q.grounded) == q.grounded)
  }

  predicate RecoveryApplies(t: Turn, p: Progress) {
    && MayRepair(t) && (Abstained(p) || p.grounded == BRAIN_INVALID_CITATION)
    && FoundTokens(t, t.question.identifiers) != []
  }

  /** Pass 5: one strict retry when the asked identifier is in evidence. */
  method RecoveryPass(t: Turn, w: World, p: Progress) returns (q: Progress)
    requires NeverReset(w) && Safe(t, w, p)
    ensures Safe(t, w, q) && q.instant >= p.instant && (q.asked == p.asked || q.asked == p.asked + [Recovery])
    ensures q.asked != p.asked ==> AskedInTime(w, p)
    ensures q.truncated - p.truncated <= |q.asked| - |p.asked|
    ensures (q.grounded == p.grounded && q.reason == p.reason) || Replaced(t, w, p, q, w.recovered)
    ensures q.asked != p.asked ==> RecoveryApplies(t, p)
    ensures Calm(w) && RecoveryApplies(t, p) ==> q.asked == p.asked + [Recovery]
    ensures q.asked == p.asked || Brought(w.recovered).None? ==> q.grounded == p.grounded && q.reason == p.reason
    ensures q.asked != p.asked && Clear(t, w, q.instant) && Brought(w.recovered).Some? ==>
              var text := Brought(w.recovered).value;
              var taken := MentionsAny(t, text, FoundTokens(t, t.question.identifiers))
                           && Enforce(t, false, text) == text;
              && q.grounded == (if taken then text else p.grounded)
              && q.reason == (if taken then None else p.reason)
  {
    hide MarkersValid, Trim, Enforce, Accepted, MentionsAny;
    q := p;
    if CanRepair(t, w, p.instant + 1) && (Abstained(p) || p.grounded == BRAIN_INVALID_CITATION) {
      q := p.(instant := p.instant + 2);
      var found := FoundTokens(t, t.question.identifiers);
      if found != [] && !OverTime(w, q.instant) {
        q := Awaited(p, Recovery, w.recovered, p.instant + 3);
        var brought := Brought(w.recovered);
        if brought.Some? && !Interrupted(w, q.instant) && MentionsAny(t, brought.value, found) {
          var done, k := EnforceNow(t, w, q, brought.value);
          q := q.(instant := k);
          if done == brought.value {
            q := q.(grounded := done, reason := None);
          }
        }
      }
    }
  }

  /** Pass 6: an abstention despite evidence is rechecked once. */
  method RecheckPass(t: Turn, w: World, p: Progress) returns (q: Progress)
    requires NeverReset(w) && Safe(t, w, p)
    ensures Safe(t, w, q) && q.instant >= p.instant && (q.asked == p.asked || q.asked == p.asked + [Recheck])
    ensures q.asked != p.asked ==> AskedInTime(w, p)
    ensures q.truncated - p.truncated <= |q.asked| - |p.asked|
    ensures (q.grounded == p.grounded && q.reason == p.reason) || Replaced(t, w, p, q, w.rechecked)
    ensures q.asked != p.asked ==> MayRepair(t) && Abstained(p)
    ensures Calm(w) && MayRepair(t) && Abstained(p) ==> q.asked == p.asked + [Recheck]
    ensures q.asked == p.asked || Brought(w.rechecked).None? ==> q.grounded == p.grounded && q.reason == p.reason
    ensures q.asked != p.asked && Clear(t, w, q.instant) && Brought(w.rechecked).Some? ==>
              var text := Brought(w.rechecked).value;
              var taken := Enforce(t, false, text) == text;
              && q.grounded == (if taken then text else p.grounded)
              && q.reason == (if taken then None else p.reason)
  {
    hide MarkersValid, Trim, Enforce, Accepted;
    q := p;
    if CanRepair(t, w, p.instant + 1) && Abstained(p) {
      q := p.(instant := p.instant + 2);
      if !OverTime(w, q.instant) {
        q := Awaited(p, Recheck, w.rechecked, p.instant + 3);
        var brought := Brought(w.rechecked);
        if brought.Some? && !Interrupted(w, q.instant) {
          var done, k := EnforceNow(t, w, q, brought.value);
          q := q.(instant := k);
          if done == brought.value {
            q := q.(grounded := done, reason := None);
          }
        }
      }
    }
  }

  // ---- coverage ----

  predicate AnswerProse(text: string) { Trim(text) != "" && Trim(text) !in HOST_STRINGS }

  predicate SpansDocuments(entries: seq<Entry>) {
    exists a, b | a in entries && b in entries :: a.identity.documentId != b.identity.documentId
  }

  /** A grounded draft that may leave a part unanswered, with evidence from two documents or more. */
  predicate CoverageApplies(t: Turn, grounded: string) {
    && t.hasCover && !t.searchFailed && !t.capped && t.live.entries != []
    && AnswerProse(grounded) && (t.question.multiPart || t.question.hintsAtUncited(grounded))
    && SpansDocuments(t.live.entries)
  }

  /** The trimmed additions of the coverage call, empty when there are none. */
  function Extra(w: World): string { if Brought(w.covered).Some? then Trim(Brought(w.covered).value) else "" }

  function Extended(w: World, grounded: string): string { grounded + BLANK_LINE + Extra(w) }

  lemma ExtraIsTight(w: World)
    ensures Tight(Extra(w)) && Trim(Extra(w)) == Extra(w)
  {
    hide Trim, IsSpace;
    if Brought(w.covered).Some? {
      var lead, tail := TrimParts(Brought(w.covered).value);
    }
    TrimTight(Extra(w));
  }

  /** A draft followed by a blank line and more text is no host string. */
  lemma ExtendedIsAnswer(grounded: string, extra: string)
    requires Trim(grounded) != "" && extra != "" && Tight(extra)
    ensures AnswerBearing(grounded + BLANK_LINE + extra)
  {
    hide IsSpace, Trim, Blank;
    var lead, tail := TrimParts(grounded);
    var body := Trim(grounded) + tail + BLANK_LINE + extra;
    assert grounded + BLANK_LINE + extra == lead + body + "";
    assert body[0] == Trim(grounded)[0] && body[|body| - 1] == extra[|extra| - 1];
    TrimUnique(lead, body, "") by { BlankTrim(""); TrimTight(""); }
    assert body[|Trim(grounded) + tail|] == '\n';
    LineBreakIsNoHostString(body);
  }

  lemma LineBreakIsNoHostString(body: string)
    requires '\n' in body
    ensures body !in HOST_STRINGS && body != EMPTY && body != ""
  {
    if body in HOST_STRINGS {
      HostStringsAreOneLine(body);
    }
  }

  /** The extended draft is kept exactly when the additions are valid on their own. */
  lemma ExtendedValid(t: Turn, w: World, grounded: string)
    requires HasEvidence(t) && AnswerBearing(grounded) && MarkersValid(t.lang.script, grounded, t.rebuilt)
    requires !t.failed && Extra(w) != ""
    ensures Enforce(t, false, Extended(w, grounded)) == Extended(w, grounded)
       <==> MarkersValid(t.lang.script, Extra(w), t.rebuilt)
  {
    hide Trim, AnswerBearing, ParagraphsOf, Tight, AllValid;
    ExtraIsTight(w);
    ExtendedIsAnswer(grounded, Extra(w)) by { BearingIsNotBlank(grounded); }
    JoinValid(t.lang.script, grounded, Extra(w), t.rebuilt);
    BearingIsNotBlank(grounded);
    EnforceSettles(t, Extended(w, grounded));
  }

  lemma BearingIsNotBlank(text: string)
    requires AnswerBearing(text)
    ensures Trim(text) != "" && text != ""
  {
    TrimTight("");
  }

  /** Pass 7: additions are kept only when the combined answer validates. */
  method CoverPass(t: Turn, w: World, p: Progress) returns (q: Progress)
    requires NeverReset(w) && Safe(t, w, p)
    ensures Safe(t, w, q) && q.instant >= p.instant && q.reason == p.reason
    ensures q.asked == p.asked || q.asked == p.asked + [Coverage]
    ensures q.asked != p.asked ==> AskedInTime(w, p)
    ensures q.truncated - p.truncated <= |q.asked| - |p.asked|
    ensures q.grounded == p.grounded || (q.asked != p.asked && Extra(w) != "" && q.grounded == Extended(w, p.grounded))
    ensures q.asked != p.asked ==> CoverageApplies(t, p.grounded) && w.turnLeft
    ensures Calm(w) && CoverageApplies(t, p.grounded) && w.turnLeft ==> q.asked == p.asked + [Coverage]
    ensures q.asked != p.asked && Extra(w) != "" && Clear(t, w, q.instant) ==>
              var extended := Extended(w, p.grounded);
              (q.grounded == extended <==> Enforce(t, false, extended) == extended)
    ensures q.asked != p.asked && Extra(w) != "" && Clear(t, w, q.instant) && HasEvidence(t)
            && AnswerBearing(p.grounded)
            && MarkersValid(t.lang.script, p.grounded, t.rebuilt) ==>
              (q.grounded == Extended(w, p.grounded) <==> MarkersValid(t.lang.script, Extra(w), t.rebuilt))
  {
    hide MarkersValid, Trim, Enforce, Accepted, SpansDocuments, AnswerBearing, HasEvidence;
    q := p;
    if CoverageApplies(t, p.grounded) && !Interrupted(w, p.instant + 1) {
      q := p.(instant := p.instant + 2);
      if !OverTime(w, q.instant) && w.turnLeft {
        q := Awaited(p, Coverage, w.covered, p.instant + 3);
        var extra := Extra(w);
        if extra != "" && !Interrupted(w, q.instant) {
          var candidate := p.grounded + BLANK_LINE + extra;
          var done, k := EnforceNow(t, w, q, candidate);
          if HasEvidence(t) && AnswerBearing(p.grounded) && MarkersValid(t.lang.script, p.grounded, t.rebuilt)
             && !t.failed {
            ExtendedValid(t, w, p.grounded);
          }
          q := q.(instant := k);
          if done == candidate {
            q := q.(grounded := candidate);
          }
        }
      }
    }
  }

  // ---- the whole chain ----

  datatype Outcome = Outcome(
    final: string, aborted: bool, reason: Option<Reason>, truncated: nat, asked: seq<Pass>, budgetError: Option<string>)

  /** Where an answer may come from; a refusal in the model's own words is never salvaged or repaired. */
  predicate Source(t: Turn, w: World, raw: string, salvaged: Option<string>, text: string) {
    || text in HOST_STRINGS || text == raw || text == Completed(t, raw)
    || Brought(w.recovered) == Some(text) || Brought(w.rechecked) == Some(text)
    || (!ModelSignalsRefusal(t.lang, raw) && (salvaged == Some(text) || Brought(w.repaired) == Some(text)))
  }

  /** The draft is an answer that validates as it stands. */
  predicate DraftStands(t: Turn, raw: string) {
    AnswerBearing(raw) && HasEvidence(t) && MarkersValid(t.lang.script, raw, t.rebuilt)
  }

  lemma StandsOrNot(t: Turn, raw: string)
    requires !t.failed && AnswerBearing(raw)
    ensures DraftStands(t, raw) <==> Enforce(t, false, raw) == raw
    ensures HasEvidence(t) && !DraftStands(t, raw) ==> Enforce(t, false, raw) == BRAIN_INVALID_CITATION
    ensures raw !in HOST_STRINGS
  {
    hide MarkersValid, Trim;
    EnforceSettles(t, raw);
    if raw in HOST_STRINGS {
      HostStringsAreTight(raw);
    }
  }

  lemma StandingBears(t: Turn, text: string)
    requires DraftStands(t, text)
    ensures AnswerBearing(text) && !IsRefusal(text) && text !in HOST_STRINGS
  {
    hide MarkersValid, Trim;
    if text in HOST_STRINGS {
      HostStringsAreTight(text);
    }
  }

  lemma RefusalIsNoProse(t: Turn, text: string)
    requires IsRefusal(text)
    ensures !CoverageApplies(t, text)
  {
    hide Trim, SpansDocuments;
  }

  lemma UnavailableIsAccepted(t: Turn)
    ensures Accepted(t, BRAIN_KNOWLEDGE_UNAVAILABLE) && BRAIN_KNOWLEDGE_UNAVAILABLE in HOST_STRINGS
    ensures BRAIN_KNOWLEDGE_UNAVAILABLE != BRAIN_INVALID_CITATION
  {
    hide MarkersValid, Trim;
    HostStringsAreTight(BRAIN_KNOWLEDGE_UNAVAILABLE);
    HostStringsDiffer();
  }

  lemma InvalidIsNoRefusal()
    ensures !IsRefusal(BRAIN_INVALID_CITATION)
  {
    hide Trim;
    HostStringsAreTight(BRAIN_INVALID_CITATION);
    HostStringsDiffer();
  }

  function Completed(t: Turn, raw: string): string { CompleteProseCitations(t.lang.script, raw, t.live) }

  predicate AllBear(t: Turn, raw: string, salvaged: Option<string>) {
    AnswerBearing(raw) && AnswerBearing(Completed(t, raw)) && (salvaged.Some? ==> AnswerBearing(salvaged.value))
  }

  /** The draft, its completion or its salvaged quotes, whichever stands first; a refusal when none does. */
  function FirstThatStands(t: Turn, raw: string, salvaged: Option<string>): string {
    if DraftStands(t, raw) then raw
    else if !t.capped && t.live.entries != [] && DraftStands(t, Completed(t, raw)) then Completed(t, raw)
    else if salvaged.Some? && DraftStands(t, salvaged.value) then salvaged.value
    else if t.capped || ModelSignalsRefusal(t.lang, raw) then BRAIN_NOT_ENOUGH_EVIDENCE
    else BRAIN_INVALID_CITATION
  }

  /** The deterministic passes, before any model call. */
  method HostPasses(t: Turn, w: World, raw: string) returns (p: Progress, salvaged: Option<string>)
    requires NeverReset(w)
    ensures Safe(t, w, p) && p.asked == [] && p.truncated == 0 && Source(t, w, raw, salvaged, p.grounded)
    ensures salvaged.Some? ==> IsSalvage(t, raw, salvaged.value)
    ensures p.grounded == BRAIN_INVALID_CITATION ==> !t.capped && !ModelSignalsRefusal(t.lang, raw)
    ensures t.capped ==> p.grounded == raw || p.grounded in HOST_STRINGS
    ensures p.reason.Some? ==> IsRefusal(p.grounded)
    ensures p.reason == None && t.live.entries != [] ==> !IsRefusal(p.grounded)
    ensures Clear(t, w, p.instant) && DraftStands(t, raw) ==> p.grounded == raw
    ensures salvaged.Some? ==> DraftQuotes(t.lang, raw, t.live) != []
    ensures Clear(t, w, p.instant) && HasEvidence(t) && AllBear(t, raw, salvaged) ==>
              p.grounded == FirstThatStands(t, raw, salvaged)
              && (p.grounded == BRAIN_INVALID_CITATION && Salvageable(t, raw)
                  && DraftQuotes(t.lang, raw, t.live) != [] ==>
                    salvaged.Some?)
  {
    hide MarkersValid, Trim, Enforce, Accepted, AnswerBearing, HasEvidence, ModelSignalsRefusal, Salvageable, IsSalvage,
      CompleteProseCitations, IsRefusal, DraftStands, HOST_STRINGS;
    HostStringsAreHosts();
    var done, first := EnforceNow(t, w, Progress("", None, 0, [], 0), raw);
    p := Progress(done, None, 0, [], first);
    p := CompletePass(t, w, p, raw);
    var second, draft := p.instant, p.grounded;
    p, salvaged := SalvagePass(t, w, p, raw);
    p := RefusalPass(t, w, p, raw);
    if Clear(t, w, p.instant) && (AnswerBearing(raw) || DraftStands(t, raw)) {
      if DraftStands(t, raw) {
        StandingBears(t, raw);
      }
      ClearBefore(t, w, first, p.instant);
      ClearBefore(t, w, second, p.instant);
      StandsOrNot(t, raw);
      if AllBear(t, raw, salvaged) {
        StandsOrNot(t, Completed(t, raw));
        if salvaged.Some? {
          StandsOrNot(t, salvaged.value);
          BearingIsNotBlank(salvaged.value);
        }
        assert HasEvidence(t) && !DraftStands(t, raw) ==>
            draft == if !t.capped && t.live.entries != [] && DraftStands(t, Completed(t, raw)) then Completed(t, raw)
            else BRAIN_INVALID_CITATION;
      }
    }
  }

  /** The three passes that may call the repair model, with the progress after each. */
  method ModelPasses(t: Turn, w: World, p: Progress) returns (repaired: Progress, recovered: Progress, q: Progress)
    requires NeverReset(w) && Safe(t, w, p) && p.asked == [] && (p.reason.Some? ==> IsRefusal(p.grounded))
    ensures Safe(t, w, q) && q.instant >= p.instant && (q.reason.Some? ==> IsRefusal(q.grounded))
    ensures AsksModelOnlyWhenDue(t, p, repaired, recovered, q)
    ensures repaired.asked != p.asked ==> AskedInTime(w, p)
    ensures recovered.asked != repaired.asked ==> AskedInTime(w, repaired)
    ensures q.asked != recovered.asked ==> AskedInTime(w, recovered)
    ensures Calm(w) ==> AsksModelWhenDue(t, p, repaired, recovered, q)
    ensures Calm(w) && !t.failed ==> TakesWhatStands(t, w, p, repaired, recovered, q)
    ensures !IsRefusal(p.grounded) && p.grounded != BRAIN_INVALID_CITATION ==> q.asked == []
    ensures q.asked == [] ==> q.grounded == p.grounded && q.reason == p.reason
    ensures || q.grounded == p.grounded || q.grounded in HOST_STRINGS
            || Brought(w.recovered) == Some(q.grounded) || Brought(w.rechecked) == Some(q.grounded)
            || (p.grounded == BRAIN_INVALID_CITATION && Brought(w.repaired) == Some(q.grounded))
    ensures q.truncated - p.truncated <= |q.asked|
    ensures Calm(w) && !t.failed && t.hasRepair && !t.searchFailed && !t.capped && t.live.entries != [] ==>
              && (p.grounded == BRAIN_INVALID_CITATION && BroughtStands(t, w.repaired) ==>
                    Some(q.grounded) == Brought(w.repaired))
              && (Abstained(p) && FoundTokens(t, t.question.identifiers) == [] && BroughtStands(t, w.rechecked) ==>
                    Some(q.grounded) == Brought(w.rechecked))
              && (Abstained(p) && FoundTokens(t, t.question.identifiers) != [] && BroughtStands(t, w.recovered)
                  && MentionsAny(t, Brought(w.recovered).value, FoundTokens(t, t.question.identifiers)) ==>
                    Some(q.grounded) == Brought(w.recovered))
  {
    hide MarkersValid, Trim, Enforce, Accepted, HasEvidence, IsRefusal, Brought, FoundTokens, HOST_STRINGS,
      DraftStands, MentionsAny, BroughtStands, InEvidence, IdentifierFound, NamesIdentifier, AbstainedOnEvidence;
    InvalidIsNoRefusal();
    HostStringsAreHosts();
    BroughtStays(t, w.repaired);
    BroughtStays(t, w.recovered);
    BroughtStays(t, w.rechecked);
    IdentifierMeans(t);
    if Brought(w.recovered).Some? {
      NamesMeans(t, Brought(w.recovered).value);
    }
    repaired := RepairPass(t, w, p);
    recovered := RecoveryPass(t, w, repaired);
    q := RecheckPass(t, w, recovered);
    AbstainedMeans(repaired);
    AbstainedMeans(recovered);
  }

  // ---- when a model is called, on the fields of the turn ----

  /** Some identifier the question asks for occurs in the text of some evidence, letter case aside. */
  predicate IdentifierFound(t: Turn) {
    exists token, e | token in t.question.identifiers && e in t.live.entries ::
      Includes(Lower(t.lang.script, e.identity.text), Lower(t.lang.script, token))
  }

  lemma IdentifierMeans(t: Turn)
    ensures FoundTokens(t, t.question.identifiers) != [] <==> IdentifierFound(t)
  {
    hide Includes, Lower;
    var found := FoundTokens(t, t.question.identifiers);
    if found != [] {
      assert found[0] in found && InEvidence(t, found[0]);
      var e :| e in t.live.entries && Mentions(t, e.identity.text, found[0]);
    }
    if IdentifierFound(t) {
      var token, e :| token in t.question.identifiers && e in t.live.entries
                      && Includes(Lower(t.lang.script, e.identity.text), Lower(t.lang.script, token));
      assert Mentions(t, e.identity.text, token) && InEvidence(t, token);
      assert token in found;
    }
  }

  /** A text that a recovery may bring: it names an identifier that was asked for and that the evidence has. */
  predicate NamesIdentifier(t: Turn, text: string) {
    exists token, e | token in t.question.identifiers && e in t.live.entries ::
      && Includes(Lower(t.lang.script, e.identity.text), Lower(t.lang.script, token))
      && Includes(Lower(t.lang.script, text), Lower(t.lang.script, token))
  }

  lemma NamesMeans(t: Turn, text: string)
    ensures MentionsAny(t, text, FoundTokens(t, t.question.identifiers)) <==> NamesIdentifier(t, text)
  {
    hide Includes, Lower;
    var found := FoundTokens(t, t.question.identifiers);
    if MentionsAny(t, text, found) {
      var token :| token in found && Mentions(t, text, token);
      assert InEvidence(t, token);
      var e :| e in t.live.entries && Mentions(t, e.identity.text, token);
    }
    if NamesIdentifier(t, text) {
      var token, e :| token in t.question.identifiers && e in t.live.entries
                      && Includes(Lower(t.lang.script, e.identity.text), Lower(t.lang.script, token))
                      && Includes(Lower(t.lang.script, text), Lower(t.lang.script, token));
      assert Mentions(t, e.identity.text, token) && InEvidence(t, token);
      assert token in found && Mentions(t, text, token);
    }
  }

  /**
    * Each of the three calls is made only on the outcome it is for, and none without repair, evidence or after a
    * cap.
    */
  predicate AsksModelOnlyWhenDue(
    t: Turn, host: Progress, repaired: Progress, recovered: Progress, rechecked: Progress)
  {
    && (repaired.asked == host.asked || repaired.asked == host.asked + [Repair])
    && (recovered.asked == repaired.asked || recovered.asked == repaired.asked + [Recovery])
    && (rechecked.asked == recovered.asked || rechecked.asked == recovered.asked + [Recheck])
    && (rechecked.asked != host.asked ==> t.hasRepair && !t.searchFailed && !t.capped && t.live.entries != [])
    && (repaired.asked != host.asked ==> host.grounded == BRAIN_INVALID_CITATION)
    && (recovered.asked != repaired.asked ==>
          IdentifierFound(t) && (repaired.grounded == BRAIN_INVALID_CITATION || AbstainedOnEvidence(repaired)))
    && (rechecked.asked != recovered.asked ==> AbstainedOnEvidence(recovered))
  }

  /** The not-enough-evidence sentence, kept although the turn has evidence. */
  predicate AbstainedOnEvidence(p: Progress) {
    Trim(p.grounded) == BRAIN_NOT_ENOUGH_EVIDENCE && p.reason == Some(ModelAbstainedWithEvidence)
  }

  lemma AbstainedMeans(p: Progress)
    ensures Abstained(p) <==> AbstainedOnEvidence(p)
  {
  }

  /** In a calm run each call is made whenever it is due. */
  predicate AsksModelWhenDue(t: Turn, host: Progress, repaired: Progress, recovered: Progress, rechecked: Progress)
  {
    t.hasRepair && !t.searchFailed && !t.capped && t.live.entries != [] ==>
      && (host.grounded == BRAIN_INVALID_CITATION ==> repaired.asked == host.asked + [Repair])
      && (IdentifierFound(t) && (repaired.grounded == BRAIN_INVALID_CITATION || AbstainedOnEvidence(repaired)) ==>
            recovered.asked == repaired.asked + [Recovery])
      && (AbstainedOnEvidence(recovered) ==> rechecked.asked == recovered.asked + [Recheck])
  }

  /** What a call brings is enforced; recovery and recheck take it only when enforcement keeps it. */
  predicate TakesWhatStands(
    t: Turn, w: World, host: Progress, repaired: Progress, recovered: Progress, rechecked: Progress)
  {
    && repaired.reason == host.reason
    && (repaired.grounded ==
        if repaired.asked != host.asked && Brought(w.repaired).Some? then Enforce(t, false, Brought(w.repaired).value)
        else host.grounded)
    && (var taken := recovered.asked != repaired.asked && Brought(w.recovered).Some?
                     && NamesIdentifier(t, Brought(w.recovered).value)
                     && Enforce(t, false, Brought(w.recovered).value) == Brought(w.recovered).value;
        && recovered.grounded == (if taken then Brought(w.recovered).value else repaired.grounded)
        && recovered.reason == (if taken then None else repaired.reason))
    && (var taken := rechecked.asked != recovered.asked && Brought(w.rechecked).Some?
                     && Enforce(t, false, Brought(w.rechecked).value) == Brought(w.rechecked).value;
        && rechecked.grounded == (if taken then Brought(w.rechecked).value else recovered.grounded)
        && rechecked.reason == (if taken then None else recovered.reason))
  }

  predicate BroughtStands(t: Turn, c: Callback) { Brought(c).Some? && DraftStands(t, Brought(c).value) }

  /** A text a callback brought that stands is enforced unchanged, and no later repair pass touches it. */
  lemma BroughtStays(t: Turn, c: Callback)
    ensures BroughtStands(t, c) ==> Brought(c).Some?
    ensures !t.failed && BroughtStands(t, c) ==>
              var text := Brought(c).value;
              Enforce(t, false, text) == text && !IsRefusal(text) && text != BRAIN_INVALID_CITATION
  {
    hide MarkersValid, Trim, Enforce, HasEvidence, IsRefusal;
    HostStringsAreHosts();
    if !t.failed && BroughtStands(t, c) {
      StandingBears(t, Brought(c).value);
      StandsOrNot(t, Brought(c).value);
    }
  }

  /** The coverage call is made for a grounded answer, with evidence of two documents, when a part may be missing. */
  predicate CoverageDue(t: Turn, grounded: string) {
    && t.hasCover && !t.searchFailed && !t.capped
    && Trim(grounded) != "" && Trim(grounded) !in HOST_STRINGS
    && (t.question.multiPart || t.question.hintsAtUncited(grounded))
    && exists a, b | a in t.live.entries && b in t.live.entries :: a.identity.documentId != b.identity.documentId
  }

  lemma CoverageMeans(t: Turn, grounded: string)
    ensures CoverageApplies(t, grounded) <==> CoverageDue(t, grounded)
  {
    hide Trim, HOST_STRINGS;
  }

  /** The progress after the host passes, after each of the three repair calls, and after coverage. */
  datatype Trail = Trail(host: Progress, repaired: Progress, recovered: Progress, base: Progress, covered: Progress)

  predicate AsksOnlyWhenDue(t: Turn, w: World, tr: Trail) {
    && tr.host.asked == [] && AsksModelOnlyWhenDue(t, tr.host, tr.repaired, tr.recovered, tr.base)
    && (tr.repaired.asked != tr.host.asked ==> AskedInTime(w, tr.host))
    && (tr.recovered.asked != tr.repaired.asked ==> AskedInTime(w, tr.repaired))
    && (tr.base.asked != tr.recovered.asked ==> AskedInTime(w, tr.recovered))
    && (tr.covered.asked != tr.base.asked ==> AskedInTime(w, tr.base))
    && (tr.covered.asked == tr.base.asked
        || (tr.covered.asked == tr.base.asked + [Coverage] && CoverageDue(t, tr.base.grounded) && w.turnLeft))
  }

  predicate AsksWhenDue(t: Turn, w: World, tr: Trail) {
    && AsksModelWhenDue(t, tr.host, tr.repaired, tr.recovered, tr.base)
    && (CoverageDue(t, tr.base.grounded) && w.turnLeft ==> tr.covered.asked == tr.base.asked + [Coverage])
  }

  /** Additions are appended exactly when there are any and the combined answer is enforced unchanged. */
  predicate AppendsWhatStands(t: Turn, w: World, tr: Trail) {
    var taken := tr.covered.asked != tr.base.asked && Extra(w) != ""
                 && Enforce(t, false, Extended(w, tr.base.grounded)) == Extended(w, tr.base.grounded);
    tr.covered.grounded == if taken then Extended(w, tr.base.grounded) else tr.base.grounded
  }

  /**
    * The answer passes of one run, with the progress after each; `salvaged` is what salvage offered. The answer before
    * coverage is `trail.base.grounded`.
    */
  method AnswerOf(t: Turn, w: World, raw: string) returns (o: Outcome, trail: Trail, salvaged: Option<string>)
    requires NeverReset(w)
    ensures !o.aborted ==> Accepted(t, o.final)
    ensures o.final == if t.searchFailed || o.budgetError.Some? then BRAIN_KNOWLEDGE_UNAVAILABLE
                       else trail.covered.grounded
    ensures trail.covered.grounded in {trail.base.grounded, Extended(w, trail.base.grounded)}
    ensures t.budgetError.Some? ==> o.budgetError == t.budgetError
    ensures o.budgetError.Some? <==> t.budgetError.Some? || w.elapsed(trail.covered.instant + 1) >= 90000
    ensures t.failed || o.budgetError.Some? ==> o.aborted
    ensures Source(t, w, raw, salvaged, trail.base.grounded) && (salvaged.Some? ==> IsSalvage(t, raw, salvaged.value))
    ensures o.asked == trail.covered.asked && AsksOnlyWhenDue(t, w, trail)
    ensures Calm(w) ==> AsksWhenDue(t, w, trail)
    ensures Calm(w) && !t.failed ==>
              && TakesWhatStands(t, w, trail.host, trail.repaired, trail.recovered, trail.base)
              && AppendsWhatStands(t, w, trail)
    ensures Calm(w) && !t.failed && t.hasRepair && !t.searchFailed && !t.capped && t.live.entries != []
            && trail.host.grounded == BRAIN_INVALID_CITATION ==>
              Repair in o.asked
              && (BroughtStands(t, w.repaired) ==> Some(trail.base.grounded) == Brought(w.repaired))
    ensures Calm(w) && !t.failed && HasEvidence(t) && AllBear(t, raw, salvaged) ==>
              trail.host.grounded == FirstThatStands(t, raw, salvaged)
    ensures |o.asked| <= 4 && (t.capped || t.searchFailed || t.live.entries == [] ==> o.asked == [])
    ensures t.capped && !o.aborted ==>
              o.final != BRAIN_INVALID_CITATION && (o.final in HOST_STRINGS || (o.final == raw && Accepted(t, raw)))
    ensures !o.aborted && DraftStands(t, raw) ==> trail.base.grounded == raw
    ensures o.truncated <= |o.asked|
    ensures Calm(w) && !t.failed && t.budgetError.None? ==>
              && !o.aborted
              && (DraftStands(t, trail.base.grounded) && CoverageDue(t, trail.base.grounded) && w.turnLeft
                  && Extra(w) != "" ==>
                    (o.final == Extended(w, trail.base.grounded) <==> MarkersValid(t.lang.script, Extra(w), t.rebuilt)))
    ensures o.reason.Some? ==> !t.searchFailed && (o.budgetError.Some? || IsRefusal(o.final))
  {
    hide MarkersValid, Trim, Enforce, AnswerBearing, HasEvidence, ModelSignalsRefusal, IsSalvage, AllBear,
      CompleteProseCitations, IsRefusal, DraftStands, Accepted, HOST_STRINGS, Brought, Extended, Extra, FirstThatStands,
      CoverageApplies, CoverageDue, TakesWhatStands, IdentifierFound, AbstainedOnEvidence, BroughtStands, Salvageable,
      AskedInTime,
      DraftQuotes;
    HostStringsAreHosts();
    var host, repaired, recovered, base;
    host, salvaged := HostPasses(t, w, raw);
    repaired, recovered, base := ModelPasses(t, w, host);
    StandsMeans(t, base.grounded);
    CoverageMeans(t, base.grounded);
    var covered := CoverPass(t, w, base);
    trail := Trail(host, repaired, recovered, base, covered);
    if CoverageDue(t, base.grounded) {
      CoverageNeedsEvidence(t, base.grounded);
    }
    if IsRefusal(base.grounded) {
      RefusalIsNoProse(t, base.grounded);
    }
    if Clear(t, w, covered.instant + 2) {
      ClearBefore(t, w, host.instant, covered.instant + 2);
      if DraftStands(t, raw) {
        StandingBears(t, raw);
      }
    }
    o := Finish(t, w, covered);
  }

  lemma CoverageNeedsEvidence(t: Turn, grounded: string)
    requires CoverageDue(t, grounded)
    ensures t.live.entries != [] && !t.searchFailed && !t.capped
  {
    hide Trim, HOST_STRINGS;
  }

  lemma StandsMeans(t: Turn, text: string)
    ensures DraftStands(t, text) ==>
              AnswerBearing(text) && HasEvidence(t) && MarkersValid(t.lang.script, text, t.rebuilt)
  {
  }

  /** The result: a run past its budget, or with a failed search, is unavailable whatever the passes found. */
  method Finish(t: Turn, w: World, p: Progress) returns (o: Outcome)
    requires NeverReset(w) && Safe(t, w, p)
    ensures !o.aborted ==> Accepted(t, o.final) && Clear(t, w, p.instant + 2)
    ensures o.final == if t.searchFailed || o.budgetError.Some? then BRAIN_KNOWLEDGE_UNAVAILABLE else p.grounded
    ensures t.budgetError.Some? ==> o.budgetError == t.budgetError
    ensures t.failed || o.budgetError.Some? ==> o.aborted
    ensures o.budgetError.Some? <==> t.budgetError.Some? || w.elapsed(p.instant + 1) >= 90000
    ensures Calm(w) && !t.failed && t.budgetError.None? ==> !o.aborted && o.budgetError.None?
    ensures o.reason == (if t.searchFailed then None else p.reason) && o.truncated == p.truncated && o.asked == p.asked
  {
    hide MarkersValid, Trim, Accepted;
    UnavailableIsAccepted(t);
    var budgetError := t.budgetError;
    if budgetError.None? && w.elapsed(p.instant + 1) >= WALL_TIME_MS {
      budgetError := Some(ErrorMessage(WallTime));
    }
    if Clear(t, w, p.instant + 2) {
      ClearBefore(t, w, p.instant, p.instant + 2);
    }
    var unavailable := budgetError.Some? || t.searchFailed;
    o := Outcome(
      if unavailable then BRAIN_KNOWLEDGE_UNAVAILABLE else p.grounded,
      t.failed || budgetError.Some? || Interrupted(w, p.instant + 2),
      if t.searchFailed then None else p.reason, p.truncated, p.asked, budgetError);
  }
}
