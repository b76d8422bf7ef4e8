/** Grounded prose becomes structured paragraphs, and nothing is lost on the way to the stored answer. */
module Structuring {
  import opened Wrappers
  import opened Sequences
  import opened Text
  import opened Paragraphs
  import opened Support
  import opened Evidence
  import opened Markers
  import opened Grounding
  import opened AnswerContract
  import opened HostStrings

  function CleanText(paragraph: string): string { Trim(Collapse(StripMarkers(paragraph))) }

  function KnownOf(numbers: seq<nat>, evidence: seq<Cited>): (r: seq<nat>)
    ensures forall n :: n in r <==> n in numbers && KnownLabel(evidence, n)
  {
    if numbers == [] then []
    else
      assert forall n :: n in numbers <==> n == numbers[0] || n in numbers[1..];
      (if KnownLabel(evidence, numbers[0]) then [numbers[0]] else []) + KnownOf(numbers[1..], evidence)
  }

  function StructureOne(paragraph: string, evidence: seq<Cited>): Paragraph {
    Paragraph(CleanText(paragraph), KnownOf(Distinct(MarkerNumbers(paragraph)), evidence))
  }

  /** The paragraphs with text, structured. */
  function StructureAll(paragraphs: seq<string>, evidence: seq<Cited>): seq<Paragraph> {
    if paragraphs == [] then []
    else
      var p := StructureOne(paragraphs[0], evidence);
      (if p.text != "" then [p] else []) + StructureAll(paragraphs[1..], evidence)
  }

  function OnlyCited(ps: seq<Paragraph>): seq<Paragraph> {
    if ps == [] then [] else (if ps[0].citations != [] then [ps[0]] else []) + OnlyCited(ps[1..])
  }

  /**
    * `structuredAnswerFromGroundedProse`. `asJson` is the draft read as a structured JSON answer, None when
    * it is not one.
    */
  function StructuredAnswer(script: Script, text: string, asJson: Option<Answer>, evidence: seq<Cited>): Answer {
    var trimmed := Trim(text);
    if trimmed == "" || trimmed in HOST_STRINGS || evidence == [] then Insufficient
    else if asJson.Some? then asJson.value
    else
      var ps := OnlyCited(AddSupportedCitations(script, StructureAll(ParagraphsOf(trimmed), evidence), evidence));
      if ps == [] then Insufficient else Grounded(ps)
  }

  // ---- the evidence list and the ledger name the same labels ----

  lemma EvidenceHolds(ledger: Ledger, e: Entry)
    ensures e in ledger.entries ==> CitedOf(e) in EvidenceFromLedger(ledger)
  {
    var sorted := SortByNumber(ledger.entries);
    if e in ledger.entries {
      var i :| 0 <= i < |sorted| && sorted[i] == e;
      assert EvidenceFromLedger(ledger)[i] == CitedOf(e);
    }
  }

  lemma EvidenceFrom(ledger: Ledger, item: Cited)
    requires item in EvidenceFromLedger(ledger)
    ensures exists e | e in ledger.entries :: CitedOf(e) == item
  {
    var sorted := SortByNumber(ledger.entries);
    var i :| 0 <= i < |sorted| && EvidenceFromLedger(ledger)[i] == item;
    assert sorted[i] in sorted;
  }

  lemma KnownIsInLedger(ledger: Ledger, n: nat)
    ensures KnownLabel(EvidenceFromLedger(ledger), n) <==> InLedger(ledger.entries, n)
  {
    if InLedger(ledger.entries, n) {
      EvidenceHolds(ledger, ledger.entries[FindLabel(ledger.entries, n).value]);
    }
    if KnownLabel(EvidenceFromLedger(ledger), n) {
      var item :| item in EvidenceFromLedger(ledger) && item.number == n;
      EvidenceFrom(ledger, item);
    }
  }

  lemma {:induction false} ItemPassageIn(evidence: seq<Cited>, citations: seq<nat>, item: Cited)
    requires item in evidence && item.number in citations
    ensures item.section in ItemPassages(evidence, citations) && item.text in ItemPassages(evidence, citations)
    decreases |evidence|
  {
    if item != evidence[0] {
      ItemPassageIn(evidence[1..], citations, item);
    }
  }

  /** The passages the validator saw are among those of the structured paragraph's citations. */
  lemma PassagesKept(ledger: Ledger, numbers: seq<nat>, citations: seq<nat>)
    requires forall n | n in numbers :: InLedger(ledger.entries, n) && n in citations
    ensures forall p | p in CitedPassages(ledger.entries, numbers) ::
              p in ItemPassages(EvidenceFromLedger(ledger), citations)
  {
    hide FindLabel, CitedPassages, ItemPassages;
    forall p | p in CitedPassages(ledger.entries, numbers)
      ensures p in ItemPassages(EvidenceFromLedger(ledger), citations)
    {
      PassageIn(ledger.entries, numbers, p);
      var n :| n in numbers && Cites(ledger.entries, n, p);
      var e := ledger.entries[FindLabel(ledger.entries, n).value];
      EvidenceHolds(ledger, e);
      ItemPassageIn(EvidenceFromLedger(ledger), citations, CitedOf(e));
    }
  }

  // ---- adding supported citations settles a paragraph ----

  lemma {:induction false} SupportedLabelsCover(
    script: Script, claims: seq<string>, cited: seq<nat>, evidence: seq<Cited>)
    ensures forall item | item in evidence && ItemStates(script, item, claims) ::
              item.number in cited || item.number in SupportedLabels(script, claims, cited, evidence)
    decreases |evidence|
  {
    hide ItemStates;
    if evidence != [] {
      var item := evidence[0];
      SupportedLabelsCover(script, claims,
                           if item.number !in cited && ItemStates(script, item, claims) then cited + [item.number]
                           else cited, evidence[1..]);
      assert forall x :: x in evidence <==> x == item || x in evidence[1..];
    }
  }

  lemma {:induction false} NoneToAdd(script: Script, claims: seq<string>, cited: seq<nat>, evidence: seq<Cited>)
    requires forall item | item in evidence && ItemStates(script, item, claims) :: item.number in cited
    ensures SupportedLabels(script, claims, cited, evidence) == []
    decreases |evidence|
  {
    hide ItemStates;
    if evidence != [] {
      assert evidence[0] in evidence;
      NoneToAdd(script, claims, cited, evidence[1..]);
    }
  }

  lemma AddingSettles(script: Script, p: Paragraph, evidence: seq<Cited>)
    ensures var q := WithSupportedCitations(script, p, evidence);
            WithSupportedCitations(script, q, evidence) == q
  {
    hide ItemStates, ClaimSentences;
    var claims := ClaimSentences(script, p.text);
    SupportedLabelsCover(script, claims, p.citations, evidence);
    var q := WithSupportedCitations(script, p, evidence);
    NoneToAdd(script, claims, q.citations, evidence);
  }

  lemma {:induction false} KnownOfAll(numbers: seq<nat>, evidence: seq<Cited>)
    requires forall n | n in numbers :: KnownLabel(evidence, n)
    ensures KnownOf(numbers, evidence) == numbers
    decreases |numbers|
  {
    hide KnownLabel;
    if numbers != [] {
      assert numbers == [numbers[0]] + numbers[1..] && numbers[0] in numbers;
      KnownOfAll(numbers[1..], evidence);
    }
  }

  /** What becomes of one valid paragraph. */
  function Structured(script: Script, paragraph: string, ledger: Ledger): Paragraph {
    WithSupportedCitations(script, StructureOne(paragraph, EvidenceFromLedger(ledger)), EvidenceFromLedger(ledger))
  }

  /** A text without its white space. */
  function Visible(s: string): string {
    if s == "" then "" else (if IsSpace(s[0]) then "" else [s[0]]) + Visible(s[1..])
  }

  lemma {:induction false} VisibleConcat(a: string, b: string)
    ensures Visible(a + b) == Visible(a) + Visible(b)
    decreases |a|
  {
    hide IsSpace;
    if a == "" {
      assert a + b == b;
    } else {
      assert (a + b)[1..] == a[1..] + b && (a + b)[0] == a[0];
      VisibleConcat(a[1..], b);
      var first := if IsSpace(a[0]) then "" else [a[0]];
      assert Visible(a) == first + Visible(a[1..]);
      assert Visible(a + b) == first + (Visible(a[1..]) + Visible(b));
    }
  }

  lemma {:induction false} NothingVisible(w: string)
    requires Blank(w)
    ensures Visible(w) == ""
    decreases |w|
  {
    hide IsSpace;
    if w != "" {
      NothingVisible(w[1..]);
    }
  }

  lemma {:induction false} CollapseKeepsVisible(s: string)
    ensures Visible(Collapse(s)) == Visible(s)
    decreases |s|
  {
    hide Blank;
    if s != "" {
      if IsSpace(s[0]) {
        var n := SpaceRun(s);
        CollapseKeepsVisible(s[n..]);
        assert s[..n] + s[n..] == s;
        NothingVisible(s[..n]);
        VisibleConcat(s[..n], s[n..]);
        assert (" " + Collapse(s[n..]))[1..] == Collapse(s[n..]);
        assert Visible(" " + Collapse(s[n..])) == "" + Visible(Collapse(s[n..])) by { assert IsSpace(' '); }
      } else {
        CollapseKeepsVisible(s[1..]);
        assert ([s[0]] + Collapse(s[1..]))[1..] == Collapse(s[1..]);
      }
    }
  }

  /** Collapsing and trimming take away white space only. */
  lemma CleanKeepsVisible(s: string)
    ensures Visible(Trim(Collapse(s))) == Visible(s)
  {
    hide IsSpace, Blank, Trim;
    var lead, tail := TrimParts(Collapse(s));
    NothingVisible(lead);
    NothingVisible(tail);
    VisibleConcat(lead + Trim(Collapse(s)), tail);
    VisibleConcat(lead, Trim(Collapse(s)));
    CollapseKeepsVisible(s);
  }

  /**
    * One grounded paragraph of prose, kept: its visible text without the markers, same claims, all its markers
    * first, only known and supporting evidence.
    */
  predicate Kept(script: Script, paragraph: string, q: Paragraph, ledger: Ledger) {
    && ClaimSentences(script, q.text) == ClaimSentences(script, Trim(StripMarkers(paragraph)))
    && Visible(q.text) == Visible(StripMarkers(paragraph))
    && Distinct(MarkerNumbers(paragraph)) <= q.citations
    && Settled(script, q, EvidenceFromLedger(ledger))
  }

  lemma ClaimsOfTrimmed(script: Script, s: string)
    requires script.Valid()
    ensures ClaimSentences(script, Trim(Collapse(s))) == ClaimSentences(script, Trim(s))
  {
    hide IsSpace, Blank, Trim, Tight, Collapse, ClaimSentences, ScanClaims;
    var lead, tail := TrimParts(s);
    ClaimsByScan(script, Trim(s));
    ClaimsByScan(script, s);
    SkipSpace(script, lead, Trim(s) + tail);
    assert s == lead + (Trim(s) + tail);
    ScanIgnoresTail(script, Idle(), Trim(s), tail);
    ClaimsIgnoreSpacing(script, s);
  }

  lemma NoClaimsInNothing(script: Script)
    ensures ClaimSentences(script, "") == []
  {
    assert Sentences("") == [""] && [""][1..] == [];
    assert NormalizeAll(script, [""]) == [NormalizeSupportText(script, "")];
    assert Words(script, "") == [] && NormalizeSupportText(script, "") == "";
  }

  /** Equal claims are supported alike. */
  lemma SameClaimsSupported(script: Script, a: string, b: string, few: seq<string>, many: seq<string>)
    requires TextSupportedByPassages(script, a, few) && ClaimSentences(script, a) == ClaimSentences(script, b)
    requires forall p | p in few :: p in many
    ensures TextSupportedByPassages(script, b, many)
  {
    SupportMonotone(script, a, few, many);
  }

  lemma DistinctConcat(a: seq<nat>, b: seq<nat>)
    requires forall i, j :: 0 <= i < j < |a| ==> a[i] != a[j]
    requires forall i, j :: 0 <= i < j < |b| ==> b[i] != b[j]
    requires forall n | n in b :: n !in a
    ensures forall i, j :: 0 <= i < j < |a + b| ==> (a + b)[i] != (a + b)[j]
  {
    forall i, j | 0 <= i < j < |a + b| ensures (a + b)[i] != (a + b)[j] {
      if i < |a| <= j {
        assert a[i] in a && b[j - |a|] in b;
      }
    }
  }

  lemma ParagraphIsKept(script: Script, paragraph: string, ledger: Ledger)
    requires script.Valid() && ParagraphValid(script, paragraph, ledger.entries)
    ensures Kept(script, paragraph, Structured(script, paragraph, ledger), ledger)
    ensures StructureOne(paragraph, EvidenceFromLedger(ledger)).text != ""
  {
    hide TextSupportedByPassages, CitedPassages, ItemPassages, StripMarkers, MarkerNumbers, Trim, Collapse,
      ClaimSentences, Visible, SupportedLabels, KnownLabel, InLedger, FindLabel, Distinct, SortByNumber,
      EvidenceFromLedger;
    var evidence := EvidenceFromLedger(ledger);
    var numbers := Distinct(MarkerNumbers(paragraph));
    var plain := Trim(StripMarkers(paragraph));
    var q := Structured(script, paragraph, ledger);
    forall n | n in numbers ensures KnownLabel(evidence, n) {
      KnownIsInLedger(ledger, n);
    }
    KnownOfAll(numbers, evidence);
    ClaimsOfTrimmed(script, StripMarkers(paragraph));
    CleanKeepsVisible(StripMarkers(paragraph));
    AddingSettles(script, StructureOne(paragraph, evidence), evidence);
    PassagesKept(ledger, numbers, q.citations);
    SameClaimsSupported(script, plain, q.text, CitedPassages(ledger.entries, numbers),
                        ItemPassages(evidence, q.citations));
    SupportedHasClaims(script, plain, CitedPassages(ledger.entries, numbers));
    NoClaimsInNothing(script);
    TrimOfTrim(Collapse(StripMarkers(paragraph)));
    DistinctConcat(numbers, SupportedLabels(script, ClaimSentences(script, q.text), numbers, evidence));
    var n := MarkerNumbers(paragraph)[0];
    assert n in numbers;
    assert n in q.citations && KnownLabel(evidence, n);
    ItemWithLabel(evidence, n);
    assert q.text == StructureOne(paragraph, evidence).text;
    assert q.text != "" by { assert ClaimSentences(script, q.text) != ClaimSentences(script, ""); }
  }

  lemma ItemWithLabel(evidence: seq<Cited>, n: nat)
    requires KnownLabel(evidence, n)
    ensures exists item | item in evidence :: item.number == n
  {
  }

  lemma TrimOfTrim(s: string)
    ensures Trim(Trim(s)) == Trim(s)
  {
    var lead, tail := TrimParts(s);
    TrimTight(Trim(s));
  }

  lemma SupportedHasClaims(script: Script, text: string, passages: seq<string>)
    requires TextSupportedByPassages(script, text, passages)
    ensures ClaimSentences(script, text) != []
  {
  }

  function StructuredEach(script: Script, paragraphs: seq<string>, ledger: Ledger): (r: seq<Paragraph>)
    ensures |r| == |paragraphs|
    ensures forall i :: 0 <= i < |r| ==> r[i] == Structured(script, paragraphs[i], ledger)
  {
    if paragraphs == [] then []
    else [Structured(script, paragraphs[0], ledger)] + StructuredEach(script, paragraphs[1..], ledger)
  }

  lemma {:induction false} NoneIsDropped(script: Script, paragraphs: seq<string>, ledger: Ledger)
    requires script.Valid() && AllValid(script, paragraphs, ledger.entries)
    ensures OnlyCited(AddSupportedCitations(
                        script, StructureAll(paragraphs, EvidenceFromLedger(ledger)), EvidenceFromLedger(ledger)))
         == StructuredEach(script, paragraphs, ledger)
    decreases |paragraphs|
  {
    hide ParagraphValid, StructureOne, WithSupportedCitations, EvidenceFromLedger, Settled;
    if paragraphs != [] {
      assert paragraphs[0] in paragraphs;
      assert forall p | p in paragraphs[1..] :: p in paragraphs;
      ParagraphIsKept(script, paragraphs[0], ledger);
      KeptIsCited(script, paragraphs[0], Structured(script, paragraphs[0], ledger), ledger);
      NoneIsDropped(script, paragraphs[1..], ledger);
      var evidence := EvidenceFromLedger(ledger);
      var all := StructureAll(paragraphs, evidence);
      assert all == [StructureOne(paragraphs[0], evidence)] + StructureAll(paragraphs[1..], evidence);
      var full := AddSupportedCitations(script, all, evidence);
      assert full[0] == Structured(script, paragraphs[0], ledger);
      assert full[1..] == AddSupportedCitations(script, all[1..], evidence);
    }
  }

  lemma KeptIsCited(script: Script, paragraph: string, q: Paragraph, ledger: Ledger)
    ensures Kept(script, paragraph, q, ledger) ==> q.citations != [] && Settled(script, q, EvidenceFromLedger(ledger))
  {
  }

  lemma ValidNeedsEvidence(script: Script, paragraphs: seq<string>, ledger: Ledger)
    requires AllValid(script, paragraphs, ledger.entries) && paragraphs != []
    ensures EvidenceFromLedger(ledger) != []
  {
    assert paragraphs[0] in paragraphs;
    var n := MarkerNumbers(paragraphs[0])[0];
    assert InLedger(ledger.entries, n);
  }

  /**
    * Structuring loses nothing: valid prose becomes one paragraph per prose paragraph, each with its claims,
    * all its markers and only evidence that supports it, and reading the answer back keeps it as it is.
    */
  lemma StructuringLosesNothing(script: Script, text: string, ledger: Ledger)
    requires script.Valid() && MarkersValid(script, text, ledger)
    requires Trim(text) != "" && Trim(text) !in HOST_STRINGS
    ensures var ps := ParagraphsOf(text);
            var answer := StructuredAnswer(script, text, None, EvidenceFromLedger(ledger));
            && ps != [] && answer.Grounded? && |answer.paragraphs| == |ps|
            && (forall i :: 0 <= i < |ps| ==> Kept(script, ps[i], answer.paragraphs[i], ledger))
            && AnswerFromEvidence(script, answer, EvidenceFromLedger(ledger)) == answer
  {
    hide ParagraphValid, Structured, Kept, Settled, EvidenceFromLedger, SplitFrom, TrimAll, Trim;
    var ps := ParagraphsOf(text);
    var evidence := EvidenceFromLedger(ledger);
    assert text != "" by { assert Trim("") == "" by { TrimTight(""); } }
    TrimKeepsParagraphs(text);
    SomeParagraph(text);
    ValidNeedsEvidence(script, ps, ledger);
    NoneIsDropped(script, ps, ledger);
    var qs := StructuredEach(script, ps, ledger);
    forall i | 0 <= i < |ps|
      ensures Kept(script, ps[i], qs[i], ledger) && Settled(script, qs[i], evidence)
    {
      assert ps[i] in ps;
      ParagraphIsKept(script, ps[i], ledger);
      KeptIsCited(script, ps[i], qs[i], ledger);
    }
    SettledAnswerStays(script, qs, evidence);
  }

  /** Text that is not blank has a paragraph. */
  lemma SomeParagraph(text: string)
    requires Trim(text) != ""
    ensures ParagraphsOf(text) != []
  {
    assert "" + text == text;
    SomePiece("", text);
  }

  lemma BlankBeforeBreak(cur: string, s: string)
    requires Trim(cur) == "" && MatchBreak(s) > 0
    ensures Trim(cur + s) == Trim(s[MatchBreak(s)..])
  {
    hide IsSpace, Blank, Trim;
    var m := MatchBreak(s);
    BlankTrim(cur);
    BlankConcat(cur, s[..m]);
    TrimIgnoresLead(cur + s[..m], s[m..]);
    assert cur + s == cur + s[..m] + s[m..];
  }

  lemma {:induction false} SomePiece(cur: string, s: string)
    requires Trim(cur + s) != ""
    ensures TrimAll(SplitFrom(cur, s)) != []
    decreases |s|
  {
    hide Trim, MatchBreak;
    if s == "" {
      assert cur + s == cur;
    } else if MatchBreak(s) > 0 {
      var m := MatchBreak(s);
      TrimAllHead(cur, SplitFrom("", s[m..]));
      if Trim(cur) == "" {
        BlankBeforeBreak(cur, s);
        assert "" + s[m..] == s[m..];
        SomePiece("", s[m..]);
      }
    } else {
      assert cur + s == cur + [s[0]] + s[1..];
      SomePiece(cur + [s[0]], s[1..]);
    }
  }
}
