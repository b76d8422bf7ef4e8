/** The answer contract: structured paragraphs, their citations, and what re-reading an answer keeps. */
module AnswerContract {
  import opened Sequences
  import opened Text
  import opened Support
  import opened Evidence
  import opened Grounding

  /** A retrieved item under its citation label `[number]`. */
  datatype Cited = Cited(number: nat, chunkId: string, documentId: string, section: string, text: string)

  datatype Paragraph = Paragraph(text: string, citations: seq<nat>)

  datatype Answer = Insufficient | Grounded(paragraphs: seq<Paragraph>)

  function CitedOf(entry: Entry): Cited {
    Cited(entry.number, entry.identity.chunkId, entry.identity.documentId, entry.identity.section, entry.identity.text)
  }

  function CitedAll(entries: seq<Entry>): (r: seq<Cited>)
    ensures |r| == |entries|
    ensures forall i :: 0 <= i < |r| ==> r[i] == CitedOf(entries[i])
  {
    if entries == [] then [] else [CitedOf(entries[0])] + CitedAll(entries[1..])
  }

  function EvidenceFromLedger(ledger: Ledger): seq<Cited> { CitedAll(SortByNumber(ledger.entries)) }

  predicate KnownLabel(evidence: seq<Cited>, number: nat) { exists item | item in evidence :: item.number == number }

  /** One of the longer claims of a text occurs in the item's section or text. */
  predicate ItemStates(script: Script, item: Cited, claims: seq<string>) {
    exists c | c in claims ::
      FieldCount(c) >= 3 && (PassageSupports(script, c, item.section) || PassageSupports(script, c, item.text))
  }

  /** The labels `addSupportedCitations` appends to the citations of one paragraph. */
  function SupportedLabels(script: Script, claims: seq<string>, cited: seq<nat>, evidence: seq<Cited>): (r: seq<nat>)
    ensures forall n | n in r :: n !in cited && KnownLabel(evidence, n)
    ensures forall i, j :: 0 <= i < j < |r| ==> r[i] != r[j]
    decreases |evidence|
  {
    if evidence == [] then []
    else
      assert forall x :: x in evidence <==> x == evidence[0] || x in evidence[1..];
      assert KnownLabel(evidence, evidence[0].number);
      assert forall n :: KnownLabel(evidence[1..], n) ==> KnownLabel(evidence, n);
      var item := evidence[0];
      if item.number !in cited && ItemStates(script, item, claims) then
        var rest := SupportedLabels(script, claims, cited + [item.number], evidence[1..]);
        assert forall j :: 0 <= j < |rest| ==> rest[j] in rest;
        [item.number] + rest
      else SupportedLabels(script, claims, cited, evidence[1..])
  }

  method CollectSupportedLabels(script: Script, claims: seq<string>, citations: seq<nat>, evidence: seq<Cited>)
    returns (all: seq<nat>)
    ensures all == citations + SupportedLabels(script, claims, citations, evidence)
  {
    all := citations;
    var i := 0;
    while i < |evidence|
      invariant 0 <= i <= |evidence|
      invariant all + SupportedLabels(script, claims, all, evidence[i..])
             == citations + SupportedLabels(script, claims, citations, evidence)
    {
      var item := evidence[i];
      if item.number !in all && ItemStates(script, item, claims) {
        all := all + [item.number];
      }
      i := i + 1;
    }
  }

  function WithSupportedCitations(script: Script, p: Paragraph, evidence: seq<Cited>): Paragraph {
    p.(citations := p.citations + SupportedLabels(script, ClaimSentences(script, p.text), p.citations, evidence))
  }

  function AddSupportedCitations(script: Script, ps: seq<Paragraph>, evidence: seq<Cited>): (r: seq<Paragraph>)
    ensures |r| == |ps|
    ensures forall i :: 0 <= i < |ps| ==> r[i] == WithSupportedCitations(script, ps[i], evidence)
  {
    if ps == [] then []
    else [WithSupportedCitations(script, ps[0], evidence)] + AddSupportedCitations(script, ps[1..], evidence)
  }

  // ---- evidence and entries ----

  /** The item has the label, the ids and the passages of the entry. */
  predicate SameIds(item: Cited, e: Entry) {
    && item.number == e.number && item.chunkId == e.identity.chunkId && item.documentId == e.identity.documentId
    && item.section == e.identity.section && item.text == e.identity.text
  }

  /** The evidence of a ledger: one item per entry in the order of the labels, with its ids and passages. */
  lemma EvidenceIsEntries(ledger: Ledger)
    ensures var evidence := EvidenceFromLedger(ledger);
            && |evidence| == |ledger.entries|
            && (forall i, j | 0 <= i < j < |evidence| :: evidence[i].number <= evidence[j].number)
            && (forall item | item in evidence :: exists e | e in ledger.entries :: SameIds(item, e))
            && (forall e | e in ledger.entries :: exists item | item in evidence :: SameIds(item, e))
  {
    hide SameIds, SortByNumber;
    var evidence, sorted := EvidenceFromLedger(ledger), SortByNumber(ledger.entries);
    SortedByNumber(ledger.entries);
    forall i | 0 <= i < |evidence| ensures SameIds(evidence[i], sorted[i]) && sorted[i] in ledger.entries {
      CitedIsSame(sorted[i]);
      assert sorted[i] in sorted;
    }
    forall e | e in ledger.entries ensures exists item | item in evidence :: SameIds(item, e) {
      var i :| 0 <= i < |sorted| && sorted[i] == e;
      assert evidence[i] in evidence;
    }
  }

  lemma CitedIsSame(e: Entry)
    ensures SameIds(CitedOf(e), e)
  {
  }

  lemma SortedByNumber(entries: seq<Entry>)
    ensures forall i, j | 0 <= i < j < |entries| :: SortByNumber(entries)[i].number <= SortByNumber(entries)[j].number
  {
    SortIsSorted(NumberAtMost, entries);
    var sorted := SortByNumber(entries);
    forall i, j | 0 <= i < j < |entries| ensures sorted[i].number <= sorted[j].number {
      assert NumberAtMost(sorted[i], sorted[j]);
    }
  }

  // ---- reading an answer back ----

  /** Known labels, each once. */
  function NormalizeCitations(citations: seq<nat>, evidence: seq<Cited>): (r: seq<nat>)
    ensures forall n | n in r :: KnownLabel(evidence, n)
    ensures forall i, j :: 0 <= i < j < |r| ==> r[i] != r[j]
  {
    if citations == [] then []
    else
      var k := |citations| - 1;
      var r := NormalizeCitations(citations[..k], evidence);
      if KnownLabel(evidence, citations[k]) && citations[k] !in r then r + [citations[k]] else r
  }

  function NormalizeParagraphs(ps: seq<Paragraph>, evidence: seq<Cited>): seq<Paragraph> {
    if ps == [] then []
    else
      (if Trim(ps[0].text) == "" then []
       else [Paragraph(Trim(ps[0].text), NormalizeCitations(ps[0].citations, evidence))])
      + NormalizeParagraphs(ps[1..], evidence)
  }

  function ItemPassages(evidence: seq<Cited>, citations: seq<nat>): seq<string> {
    if evidence == [] then []
    else (if evidence[0].number in citations then [evidence[0].section, evidence[0].text] else [])
         + ItemPassages(evidence[1..], citations)
  }

  predicate ParagraphSupported(script: Script, p: Paragraph, evidence: seq<Cited>) {
    && (exists item | item in evidence :: item.number in p.citations)
    && TextSupportedByPassages(script, p.text, ItemPassages(evidence, p.citations))
  }

  function KeepSupported(script: Script, ps: seq<Paragraph>, evidence: seq<Cited>): seq<Paragraph> {
    if ps == [] then []
    else (if ps[0].citations != [] && ParagraphSupported(script, ps[0], evidence) then [ps[0]] else [])
         + KeepSupported(script, ps[1..], evidence)
  }

  /** `answerFromEvidence` on a structured answer that has been parsed. */
  function AnswerFromEvidence(script: Script, raw: Answer, evidence: seq<Cited>): Answer {
    if evidence == [] || raw.Insufficient? then Insufficient
    else
      var kept := KeepSupported(
                    script, AddSupportedCitations(script, NormalizeParagraphs(raw.paragraphs, evidence), evidence),
                    evidence);
      if kept == [] then Insufficient else Grounded(kept)
  }

  // ---- what is kept ----

  /** The claim occurs in the section or the text of the item. */
  predicate ItemSays(script: Script, item: Cited, claim: string) {
    || Includes(NormalizeSupportText(script, item.section), claim)
    || Includes(NormalizeSupportText(script, item.text), claim)
  }

  /** Every claim, three words or more and at least one, occurs in an item the paragraph cites. */
  predicate ClaimsCited(script: Script, p: Paragraph, evidence: seq<Cited>) {
    && ClaimSentences(script, p.text) != []
    && forall c | c in ClaimSentences(script, p.text) ::
         FieldCount(c) >= 3 && exists item | item in evidence && item.number in p.citations :: ItemSays(script, item, c)
  }

  lemma {:induction false} ItemPassagesAre(evidence: seq<Cited>, citations: seq<nat>, passage: string)
    ensures passage in ItemPassages(evidence, citations)
       <==> exists item | item in evidence && item.number in citations ::
              passage == item.section || passage == item.text
    decreases |evidence|
  {
    if evidence != [] {
      ItemPassagesAre(evidence[1..], citations, passage);
      assert forall x :: x in evidence <==> x == evidence[0] || x in evidence[1..];
    }
  }

  /** The support test of a paragraph, on its claims and the items it cites. */
  lemma ParagraphSupportedMeans(script: Script, p: Paragraph, evidence: seq<Cited>)
    ensures ParagraphSupported(script, p, evidence) <==> ClaimsCited(script, p, evidence)
  {
    hide TextSupportedByPassages, ClaimSentences, NormalizeSupportText, Includes, ItemPassages, FieldCount;
    var passages := ItemPassages(evidence, p.citations);
    SupportMeans(script, p.text, passages);
    forall passage
      ensures passage in passages
         <==> exists item | item in evidence && item.number in p.citations ::
                passage == item.section || passage == item.text
    {
      ItemPassagesAre(evidence, p.citations, passage);
    }
    forall c | c in ClaimSentences(script, p.text)
      ensures (exists passage | passage in passages :: Includes(NormalizeSupportText(script, passage), c))
         <==> exists item | item in evidence && item.number in p.citations :: ItemSays(script, item, c)
    {
      if item :| item in evidence && item.number in p.citations && ItemSays(script, item, c) {
        assert item.section in passages && item.text in passages;
      }
    }
    if ClaimsCited(script, p, evidence) {
      var c := ClaimSentences(script, p.text)[0];
      assert c in ClaimSentences(script, p.text);
      var item :| item in evidence && item.number in p.citations && ItemSays(script, item, c);
    }
  }

  lemma {:induction false} KeptExactly(script: Script, ps: seq<Paragraph>, evidence: seq<Cited>, p: Paragraph)
    ensures p in KeepSupported(script, ps, evidence)
       <==> p in ps && p.citations != [] && ClaimsCited(script, p, evidence)
    decreases |ps|
  {
    hide ParagraphSupported, ClaimsCited;
    if ps != [] {
      KeptExactly(script, ps[1..], evidence, p);
      ParagraphSupportedMeans(script, ps[0], evidence);
      assert ps == [ps[0]] + ps[1..];
    }
  }

  /** A label is added exactly when an item under it has a claim of three words or more in its section or its text. */
  lemma AddedExactly(script: Script, p: Paragraph, evidence: seq<Cited>, n: nat)
    ensures n in WithSupportedCitations(script, p, evidence).citations
       <==> || n in p.citations
            || exists item, c | item in evidence && c in ClaimSentences(script, p.text) ::
                 item.number == n && FieldCount(c) >= 3 && ItemSays(script, item, c)
  {
    hide ClaimSentences, NormalizeSupportText, Includes, FieldCount, SupportedLabels;
    var claims := ClaimSentences(script, p.text);
    LabelsExactly(script, claims, p.citations, evidence, n);
    forall item ensures ItemStates(script, item, claims)
              <==> exists c | c in claims :: FieldCount(c) >= 3 && ItemSays(script, item, c) {
      ItemStatesMeans(script, item, claims);
    }
  }

  lemma ItemStatesMeans(script: Script, item: Cited, claims: seq<string>)
    ensures ItemStates(script, item, claims)
       <==> exists c | c in claims :: FieldCount(c) >= 3 && ItemSays(script, item, c)
  {
    hide NormalizeSupportText;
    forall c | c in claims && FieldCount(c) >= 3 && ItemSays(script, item, c)
      ensures PassageSupports(script, c, item.section) || PassageSupports(script, c, item.text)
    {
      assert c != "";
    }
  }

  lemma {:induction false} LabelsExactly(
    script: Script, claims: seq<string>, cited: seq<nat>, evidence: seq<Cited>, n: nat)
    ensures n in SupportedLabels(script, claims, cited, evidence)
       <==> n !in cited && exists item | item in evidence :: item.number == n && ItemStates(script, item, claims)
    decreases |evidence|
  {
    hide ItemStates;
    if evidence != [] {
      var item := evidence[0];
      assert forall x :: x in evidence <==> x == item || x in evidence[1..];
      LabelsExactly(script, claims, if item.number !in cited && ItemStates(script, item, claims)
                                    then cited + [item.number] else cited, evidence[1..], n);
    }
  }

  function ParagraphsOfAnswer(answer: Answer): seq<Paragraph> { if answer.Grounded? then answer.paragraphs else [] }

  /**
    * The paragraph as it is read: trimmed, with its known labels and those of all evidence that has one of its
    * claims.
    */
  function ReadBack(script: Script, p: Paragraph, evidence: seq<Cited>): Paragraph {
    WithSupportedCitations(script, Paragraph(Trim(p.text), NormalizeCitations(p.citations, evidence)), evidence)
  }

  lemma {:induction false} ReadExactly(script: Script, ps: seq<Paragraph>, evidence: seq<Cited>, q: Paragraph)
    ensures q in AddSupportedCitations(script, NormalizeParagraphs(ps, evidence), evidence)
       <==> exists p | p in ps :: Trim(p.text) != "" && q == ReadBack(script, p, evidence)
    decreases |ps|
  {
    hide Trim, NormalizeCitations, WithSupportedCitations;
    if ps != [] {
      ReadExactly(script, ps[1..], evidence, q);
      assert forall x :: x in ps <==> x == ps[0] || x in ps[1..];
      var rest := NormalizeParagraphs(ps[1..], evidence);
      if Trim(ps[0].text) != "" {
        var one := Paragraph(Trim(ps[0].text), NormalizeCitations(ps[0].citations, evidence));
        assert NormalizeParagraphs(ps, evidence) == [one] + rest && ([one] + rest)[1..] == rest;
        assert AddSupportedCitations(script, [one] + rest, evidence)
            == [WithSupportedCitations(script, one, evidence)] + AddSupportedCitations(script, rest, evidence);
      } else {
        var none: seq<Paragraph> := [];
        assert none + rest == rest && NormalizeParagraphs(ps, evidence) == rest;
      }
    }
  }

  /**
    * What is made of an answer that was read: a paragraph is kept exactly when it is one of those with text, as it is
    * read, and every claim occurs in evidence it cites.
    */
  lemma AnswerExactly(script: Script, raw: Answer, evidence: seq<Cited>, q: Paragraph)
    ensures q in ParagraphsOfAnswer(AnswerFromEvidence(script, raw, evidence))
       <==> && evidence != [] && raw.Grounded? && q.citations != [] && ClaimsCited(script, q, evidence)
            && exists p | p in raw.paragraphs :: Trim(p.text) != "" && q == ReadBack(script, p, evidence)
  {
    hide Trim, ReadBack, ClaimsCited, NormalizeParagraphs, KeepSupported, AddSupportedCitations;
    if evidence != [] && raw.Grounded? {
      var full := AddSupportedCitations(script, NormalizeParagraphs(raw.paragraphs, evidence), evidence);
      KeptExactly(script, full, evidence, q);
      ReadExactly(script, raw.paragraphs, evidence, q);
    }
  }

  /** Whatever is read, the answer only holds paragraphs that cite known labels and are supported by them. */
  predicate Sound(script: Script, answer: Answer, evidence: seq<Cited>) {
    answer.Grounded? ==>
      answer.paragraphs != [] && forall p | p in answer.paragraphs :: SoundParagraph(script, p, evidence)
  }

  predicate SoundParagraph(script: Script, p: Paragraph, evidence: seq<Cited>) {
    && p.citations != [] && (forall n | n in p.citations :: KnownLabel(evidence, n))
    && ParagraphSupported(script, p, evidence)
  }

  /** A paragraph that reading back leaves as it is. */
  predicate Settled(script: Script, p: Paragraph, evidence: seq<Cited>) {
    && p.text != "" && Trim(p.text) == p.text
    && (forall i, j :: 0 <= i < j < |p.citations| ==> p.citations[i] != p.citations[j])
    && WithSupportedCitations(script, p, evidence) == p
    && SoundParagraph(script, p, evidence)
  }

  lemma {:induction false} KnownCitationsStay(citations: seq<nat>, evidence: seq<Cited>)
    requires forall n | n in citations :: KnownLabel(evidence, n)
    requires forall i, j :: 0 <= i < j < |citations| ==> citations[i] != citations[j]
    ensures NormalizeCitations(citations, evidence) == citations
    decreases |citations|
  {
    if citations != [] {
      var k := |citations| - 1;
      assert forall n | n in citations[..k] :: n in citations;
      KnownCitationsStay(citations[..k], evidence);
      assert citations[k] in citations && citations == citations[..k] + [citations[k]];
    }
  }

  lemma {:induction false} SettledNormalize(script: Script, ps: seq<Paragraph>, evidence: seq<Cited>)
    requires forall p | p in ps :: Settled(script, p, evidence)
    ensures NormalizeParagraphs(ps, evidence) == ps
    decreases |ps|
  {
    hide WithSupportedCitations, ParagraphSupported, Trim;
    if ps != [] {
      assert ps[0] in ps && ps == [ps[0]] + ps[1..];
      KnownCitationsStay(ps[0].citations, evidence);
      SettledNormalize(script, ps[1..], evidence);
    }
  }

  lemma {:induction false} SettledKept(script: Script, ps: seq<Paragraph>, evidence: seq<Cited>)
    requires forall p | p in ps :: Settled(script, p, evidence)
    ensures KeepSupported(script, ps, evidence) == ps
    decreases |ps|
  {
    hide WithSupportedCitations, ParagraphSupported, Trim, KnownLabel;
    if ps != [] {
      assert ps[0] in ps && ps == [ps[0]] + ps[1..];
      SettledKept(script, ps[1..], evidence);
    }
  }

  /** Reading back an answer made of settled paragraphs changes nothing. */
  lemma SettledAnswerStays(script: Script, ps: seq<Paragraph>, evidence: seq<Cited>)
    requires ps != [] && evidence != [] && forall p | p in ps :: Settled(script, p, evidence)
    ensures AnswerFromEvidence(script, Grounded(ps), evidence) == Grounded(ps)
  {
    hide WithSupportedCitations, ParagraphSupported, Trim, KnownLabel;
    SettledNormalize(script, ps, evidence);
    assert forall i :: 0 <= i < |ps| ==> ps[i] in ps;
    assert AddSupportedCitations(script, ps, evidence) == ps;
    SettledKept(script, ps, evidence);
  }

  lemma {:induction false} KeptAreSound(script: Script, ps: seq<Paragraph>, evidence: seq<Cited>)
    requires forall p | p in ps :: forall n | n in p.citations :: KnownLabel(evidence, n)
    ensures forall p | p in KeepSupported(script, ps, evidence) :: SoundParagraph(script, p, evidence)
    decreases |ps|
  {
    hide ParagraphSupported, KnownLabel;
    if ps != [] {
      assert ps[0] in ps && ps == [ps[0]] + ps[1..];
      KeptAreSound(script, ps[1..], evidence);
    }
  }

  lemma {:induction false} NormalizedAreKnown(ps: seq<Paragraph>, evidence: seq<Cited>)
    ensures forall p | p in NormalizeParagraphs(ps, evidence) :: forall n | n in p.citations :: KnownLabel(evidence, n)
    decreases |ps|
  {
    hide KnownLabel, Trim;
    if ps != [] {
      NormalizedAreKnown(ps[1..], evidence);
    }
  }

  /** No answer the contract accepts cites unknown evidence or states what its citations do not. */
  lemma AnswerIsSound(script: Script, raw: Answer, evidence: seq<Cited>)
    ensures Sound(script, AnswerFromEvidence(script, raw, evidence), evidence)
  {
    if raw.Grounded? {
      hide KnownLabel, ParagraphSupported, ItemStates;
      var normal := NormalizeParagraphs(raw.paragraphs, evidence);
      NormalizedAreKnown(raw.paragraphs, evidence);
      var full := AddSupportedCitations(script, normal, evidence);
      forall p | p in full ensures forall n | n in p.citations :: KnownLabel(evidence, n) {
        var i :| 0 <= i < |full| && full[i] == p;
        assert normal[i] in normal;
      }
      KeptAreSound(script, full, evidence);
    }
  }
}
