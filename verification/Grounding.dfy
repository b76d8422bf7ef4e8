/** The validator of drafts against a ledger, and host-side citation completion. */
module Grounding {
  import opened Sequences
  import opened Text
  import opened Paragraphs
  import opened Support
  import opened Evidence
  import opened Markers

  // ---- the validator ----

  predicate InLedger(entries: seq<Entry>, number: nat) { FindLabel(entries, number).Some? }

  function PassagesOf(entry: Entry): seq<string> { [entry.identity.section, entry.identity.text] }

  /** Section and text of every cited entry. */
  function CitedPassages(entries: seq<Entry>, numbers: seq<nat>): (r: seq<string>)
    requires forall n | n in numbers :: InLedger(entries, n)
  {
    if numbers == [] then []
    else
      assert InLedger(entries, numbers[0]);
      PassagesOf(entries[FindLabel(entries, numbers[0]).value]) + CitedPassages(entries, numbers[1..])
  }

  predicate ParagraphValid(script: Script, paragraph: string, entries: seq<Entry>) {
    var numbers := MarkerNumbers(paragraph);
    && numbers != []
    && (forall n | n in numbers :: InLedger(entries, n))
    && TextSupportedByPassages(script, Trim(StripMarkers(paragraph)), CitedPassages(entries, Distinct(numbers)))
  }

  predicate AllValid(script: Script, paragraphs: seq<string>, entries: seq<Entry>) {
    forall p | p in paragraphs :: ParagraphValid(script, p, entries)
  }

  predicate MarkersValid(script: Script, text: string, ledger: Ledger) {
    text == "" || (!ledger.labelConflict && AllValid(script, ParagraphsOf(text), ledger.entries))
  }

  // ---- what the validator accepts ----

  predicate DistinctNumbers(entries: seq<Entry>) {
    forall i, j :: 0 <= i < j < |entries| ==> entries[i].number != entries[j].number
  }

  /** An entry under this label has the claim in its section or its text. */
  predicate States(script: Script, entries: seq<Entry>, number: nat, claim: string) {
    exists e | e in entries ::
      && e.number == number
      && (|| Includes(NormalizeSupportText(script, e.identity.section), claim)
          || Includes(NormalizeSupportText(script, e.identity.text), claim))
  }

  /** The claims of a paragraph, its markers aside. */
  function ClaimsOf(script: Script, paragraph: string): seq<string> {
    ClaimSentences(script, Trim(StripMarkers(paragraph)))
  }

  /**
    * The paragraph cites labels of the ledger only, at least one; it makes a claim, and every claim has three words or
    * more and occurs in the section or text of an entry whose label the paragraph cites.
    */
  predicate WellCited(script: Script, paragraph: string, entries: seq<Entry>) {
    && MarkerNumbers(paragraph) != []
    && (forall n | n in MarkerNumbers(paragraph) :: exists e | e in entries :: e.number == n)
    && ClaimsOf(script, paragraph) != []
    && forall c | c in ClaimsOf(script, paragraph) ::
         FieldCount(c) >= 3 && exists n | n in MarkerNumbers(paragraph) :: States(script, entries, n, c)
  }

  lemma CitesMeans(script: Script, entries: seq<Entry>, n: nat, claim: string, p: string)
    requires Cites(entries, n, p) && Includes(NormalizeSupportText(script, p), claim)
    ensures States(script, entries, n, claim)
  {
    hide NormalizeSupportText, Includes;
    var e := entries[FindLabel(entries, n).value];
    assert e in entries;
  }

  lemma StatesMeans(script: Script, entries: seq<Entry>, n: nat, claim: string) returns (p: string)
    requires DistinctNumbers(entries) && States(script, entries, n, claim)
    ensures Cites(entries, n, p) && Includes(NormalizeSupportText(script, p), claim)
  {
    hide NormalizeSupportText, Includes;
    var e :| e in entries && e.number == n
             && (|| Includes(NormalizeSupportText(script, e.identity.section), claim)
                 || Includes(NormalizeSupportText(script, e.identity.text), claim));
    var k := FindLabel(entries, n).value;
    assert entries[k] == e;
    p := if Includes(NormalizeSupportText(script, e.identity.section), claim) then e.identity.section
         else e.identity.text;
  }

  lemma InLedgerMeans(entries: seq<Entry>, n: nat)
    ensures InLedger(entries, n) <==> exists e | e in entries :: e.number == n
  {
  }

  /** A valid paragraph is well cited; labels name one entry each, and then only such paragraphs are valid. */
  lemma ParagraphValidMeans(script: Script, paragraph: string, entries: seq<Entry>)
    ensures ParagraphValid(script, paragraph, entries) ==> WellCited(script, paragraph, entries)
    ensures DistinctNumbers(entries) && WellCited(script, paragraph, entries) ==>
            ParagraphValid(script, paragraph, entries)
  {
    hide TextSupportedByPassages, CitedPassages, States, Cites, InLedger, ClaimSentences, NormalizeSupportText,
      Includes,
      StripMarkers, MarkerNumbers, Trim, DistinctNumbers, FieldCount;
    var numbers := MarkerNumbers(paragraph);
    forall n ensures InLedger(entries, n) <==> exists e | e in entries :: e.number == n {
      InLedgerMeans(entries, n);
    }
    if forall n | n in numbers :: InLedger(entries, n) {
      var passages := CitedPassages(entries, Distinct(numbers));
      SupportMeans(script, Trim(StripMarkers(paragraph)), passages);
      forall p ensures p in passages <==> exists n | n in Distinct(numbers) :: Cites(entries, n, p) {
        PassageIn(entries, Distinct(numbers), p);
      }
      forall c, p | p in passages && Includes(NormalizeSupportText(script, p), c)
        ensures exists n | n in numbers :: States(script, entries, n, c)
      {
        var n :| n in Distinct(numbers) && Cites(entries, n, p);
        CitesMeans(script, entries, n, c, p);
      }
      if DistinctNumbers(entries) {
        forall c, n | n in numbers && States(script, entries, n, c)
          ensures exists p | p in passages :: Includes(NormalizeSupportText(script, p), c)
        {
          var p := StatesMeans(script, entries, n, c);
          assert n in Distinct(numbers);
        }
      }
    }
  }

  /**
    * What the validator accepts: a text whose every paragraph is well cited, on a ledger without a label conflict. In a
    * ledger whose labels name one entry each it accepts exactly those.
    */
  lemma ValidMeans(script: Script, text: string, ledger: Ledger)
    requires text != ""
    ensures MarkersValid(script, text, ledger) ==>
              !ledger.labelConflict && forall p | p in ParagraphsOf(text) :: WellCited(script, p, ledger.entries)
    ensures DistinctNumbers(ledger.entries) && !ledger.labelConflict
            && (forall p | p in ParagraphsOf(text) :: WellCited(script, p, ledger.entries)) ==>
              MarkersValid(script, text, ledger)
  {
    hide ParagraphsOf, ParagraphValid, WellCited, DistinctNumbers;
    forall p | p in ParagraphsOf(text)
      ensures ParagraphValid(script, p, ledger.entries) ==> WellCited(script, p, ledger.entries)
      ensures DistinctNumbers(ledger.entries) && WellCited(script, p, ledger.entries) ==>
                ParagraphValid(script, p, ledger.entries)
    {
      ParagraphValidMeans(script, p, ledger.entries);
    }
  }

  lemma NoParagraphs()
    ensures ParagraphsOf("") == []
  {
    TrimTight("");
    assert SplitBreaks("") == [""] && [""][1..] == [];
  }

  /** A blank-line join is valid exactly when both parts are (and the labels do not conflict). */
  lemma JoinValid(script: Script, a: string, b: string, ledger: Ledger)
    ensures MarkersValid(script, a + BLANK_LINE + b, ledger)
       <==> !ledger.labelConflict && MarkersValid(script, a, ledger) && MarkersValid(script, b, ledger)
  {
    hide ParagraphValid;
    JoinConcatenates(a, b);
    NoParagraphs();
    var ps, qs := ParagraphsOf(a), ParagraphsOf(b);
    assert forall p :: p in ps + qs <==> p in ps || p in qs;
  }

  // ---- passages of more labels ----

  predicate Cites(entries: seq<Entry>, number: nat, passage: string) {
    InLedger(entries, number) && passage in PassagesOf(entries[FindLabel(entries, number).value])
  }

  lemma {:induction false} PassageIn(entries: seq<Entry>, numbers: seq<nat>, p: string)
    requires forall n | n in numbers :: InLedger(entries, n)
    ensures p in CitedPassages(entries, numbers) <==> exists n | n in numbers :: Cites(entries, n, p)
    decreases |numbers|
  {
    hide FindLabel, PassagesOf;
    if numbers != [] {
      PassageIn(entries, numbers[1..], p);
      assert InLedger(entries, numbers[0]);
      assert p in PassagesOf(entries[FindLabel(entries, numbers[0]).value]) <==> Cites(entries, numbers[0], p);
      assert forall n :: n in numbers <==> n == numbers[0] || n in numbers[1..];
    }
  }

  lemma PassagesMonotone(entries: seq<Entry>, few: seq<nat>, many: seq<nat>)
    requires forall n | n in many :: InLedger(entries, n)
    requires forall n | n in few :: n in many
    ensures forall p | p in CitedPassages(entries, few) :: p in CitedPassages(entries, many)
  {
    hide FindLabel, PassagesOf, CitedPassages, InLedger, Cites;
    forall p | p in CitedPassages(entries, few) ensures p in CitedPassages(entries, many) {
      PassageIn(entries, few, p);
      PassageIn(entries, many, p);
    }
  }

  // ---- citation completion ----

  predicate NumberAtMost(a: Entry, b: Entry) { a.number <= b.number }

  /** Entries by ascending label. */
  function SortByNumber(entries: seq<Entry>): (r: seq<Entry>)
    ensures |r| == |entries| && forall e :: e in r <==> e in entries
  {
    SortBy(NumberAtMost, entries)
  }

  /** The sentences of a paragraph once its markers are gone. */
  function ParagraphSentences(paragraph: string): seq<string> {
    TrimAll(Sentences(StripMarkers(paragraph)))
  }

  predicate EntryStates(script: Script, entry: Entry, sentences: seq<string>) {
    exists s | s in sentences :: TextSupportedByPassages(script, s, PassagesOf(entry))
  }

  /** The labels to add: entries not cited yet that state one of the sentences. */
  function Additions(script: Script, entries: seq<Entry>, cited: seq<nat>, sentences: seq<string>): (r: seq<nat>)
    ensures forall n | n in r :: n !in cited && exists e | e in entries :: e.number == n
                                                                           && EntryStates(script, e, sentences)
  {
    if entries == [] then []
    else
      assert entries == [entries[0]] + entries[1..];
      var e := entries[0];
      if e.number !in cited && EntryStates(script, e, sentences)
      then [e.number] + Additions(script, entries[1..], cited + [e.number], sentences)
      else Additions(script, entries[1..], cited, sentences)
  }

  /** The loop over the ledger's labels that collects the additions of one paragraph. */
  method CollectAdditions(script: Script, entries: seq<Entry>, cited: seq<nat>, sentences: seq<string>)
    returns (additions: seq<nat>)
    ensures additions == Additions(script, entries, cited, sentences)
  {
    var seen := cited;
    additions := [];
    var i := 0;
    while i < |entries|
      invariant 0 <= i <= |entries|
      invariant Additions(script, entries, cited, sentences)
             == additions + Additions(script, entries[i..], seen, sentences)
    {
      var e := entries[i];
      if e.number !in seen && EntryStates(script, e, sentences) {
        seen := seen + [e.number];
        additions := additions + [e.number];
      }
      i := i + 1;
    }
  }

  function ParagraphAdditions(script: Script, piece: string, entries: seq<Entry>): seq<nat> {
    Additions(script, SortByNumber(entries), MarkerNumbers(Trim(piece)), ParagraphSentences(Trim(piece)))
  }

  function CompletePiece(script: Script, piece: string, entries: seq<Entry>): string {
    if Trim(piece) == "" then piece
    else
      var additions := ParagraphAdditions(script, piece, entries);
      if additions == [] then piece else TrimEnd(piece) + LabelsText(additions)
  }

  function CompletePieces(script: Script, pieces: seq<string>, entries: seq<Entry>): (r: seq<string>)
    ensures |r| == |pieces|
    ensures forall i :: 0 <= i < |pieces| ==> r[i] == CompletePiece(script, pieces[i], entries)
  {
    if pieces == [] then []
    else [CompletePiece(script, pieces[0], entries)] + CompletePieces(script, pieces[1..], entries)
  }

  function CompleteProseCitations(script: Script, text: string, ledger: Ledger): string {
    if text == "" || ledger.labelConflict || ledger.entries == [] then text
    else Join(CompletePieces(script, SplitBreaks(text), ledger.entries), BLANK_LINE)
  }

  /** Every label of the ledger is printed with one or two digits. */
  predicate PrintableLabels(entries: seq<Entry>) { forall e | e in entries :: 1 <= e.number <= 99 }

  // ---- what completion does to a draft ----

  lemma AdditionsFromLedger(script: Script, entries: seq<Entry>, piece: string)
    requires PrintableLabels(entries)
    ensures var r := ParagraphAdditions(script, piece, entries);
            Printable(r) && forall n | n in r :: InLedger(entries, n)
  {
    hide EntryStates, Additions, FindLabel;
    var r := ParagraphAdditions(script, piece, entries);
    forall n | n in r ensures 1 <= n <= 99 && InLedger(entries, n) {
      var e :| e in SortByNumber(entries) && e.number == n;
      assert e in entries;
    }
    assert forall i :: 0 <= i < |r| ==> r[i] in r;
  }

  /** The piece a completion changes: its start and its paragraph are kept, labels follow. */
  lemma CompletedPiece(script: Script, piece: string, entries: seq<Entry>)
    requires Trim(piece) != ""
    ensures var r := ParagraphAdditions(script, piece, entries);
            var done := TrimEnd(piece) + LabelsText(r);
            && Trim(done) == Trim(piece) + LabelsText(r) && TrimEnd(done) == done
            && (NoBreaks(piece) ==> NoBreaks(done)) && (OpenStart(piece) ==> OpenStart(done)) && OpenEnd(done)
            && !Blank(done)
  {
    hide IsSpace, Additions, MarkerNumbers;
    var labels := LabelsText(ParagraphAdditions(script, piece, entries));
    LabelsHaveNoSpace(ParagraphAdditions(script, piece, entries));
    var lead, tail := TrimParts(piece);
    TrimEndOnly(lead, Trim(piece), tail);
    AppendTight(lead, Trim(piece), tail, labels);
    assert lead + Trim(piece) + tail == piece;
  }

  lemma AppendTight(lead: string, core: string, tail: string, labels: string)
    requires Blank(lead) && Blank(tail) && Tight(core) && core != ""
    requires forall i :: 0 <= i < |labels| ==> !IsSpace(labels[i])
    ensures var piece, done := lead + core + tail, lead + core + labels;
            && Trim(done) == core + labels && TrimEnd(done) == done
            && (NoBreaks(piece) ==> NoBreaks(done)) && (OpenStart(piece) ==> OpenStart(done)) && OpenEnd(done)
            && !Blank(done)
  {
    hide IsSpace, NoBreaks;
    var piece, done := lead + core + tail, lead + core + labels;
    TrimUnique(lead, core + labels, "");
    assert done == lead + (core + labels) + "";
    TrimEndOnly(lead, core + labels, "");
    assert done[|lead|] == core[0];
    SpaceRunUnique(lead, core + labels);
    SpaceRunUnique(lead, core + tail);
    assert piece == lead + (core + tail) && done == lead + (core + labels);
    assert forall i :: 0 <= i < |lead| ==> done[i] == lead[i] && piece[i] == lead[i];
    if NoBreaks(piece) {
      NoBreaksPrefix(lead + core, tail);
      NoBreaksAppend(lead + core, labels);
    }
  }

  lemma {:induction false} NoBreaksPrefix(p: string, tail: string)
    requires NoBreaks(p + tail)
    ensures NoBreaks(p)
    decreases |p|
  {
    hide MatchBreak;
    if p != "" {
      assert (p + tail)[1..] == p[1..] + tail;
      NoBreaksPrefix(p[1..], tail);
      if MatchBreak(p) > 0 {
        BreakSurvives(p, tail);
      }
    }
  }

  lemma {:induction false} NoBreaksInSolid(labels: string)
    requires forall i :: 0 <= i < |labels| ==> !IsSpace(labels[i])
    ensures NoBreaks(labels)
    decreases |labels|
  {
    if labels != "" {
      NoBreaksInSolid(labels[1..]);
    }
  }

  lemma {:induction false} NoBreaksAppend(p: string, labels: string)
    requires NoBreaks(p) && (p == "" || !IsSpace(p[|p| - 1]))
    requires forall i :: 0 <= i < |labels| ==> !IsSpace(labels[i])
    ensures NoBreaks(p + labels)
    decreases |p|
  {
    hide IsSpace, MatchBreak;
    if p == "" {
      assert p + labels == labels;
      NoBreaksInSolid(labels);
    } else {
      assert (p + labels)[1..] == p[1..] + labels;
      NoBreaksAppend(p[1..], labels);
      assert forall i :: 0 <= i < SpaceRun(p) ==> p[..SpaceRun(p)][i] == p[i];
      MatchBreakExtends(p, labels);
    }
  }

  /** A piece of a draft is valid when it is blank or its paragraph is. */
  predicate PieceValid(script: Script, piece: string, entries: seq<Entry>) {
    Trim(piece) == "" || ParagraphValid(script, Trim(piece), entries)
  }

  lemma {:induction false} PiecesValid(script: Script, pieces: seq<string>, entries: seq<Entry>)
    ensures AllValid(script, TrimAll(pieces), entries) <==> forall p | p in pieces :: PieceValid(script, p, entries)
    decreases |pieces|
  {
    hide ParagraphValid, Trim;
    if pieces != [] {
      PiecesValid(script, pieces[1..], entries);
      assert forall p :: p in pieces <==> p == pieces[0] || p in pieces[1..];
      var head := if Trim(pieces[0]) == "" then [] else [Trim(pieces[0])];
      assert forall p :: p in TrimAll(pieces) <==> p in head || p in TrimAll(pieces[1..]);
      assert PieceValid(script, pieces[0], entries) <==> forall p | p in head :: ParagraphValid(script, p, entries) by {
        assert Trim(pieces[0]) != "" ==> Trim(pieces[0]) in head;
      }
    }
  }

  /** Completing a valid paragraph keeps it valid: more labels, the same claims. */
  lemma CompletedParagraphValid(script: Script, p: string, numbers: seq<nat>, entries: seq<Entry>)
    requires ParagraphValid(script, p, entries) && Printable(numbers) && forall n | n in numbers :: InLedger(entries, n)
    ensures ParagraphValid(script, p + LabelsText(numbers), entries)
  {
    hide InLedger, TextSupportedByPassages, CitedPassages, StripMarkers, Trim;
    AppendLabels(p, numbers);
    var few := MarkerNumbers(p);
    hide MarkerNumbers;
    var many := few + numbers;
    assert forall n :: n in many <==> n in few || n in numbers;
    PassagesMonotone(entries, Distinct(few), Distinct(many));
    SupportMonotone(script, Trim(StripMarkers(p)), CitedPassages(entries, Distinct(few)),
                    CitedPassages(entries, Distinct(many)));
  }

  lemma CompletedPieceValid(script: Script, piece: string, entries: seq<Entry>)
    requires PieceValid(script, piece, entries) && PrintableLabels(entries)
    ensures PieceValid(script, CompletePiece(script, piece, entries), entries)
  {
    hide ParagraphValid, InLedger, ParagraphAdditions, Trim, NoBreaks, OpenStart, OpenEnd;
    if Trim(piece) != "" {
      AdditionsFromLedger(script, entries, piece);
      CompletedPiece(script, piece, entries);
      CompletedParagraphValid(script, Trim(piece), ParagraphAdditions(script, piece, entries), entries);
    }
  }

  lemma CompletedPiecesArePieces(script: Script, pieces: seq<string>, entries: seq<Entry>)
    requires Pieces(pieces)
    ensures Pieces(CompletePieces(script, pieces, entries))
  {
    hide ParagraphAdditions, NoBreaks, OpenStart, OpenEnd, Blank;
    forall i | 0 <= i < |pieces|
      ensures var p, q := pieces[i], CompletePiece(script, pieces[i], entries);
              && (NoBreaks(p) ==> NoBreaks(q)) && (OpenStart(p) ==> OpenStart(q)) && (OpenEnd(p) ==> OpenEnd(q))
              && (!Blank(p) ==> !Blank(q))
    {
      if Trim(pieces[i]) != "" {
        CompletedPiece(script, pieces[i], entries);
      }
    }
  }

  /** The completed draft splits into exactly the completed pieces. */
  lemma CompletedSplits(script: Script, text: string, ledger: Ledger)
    requires text != "" && !ledger.labelConflict && ledger.entries != []
    ensures SplitBreaks(CompleteProseCitations(script, text, ledger))
         == CompletePieces(script, SplitBreaks(text), ledger.entries)
  {
    hide CompletePiece, SplitFrom, Pieces;
    SplitGivesPieces(text);
    CompletedPiecesArePieces(script, SplitBreaks(text), ledger.entries);
    SplitUndoesJoin(CompletePieces(script, SplitBreaks(text), ledger.entries));
  }

  /** Completion keeps a valid draft valid. */
  lemma CompletionKeepsValid(script: Script, text: string, ledger: Ledger)
    requires MarkersValid(script, text, ledger) && PrintableLabels(ledger.entries)
    ensures MarkersValid(script, CompleteProseCitations(script, text, ledger), ledger)
  {
    if text != "" && ledger.entries != [] {
      hide PieceValid, CompletePiece, TrimAll, SplitFrom, AllValid;
      var pieces := SplitBreaks(text);
      PiecesValid(script, pieces, ledger.entries);
      forall p | p in CompletePieces(script, pieces, ledger.entries) ensures PieceValid(script, p, ledger.entries) {
        var i :| 0 <= i < |pieces| && p == CompletePieces(script, pieces, ledger.entries)[i];
        CompletedPieceValid(script, pieces[i], ledger.entries);
      }
      CompletedSplits(script, text, ledger);
      PiecesValid(script, CompletePieces(script, pieces, ledger.entries), ledger.entries);
    }
  }

  // ---- completion is complete, and so idempotent ----

  /** A label is added exactly when it is not cited yet and its entry states a sentence, in its section or its text. */
  lemma {:induction false} AdditionsExactly(
    script: Script, entries: seq<Entry>, cited: seq<nat>, sentences: seq<string>, n: nat)
    ensures n in Additions(script, entries, cited, sentences)
       <==> && n !in cited
            && exists e, s | e in entries && s in sentences ::
                 e.number == n && TextSupportedByPassages(script, s, [e.identity.section, e.identity.text])
    decreases |entries|
  {
    hide TextSupportedByPassages;
    if entries != [] {
      var e := entries[0];
      assert forall x :: x in entries <==> x == e || x in entries[1..];
      AdditionsExactly(script, entries[1..], if e.number !in cited && EntryStates(script, e, sentences)
                                             then cited + [e.number] else cited, sentences, n);
      assert EntryStates(script, e, sentences)
        <==> exists s | s in sentences :: TextSupportedByPassages(script, s, [e.identity.section, e.identity.text]);
    }
  }

  lemma {:induction false} AdditionsCover(script: Script, entries: seq<Entry>, cited: seq<nat>, sentences: seq<string>)
    ensures forall e | e in entries && EntryStates(script, e, sentences) ::
              e.number in cited || e.number in Additions(script, entries, cited, sentences)
    decreases |entries|
  {
    hide EntryStates;
    if entries != [] {
      var e := entries[0];
      if e.number !in cited && EntryStates(script, e, sentences) {
        AdditionsCover(script, entries[1..], cited + [e.number], sentences);
      } else {
        AdditionsCover(script, entries[1..], cited, sentences);
      }
      assert forall x :: x in entries <==> x == e || x in entries[1..];
    }
  }

  lemma {:induction false} NothingToAdd(script: Script, entries: seq<Entry>, cited: seq<nat>, sentences: seq<string>)
    requires forall e | e in entries && EntryStates(script, e, sentences) :: e.number in cited
    ensures Additions(script, entries, cited, sentences) == []
    decreases |entries|
  {
    hide EntryStates;
    if entries != [] {
      assert entries[0] in entries;
      NothingToAdd(script, entries[1..], cited, sentences);
    }
  }

  /**
    * After completion a paragraph cites every entry that states one of its sentences, and completing again adds
    * nothing.
    */
  lemma CompletedPieceIsComplete(script: Script, piece: string, entries: seq<Entry>)
    requires Trim(piece) != "" && PrintableLabels(entries)
    ensures var done := CompletePiece(script, piece, entries);
            && (forall e | e in entries && EntryStates(script, e, ParagraphSentences(Trim(piece))) ::
                  e.number in MarkerNumbers(Trim(done)))
            && ParagraphSentences(Trim(done)) == ParagraphSentences(Trim(piece))
            && CompletePiece(script, done, entries) == done
  {
    hide EntryStates, Trim, Additions, MarkerNumbers, StripMarkers, Sentences, TrimAll, NoBreaks, OpenStart, OpenEnd,
      Blank;
    var sorted := SortByNumber(entries);
    var cited := MarkerNumbers(Trim(piece));
    var sentences := ParagraphSentences(Trim(piece));
    var additions := ParagraphAdditions(script, piece, entries);
    var done := CompletePiece(script, piece, entries);
    AdditionsCover(script, sorted, cited, sentences);
    if additions != [] {
      AdditionsFromLedger(script, entries, piece);
      CompletedPiece(script, piece, entries);
      AppendLabels(Trim(piece), additions);
      assert MarkerNumbers(Trim(done)) == cited + additions;
    }
    NothingToAdd(script, sorted, MarkerNumbers(Trim(done)), sentences);
  }

  /** Completion is idempotent. */
  lemma CompletionIsIdempotent(script: Script, text: string, ledger: Ledger)
    requires PrintableLabels(ledger.entries)
    ensures CompleteProseCitations(script, CompleteProseCitations(script, text, ledger), ledger)
         == CompleteProseCitations(script, text, ledger)
  {
    if text != "" && !ledger.labelConflict && ledger.entries != [] {
      hide CompletePiece, SplitFrom;
      var pieces := SplitBreaks(text);
      var done := CompletePieces(script, pieces, ledger.entries);
      CompletedSplits(script, text, ledger);
      forall i | 0 <= i < |done| ensures CompletePiece(script, done[i], ledger.entries) == done[i] {
        CompleteTwice(script, pieces[i], ledger.entries);
      }
      assert CompletePieces(script, done, ledger.entries) == done;
    }
  }

  lemma CompleteTwice(script: Script, piece: string, entries: seq<Entry>)
    requires PrintableLabels(entries)
    ensures CompletePiece(script, CompletePiece(script, piece, entries), entries)
         == CompletePiece(script, piece, entries)
  {
    if Trim(piece) != "" {
      CompletedPieceIsComplete(script, piece, entries);
    }
  }
}
