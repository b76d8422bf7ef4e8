/**
  * A draft that the passes salvage in vain: it is invalid, its salvaged text is invalid as well, and so the
  * invalid-citation sentence is what is left.
  */
module BrokenDraft {
  import opened Wrappers
  import opened Text
  import opened Paragraphs
  import opened Support
  import opened Evidence
  import opened Markers
  import opened Grounding
  import opened HostStrings
  import opened Salvage
  import opened SalvageDrafts
  import opened AnswerPasses

  // ---- the draft and its evidence ----

  /** Letters a to z are words and caseless. */
  function Plain(): Script { Script((c: char) => [c], (c: char) => 'a' <= c <= 'z') }

  const LANG := Language(Plain(), (s: string) => false)

  /** A paragraph without evidence, and one with a marker alone on its line: stripping it leaves a blank line. */
  const PIECE := "a b\n[1]\nc"
  const DRAFT := "x" + BLANK_LINE + PIECE
  const CLEAN := "a b\n\nc"

  const LEDGER :=
    CreateLedger().(entries := [Entry(1, Identity("k", "d", None, "", "a b c"))], successfulSearchCount := 1)

  /** A text without brackets, quotation marks, colons and sentence ends. */
  predicate Bare(s: string) {
    forall c | c in s :: !Opens(c) && c !in "\"\U{201C}:.!?"
  }

  lemma {:induction false} BareReads(cur: string, s: string)
    requires Bare(s) && !EndsSentence(cur)
    ensures NoMarkers(s) && QuotedSpans(s) == [] && IndexOf(s, ':') == |s| && SentencesFrom(cur, s) == [cur + s]
    decreases |s|
  {
    if s == "" {
      assert cur + s == cur;
    } else {
      assert s[0] in s && forall c | c in s[1..] :: c in s;
      BareReads(cur + [s[0]], s[1..]);
      assert cur + [s[0]] + s[1..] == cur + s;
    }
  }

  lemma BareStrips(s: string)
    requires Bare(s)
    ensures StripMarkers(s) == s
  {
    hide NoMarkers, Bare, StripMarkers;
    BareReads("", s);
    NoMarkersRead(s);
  }

  lemma MarkerStrips(front: string, marker: string, end: string)
    requires Bare(front) && Bare(end) && |marker| >= 3 && marker[0] == '[' && MarkerLength(marker + end) == |marker|
    ensures StripMarkers(front + marker + end) == front + end
  {
    hide MarkerLength, Bare, StripMarkers;
    MarkersConcat(front, marker + end);
    assert front + (marker + end) == front + marker + end;
    BareStrips(front);
    BareStrips(end);
    FrontMarkerStrips(marker, end);
  }

  lemma FrontMarkerStrips(marker: string, end: string)
    requires marker != "" && MarkerLength(marker + end) == |marker|
    ensures StripMarkers(marker + end) == StripMarkers(end)
  {
    hide MarkerLength;
    assert (marker + end)[|marker|..] == end;
    assert FrontText(marker + end) == "" && "" + StripMarkers(end) == StripMarkers(end);
  }

  lemma BareCandidate(lang: Language, piece: string, clean: string)
    requires StripMarkers(piece) == clean && Bare(clean) && clean != "" && Trim(clean) == clean
    requires clean !in HOST_STRINGS && !lang.refusal(clean)
    ensures PieceCandidates(lang, piece) == [clean] && NoMarkers(clean)
  {
    hide StripMarkers, Trim, QuotedSpans, SentencesFrom, IndexOf, NoMarkers, Bare;
    BareReads("", clean);
    assert "" + clean == clean;
    assert TrimAll([clean]) == [clean];
    assert !SentenceSignalsInsufficientEvidence(lang, piece);
    assert SentenceSpans(clean) == [clean];
    assert AllSentenceSpans([clean]) == [clean];
    assert Candidates(clean) == [clean];
  }

  lemma TwoPieces(front: string, back: string)
    requires NoBreaks(front) && OpenEnd(front) && OpenStart(back) && NoBreaks(back)
    ensures SplitBreaks(front + BLANK_LINE + back) == [front, back]
  {
    hide SplitFrom, NoBreaks, OpenEnd, OpenStart;
    SplitNoBreaks("", back);
    assert "" + back == back && "" + front == front;
    SplitAtBlankLine("", front, back);
    assert [front] + [back] == [front, back];
  }

  lemma DraftSplits()
    ensures SplitBreaks(DRAFT) == ["x", PIECE]
    ensures StripMarkers(PIECE) == CLEAN && MarkerNumbers(PIECE) == [1]
  {
    hide StripMarkers, SplitFrom, NoBreaks, MarkerNumbers, OpenEnd, OpenStart;
    PieceUnbroken();
    OpenEnds();
    TwoPieces("x", PIECE);
    PieceReads();
  }

  lemma PieceReads()
    ensures StripMarkers(PIECE) == CLEAN && MarkerNumbers(PIECE) == [1]
  {
    hide StripMarkers, MarkerNumbers;
    var front, end := "a b\n", "\nc";
    OneStripped(front, end);
    OneCited(front, end);
    assert PIECE == front + "[1]" + end && CLEAN == front + end;
  }

  lemma OneStripped(front: string, end: string)
    requires Bare(front) && Bare(end)
    ensures StripMarkers(front + "[1]" + end) == front + end
  {
    hide Bare, StripMarkers;
    var s := "[1]" + end;
    assert s[0] == '[' && s[1] == '1' && s[2] == ']' && MarkerLength(s) == 3;
    MarkerStrips(front, "[1]", end);
  }

  lemma BareCitesNothing(s: string)
    requires Bare(s)
    ensures MarkerNumbers(s) == []
  {
    hide NoMarkers, Bare, MarkerNumbers;
    BareReads("", s);
    NoMarkersRead(s);
  }

  lemma OneCited(front: string, end: string)
    requires Bare(front) && Bare(end)
    ensures MarkerNumbers(front + "[1]" + end) == [1]
  {
    hide MarkerNumbers, Bare;
    MarkersConcat(front, "[1]" + end);
    assert front + ("[1]" + end) == front + "[1]" + end;
    BareCitesNothing(front);
    BareCitesNothing(end);
    OneThenEnd(end);
    var none: seq<nat> := [];
    assert none + [1] == [1];
  }

  lemma OneThenEnd(end: string)
    requires MarkerNumbers(end) == []
    ensures MarkerNumbers("[1]" + end) == [1]
  {
    var s := "[1]" + end;
    assert s[0] == '[' && s[1] == '1' && s[2] == ']' && MarkerLength(s) == 3;
    assert s[1..2] == "1" && s[3..] == end;
    LabelRoundTrip(1);
    assert ShortNumber("1") == Some(1);
    assert FrontNumber(s) == [1];
    assert [1] + MarkerNumbers(end) == [1];
  }

  lemma OpenEnds()
    ensures NoBreaks("x") && OpenEnd("x") && OpenStart(PIECE)
  {
    assert !IsSpace('x') && !IsSpace(PIECE[0]);
  }

  /** Every newline is followed by text. */
  predicate SingleNewlines(s: string) { forall i :: 0 <= i < |s| - 1 && s[i] == '\n' ==> !IsSpace(s[i + 1]) }

  lemma {:induction false} SingleNewlinesUnbroken(s: string)
    requires SingleNewlines(s)
    ensures NoBreaks(s)
    decreases |s|
  {
    hide IsSpace;
    if s != "" {
      assert forall i :: 0 <= i < |s| - 1 ==> s[1..][i] == s[i + 1];
      SingleNewlinesUnbroken(s[1..]);
      assert s[0] == '\n' && |s| > 1 ==> SpaceRun(s[1..]) == 0;
    }
  }

  lemma PieceUnbroken()
    ensures NoBreaks(PIECE)
  {
    hide NoBreaks;
    SingleNewlinesUnbroken(PIECE);
  }

  lemma TwoCandidates(lang: Language, p: string, q: string, a: string, b: string)
    requires PieceCandidates(lang, p) == [a] && PieceCandidates(lang, q) == [b]
    ensures DraftCandidates(lang, [p, q]) == [a, b]
  {
    hide PieceCandidates;
    var none: seq<string> := [];
    assert [p, q][1..] == [q] && [q][1..] == none;
    assert DraftCandidates(lang, [q]) == [b] + DraftCandidates(lang, none) == [b];
    assert [a] + [b] == [a, b];
  }

  lemma DraftHasTwoCandidates()
    ensures DraftCandidates(LANG, SplitBreaks(DRAFT)) == ["x", CLEAN]
    ensures Clean("x") == "x" && Clean(CLEAN) == CLEAN && CLEAN != ""
    ensures NoMarkers(CLEAN) && Sentences(CLEAN) == [CLEAN]
  {
    hide SplitFrom, StripMarkers, Trim, PieceCandidates, DraftCandidates, SentencesFrom, NoMarkers, Bare, HOST_STRINGS,
      Clean, MarkerNumbers;
    DraftSplits();
    CleanIsBare();
    CleanIsClean();
    MultilineIsNoHost(CLEAN);
    BareCandidate(LANG, PIECE, CLEAN);
    OtherPiece();
    BareReads("", CLEAN);
    assert "" + CLEAN == CLEAN;
    TwoCandidates(LANG, "x", PIECE, "x", CLEAN);
  }

  lemma OtherPiece()
    ensures PieceCandidates(LANG, "x") == ["x"] && Trim("x") == "x" && Clean("x") == "x"
    ensures StripMarkers("x") == "x" && MarkerNumbers("x") == []
    ensures Sentences("x") == ["x"]
  {
    hide StripMarkers, Trim, MarkerNumbers, NoMarkers, SentencesFrom;
    TrimTight("x");
    assert DropFront("x") == "x" && DropBack("x") == "x";
    BareReads("", "x");
    assert "" + "x" == "x";
    NoMarkersRead("x");
    assert "x" !in HOST_STRINGS by { LetterIsNoHost(); }
    BareCandidate(LANG, "x", "x");
  }

  lemma LetterIsNoHost()
    ensures "x" !in HOST_STRINGS
  {
    HostStringsDiffer();
    assert |"x"| == 1;
  }

  lemma CleanIsBare()
    ensures Bare(CLEAN)
  {
  }

  lemma CleanIsClean()
    ensures Trim(CLEAN) == CLEAN && Clean(CLEAN) == CLEAN
  {
    hide Trim;
    TrimTight(CLEAN);
    assert CLEAN[0] == 'a' && CLEAN[|CLEAN| - 1] == 'c';
    assert DropFront(CLEAN) == CLEAN && DropBack(CLEAN) == CLEAN;
  }

  lemma CleanIsBroken()
    ensures !NoBreaks(CLEAN)
  {
    assert MatchBreak("\n\nc") > 0;
  }

  lemma MultilineIsNoHost(text: string)
    requires '\n' in text
    ensures text !in HOST_STRINGS
  {
    hide HOST_STRINGS;
    if text in HOST_STRINGS {
      HostStringsAreOneLine(text);
    }
  }

  lemma {:induction false} PlainLower(s: string)
    ensures Lower(Plain(), s) == s
  {
    if s != "" {
      PlainLower(s[1..]);
    }
  }

  /** One word of a single letter. */
  lemma LetterThen(c: char, rest: string)
    requires 'a' <= c <= 'z' && (rest == "" || !Plain().isWord(rest[0]))
    ensures WordsFrom(Plain(), "", [c] + rest)
         == [[c]] + (if rest == "" then [] else WordsFrom(Plain(), "", rest[1..]))
  {
    assert ([c] + rest)[1..] == rest && "" + [c] == [c];
    assert WordsFrom(Plain(), "", [c] + rest) == WordsFrom(Plain(), [c], rest);
    assert rest == "" ==> [[c]] + [] == [[c]];
  }

  lemma WordsOfBoth()
    ensures Words(Plain(), CLEAN) == ["a", "b", "c"] == Words(Plain(), "a b c")
  {
    hide WordsFrom;
    PlainLower(CLEAN);
    PlainLower("a b c");
    LetterThen('c', "");
    LetterThen('b', " c");
    LetterThen('a', " b c");
    SpaceThen("\nc");
    LetterThen('b', "\n\nc");
    LetterThen('a', " b\n\nc");
    assert ['c'] + "" == "c" && ['b'] + " c" == "b c" && ['a'] + " b c" == "a b c";
    assert ['b'] + "\n\nc" == "b\n\nc" && ['a'] + " b\n\nc" == CLEAN;
  }

  lemma SpaceThen(rest: string)
    requires rest != "" && !Plain().isWord(rest[0])
    ensures WordsFrom(Plain(), "", rest) == WordsFrom(Plain(), "", rest[1..])
  {
    var none: seq<string> := [];
    assert Finished("") == none && none + WordsFrom(Plain(), "", rest[1..]) == WordsFrom(Plain(), "", rest[1..]);
  }

  lemma CleanIsSupported()
    ensures Supported(LANG.script, CLEAN, LEDGER.entries)
  {
    hide Words, SplitFrom, SentencesFrom, DraftCandidates, MatchBreak, Includes, Clean, SpaceFields, FieldCount, Join;
    DraftHasTwoCandidates();
    WordsOfBoth();
    var claim := Join(["a", "b", "c"], " ");
    ThreeFields();
    assert NormalizeAll(Plain(), [CLEAN]) == [claim];
    assert ClaimSentences(Plain(), CLEAN) == [claim];
    IncludesItself(claim);
    assert PassageSupports(Plain(), claim, "a b c");
    assert TextSupportedByPassages(Plain(), CLEAN, ["a b c"]);
    var sorted := SortByNumber(LEDGER.entries);
    assert sorted[0] in sorted && sorted[0].number in SupportingLabels(Plain(), CLEAN, sorted);
  }

  /** A character, white space, then the rest. */
  lemma FieldThen(c: char, gap: string, rest: string)
    requires !IsSpace(c) && gap != "" && Blank(gap) && rest != "" && !IsSpace(rest[0])
    ensures SpaceFields([c] + gap + rest) == 1 + SpaceFields(rest)
  {
    hide IsSpace, Blank;
    var s := [c] + gap + rest;
    assert s[1..] == gap + rest && (gap + rest)[0] == gap[0];
    SpaceRunUnique(gap, rest);
    assert (gap + rest)[|gap|..] == rest;
    assert IsSpace(gap[0]) by { BlankStart(gap); }
  }

  lemma BlankStart(gap: string)
    requires Blank(gap) && gap != ""
    ensures IsSpace(gap[0])
  {
  }

  lemma ThreeFields()
    ensures SpaceFields(CLEAN) == 3
    ensures Join(["a", "b", "c"], " ") == "a b c" && FieldCount("a b c") == 3
  {
    hide SpaceFields, FieldCount, Join;
    FieldThen('b', "\n\n", "c");
    FieldThen('a', " ", "b\n\nc");
    assert ['b'] + "\n\n" + "c" == "b\n\nc" && ['a'] + " " + "b\n\nc" == CLEAN;
    assert SpaceFields("c") == 1 by { OneField(); }
    ThreeJoined();
  }

  lemma OneField()
    ensures SpaceFields("c") == 1
  {
  }

  lemma ThreeJoined()
    ensures Join(["a", "b", "c"], " ") == "a b c" && FieldCount("a b c") == 3
  {
    assert ["a", "b", "c"][1..] == ["b", "c"] && ["b", "c"][1..] == ["c"];
  }

  /** A single word is no claim, whatever the passages. */
  lemma OtherIsUnsupported(passages: seq<string>)
    ensures !TextSupportedByPassages(Plain(), "x", passages) && SpaceFields("x") == 1
  {
    hide SentencesFrom, WordsFrom;
    OtherPiece();
    PlainLower("x");
    LetterThen('x', "");
    assert ['x'] + "" == "x" && Words(Plain(), "x") == ["x"];
    assert NormalizeAll(Plain(), ["x"]) == ["x"];
    assert "x" in ClaimSentences(Plain(), "x");
    assert FieldCount("x") == 1;
  }

  // ---- the passes on that draft ----

  lemma DraftIsInvalid()
    ensures !MarkersValid(LANG.script, DRAFT, LEDGER)
  {
    hide SplitFrom, Trim, MarkerNumbers, StripMarkers;
    DraftSplits();
    OtherPiece();
    assert ParagraphsOf(DRAFT)[0] == "x";
    assert "x" in ParagraphsOf(DRAFT) && !ParagraphValid(LANG.script, "x", LEDGER.entries);
  }

  lemma NothingAdded(script: Script, front: string, back: string, ledger: Ledger)
    requires SplitBreaks(front + BLANK_LINE + back) == [front, back] && !ledger.labelConflict
    requires Trim(front) == front && Trim(back) == back
    requires forall e | e in ledger.entries && EntryStates(script, e, ParagraphSentences(front)) ::
               e.number in MarkerNumbers(front)
    requires forall e | e in ledger.entries && EntryStates(script, e, ParagraphSentences(back)) ::
               e.number in MarkerNumbers(back)
    ensures CompleteProseCitations(script, front + BLANK_LINE + back, ledger) == front + BLANK_LINE + back
  {
    hide SplitFrom, Trim, MarkerNumbers, Additions, ParagraphSentences, EntryStates;
    var sorted := SortByNumber(ledger.entries);
    NothingToAdd(script, sorted, MarkerNumbers(front), ParagraphSentences(front));
    NothingToAdd(script, sorted, MarkerNumbers(back), ParagraphSentences(back));
    var pieces := [front, back];
    assert CompletePieces(script, pieces, ledger.entries) == pieces;
    assert pieces[1..] == [back];
    assert Join([back], BLANK_LINE) == back && Join(pieces, BLANK_LINE) == front + BLANK_LINE + back;
  }

  lemma CompletionAddsNothing()
    ensures CompleteProseCitations(LANG.script, DRAFT, LEDGER) == DRAFT
  {
    hide SplitFrom, Trim, MarkerNumbers, StripMarkers, SentencesFrom, CompleteProseCitations;
    DraftSplits();
    OtherPiece();
    PieceIsTight();
    forall e | e in LEDGER.entries ensures !EntryStates(LANG.script, e, ParagraphSentences("x")) {
      OtherIsUnsupported(PassagesOf(e));
      assert ParagraphSentences("x") == ["x"] by { assert TrimAll(["x"]) == ["x"]; }
    }
    NothingAdded(LANG.script, "x", PIECE, LEDGER);
  }

  lemma PieceIsTight()
    ensures Trim(PIECE) == PIECE
  {
    hide Trim;
    TrimTight(PIECE);
  }

  /** One entry gives its label to whatever it supports. */
  lemma OnlyLabel(script: Script, clean: string, entries: seq<Entry>)
    requires |entries| == 1 && SupportingLabels(script, clean, SortByNumber(entries)) != []
    ensures SupportingLabels(script, clean, SortByNumber(entries)) == [entries[0].number]
  {
    hide TextSupportedByPassages;
    var sorted := SortByNumber(entries);
    assert sorted[0] in sorted && sorted[0] == entries[0];
    var none: seq<Entry> := [];
    assert sorted[1..] == none && SupportingLabels(script, clean, none) == [];
  }

  lemma LabelOne()
    ensures LabelsText([1]) == "[1]"
  {
    var empty: seq<nat> := [];
    assert [1][1..] == empty && LabelsText([1]) == LabelText(1) + LabelsText(empty);
    assert LabelText(1) == "[1]";
  }

  /** Every quote of the draft is the broken one, under label 1. */
  lemma QuotesAreBroken(q: Quote)
    requires q in DraftQuotes(LANG, DRAFT, LEDGER) && Validated(LANG.script, q, LEDGER.entries)
    ensures q.clean == CLEAN && QuoteParagraph(q) == CLEAN + "[1]"
  {
    hide QuotesFrom, DraftCandidates, SplitFrom, Clean, NormalizeSupportText, TextSupportedByPassages, SpaceFields,
      SupportingLabels, SortByNumber, LabelsText, DraftQuotes;
    QuoteIsCandidate(LANG, DRAFT, LEDGER, q);
    DraftHasTwoCandidates();
    OtherIsUnsupported([]);
    OnlyLabel(LANG.script, q.clean, LEDGER.entries);
    LabelOne();
  }

  /** Whatever is salvaged from the draft is this one paragraph, and it does not validate. */
  lemma BrokenDraftSalvagesInvalid(salvaged: Option<string>, kept: seq<Quote>)
    requires Salvaged(LANG, DRAFT, LEDGER, salvaged, kept)
    ensures !SolidDraft(DRAFT) && salvaged == Some(CLEAN + "[1]")
    ensures !MarkersValid(LANG.script, CLEAN + "[1]", LEDGER)
  {
    hide Validated, QuotesFrom, DraftCandidates, SplitFrom, NoBreaks, NoMarkers, MarkersValid, Clean, StripMarkers,
      Supported, Includes, QuoteParagraph;
    DraftSplits();
    CleanIsBroken();
    assert ["x", PIECE][1] == PIECE && PIECE in SplitBreaks(DRAFT);
    DraftHasTwoCandidates();
    CleanIsSupported();
    var none: seq<Quote> := [];
    assert ["x", CLEAN][1] == CLEAN && CLEAN in ["x", CLEAN];
    QuotesAreSupportedCandidates(LANG.script, none, ["x", CLEAN], LEDGER.entries, CLEAN);
    assert Names(DraftQuotes(LANG, DRAFT, LEDGER), CLEAN);
    KeptIsValidated(LANG, DRAFT, LEDGER, salvaged, kept);
    forall q | q in kept ensures q.clean == CLEAN && QuoteParagraph(q) == CLEAN + "[1]" {
      QuotesAreBroken(q);
    }
    assert kept[0] in kept;
    SalvagedValidWhenSolid(LANG.script, kept, LEDGER);
    OnlyOneKept(kept);
    assert QuoteParagraphs(kept) == [CLEAN + "[1]"];
  }

  lemma OnlyOneKept(kept: seq<Quote>)
    requires Ordered(kept) && KeysApart(kept) && kept != []
    requires forall q | q in kept :: q.clean == CLEAN && Validated(LANG.script, q, LEDGER.entries)
    ensures |kept| == 1
  {
    hide Includes, NormalizeSupportText, SupportingLabels, SpaceFields, Tight;
    if |kept| > 1 {
      assert kept[0] in kept && kept[1] in kept && kept[0].order < kept[1].order;
      IncludesItself(kept[0].key);
      assert false;
    }
  }

  /** A run whose two ledgers hold that evidence and which may answer. */
  ghost predicate AnswersFromLedger(t: Turn) {
    t.lang == LANG && t.rebuilt == t.live == LEDGER && t.hasSearch && !t.failed && !t.capped
  }

  lemma BearsAnswer(text: string)
    requires text != "" && !IsSpace(text[0]) && !IsSpace(text[|text| - 1]) && '\n' in text
    ensures AnswerBearing(text)
  {
    hide Trim, HOST_STRINGS, IsSpace;
    TrimTight(text);
    MultilineIsNoHost(text);
    assert '\n' !in EMPTY;
  }

  /**
    * The whole chain on that draft: it does not validate, completion changes nothing, its quotes may be salvaged, and
    * what is salvaged is discarded, so the invalid-citation sentence is left.
    */
  lemma SalvageIsDiscarded(t: Turn, salvaged: Option<string>, kept: seq<Quote>)
    requires AnswersFromLedger(t) && Salvaged(t.lang, DRAFT, t.live, salvaged, kept)
    ensures Enforce(t, false, DRAFT) == BRAIN_INVALID_CITATION
    ensures CompleteProseCitations(t.lang.script, DRAFT, t.live) == DRAFT && Salvageable(t, DRAFT)
    ensures salvaged.Some? && Enforce(t, false, salvaged.value) == BRAIN_INVALID_CITATION != salvaged.value
    ensures AllBear(t, DRAFT, salvaged) && FirstThatStands(t, DRAFT, salvaged) == BRAIN_INVALID_CITATION
  {
    hide MarkersValid, CompleteProseCitations, Salvaged, StripMarkers, MarkerNumbers, Enforce, AnswerBearing,
      HOST_STRINGS, Trim;
    DraftIsInvalid();
    CompletionAddsNothing();
    BrokenDraftSalvagesInvalid(salvaged, kept);
    assert DRAFT[1] == '\n' && (CLEAN + "[1]")[3] == '\n';
    BearsAnswer(DRAFT);
    BearsAnswer(CLEAN + "[1]");
    StandsOrNot(t, DRAFT);
    StandsOrNot(t, CLEAN + "[1]");
    DraftMaySalvage(t);
    HostStringsAreHosts();
  }

  lemma DraftMaySalvage(t: Turn)
    requires AnswersFromLedger(t)
    ensures Salvageable(t, DRAFT) && !ModelSignalsRefusal(t.lang, DRAFT)
  {
    hide Trim, HOST_STRINGS, MarkerNumbers, SentenceSignalsInsufficientEvidence;
    DraftTightAndCited();
    MultilineIsNoHost(DRAFT);
  }

  lemma DraftTightAndCited()
    ensures Trim(DRAFT) == DRAFT && '\n' in DRAFT && MarkerNumbers(DRAFT) == [1]
  {
    hide Trim, MarkerNumbers;
    TrimTight(DRAFT);
    assert DRAFT[1] == '\n';
    OneCited("x\n\na b\n", "\nc");
    assert DRAFT == "x\n\na b\n" + "[1]" + "\nc";
  }
}
