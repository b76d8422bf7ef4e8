/** Which drafts salvage to valid text. */
module SalvageDrafts {
  import opened Wrappers
  import opened Text
  import opened Paragraphs
  import opened Support
  import opened Evidence
  import opened Markers
  import opened Grounding
  import opened Salvage

  /** No blank line inside, and no marker. */
  predicate Solid(s: string) { NoBreaks(s) && NoMarkers(s) }

  // ---- parts of a text ----

  lemma SliceInside(s: string, i: nat, j: nat)
    requires i <= j <= |s|
    ensures Includes(s, s[i..j])
  {
    assert OccursAt(s, s[i..j], i);
  }

  lemma SuffixInside(s: string, i: nat)
    requires i <= |s|
    ensures Includes(s, s[i..])
  {
    assert s[i..|s|] == s[i..];
    SliceInside(s, i, |s|);
  }

  lemma InsideInside(s: string, t: string, u: string)
    requires Includes(s, t) && Includes(t, u)
    ensures Includes(s, u)
  {
    var i: nat :| i <= |s| && OccursAt(s, t, i);
    var j: nat :| j <= |t| && OccursAt(t, u, j);
    assert forall k | 0 <= k < |u| :: s[i + j + k] == t[j + k] == u[k];
    assert s[i + j..i + j + |u|] == u;
    assert OccursAt(s, u, i + j);
  }

  lemma {:induction false} SuffixSolid(s: string, i: nat)
    requires Solid(s) && i <= |s|
    ensures Solid(s[i..])
    decreases |s|
  {
    hide MatchBreak, MarkerLength;
    if i == 0 {
      assert s[0..] == s;
    } else {
      SuffixSolid(s[1..], i - 1);
      assert s[1..][i - 1..] == s[i..];
    }
  }

  lemma PartSolid(s: string, part: string)
    requires Solid(s) && Includes(s, part)
    ensures Solid(part)
  {
    hide NoBreaks, NoMarkers;
    var i: nat :| i <= |s| && OccursAt(s, part, i);
    SuffixSolid(s, i);
    assert s[i..] == part + s[i + |part|..];
    NoBreaksPrefix(part, s[i + |part|..]);
    NoMarkersPrefix(part, s[i + |part|..]);
  }

  lemma TrimInside(s: string)
    ensures Includes(s, Trim(s))
  {
    hide Trim, IsSpace;
    var lead, tail := TrimParts(s);
    assert s[|lead|..|lead| + |Trim(s)|] == Trim(s);
    SliceInside(s, |lead|, |lead| + |Trim(s)|);
  }

  lemma {:induction false} FrontInside(s: string)
    ensures Includes(s, DropFront(s))
    decreases |s|
  {
    hide IsSpace, Includes;
    IncludesItself(s);
    if s != "" {
      SuffixInside(s, 1);
      FrontInside(s[1..]);
      InsideInside(s, s[1..], DropFront(s[1..]));
    }
  }

  lemma {:induction false} BackInside(s: string)
    ensures Includes(s, DropBack(s))
    decreases |s|
  {
    hide IsSpace, Includes;
    IncludesItself(s);
    if s != "" {
      SliceInside(s, 0, |s| - 1);
      assert s[0..|s| - 1] == s[..|s| - 1];
      BackInside(s[..|s| - 1]);
      InsideInside(s, s[..|s| - 1], DropBack(s[..|s| - 1]));
    }
  }

  lemma CleanInside(s: string)
    ensures Includes(s, Clean(s))
  {
    hide Includes, DropFront, DropBack, Trim;
    FrontInside(s);
    BackInside(DropFront(s));
    TrimInside(DropBack(DropFront(s)));
    InsideInside(s, DropFront(s), DropBack(DropFront(s)));
    InsideInside(s, DropBack(DropFront(s)), Clean(s));
  }

  // ---- candidates are parts of the stripped piece ----

  lemma {:induction false} QuotedInside(s: string)
    ensures forall c | c in QuotedSpans(s) :: Includes(s, c)
    decreases |s|
  {
    hide Includes, IsQuoteMark;
    if s != "" {
      QuotedFrom(s, 1);
      var n := QuoteRun(s[1..]);
      if n >= 10 && n + 1 < |s| {
        SliceInside(s, 1, n + 1);
        QuotedFrom(s, n + 2);
      }
    }
  }

  lemma {:induction false} QuotedFrom(s: string, i: nat)
    requires 0 < i <= |s|
    ensures forall c | c in QuotedSpans(s[i..]) :: Includes(s, c)
    decreases |s|, i
  {
    hide Includes, QuotedSpans;
    QuotedInside(s[i..]);
    SuffixInside(s, i);
    forall c | c in QuotedSpans(s[i..]) ensures Includes(s, c) {
      InsideInside(s, s[i..], c);
    }
  }

  lemma {:induction false} SentencesInside(cur: string, s: string)
    ensures forall x | x in SentencesFrom(cur, s) :: Includes(cur + s, x)
    decreases |s|
  {
    hide Includes, IsSpace, SpaceRun, EndsSentence;
    if s == "" {
      IncludesItself(cur);
      assert cur + s == cur;
    } else if IsSpace(s[0]) && EndsSentence(cur) {
      var rest := s[SpaceRun(s)..];
      SentencesInside("", rest);
      SentenceThenRest(cur, s, SpaceRun(s));
      assert "" + rest == rest;
      forall x | x in SentencesFrom("", rest) ensures Includes(cur + s, x) {
        InsideInside(cur + s, rest, x);
      }
    } else {
      SentencesInside(cur + [s[0]], s[1..]);
      assert cur + [s[0]] + s[1..] == cur + s;
    }
  }

  lemma SentenceThenRest(cur: string, s: string, n: nat)
    requires n <= |s|
    ensures Includes(cur + s, cur) && Includes(cur + s, s[n..])
  {
    hide Includes;
    SliceInside(cur + s, 0, |cur|);
    SuffixInside(cur + s, |cur| + n);
    assert (cur + s)[0..|cur|] == cur && (cur + s)[|cur| + n..] == s[n..];
  }

  lemma {:induction false} TrimmedInside(s: string, pieces: seq<string>)
    requires forall p | p in pieces :: Includes(s, p)
    ensures forall p | p in TrimAll(pieces) :: Includes(s, p)
    decreases |pieces|
  {
    hide Includes, Trim;
    if pieces != [] {
      assert pieces[0] in pieces && forall p | p in pieces[1..] :: p in pieces;
      TrimInside(pieces[0]);
      InsideInside(s, pieces[0], Trim(pieces[0]));
      TrimmedInside(s, pieces[1..]);
    }
  }

  lemma SpansInside(sentence: string)
    ensures forall c | c in SentenceSpans(sentence) :: Includes(sentence, c)
  {
    hide Includes, Trim, Without, SpaceFields, HasDigit;
    IncludesItself(sentence);
    var colon := IndexOf(sentence, ':');
    if colon + 1 < |sentence| {
      SuffixInside(sentence, colon + 1);
      TrimInside(sentence[colon + 1..]);
      InsideInside(sentence, sentence[colon + 1..], Trim(sentence[colon + 1..]));
    }
  }

  lemma {:induction false} AllSpansInside(s: string, sentences: seq<string>)
    requires forall x | x in sentences :: Includes(s, x)
    ensures forall c | c in AllSentenceSpans(sentences) :: Includes(s, c)
    decreases |sentences|
  {
    hide Includes, SentenceSpans;
    if sentences != [] {
      assert sentences[0] in sentences && forall p | p in sentences[1..] :: p in sentences;
      SpansInside(sentences[0]);
      forall c | c in SentenceSpans(sentences[0]) ensures Includes(s, c) {
        InsideInside(s, sentences[0], c);
      }
      AllSpansInside(s, sentences[1..]);
    }
  }

  /** Every candidate of a text, cleaned, is a part of it. */
  lemma CandidatesInside(s: string)
    ensures forall c | c in Candidates(s) :: Includes(s, Clean(c))
  {
    hide Includes, QuotedSpans, SentencesFrom, TrimAll, AllSentenceSpans, Clean;
    QuotedInside(s);
    SentencesInside("", s);
    assert "" + s == s;
    TrimmedInside(s, Sentences(s));
    AllSpansInside(s, TrimAll(Sentences(s)));
    forall c | c in Candidates(s) ensures Includes(s, Clean(c)) {
      CleanInside(c);
      InsideInside(s, c, Clean(c));
    }
  }

  // ---- drafts ----

  /** Stripped of its markers, no piece of the draft has a blank line inside or a marker. */
  predicate SolidDraft(text: string) { forall p | p in SplitBreaks(text) :: Solid(StripMarkers(p)) }

  /** No cleaned candidate of the draft has a blank line inside or a marker. */
  predicate SolidCandidates(lang: Language, pieces: seq<string>) {
    forall c | c in DraftCandidates(lang, pieces) :: Solid(Clean(c))
  }

  lemma {:induction false} SolidPieces(lang: Language, pieces: seq<string>)
    requires forall p | p in pieces :: Solid(StripMarkers(p))
    ensures SolidCandidates(lang, pieces)
    decreases |pieces|
  {
    hide Solid, StripMarkers, Candidates, Clean, Donates, Trim;
    if pieces != [] {
      assert pieces[0] in pieces && forall p | p in pieces[1..] :: p in pieces;
      SolidPieces(lang, pieces[1..]);
      var stripped := StripMarkers(pieces[0]);
      TrimInside(stripped);
      CandidatesInside(Trim(stripped));
      forall c | c in Candidates(Trim(stripped)) ensures Solid(Clean(c)) {
        InsideInside(stripped, Trim(stripped), Clean(c));
        PartSolid(stripped, Clean(c));
      }
    }
  }

  /** What is kept is validated, and something is kept when there is salvaged text. */
  lemma KeptIsValidated(lang: Language, text: string, ledger: Ledger, salvaged: Option<string>, kept: seq<Quote>)
    requires Salvaged(lang, text, ledger, salvaged, kept)
    ensures salvaged.Some? ==> kept != [] && text != "" && !ledger.labelConflict && ledger.entries != []
    ensures forall q | q in kept :: q in DraftQuotes(lang, text, ledger) && Validated(lang.script, q, ledger.entries)
  {
    hide Validated, QuotesFrom, DraftCandidates, SplitFrom, Includes, Ordered;
    var validated := DraftQuotes(lang, text, ledger);
    if validated != [] && |kept| < SALVAGE_MAX_PARAGRAPHS {
      assert Covered(validated[0], kept);
    }
  }

  lemma QuoteIsCandidate(lang: Language, text: string, ledger: Ledger, q: Quote)
    requires q in DraftQuotes(lang, text, ledger)
    ensures exists c | c in DraftCandidates(lang, SplitBreaks(text)) :: Clean(c) == q.clean
    ensures Supported(lang.script, q.clean, ledger.entries)
  {
    hide QuotesFrom, DraftCandidates, SplitFrom, Clean, Supported;
    var none: seq<Quote> := [];
    assert Names(DraftQuotes(lang, text, ledger), q.clean);
    QuotesAreSupportedCandidates(lang.script, none, DraftCandidates(lang, SplitBreaks(text)), ledger.entries, q.clean);
  }

  /** When no candidate has a blank line inside, whatever is salvaged validates. */
  lemma CandidatesDecide(lang: Language, text: string, ledger: Ledger, salvaged: Option<string>, kept: seq<Quote>)
    requires Salvaged(lang, text, ledger, salvaged, kept) && salvaged.Some?
    requires SolidCandidates(lang, SplitBreaks(text)) && PrintableLabels(ledger.entries)
             && DistinctNumbers(ledger.entries)
    ensures MarkersValid(lang.script, salvaged.value, ledger)
  {
    hide Validated, QuotesFrom, DraftCandidates, SplitFrom, NoBreaks, NoMarkers, MarkersValid, Clean, PrintableLabels,
      DistinctNumbers, DraftQuotes, QuoteParagraphs;
    KeptIsValidated(lang, text, ledger, salvaged, kept);
    forall q | q in kept ensures NoBreaks(q.clean) && NoMarkers(q.clean) {
      QuoteIsCandidate(lang, text, ledger, q);
    }
    SalvagedValidWhenSolid(lang.script, kept, ledger);
  }

  /**
    * A draft whose pieces, stripped of their markers, have neither a blank line inside nor a new marker: whatever is
    * salvaged from it validates, for every ledger.
    */
  lemma SolidDraftSalvagesValid(
    lang: Language, text: string, ledger: Ledger, salvaged: Option<string>, kept: seq<Quote>)
    requires Salvaged(lang, text, ledger, salvaged, kept) && salvaged.Some?
    requires SolidDraft(text) && PrintableLabels(ledger.entries) && DistinctNumbers(ledger.entries)
    ensures MarkersValid(lang.script, salvaged.value, ledger)
  {
    hide Salvaged, Solid, MarkersValid, SplitFrom, SolidCandidates;
    SolidPieces(lang, SplitBreaks(text));
    CandidatesDecide(lang, text, ledger, salvaged, kept);
  }
}
