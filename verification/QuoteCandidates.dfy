/** Which spans of a draft may be quoted: the candidates that salvage reads, and the ones it keeps. */
module QuoteCandidates {
  import opened Wrappers
  import opened Text
  import opened Paragraphs
  import opened Support
  import opened Evidence
  import opened Markers
  import opened Grounding
  import opened HostStrings
  import opened Salvage

  // ---- quoted runs ----

  predicate OpensQuote(c: char) { c == '"' || c == '\U{201C}' }

  predicate ClosesQuote(c: char) { c == '"' || c == '\U{201D}' }

  lemma {:induction false} QuoteRunStops(body: string, close: char, rest: string)
    requires (forall c | c in body :: !ClosesQuote(c)) && ClosesQuote(close)
    ensures QuoteRun(body + [close] + rest) == |body|
    decreases |body|
  {
    var s := body + [close] + rest;
    if body != "" {
      assert body[0] in body && forall c | c in body[1..] :: c in body;
      assert s[1..] == body[1..] + [close] + rest;
      QuoteRunStops(body[1..], close, rest);
    }
  }

  lemma {:induction false} NoQuoteBefore(front: string, s: string)
    requires forall c | c in front :: !OpensQuote(c)
    ensures QuotedSpans(front + s) == QuotedSpans(s)
    decreases |front|
  {
    if front == "" {
      assert front + s == s;
    } else {
      assert front[0] in front && forall c | c in front[1..] :: c in front;
      assert (front + s)[1..] == front[1..] + s;
      NoQuoteBefore(front[1..], s);
    }
  }

  /**
    * A run of ten characters or more between an opening and the next closing quotation mark is a candidate, and reading
    * goes on behind it; behind a shorter run reading goes on right after its opening mark.
    */
  lemma QuotedRunIsCandidate(front: string, open: char, body: string, close: char, rest: string)
    requires (forall c | c in front :: !OpensQuote(c)) && OpensQuote(open)
    requires (forall c | c in body :: !ClosesQuote(c)) && ClosesQuote(close)
    ensures QuotedSpans(front + [open] + body + [close] + rest)
         == if |body| >= 10 then [body] + QuotedSpans(rest) else QuotedSpans(body + [close] + rest)
  {
    hide OpensQuote, ClosesQuote, QuotedSpans;
    var tail := body + [close] + rest;
    NoQuoteBefore(front, [open] + tail);
    assert front + ([open] + tail) == front + [open] + body + [close] + rest;
    QuoteRunStops(body, close, rest);
    QuoteOpens(open, tail);
    assert tail[..|body|] == body && tail[|body| + 1..] == rest;
  }

  lemma QuoteOpens(open: char, tail: string)
    requires OpensQuote(open) && QuoteRun(tail) < |tail|
    ensures var n := QuoteRun(tail);
            QuotedSpans([open] + tail)
            == if n >= 10 then [tail[..n]] + QuotedSpans(tail[n + 1..]) else QuotedSpans(tail)
  {
    hide QuoteRun;
    var s, n := [open] + tail, QuoteRun(tail);
    hide QuotedSpans;
    assert s[0] == open && s[1..] == tail;
    if n >= 10 {
      LongQuote(s, n);
      assert s[1..n + 1] == tail[..n] && s[n + 2..] == tail[n + 1..];
    } else {
      ShortQuote(s, n);
    }
  }

  lemma LongQuote(s: string, n: nat)
    requires s != "" && OpensQuote(s[0]) && n == QuoteRun(s[1..]) && n >= 10 && n + 1 < |s|
    ensures QuotedSpans(s) == [s[1..n + 1]] + QuotedSpans(s[n + 2..])
  {
    hide QuoteRun;
  }

  lemma ShortQuote(s: string, n: nat)
    requires s != "" && OpensQuote(s[0]) && n == QuoteRun(s[1..]) && !(n >= 10 && n + 1 < |s|)
    ensures QuotedSpans(s) == QuotedSpans(s[1..])
  {
    hide QuoteRun;
  }

  lemma NoQuoteNoCandidate(s: string)
    requires forall c | c in s :: !OpensQuote(c)
    ensures QuotedSpans(s) == []
  {
    assert s + "" == s;
    NoQuoteBefore(s, "");
  }

  // ---- what follows a head ----

  lemma {:induction false} IndexIsFirst(head: string, c: char, rest: string)
    requires c !in head
    ensures IndexOf(head + [c] + rest, c) == |head|
    decreases |head|
  {
    if head != "" {
      assert (head + [c] + rest)[1..] == head[1..] + [c] + rest;
      IndexIsFirst(head[1..], c, rest);
    }
  }

  predicate IsMark(c: char) { c == '*' || c == '"' || c == '\U{201C}' || c == '\U{201D}' }

  lemma {:induction false} WithoutKeeps(s: string, drop: string)
    requires forall c | c in s :: c !in drop
    ensures Without(s, drop) == s
    decreases |s|
  {
    if s != "" {
      assert s[0] in s && forall c | c in s[1..] :: c in s;
      WithoutKeeps(s[1..], drop);
    }
  }

  /** Behind a label of up to four fields without a digit, what follows the colon is a candidate of its own. */
  lemma RemainderIsCandidate(head: string, rest: string)
    requires ':' !in head && rest != "" && forall c | c in head :: !IsMark(c)
    ensures SentenceSpans(head + ":" + rest)
         == if SpaceFields(Trim(head)) <= 4 && !HasDigit(Trim(head)) then [head + ":" + rest, Trim(rest)]
            else [head + ":" + rest]
  {
    hide Trim, SpaceFields, HasDigit;
    var s := head + ":" + rest;
    IndexIsFirst(head, ':', rest);
    assert s == head + [':'] + rest && s[..|head|] == head && s[|head| + 1..] == rest;
    WithoutKeeps(head, "*\"\U{201C}\U{201D}");
  }

  lemma NoColonNoRemainder(sentence: string)
    requires ':' !in sentence
    ensures SentenceSpans(sentence) == [sentence]
  {
    NeverFound(sentence, ':');
  }

  lemma {:induction false} NeverFound(s: string, c: char)
    requires c !in s
    ensures IndexOf(s, c) == |s|
    decreases |s|
  {
    if s != "" {
      assert s[0] in s && forall x | x in s[1..] :: x in s;
      NeverFound(s[1..], c);
    }
  }

  // ---- cleaning ----

  predicate Peels(s: string, marks: string) { forall c | c in s :: c in marks || IsSpace(c) }

  lemma {:induction false} FrontPeeled(s: string) returns (a: string)
    ensures s == a + DropFront(s) && Peels(a, OPENING)
    ensures DropFront(s) != "" ==> DropFront(s)[0] !in OPENING && !IsSpace(DropFront(s)[0])
    decreases |s|
  {
    hide IsSpace, OPENING;
    a := "";
    if s != "" && (s[0] in OPENING || IsSpace(s[0])) {
      var rest := FrontPeeled(s[1..]);
      a := [s[0]] + rest;
      assert s == [s[0]] + s[1..];
      assert forall c :: c in a <==> c == s[0] || c in rest;
    }
  }

  lemma {:induction false} BackPeeled(s: string) returns (b: string)
    ensures s == DropBack(s) + b && Peels(b, CLOSING)
    ensures DropBack(s) != "" ==>
              && DropBack(s)[|DropBack(s)| - 1] !in CLOSING && !IsSpace(DropBack(s)[|DropBack(s)| - 1])
              && DropBack(s)[0] == s[0]
    decreases |s|
  {
    hide IsSpace, CLOSING;
    b := "";
    if s != "" && (s[|s| - 1] in CLOSING || IsSpace(s[|s| - 1])) {
      var n := |s| - 1;
      var rest := BackPeeled(s[..n]);
      b := rest + [s[n]];
      assert s == s[..n] + [s[n]];
      assert DropBack(s) == DropBack(s[..n]);
      assert DropBack(s[..n]) + rest + [s[n]] == DropBack(s) + b;
      assert forall c :: c in b <==> c == s[n] || c in rest;
    }
  }

  /**
    * Cleaning takes opening marks and white space from the front and closing ones from the back, nothing else, and
    * leaves none there.
    */
  lemma CleanPeels(candidate: string) returns (a: string, b: string)
    ensures candidate == a + Clean(candidate) + b && Peels(a, OPENING) && Peels(b, CLOSING)
    ensures var clean := Clean(candidate);
            clean != "" ==>
              && clean[0] !in OPENING && !IsSpace(clean[0])
              && clean[|clean| - 1] !in CLOSING && !IsSpace(clean[|clean| - 1])
  {
    hide Trim, IsSpace, CLOSING, OPENING, Peels, DropFront, DropBack;
    a := FrontPeeled(candidate);
    b := BackPeeled(DropFront(candidate));
    var core := DropBack(DropFront(candidate));
    TrimTight(core);
  }

  // ---- the candidates of a draft ----

  lemma {:induction false} TrimAllHolds(pieces: seq<string>, x: string)
    ensures x in TrimAll(pieces) <==> x != "" && exists p | p in pieces :: Trim(p) == x
    decreases |pieces|
  {
    hide Trim;
    if pieces != [] {
      TrimAllHolds(pieces[1..], x);
      assert forall p :: p in pieces <==> p == pieces[0] || p in pieces[1..];
    }
  }

  lemma {:induction false} SpansHold(sentences: seq<string>, c: string)
    ensures c in AllSentenceSpans(sentences) <==> exists s | s in sentences :: c in SentenceSpans(s)
    decreases |sentences|
  {
    hide SentenceSpans;
    if sentences != [] {
      SpansHold(sentences[1..], c);
      assert forall s :: s in sentences <==> s == sentences[0] || s in sentences[1..];
    }
  }

  /** Neither the text nor any of its sentences is a host sentence or reads as a refusal. */
  predicate Declines(lang: Language, text: string) {
    || text in HOST_STRINGS
    || exists s | s in Sentences(text) && Trim(s) != "" :: Trim(s) in HOST_STRINGS || lang.refusal(Trim(s))
  }

  /** A piece donates quotes exactly when it has text beside its markers and nothing in it declines. */
  lemma DonatesExactly(lang: Language, piece: string)
    ensures Donates(lang, piece) <==> Trim(StripMarkers(piece)) != "" && !Declines(lang, Trim(StripMarkers(piece)))
  {
    hide Trim, StripMarkers, HOST_STRINGS, SentencesFrom, TrimAll;
    var text := Trim(StripMarkers(piece));
    forall x ensures x in TrimAll(Sentences(text)) <==> x != "" && exists p | p in Sentences(text) :: Trim(p) == x {
      TrimAllHolds(Sentences(text), x);
    }
    if s :| s in Sentences(text) && Trim(s) != "" && (Trim(s) in HOST_STRINGS || lang.refusal(Trim(s))) {
      assert Trim(s) in TrimAll(Sentences(text));
    }
  }

  /** A candidate of a text: a quoted run, a sentence, or what follows the label of a sentence. */
  lemma CandidatesExactly(text: string, c: string)
    ensures c in Candidates(text)
       <==> c in QuotedSpans(text) || exists s | s in Sentences(text) && Trim(s) != "" :: c in SentenceSpans(Trim(s))
  {
    hide Trim, QuotedSpans, SentencesFrom, TrimAll, SentenceSpans;
    SpansHold(TrimAll(Sentences(text)), c);
    forall x ensures x in TrimAll(Sentences(text)) <==> x != "" && exists p | p in Sentences(text) :: Trim(p) == x {
      TrimAllHolds(Sentences(text), x);
    }
    if s :| s in Sentences(text) && Trim(s) != "" && c in SentenceSpans(Trim(s)) {
      assert Trim(s) in TrimAll(Sentences(text));
    }
  }

  lemma {:induction false} DraftCandidatesHold(lang: Language, pieces: seq<string>, c: string)
    ensures c in DraftCandidates(lang, pieces)
       <==> exists p | p in pieces :: Donates(lang, p) && c in Candidates(Trim(StripMarkers(p)))
    decreases |pieces|
  {
    hide Donates, Candidates, Trim, StripMarkers;
    if pieces != [] {
      DraftCandidatesHold(lang, pieces[1..], c);
      assert forall p :: p in pieces <==> p == pieces[0] || p in pieces[1..];
    }
  }

  /**
    * What a draft is quoted for: a cleaned candidate of a donating piece, of three fields or more, that the text of one
    * entry supports; and every such candidate.
    */
  lemma QuotedExactly(lang: Language, text: string, ledger: Ledger, clean: string)
    ensures Names(DraftQuotes(lang, text, ledger), clean)
       <==> && text != "" && !ledger.labelConflict && clean != "" && SpaceFields(clean) >= 3
            && (exists e | e in ledger.entries :: TextSupportedByPassages(lang.script, clean, [e.identity.text]))
            && exists p, c | p in SplitBreaks(text) && c in Candidates(Trim(StripMarkers(p))) ::
                 Donates(lang, p) && Clean(c) == clean
  {
    hide Donates, Candidates, Trim, StripMarkers, Clean, SplitFrom, QuotesFrom, DraftCandidates, SpaceFields,
      TextSupportedByPassages, SortByNumber;
    var pieces := SplitBreaks(text);
    var none: seq<Quote> := [];
    QuotesAreSupportedCandidates(lang.script, none, DraftCandidates(lang, pieces), ledger.entries, clean);
    SupportedExactly(lang.script, clean, ledger.entries);
    forall c
      ensures c in DraftCandidates(lang, pieces)
         <==> exists p | p in pieces :: Donates(lang, p) && c in Candidates(Trim(StripMarkers(p)))
    {
      DraftCandidatesHold(lang, pieces, c);
    }
  }

  lemma SupportedExactly(script: Script, clean: string, entries: seq<Entry>)
    ensures Supported(script, clean, entries)
       <==> && clean != "" && SpaceFields(clean) >= 3
            && exists e | e in entries :: TextSupportedByPassages(script, clean, [e.identity.text])
  {
    hide SpaceFields, TextSupportedByPassages;
    var labels := SupportingLabels(script, clean, SortByNumber(entries));
    if labels != [] {
      assert labels[0] in labels;
    }
    if e :| e in entries && TextSupportedByPassages(script, clean, [e.identity.text]) {
      assert e in SortByNumber(entries) && e.number in labels;
    }
  }
}
