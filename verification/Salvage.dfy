/** Rebuilding an invalid draft from the spans that copy evidence verbatim. */
module Salvage {
  import opened Wrappers
  import opened Sequences
  import opened Text
  import opened Paragraphs
  import opened Support
  import opened Evidence
  import opened Markers
  import opened Grounding
  import opened HostStrings

  /** `refusal` stands for the patterns that read as an insufficient-evidence sentence. */
  datatype Language = Language(script: Script, refusal: string -> bool)

  const SALVAGE_MAX_PARAGRAPHS := 6

  predicate SentenceSignalsInsufficientEvidence(lang: Language, text: string) {
    var stripped := Trim(StripMarkers(text));
    && stripped != ""
    && (stripped in HOST_STRINGS
        || exists s | s in TrimAll(Sentences(stripped)) :: s in HOST_STRINGS || lang.refusal(s))
  }

  // ---- candidate spans of one paragraph ----

  predicate IsQuoteMark(c: char) { c == '"' || c == '\U{201D}' }

  /** Length of the run before the next closing quotation mark. */
  function QuoteRun(s: string): (n: nat)
    ensures n <= |s|
  {
    if s == "" || IsQuoteMark(s[0]) then 0 else 1 + QuoteRun(s[1..])
  }

  /** The quoted runs of ten characters or more. */
  function QuotedSpans(s: string): seq<string>
    decreases |s|
  {
    if s == "" then []
    else if s[0] == '"' || s[0] == '\U{201C}' then
      var n := QuoteRun(s[1..]);
      if n >= 10 && n + 1 < |s| then [s[1..n + 1]] + QuotedSpans(s[n + 2..]) else QuotedSpans(s[1..])
    else QuotedSpans(s[1..])
  }

  function IndexOf(s: string, c: char): (n: nat)
    ensures n <= |s| && (n < |s| ==> s[n] == c)
  {
    if s == "" || s[0] == c then 0 else 1 + IndexOf(s[1..], c)
  }

  function Without(s: string, drop: string): string {
    if s == "" then "" else (if s[0] in drop then "" else [s[0]]) + Without(s[1..], drop)
  }

  /** `s.split(/\s+/u).length`. */
  function SpaceFields(s: string): nat
    decreases |s|
  {
    if s == "" then 1
    else if IsSpace(s[0]) then 1 + SpaceFields(s[SpaceRun(s)..])
    else SpaceFields(s[1..])
  }

  predicate HasDigit(s: string) { exists i | 0 <= i < |s| :: IsDigit(s[i]) }

  /** A sentence, and what follows its colon when a short label without digits comes before it. */
  function SentenceSpans(sentence: string): seq<string> {
    var colon := IndexOf(sentence, ':');
    if colon + 1 < |sentence| then
      var prefix := Trim(Without(sentence[..colon], "*\"\U{201C}\U{201D}"));
      if SpaceFields(prefix) <= 4 && !HasDigit(prefix) then [sentence, Trim(sentence[colon + 1..])] else [sentence]
    else [sentence]
  }

  function AllSentenceSpans(sentences: seq<string>): seq<string> {
    if sentences == [] then [] else SentenceSpans(sentences[0]) + AllSentenceSpans(sentences[1..])
  }

  function Candidates(stripped: string): seq<string> {
    QuotedSpans(stripped) + AllSentenceSpans(TrimAll(Sentences(stripped)))
  }

  const OPENING := "\"\U{201C}'\U{2018}*"
  const CLOSING := "\"\U{201D}'\U{2019}*"

  function DropFront(s: string): string {
    if s != "" && (s[0] in OPENING || IsSpace(s[0])) then DropFront(s[1..]) else s
  }

  function DropBack(s: string): string {
    if s != "" && (s[|s| - 1] in CLOSING || IsSpace(s[|s| - 1])) then DropBack(s[..|s| - 1]) else s
  }

  function Clean(candidate: string): string { Trim(DropBack(DropFront(candidate))) }

  lemma CleanIsTight(candidate: string)
    ensures Tight(Clean(candidate))
  {
    hide Trim, Tight, DropBack, DropFront;
    var lead, tail := TrimParts(DropBack(DropFront(candidate)));
  }

  // ---- validated quotes ----

  datatype Quote = Quote(key: string, clean: string, numbers: seq<nat>, order: nat)

  function QuoteParagraph(q: Quote): string { q.clean + LabelsText(q.numbers) }

  /** The labels whose evidence body contains the span. */
  function SupportingLabels(script: Script, clean: string, entries: seq<Entry>): (r: seq<nat>)
    ensures forall n :: n in r <==>
                        exists e | e in entries ::
                          e.number == n && TextSupportedByPassages(script, clean, [e.identity.text])
  {
    if entries == [] then []
    else
      assert forall x :: x in entries <==> x == entries[0] || x in entries[1..];
      (if TextSupportedByPassages(script, clean, [entries[0].identity.text]) then [entries[0].number] else [])
      + SupportingLabels(script, clean, entries[1..])
  }

  /** A quote the salvage may keep: labelled with exactly the evidence bodies that contain it. */
  predicate Validated(script: Script, q: Quote, entries: seq<Entry>) {
    && q.clean != "" && Tight(q.clean) && SpaceFields(q.clean) >= 3
    && q.key == NormalizeSupportText(script, q.clean)
    && q.numbers != [] && q.numbers == SupportingLabels(script, q.clean, SortByNumber(entries))
  }

  predicate Ordered(quotes: seq<Quote>) {
    forall i, j :: 0 <= i < j < |quotes| ==> quotes[i].order < quotes[j].order
  }

  /** A cleaned span of three words or more that some evidence body contains. */
  predicate Supported(script: Script, clean: string, entries: seq<Entry>) {
    clean != "" && SpaceFields(clean) >= 3 && SupportingLabels(script, clean, SortByNumber(entries)) != []
  }

  function QuoteOf(script: Script, clean: string, entries: seq<Entry>, order: nat): Quote {
    Quote(NormalizeSupportText(script, clean), clean, SupportingLabels(script, clean, SortByNumber(entries)), order)
  }

  /** The quotes found so far and those among the candidates, in order. */
  function QuotesFrom(script: Script, found: seq<Quote>, candidates: seq<string>, entries: seq<Entry>): seq<Quote>
    decreases |candidates|
  {
    if candidates == [] then found
    else
      var clean := Clean(candidates[0]);
      QuotesFrom(
        script, if Supported(script, clean, entries) then found + [QuoteOf(script, clean, entries, |found| + 1)]
        else found,
        candidates[1..], entries)
  }

  /** A piece of the draft that may donate quotes: it has text and does not read as a refusal. */
  predicate Donates(lang: Language, piece: string) {
    Trim(StripMarkers(piece)) != "" && !SentenceSignalsInsufficientEvidence(lang, piece)
  }

  function PieceCandidates(lang: Language, piece: string): seq<string> {
    if Donates(lang, piece) then Candidates(Trim(StripMarkers(piece))) else []
  }

  function DraftCandidates(lang: Language, pieces: seq<string>): seq<string> {
    if pieces == [] then [] else PieceCandidates(lang, pieces[0]) + DraftCandidates(lang, pieces[1..])
  }

  lemma {:induction false} QuotesFromSteps(
    script: Script, found: seq<Quote>, a: seq<string>, b: seq<string>, entries: seq<Entry>)
    ensures QuotesFrom(script, found, a + b, entries)
         == QuotesFrom(script, QuotesFrom(script, found, a, entries), b, entries)
    decreases |a|
  {
    hide Supported, QuoteOf, Clean;
    if a == [] {
      assert a + b == b;
    } else {
      assert (a + b)[1..] == a[1..] + b;
      var clean := Clean(a[0]);
      QuotesFromSteps(
        script, if Supported(script, clean, entries) then found + [QuoteOf(script, clean, entries, |found| + 1)]
        else found,
        a[1..], b, entries);
    }
  }

  /** Validated quotes, each in its place. */
  predicate InPlace(script: Script, quotes: seq<Quote>, entries: seq<Entry>) {
    && Ordered(quotes)
    && forall k :: 0 <= k < |quotes| ==> Validated(script, quotes[k], entries) && quotes[k].order <= |quotes|
  }

  lemma {:induction false} QuotesStayInPlace(
    script: Script, found: seq<Quote>, candidates: seq<string>, entries: seq<Entry>)
    requires InPlace(script, found, entries)
    ensures InPlace(script, QuotesFrom(script, found, candidates, entries), entries)
    ensures found <= QuotesFrom(script, found, candidates, entries)
    decreases |candidates|
  {
    hide Clean, SpaceFields, NormalizeSupportText, SupportingLabels, SortByNumber, Tight;
    if candidates != [] {
      var clean := Clean(candidates[0]);
      CleanIsTight(candidates[0]);
      QuotesStayInPlace(
        script, if Supported(script, clean, entries) then found + [QuoteOf(script, clean, entries, |found| + 1)]
        else found,
        candidates[1..], entries);
    }
  }

  predicate Names(quotes: seq<Quote>, clean: string) { exists q | q in quotes :: q.clean == clean }

  /** Exactly the supported candidates are quoted. */
  lemma {:induction false} QuotesAreSupportedCandidates(
    script: Script, found: seq<Quote>, candidates: seq<string>, entries: seq<Entry>, clean: string)
    ensures Names(QuotesFrom(script, found, candidates, entries), clean)
       <==> Names(found, clean) || (Supported(script, clean, entries)
                                    && exists c | c in candidates :: Clean(c) == clean)
    decreases |candidates|
  {
    hide Clean, Supported;
    if candidates != [] {
      var c := Clean(candidates[0]);
      var q := QuoteOf(script, c, entries, |found| + 1);
      NamesOneMore(found, q, clean);
      QuotesAreSupportedCandidates(script, if Supported(script, c, entries) then found + [q] else found,
                                   candidates[1..], entries, clean);
      assert forall x :: x in candidates <==> x == candidates[0] || x in candidates[1..];
    }
  }

  lemma NamesOneMore(found: seq<Quote>, q: Quote, clean: string)
    ensures Names(found + [q], clean) <==> Names(found, clean) || q.clean == clean
  {
    assert forall x :: x in found + [q] <==> x in found || x == q;
  }

  /** The loop over one paragraph's candidates. */
  method CollectQuotes(script: Script, candidates: seq<string>, entries: seq<Entry>, found: seq<Quote>)
    returns (quotes: seq<Quote>)
    ensures quotes == QuotesFrom(script, found, candidates, entries)
  {
    hide Clean, SpaceFields, NormalizeSupportText, SupportingLabels, SortByNumber;
    quotes := found;
    var i := 0;
    while i < |candidates|
      invariant 0 <= i <= |candidates|
      invariant QuotesFrom(script, quotes, candidates[i..], entries) == QuotesFrom(script, found, candidates, entries)
    {
      var clean := Clean(candidates[i]);
      if clean != "" && SpaceFields(clean) >= 3 {
        var numbers := SupportingLabels(script, clean, SortByNumber(entries));
        if numbers != [] {
          quotes := quotes + [Quote(NormalizeSupportText(script, clean), clean, numbers, |quotes| + 1)];
        }
      }
      assert candidates[i..][1..] == candidates[i + 1..];
      i := i + 1;
    }
  }

  // ---- longest-first selection ----

  predicate KeyAtLeast(a: Quote, b: Quote) { |a.key| >= |b.key| }

  /** `sort((a, b) => b.key.length - a.key.length)`. */
  function SortByKey(quotes: seq<Quote>): (r: seq<Quote>)
    ensures forall x :: x in r <==> x in quotes
  {
    SortBy(KeyAtLeast, quotes)
  }

  predicate LongestFirst(quotes: seq<Quote>) { SortedBy(KeyAtLeast, quotes) }

  lemma SortIsLongestFirst(quotes: seq<Quote>)
    ensures LongestFirst(SortByKey(quotes))
  {
    SortIsSorted(KeyAtLeast, quotes);
  }

  predicate Apart(quotes: seq<Quote>) {
    forall i, j :: 0 <= i < j < |quotes| ==>
                     !Includes(quotes[i].key, quotes[j].key) && !Includes(quotes[j].key, quotes[i].key)
  }

  predicate Covered(q: Quote, kept: seq<Quote>) { exists k | k in kept :: Includes(k.key, q.key) }

  lemma IncludesItself(s: string)
    ensures Includes(s, s)
  {
    assert OccursAt(s, s, 0);
  }

  /** A text inside one no longer than itself is that text. */
  lemma IncludesNoLonger(s: string, part: string)
    requires Includes(s, part) && |s| <= |part|
    ensures s == part
  {
    var i: nat :| i <= |s| && OccursAt(s, part, i);
    assert s[0..|s|] == s;
  }

  lemma CoveredByMore(q: Quote, kept: seq<Quote>, more: seq<Quote>)
    requires Covered(q, kept) && kept <= more
    ensures Covered(q, more)
  {
    var k :| k in kept && Includes(k.key, q.key);
    assert k in more;
  }

  predicate Touches(entry: Quote, k: Quote) { Includes(k.key, entry.key) || Includes(entry.key, k.key) }

  /** Every kept quote was read before place n. */
  predicate ReadBefore(sorted: seq<Quote>, n: nat, kept: seq<Quote>) {
    n <= |sorted| && forall k | k in kept :: exists i :: 0 <= i < n && sorted[i] == k
  }

  lemma DroppedIsCovered(sorted: seq<Quote>, n: nat, kept: seq<Quote>)
    requires LongestFirst(sorted) && n < |sorted| && ReadBefore(sorted, n, kept)
    requires exists k | k in kept :: Touches(sorted[n], k)
    ensures Covered(sorted[n], kept)
  {
    hide Includes;
    var k :| k in kept && Touches(sorted[n], k);
    var i :| 0 <= i < n && sorted[i] == k;
    if !Includes(k.key, sorted[n].key) {
      IncludesNoLonger(sorted[n].key, k.key);
      IncludesItself(k.key);
    }
  }

  lemma KeptStaysApart(sorted: seq<Quote>, n: nat, kept: seq<Quote>)
    requires n < |sorted| && ReadBefore(sorted, n, kept) && Apart(kept)
    requires forall k | k in kept :: !Touches(sorted[n], k)
    requires forall i | 0 <= i < n :: Covered(sorted[i], kept)
    ensures Apart(kept + [sorted[n]]) && ReadBefore(sorted, n + 1, kept + [sorted[n]])
    ensures forall i | 0 <= i <= n :: Covered(sorted[i], kept + [sorted[n]])
  {
    hide Includes;
    var entry := sorted[n];
    assert forall i :: 0 <= i < |kept| ==> kept[i] in kept;
    IncludesItself(entry.key);
    assert entry in kept + [entry];
    forall i | 0 <= i <= n ensures Covered(sorted[i], kept + [entry]) {
      if i < n {
        CoveredByMore(sorted[i], kept, kept + [entry]);
      }
    }
  }

  /** When the cap stops the pass, only quotes no longer than every kept one are left. */
  lemma CapLeavesNoLonger(sorted: seq<Quote>, n: nat, kept: seq<Quote>)
    requires LongestFirst(sorted) && ReadBefore(sorted, n, kept)
    requires forall i | 0 <= i < n :: Covered(sorted[i], kept)
    ensures forall q, k | q in sorted && k in kept && |q.key| > |k.key| :: Covered(q, kept)
  {
    hide Covered;
    forall q, k | q in sorted && k in kept && |q.key| > |k.key| ensures Covered(q, kept) {
      var i :| 0 <= i < |sorted| && sorted[i] == q;
      var j :| 0 <= j < n && sorted[j] == k;
    }
  }

  /**
    * The greedy pass: kept keys are pairwise apart, at most six, and every quote longer than a kept one,
    * or every quote at all when the cap is not reached, is contained in a kept quote.
    */
  method SelectQuotes(sorted: seq<Quote>) returns (kept: seq<Quote>)
    requires LongestFirst(sorted)
    ensures |kept| <= SALVAGE_MAX_PARAGRAPHS && Apart(kept) && forall k | k in kept :: k in sorted
    ensures |kept| < SALVAGE_MAX_PARAGRAPHS ==> forall q | q in sorted :: Covered(q, kept)
    ensures forall q, k | q in sorted && k in kept && |q.key| > |k.key| :: Covered(q, kept)
    ensures sorted != [] ==> kept != []
  {
    hide Includes, Touches, LongestFirst, Apart, Covered;
    kept := [];
    var n := 0;
    assert Apart([]) by { NothingApart(); }
    while n < |sorted|
      invariant 0 <= n <= |sorted| && |kept| < SALVAGE_MAX_PARAGRAPHS && Apart(kept) && ReadBefore(sorted, n, kept)
      invariant forall i | 0 <= i < n :: Covered(sorted[i], kept)
      invariant n > 0 ==> kept != []
    {
      if exists k | k in kept :: Touches(sorted[n], k) {
        DroppedIsCovered(sorted, n, kept);
      } else {
        KeptStaysApart(sorted, n, kept);
        kept := kept + [sorted[n]];
      }
      n := n + 1;
      if |kept| >= SALVAGE_MAX_PARAGRAPHS {
        break;
      }
    }
    CapLeavesNoLonger(sorted, n, kept);
  }

  lemma NothingApart()
    ensures Apart([])
  {
  }

  // ---- draft order ----

  predicate OrderAtMost(a: Quote, b: Quote) { a.order <= b.order }

  function SortByOrder(quotes: seq<Quote>): (r: seq<Quote>)
    ensures |r| == |quotes| && forall x :: x in r <==> x in quotes
  {
    SortBy(OrderAtMost, quotes)
  }

  predicate DistinctOrders(quotes: seq<Quote>) {
    forall i, j :: 0 <= i < j < |quotes| ==> quotes[i].order != quotes[j].order
  }

  lemma OrderedByPlace(quotes: seq<Quote>)
    requires DistinctOrders(quotes)
    ensures Ordered(SortByOrder(quotes))
  {
    var r := SortByOrder(quotes);
    SortIsSorted(OrderAtMost, quotes);
    ReorderedNoRepeats(quotes, r);
    forall i, j | 0 <= i < j < |r| ensures r[i].order < r[j].order {
      assert r[i] in quotes && r[j] in quotes;
      var a :| 0 <= a < |quotes| && quotes[a] == r[i];
      var b :| 0 <= b < |quotes| && quotes[b] == r[j];
      assert OrderAtMost(r[i], r[j]);
    }
  }

  /** Quotes of an ordered list whose keys are apart have different places. */
  lemma ApartOrders(validated: seq<Quote>, kept: seq<Quote>)
    requires Ordered(validated) && Apart(kept) && forall k | k in kept :: k in validated
    ensures DistinctOrders(kept)
  {
    forall i, j | 0 <= i < j < |kept| ensures kept[i].order != kept[j].order {
      assert kept[i] in validated && kept[j] in validated;
      var a :| 0 <= a < |validated| && validated[a] == kept[i];
      var b :| 0 <= b < |validated| && validated[b] == kept[j];
      IncludesItself(kept[i].key);
    }
  }

  predicate KeysApart(quotes: seq<Quote>) {
    forall a, b | a in quotes && b in quotes && a != b :: !Includes(a.key, b.key)
  }

  lemma ApartMeansKeysApart(kept: seq<Quote>)
    requires Apart(kept)
    ensures KeysApart(kept)
  {
    forall a, b | a in kept && b in kept && a != b ensures !Includes(a.key, b.key) {
      var i :| 0 <= i < |kept| && kept[i] == a;
      var j :| 0 <= j < |kept| && kept[j] == b;
    }
  }

  function QuoteParagraphs(quotes: seq<Quote>): (r: seq<string>)
    ensures |r| == |quotes|
    ensures forall i :: 0 <= i < |r| ==> r[i] == QuoteParagraph(quotes[i])
  {
    if quotes == [] then [] else [QuoteParagraph(quotes[0])] + QuoteParagraphs(quotes[1..])
  }

  lemma NothingInPlace(script: Script, entries: seq<Entry>)
    ensures InPlace(script, [], entries) && KeysApart([])
  {
  }

  /** What restoring draft order keeps of the chosen quotes. */
  lemma InDraftOrder(validated: seq<Quote>, chosen: seq<Quote>)
    requires Ordered(validated) && Apart(chosen) && forall k | k in chosen :: k in validated
    ensures Ordered(SortByOrder(chosen)) && KeysApart(SortByOrder(chosen))
    ensures forall q :: Covered(q, chosen) ==> Covered(q, SortByOrder(chosen))
  {
    hide Includes, SortByOrder;
    ApartOrders(validated, chosen);
    OrderedByPlace(chosen);
    ApartMeansKeysApart(chosen);
    var kept := SortByOrder(chosen);
    forall q | Covered(q, chosen) ensures Covered(q, kept) {
      var k :| k in chosen && Includes(k.key, q.key);
      assert k in kept;
    }
  }

  lemma NextPiece(lang: Language, found: seq<Quote>, pieces: seq<string>, i: nat, entries: seq<Entry>)
    requires i < |pieces|
    ensures QuotesFrom(lang.script, found, DraftCandidates(lang, pieces[i..]), entries)
         == QuotesFrom(lang.script, QuotesFrom(lang.script, found, PieceCandidates(lang, pieces[i]), entries),
                       DraftCandidates(lang, pieces[i + 1..]), entries)
    ensures !Donates(lang, pieces[i]) ==>
              QuotesFrom(lang.script, found, PieceCandidates(lang, pieces[i]), entries) == found
  {
    hide Donates, Candidates, Clean, Supported;
    QuotesFromSteps(lang.script, found, PieceCandidates(lang, pieces[i]), DraftCandidates(lang, pieces[i + 1..]),
                    entries);
    assert pieces[i..][1..] == pieces[i + 1..];
  }

  lemma LastPiece(lang: Language, found: seq<Quote>, pieces: seq<string>, entries: seq<Entry>)
    ensures QuotesFrom(lang.script, found, DraftCandidates(lang, pieces[|pieces|..]), entries) == found
  {
  }

  /** The quotes of a draft that `salvageVerbatimQuotes` validates. */
  function DraftQuotes(lang: Language, text: string, ledger: Ledger): seq<Quote> {
    if text == "" || ledger.labelConflict || ledger.entries == [] then []
    else QuotesFrom(lang.script, [], DraftCandidates(lang, SplitBreaks(text)), ledger.entries)
  }

  /**
    * What salvage promises: the kept quotes stand in draft order, at most six, none inside another; a validated
    * quote that was dropped is inside a kept one unless the cap was reached first, and then it is no longer
    * than any kept quote.
    */
  predicate Salvaged(lang: Language, text: string, ledger: Ledger, salvaged: Option<string>, kept: seq<Quote>) {
    var validated := DraftQuotes(lang, text, ledger);
    && InPlace(lang.script, validated, ledger.entries)
    && |kept| <= SALVAGE_MAX_PARAGRAPHS && Ordered(kept) && KeysApart(kept)
    && (forall k | k in kept :: k in validated)
    && (|kept| < SALVAGE_MAX_PARAGRAPHS ==> forall q | q in validated :: Covered(q, kept))
    && (forall q, k | q in validated && k in kept && |q.key| > |k.key| :: Covered(q, kept))
    && salvaged == if validated == [] then None else Some(Join(QuoteParagraphs(kept), BLANK_LINE))
  }

  /** `salvageVerbatimQuotes`, with the kept quotes. */
  method SalvageVerbatimQuotes(lang: Language, text: string, ledger: Ledger)
    returns (salvaged: Option<string>, kept: seq<Quote>)
    ensures Salvaged(lang, text, ledger, salvaged, kept)
  {
    hide Includes, Validated, QuotesFrom, Candidates, StripMarkers, SentenceSignalsInsufficientEvidence, Trim,
      SplitFrom;
    hide DraftCandidates, QuoteParagraphs, Covered, KeysApart, Ordered, Apart, SortByOrder, LongestFirst;
    var validated: seq<Quote> := [];
    kept := [];
    NothingInPlace(lang.script, ledger.entries);
    if text == "" || ledger.labelConflict || ledger.entries == [] {
      return None, [];
    }
    var pieces := SplitBreaks(text);
    var i := 0;
    while i < |pieces|
      invariant 0 <= i <= |pieces|
      invariant QuotesFrom(lang.script, validated, DraftCandidates(lang, pieces[i..]), ledger.entries)
             == QuotesFrom(lang.script, [], DraftCandidates(lang, pieces), ledger.entries)
    {
      NextPiece(lang, validated, pieces, i, ledger.entries);
      var stripped := Trim(StripMarkers(pieces[i]));
      if stripped != "" && !SentenceSignalsInsufficientEvidence(lang, pieces[i]) {
        validated := CollectQuotes(lang.script, Candidates(stripped), ledger.entries, validated);
      }
      i := i + 1;
    }
    LastPiece(lang, validated, pieces, ledger.entries);
    NothingInPlace(lang.script, ledger.entries);
    QuotesStayInPlace(lang.script, [], DraftCandidates(lang, pieces), ledger.entries);
    SortIsLongestFirst(validated);
    var chosen := SelectQuotes(SortByKey(validated));
    InDraftOrder(validated, chosen);
    kept := SortByOrder(chosen);
    assert validated != [] ==> validated[0] in SortByKey(validated);
    assert chosen != [] ==> chosen[0] in SortByKey(validated) && chosen[0] in validated;
    salvaged := if |kept| > 0 then Some(Join(QuoteParagraphs(kept), BLANK_LINE)) else None;
  }

  // ---- when salvaged text validates ----

  /** No marker starts anywhere in the text. */
  predicate NoMarkers(s: string) { s == "" || (MarkerLength(s) == 0 && NoMarkers(s[1..])) }

  lemma {:induction false} NoMarkersRead(s: string)
    requires NoMarkers(s)
    ensures MarkerNumbers(s) == [] && StripMarkers(s) == s
    decreases |s|
  {
    if s != "" {
      NoMarkersRead(s[1..]);
    }
  }

  lemma MarkerSurvives(p: string, s: string)
    requires MarkerLength(p) > 0
    ensures MarkerLength(p + s) > 0
  {
    assert forall i :: 0 <= i < |p| ==> (p + s)[i] == p[i];
  }

  lemma {:induction false} NoMarkersPrefix(p: string, s: string)
    requires NoMarkers(p + s)
    ensures NoMarkers(p)
    decreases |p|
  {
    hide MarkerLength;
    if p != "" {
      assert (p + s)[1..] == p[1..] + s;
      NoMarkersPrefix(p[1..], s);
      if MarkerLength(p) > 0 {
        MarkerSurvives(p, s);
      }
    }
  }

  /** How a salvaged paragraph without a blank line inside reads back. */
  lemma SolidQuoteReads(q: Quote)
    requires q.clean != "" && Tight(q.clean) && NoMarkers(q.clean) && NoBreaks(q.clean) && Printable(q.numbers)
             && q.numbers != []
    ensures NoBreaks(QuoteParagraph(q)) && Tight(QuoteParagraph(q))
    ensures MarkerNumbers(QuoteParagraph(q)) == q.numbers && Trim(StripMarkers(QuoteParagraph(q))) == q.clean
  {
    hide IsSpace, NoMarkers, NoBreaks, Trim, MarkerNumbers, StripMarkers;
    var p, labels := QuoteParagraph(q), LabelsText(q.numbers);
    LabelsHaveNoSpace(q.numbers);
    LabelsAreMarkers(q.numbers);
    NoBreaksAppend(q.clean, labels);
    assert p[0] == q.clean[0] && p[|p| - 1] == labels[|labels| - 1];
    AppendLabels(q.clean, q.numbers);
    NoMarkersRead(q.clean);
    TrimTight(q.clean);
    var none: seq<nat> := [];
    assert none + q.numbers == q.numbers;
  }

  /** One salvaged paragraph without a blank line inside is valid. */
  lemma SolidQuoteIsValid(script: Script, q: Quote, entries: seq<Entry>)
    requires Validated(script, q, entries) && PrintableLabels(entries) && DistinctNumbers(entries)
    requires NoMarkers(q.clean) && NoBreaks(q.clean)
    ensures ParagraphValid(script, QuoteParagraph(q), entries)
  {
    hide NormalizeSupportText, TextSupportedByPassages, CitedPassages, NoMarkers, SpaceFields, InLedger, Printable;
    hide NoBreaks, Tight, QuoteParagraph, MarkerNumbers, StripMarkers, Trim, SortByNumber;
    LabelsInLedger(script, q, entries);
    SolidQuoteReads(q);
    var n := q.numbers[0];
    assert n in q.numbers;
    var e :| e in SortByNumber(entries) && e.number == n && TextSupportedByPassages(script, q.clean, [e.identity.text]);
    LabelledPassage(script, q, entries, e);
  }

  /** A text with a blank line inside is cut before its end, whatever follows it. */
  lemma {:induction false} FirstPiece(cur: string, s: string, t: string) returns (k: nat)
    requires !NoBreaks(s)
    ensures k <= |s| && SplitFrom(cur, s + t)[0] == cur + s[..k] && (k == 0 ==> MatchBreak(s + t) > 0)
    decreases |s|
  {
    hide MatchBreak;
    if MatchBreak(s + t) > 0 {
      k := 0;
      assert cur + s[..0] == cur;
    } else {
      if MatchBreak(s) > 0 {
        BreakSurvives(s, t);
      }
      assert (s + t)[1..] == s[1..] + t;
      k := FirstPiece(cur + [s[0]], s[1..], t);
      assert cur + [s[0]] + s[1..][..k] == cur + s[..k + 1];
      k := k + 1;
    }
  }

  lemma TrimKeepsFront(piece: string) returns (tail: string)
    requires piece != "" && !IsSpace(piece[0])
    ensures Trim(piece) + tail == piece && Trim(piece) != ""
  {
    hide IsSpace, Trim, Tight;
    var lead, rest := TrimParts(piece);
    assert forall i :: 0 <= i < |lead| ==> lead[i] == piece[i];
    assert lead == "";
    assert Trim(piece) == "" ==> piece == rest;
    tail := rest;
  }

  lemma FirstParagraphUnmarked(script: Script, text: string, k: nat, entries: seq<Entry>)
    requires 0 < k <= |text| && !IsSpace(text[0]) && SplitBreaks(text)[0] == text[..k] && NoMarkers(text[..k])
    ensures !AllValid(script, ParagraphsOf(text), entries)
  {
    hide IsSpace, SplitFrom, Trim, NoMarkers, TextSupportedByPassages, CitedPassages, InLedger, StripMarkers;
    var piece := text[..k];
    var tail := TrimKeepsFront(piece);
    NoMarkersPrefix(Trim(piece), tail);
    NoMarkersRead(Trim(piece));
    hide MarkerNumbers;
    assert ParagraphsOf(text)[0] == Trim(piece);
    assert Trim(piece) in ParagraphsOf(text);
    assert !ParagraphValid(script, Trim(piece), entries);
  }

  /** A salvaged paragraph with a blank line inside loses its labels: its first paragraph has none. */
  lemma BrokenQuoteIsInvalid(script: Script, q: Quote, entries: seq<Entry>)
    requires q.clean != "" && Tight(q.clean) && NoMarkers(q.clean) && !NoBreaks(q.clean)
    ensures !AllValid(script, ParagraphsOf(QuoteParagraph(q)), entries)
  {
    hide IsSpace, MatchBreak, NoBreaks, SplitFrom, NoMarkers, LabelsText, AllValid, TrimAll;
    var text := QuoteParagraph(q);
    var k := FirstPiece("", q.clean, LabelsText(q.numbers));
    NoBreakAtText(q.clean, LabelsText(q.numbers));
    assert "" + q.clean[..k] == q.clean[..k] == text[..k] && text[0] == q.clean[0];
    assert q.clean[..k] + q.clean[k..] == q.clean;
    NoMarkersPrefix(q.clean[..k], q.clean[k..]);
    FirstParagraphUnmarked(script, text, k, entries);
  }

  lemma NoBreakAtText(s: string, t: string)
    requires s != "" && !IsSpace(s[0])
    ensures MatchBreak(s + t) == 0
  {
    assert (s + t)[0] == s[0];
  }

  lemma QuoteValidWhenSolid(script: Script, q: Quote, ledger: Ledger)
    requires Validated(script, q, ledger.entries) && PrintableLabels(ledger.entries) && DistinctNumbers(ledger.entries)
    requires NoMarkers(q.clean) && !ledger.labelConflict
    ensures MarkersValid(script, QuoteParagraph(q), ledger) <==> NoBreaks(q.clean)
  {
    hide NormalizeSupportText, NoMarkers, SpaceFields, NoBreaks, Tight, ParagraphValid, PrintableLabels,
      DistinctNumbers;
    if NoBreaks(q.clean) {
      LabelsInLedger(script, q, ledger.entries);
      SolidQuoteIsValid(script, q, ledger.entries);
      SolidQuoteReads(q);
      SplitNoBreaks("", QuoteParagraph(q));
      TrimTight(QuoteParagraph(q));
      assert "" + QuoteParagraph(q) == QuoteParagraph(q);
      OneParagraph(QuoteParagraph(q));
    } else {
      BrokenQuoteIsInvalid(script, q, ledger.entries);
    }
  }

  lemma OneParagraph(p: string)
    requires SplitBreaks(p) == [p] && Trim(p) == p
    ensures forall x | x in ParagraphsOf(p) :: x == p
  {
    hide Trim, SplitFrom;
    var pieces := [p];
    assert |pieces[1..]| == 0 && |TrimAll(pieces[1..])| == 0;
  }

  /**
    * Salvaged text passes the validator exactly when no kept quote has a blank line inside. Such a line only
    * appears when stripping took a marker that stood alone on its line.
    */
  lemma {:induction false} SalvagedValidWhenSolid(script: Script, kept: seq<Quote>, ledger: Ledger)
    requires kept != [] && forall q | q in kept :: Validated(script, q, ledger.entries) && NoMarkers(q.clean)
    requires PrintableLabels(ledger.entries) && DistinctNumbers(ledger.entries) && !ledger.labelConflict
    ensures MarkersValid(script, Join(QuoteParagraphs(kept), BLANK_LINE), ledger)
       <==> forall q | q in kept :: NoBreaks(q.clean)
    decreases |kept|
  {
    hide Validated, NoMarkers, NoBreaks, MarkersValid, PrintableLabels, DistinctNumbers, QuoteParagraph;
    assert kept[0] in kept;
    QuoteValidWhenSolid(script, kept[0], ledger);
    assert forall q :: q in kept <==> q == kept[0] || q in kept[1..];
    if |kept| > 1 {
      SalvagedValidWhenSolid(script, kept[1..], ledger);
      JoinValid(script, QuoteParagraph(kept[0]), Join(QuoteParagraphs(kept[1..]), BLANK_LINE), ledger);
      assert QuoteParagraphs(kept)[1..] == QuoteParagraphs(kept[1..]);
    }
  }

  lemma LabelsInLedger(script: Script, q: Quote, entries: seq<Entry>)
    requires Validated(script, q, entries) && PrintableLabels(entries)
    ensures Printable(q.numbers) && forall n | n in q.numbers :: InLedger(entries, n)
  {
    hide NormalizeSupportText, TextSupportedByPassages, SpaceFields, FindLabel;
    forall n | n in q.numbers ensures 1 <= n <= 99 && InLedger(entries, n) {
      var e :| e in SortByNumber(entries) && e.number == n
               && TextSupportedByPassages(script, q.clean, [e.identity.text]);
      assert e in entries;
    }
    assert forall i :: 0 <= i < |q.numbers| ==> q.numbers[i] in q.numbers;
  }

  lemma LabelledPassage(script: Script, q: Quote, entries: seq<Entry>, e: Entry)
    requires DistinctNumbers(entries) && e in entries && e.number in q.numbers
    requires forall n | n in q.numbers :: InLedger(entries, n)
    requires TextSupportedByPassages(script, q.clean, [e.identity.text])
    ensures TextSupportedByPassages(script, q.clean, CitedPassages(entries, Distinct(q.numbers)))
  {
    hide TextSupportedByPassages, CitedPassages;
    var k := FindLabel(entries, e.number).value;
    assert entries[k] == e;
    assert Cites(entries, e.number, e.identity.text);
    PassageIn(entries, Distinct(q.numbers), e.identity.text);
    SupportMonotone(script, q.clean, [e.identity.text], CitedPassages(entries, Distinct(q.numbers)));
  }
}
