/**
  * The verbatim-support test: a text is supported when every claim sentence, lowercased and
  * reduced to its words, occurs in one of the passages, reduced the same way.
  */
module Support {
  import opened Text

  /** The Unicode facts the test uses: lower case of a character, and the class `[\p{L}\p{N}_]`. */
  datatype Script = Script(lower: char -> string, isWord: char -> bool) {
    /** White space is caseless and never part of a word. */
    ghost predicate Valid() {
      forall c: char :: IsSpace(c) ==> lower(c) == [c] && !isWord(c)
    }
  }

  function Lower(script: Script, s: string): string {
    if s == "" then "" else script.lower(s[0]) + Lower(script, s[1..])
  }

  /** The matches of `[\p{L}\p{N}_]+` from left to right; `word` is the match in progress. */
  function WordsFrom(script: Script, word: string, s: string): seq<string>
    decreases |s|
  {
    if s == "" then Finished(word)
    else if script.isWord(s[0]) then WordsFrom(script, word + [s[0]], s[1..])
    else Finished(word) + WordsFrom(script, "", s[1..])
  }

  function Finished(word: string): seq<string> { if word == "" then [] else [word] }

  function Words(script: Script, s: string): seq<string> { WordsFrom(script, "", Lower(script, s)) }

  function NormalizeSupportText(script: Script, s: string): string { Join(Words(script, s), " ") }

  /** `split(/(?<=[.!?])\s+/u)`: `cur` is the sentence read so far. */
  function SentencesFrom(cur: string, s: string): (pieces: seq<string>)
    ensures pieces != []
    decreases |s|
  {
    if s == "" then [cur]
    else if IsSpace(s[0]) && EndsSentence(cur) then [cur] + SentencesFrom("", s[SpaceRun(s)..])
    else SentencesFrom(cur + [s[0]], s[1..])
  }

  predicate EndsSentence(cur: string) { cur != "" && cur[|cur| - 1] in ".!?" }

  function Sentences(s: string): seq<string> { SentencesFrom("", s) }

  function NonEmpty(parts: seq<string>): seq<string> {
    if parts == [] then [] else (if parts[0] == "" then [] else [parts[0]]) + NonEmpty(parts[1..])
  }

  function NormalizeAll(script: Script, parts: seq<string>): (r: seq<string>)
    ensures |r| == |parts|
    ensures forall i :: 0 <= i < |parts| ==> r[i] == NormalizeSupportText(script, parts[i])
  {
    if parts == [] then [] else [NormalizeSupportText(script, parts[0])] + NormalizeAll(script, parts[1..])
  }

  function ClaimSentences(script: Script, text: string): seq<string> {
    NonEmpty(NormalizeAll(script, Sentences(text)))
  }

  /** `s.split(" ").length`. */
  function FieldCount(s: string): nat {
    if s == "" then 1 else FieldCount(s[1..]) + (if s[0] == ' ' then 1 else 0)
  }

  predicate PassageSupports(script: Script, claim: string, passage: string) {
    NormalizeSupportText(script, passage) != "" && Includes(NormalizeSupportText(script, passage), claim)
  }

  predicate ClaimSupported(script: Script, claim: string, passages: seq<string>) {
    FieldCount(claim) >= 3 && exists p | p in passages :: PassageSupports(script, claim, p)
  }

  predicate TextSupportedByPassages(script: Script, text: string, passages: seq<string>) {
    var claims := ClaimSentences(script, text);
    |claims| > 0 && forall c | c in claims :: ClaimSupported(script, c, passages)
  }

  // ---- what the test accepts ----

  /** A text is supported exactly when it makes a claim and each claim, three words or more, occurs in a passage. */
  lemma SupportMeans(script: Script, text: string, passages: seq<string>)
    ensures TextSupportedByPassages(script, text, passages)
       <==> && ClaimSentences(script, text) != []
            && forall c | c in ClaimSentences(script, text) ::
                 FieldCount(c) >= 3 && exists p | p in passages :: Includes(NormalizeSupportText(script, p), c)
  {
    hide ClaimSentences, NormalizeSupportText;
    forall c, p | p in passages && FieldCount(c) >= 3 && Includes(NormalizeSupportText(script, p), c)
      ensures PassageSupports(script, c, p)
    {
      assert c != "";
    }
  }

  /** A word: characters of the word class, at least one. */
  predicate IsWord(script: Script, word: string) {
    word != "" && forall c | c in word :: script.isWord(c)
  }

  lemma {:induction false} WordsAreWords(script: Script, word: string, s: string)
    requires word == "" || IsWord(script, word)
    ensures forall w | w in WordsFrom(script, word, s) :: IsWord(script, w)
    decreases |s|
  {
    if s != "" {
      if script.isWord(s[0]) {
        assert forall c :: c in word + [s[0]] <==> c in word || c == s[0];
        WordsAreWords(script, word + [s[0]], s[1..]);
      } else {
        WordsAreWords(script, "", s[1..]);
      }
    }
  }

  lemma {:induction false} FieldsConcat(a: string, b: string)
    ensures FieldCount(a + b) == FieldCount(a) + FieldCount(b) - 1
    decreases |a|
  {
    if a == "" {
      assert a + b == b;
    } else {
      assert (a + b)[1..] == a[1..] + b;
      FieldsConcat(a[1..], b);
    }
  }

  lemma {:induction false} WordIsOneField(script: Script, word: string)
    requires script.Valid() && forall c | c in word :: script.isWord(c)
    ensures FieldCount(word) == 1
    decreases |word|
  {
    if word != "" {
      assert word[0] in word && forall c | c in word[1..] :: c in word;
      WordIsOneField(script, word[1..]);
    }
  }

  lemma {:induction false} FieldsAreWords(script: Script, words: seq<string>)
    requires script.Valid() && words != [] && forall w | w in words :: IsWord(script, w)
    ensures FieldCount(Join(words, " ")) == |words|
    decreases |words|
  {
    assert words[0] in words && forall w | w in words[1..] :: w in words;
    WordIsOneField(script, words[0]);
    if |words| > 1 {
      FieldsAreWords(script, words[1..]);
      FieldsConcat(" ", Join(words[1..], " "));
      FieldsConcat(words[0], " " + Join(words[1..], " "));
      assert words[0] + (" " + Join(words[1..], " ")) == Join(words, " ");
    }
  }

  /** The number of fields of a normalised text is its number of words, however it was spaced and punctuated. */
  lemma FieldsCountWords(script: Script, text: string)
    requires script.Valid() && Words(script, text) != []
    ensures FieldCount(NormalizeSupportText(script, text)) == |Words(script, text)|
    ensures forall w | w in Words(script, text) :: IsWord(script, w)
  {
    WordsAreWords(script, "", Lower(script, text));
    FieldsAreWords(script, Words(script, text));
  }

  /** Every claim is a list of words with single spaces between them, as many as it has fields. */
  lemma ClaimsAreWords(script: Script, text: string)
    requires script.Valid()
    ensures forall c | c in ClaimSentences(script, text) ::
              exists words :: IsWordsOf(script, words, c)
  {
    hide Words, Sentences, IsWord, FieldCount, Join;
    ClaimsAreSentences(script, Sentences(text));
    forall c | c in ClaimSentences(script, text)
      ensures exists words :: IsWordsOf(script, words, c)
    {
      var sentence :| sentence in Sentences(text) && c == NormalizeSupportText(script, sentence) != "";
      var words := Words(script, sentence);
      assert words != [] by { NothingJoined(words); }
      FieldsCountWords(script, sentence);
      assert IsWordsOf(script, words, c);
    }
  }

  predicate IsWordsOf(script: Script, words: seq<string>, claim: string) {
    claim == Join(words, " ") && |words| == FieldCount(claim) && forall w | w in words :: IsWord(script, w)
  }

  lemma NothingJoined(words: seq<string>)
    requires Join(words, " ") != ""
    ensures words != []
  {
  }

  lemma {:induction false} ClaimsAreSentences(script: Script, sentences: seq<string>)
    ensures forall c | c in NonEmpty(NormalizeAll(script, sentences)) ::
              exists sentence | sentence in sentences :: c == NormalizeSupportText(script, sentence) != ""
    decreases |sentences|
  {
    hide NormalizeSupportText;
    if sentences != [] {
      ClaimsAreSentences(script, sentences[1..]);
      assert NormalizeAll(script, sentences)[1..] == NormalizeAll(script, sentences[1..]);
      assert forall x :: x in sentences <==> x == sentences[0] || x in sentences[1..];
    }
  }

  /** More passages never lose support. */
  lemma SupportMonotone(script: Script, text: string, few: seq<string>, many: seq<string>)
    requires TextSupportedByPassages(script, text, few)
    requires forall p | p in few :: p in many
    ensures TextSupportedByPassages(script, text, many)
  {
    forall c | c in ClaimSentences(script, text) ensures ClaimSupported(script, c, many) {
      var p :| p in few && PassageSupports(script, c, p);
    }
  }

  // ---- white space does not change the claims ----

  /** `replace(/\s+/g, " ")`. */
  function Collapse(s: string): string
    decreases |s|
  {
    if s == "" then ""
    else if IsSpace(s[0]) then " " + Collapse(s[SpaceRun(s)..])
    else [s[0]] + Collapse(s[1..])
  }

  /** What the claim scan has read: finished claims' sentence words, the word in progress, the last character. */
  datatype Scan = Scan(words: seq<string>, word: string, ends: bool)

  function Idle(): Scan { Scan([], "", false) }

  /** The claims of a text read in one pass, character by character. */
  function ScanClaims(script: Script, st: Scan, s: string): seq<string>
    decreases |s|
  {
    if s == "" then Emit(st)
    else if IsSpace(s[0]) then
      if st.ends then Emit(st) + ScanClaims(script, Idle(), s[1..])
      else ScanClaims(script, Scan(st.words + Finished(st.word), "", false), s[1..])
    else ScanClaims(script, Feed(script, st, script.lower(s[0])).(ends := s[0] in ".!?"), s[1..])
  }

  function Emit(st: Scan): seq<string> { NonEmpty([Join(st.words + Finished(st.word), " ")]) }

  function Feed(script: Script, st: Scan, s: string): Scan
    decreases |s|
  {
    if s == "" then st
    else if script.isWord(s[0]) then Feed(script, st.(word := st.word + [s[0]]), s[1..])
    else Feed(script, st.(words := st.words + Finished(st.word), word := ""), s[1..])
  }

  /** A scan state that has read exactly `cur`. */
  ghost predicate HasRead(script: Script, st: Scan, cur: string) {
    && (forall rest: string :: Words(script, cur + rest)
                               == st.words + WordsFrom(script, st.word, Lower(script, rest)))
    && (st.ends <==> EndsSentence(cur))
  }

  lemma {:induction false} FeedReads(script: Script, st: Scan, s: string, rest: string)
    ensures st.words + WordsFrom(script, st.word, s + rest)
         == Feed(script, st, s).words + WordsFrom(script, Feed(script, st, s).word, rest)
    decreases |s|
  {
    if s == "" {
      assert s + rest == rest;
    } else {
      assert (s + rest)[1..] == s[1..] + rest;
      if script.isWord(s[0]) {
        FeedReads(script, st.(word := st.word + [s[0]]), s[1..], rest);
      } else {
        FeedReads(script, st.(words := st.words + Finished(st.word), word := ""), s[1..], rest);
        assert st.words + (Finished(st.word) + WordsFrom(script, "", s[1..] + rest))
            == st.words + Finished(st.word) + WordsFrom(script, "", s[1..] + rest);
      }
    }
  }

  lemma WordsAfter(script: Script, st: Scan, cur: string, rest: string)
    requires HasRead(script, st, cur)
    ensures Words(script, cur + rest) == st.words + WordsFrom(script, st.word, Lower(script, rest))
  {
  }

  lemma ReadOneMore(script: Script, st: Scan, cur: string, c: char, rest: string)
    requires HasRead(script, st, cur)
    ensures var next := Feed(script, st, script.lower(c));
            Words(script, cur + [c] + rest) == next.words + WordsFrom(script, next.word, Lower(script, rest))
  {
    hide Feed, WordsFrom, HasRead, Words;
    assert cur + [c] + rest == cur + ([c] + rest);
    WordsAfter(script, st, cur, [c] + rest);
    assert Lower(script, [c] + rest) == script.lower(c) + Lower(script, rest) by {
      assert ([c] + rest)[1..] == rest;
    }
    FeedReads(script, st, script.lower(c), Lower(script, rest));
  }

  /** Reading one more character of a sentence. */
  lemma ReadOne(script: Script, st: Scan, cur: string, c: char)
    requires HasRead(script, st, cur)
    ensures HasRead(script, Feed(script, st, script.lower(c)).(ends := c in ".!?"), cur + [c])
  {
    hide Feed, WordsFrom, Words, Lower;
    forall rest: string {
      ReadOneMore(script, st, cur, c, rest);
    }
  }

  lemma EmitsClaim(script: Script, st: Scan, cur: string)
    requires HasRead(script, st, cur)
    ensures Emit(st) == NonEmpty([NormalizeSupportText(script, cur)])
  {
    assert cur + "" == cur;
    assert Words(script, cur + "") == st.words + WordsFrom(script, st.word, Lower(script, ""));
  }

  lemma NonEmptyHead(head: string, rest: seq<string>)
    ensures NonEmpty([head] + rest) == NonEmpty([head]) + NonEmpty(rest)
  {
  }

  lemma IdleHasReadNothing(script: Script)
    ensures HasRead(script, Idle(), "")
  {
    forall rest: string
      ensures Words(script, "" + rest) == Idle().words + WordsFrom(script, Idle().word, Lower(script, rest))
    {
      assert "" + rest == rest;
    }
  }

  /** From an idle state, white space is skipped. */
  lemma {:induction false} SkipSpace(script: Script, w: string, rest: string)
    requires Blank(w)
    ensures ScanClaims(script, Idle(), w + rest) == ScanClaims(script, Idle(), rest)
    decreases |w|
  {
    if w == "" {
      assert w + rest == rest;
    } else {
      assert (w + rest)[1..] == w[1..] + rest && (w + rest)[0] == w[0];
      assert Scan(Idle().words + Finished(Idle().word), "", false) == Idle();
      SkipSpace(script, w[1..], rest);
    }
  }

  /** A finished sentence. */
  lemma SentenceEnds(script: Script, st: Scan, cur: string, s: string)
    requires HasRead(script, st, cur) && s != "" && IsSpace(s[0]) && EndsSentence(cur)
    ensures NonEmpty(NormalizeAll(script, SentencesFrom(cur, s)))
         == Emit(st) + NonEmpty(NormalizeAll(script, SentencesFrom("", s[SpaceRun(s)..])))
    ensures ScanClaims(script, st, s) == Emit(st) + ScanClaims(script, Idle(), s[SpaceRun(s)..])
  {
    hide IsSpace, NormalizeSupportText, NonEmpty;
    var n := SpaceRun(s);
    var rest := SentencesFrom("", s[n..]);
    EmitsClaim(script, st, cur);
    assert ([cur] + rest)[1..] == rest;
    NonEmptyHead(NormalizeSupportText(script, cur), NormalizeAll(script, rest));
    assert s[1..] == s[1..n] + s[n..];
    assert Blank(s[1..n]) by { assert forall i :: 0 <= i < n - 1 ==> s[1..n][i] == s[..n][i + 1]; }
    SkipSpace(script, s[1..n], s[n..]);
  }

  lemma {:induction false} ScanAgrees(script: Script, st: Scan, cur: string, s: string)
    requires script.Valid() && HasRead(script, st, cur)
    ensures NonEmpty(NormalizeAll(script, SentencesFrom(cur, s))) == ScanClaims(script, st, s)
    decreases |s|
  {
    hide IsSpace, HasRead, NonEmpty, NormalizeSupportText;
    if s == "" {
      EmitsClaim(script, st, cur);
      assert NormalizeAll(script, [cur]) == [NormalizeSupportText(script, cur)];
    } else if IsSpace(s[0]) && EndsSentence(cur) {
      SentenceEnds(script, st, cur, s);
      IdleHasReadNothing(script);
      ScanAgrees(script, Idle(), "", s[SpaceRun(s)..]);
    } else {
      ReadOne(script, st, cur, s[0]);
      var next := Feed(script, st, script.lower(s[0])).(ends := s[0] in ".!?");
      ScanAgrees(script, next, cur + [s[0]], s[1..]);
      if IsSpace(s[0]) {
        SpaceFeeds(script, st, s[0]);
        assert !st.ends by { ReadEnds(script, st, cur); }
      }
    }
  }

  lemma ReadEnds(script: Script, st: Scan, cur: string)
    requires HasRead(script, st, cur)
    ensures st.ends <==> EndsSentence(cur)
  {
  }

  lemma SpaceFeeds(script: Script, st: Scan, c: char)
    requires script.Valid() && IsSpace(c)
    ensures Feed(script, st, script.lower(c)).(ends := c in ".!?") == Scan(st.words + Finished(st.word), "", false)
  {
    assert script.lower(c) == [c];
    assert Feed(script, st, [c]) == Feed(script, st.(words := st.words + Finished(st.word), word := ""), [c][1..]);
  }

  /** The one-pass scan computes the claims. */
  lemma ClaimsByScan(script: Script, s: string)
    requires script.Valid()
    ensures ClaimSentences(script, s) == ScanClaims(script, Idle(), s)
  {
    IdleHasReadNothing(script);
    ScanAgrees(script, Idle(), "", s);
  }

  /** A run of white space scans like a single space. */
  lemma {:induction false} RunIsOneSpace(script: Script, st: Scan, w: string, rest: string)
    requires Blank(w) && w != ""
    ensures ScanClaims(script, st, w + rest) == ScanClaims(script, st, " " + rest)
  {
    var after := Scan(st.words + Finished(st.word), "", false);
    assert (w + rest)[1..] == w[1..] + rest && (w + rest)[0] == w[0];
    assert (" " + rest)[1..] == rest;
    if st.ends {
      SkipSpace(script, w[1..], rest);
    } else {
      RestStays(script, after, w[1..], rest);
    }
  }

  lemma {:induction false} RestStays(script: Script, st: Scan, w: string, rest: string)
    requires Blank(w) && st.word == "" && !st.ends
    ensures ScanClaims(script, st, w + rest) == ScanClaims(script, st, rest)
    decreases |w|
  {
    if w == "" {
      assert w + rest == rest;
    } else {
      assert (w + rest)[1..] == w[1..] + rest && (w + rest)[0] == w[0];
      assert Scan(st.words + Finished(st.word), "", false) == st;
      RestStays(script, st, w[1..], rest);
    }
  }

  lemma {:induction false} ScanCollapsed(script: Script, st: Scan, s: string)
    ensures ScanClaims(script, st, Collapse(s)) == ScanClaims(script, st, s)
    decreases |s|
  {
    hide IsSpace;
    if s == "" {
    } else if IsSpace(s[0]) {
      var n := SpaceRun(s);
      assert s == s[..n] + s[n..];
      RunIsOneSpace(script, st, s[..n], s[n..]);
      var tail := Collapse(s[n..]);
      assert (" " + tail)[1..] == tail && (" " + s[n..])[1..] == s[n..];
      assert IsSpace(' ') by { SpaceIsSpace(); }
      ScanCollapsed(script, if st.ends then Idle() else Scan(st.words + Finished(st.word), "", false), s[n..]);
    } else {
      assert ([s[0]] + Collapse(s[1..]))[1..] == Collapse(s[1..]);
      ScanCollapsed(script, Feed(script, st, script.lower(s[0])).(ends := s[0] in ".!?"), s[1..]);
    }
  }

  lemma SpaceIsSpace()
    ensures IsSpace(' ')
  {
  }

  /** White space at the end only finishes the claim being read. */
  lemma {:induction false} BlankEmits(script: Script, st: Scan, w: string)
    requires Blank(w)
    ensures ScanClaims(script, st, w) == Emit(st)
    decreases |w|
  {
    if w != "" {
      var after := if st.ends then Idle() else Scan(st.words + Finished(st.word), "", false);
      BlankEmits(script, after, w[1..]);
      if st.ends {
        assert Idle().words + Finished(Idle().word) == [];
        assert Emit(Idle()) == NonEmpty([""][1..]);
      } else {
        assert after.words + Finished(after.word) == st.words + Finished(st.word);
      }
    }
  }

  lemma {:induction false} ScanIgnoresTail(script: Script, st: Scan, s: string, w: string)
    requires Blank(w)
    ensures ScanClaims(script, st, s + w) == ScanClaims(script, st, s)
    decreases |s + w|
  {
    if s != "" {
      assert (s + w)[1..] == s[1..] + w && (s + w)[0] == s[0];
      if IsSpace(s[0]) {
        ScanIgnoresTail(script, if st.ends then Idle() else Scan(st.words + Finished(st.word), "", false), s[1..], w);
      } else {
        ScanIgnoresTail(script, Feed(script, st, script.lower(s[0])).(ends := s[0] in ".!?"), s[1..], w);
      }
    } else {
      assert s + w == w;
      BlankEmits(script, st, w);
    }
  }

  /** Collapsing white space and trimming leave the claims of a text alone. */
  lemma ClaimsIgnoreSpacing(script: Script, s: string)
    requires script.Valid()
    ensures ClaimSentences(script, Trim(Collapse(s))) == ClaimSentences(script, s)
  {
    hide IsSpace, Blank, Trim, Collapse, ClaimSentences, ScanClaims;
    var c := Collapse(s);
    var lead, tail := TrimParts(c);
    ClaimsByScan(script, s);
    ClaimsByScan(script, Trim(c));
    ScanCollapsed(script, Idle(), s);
    SkipSpace(script, lead, Trim(c) + tail);
    assert c == lead + (Trim(c) + tail);
    ScanIgnoresTail(script, Idle(), Trim(c), tail);
  }
}
