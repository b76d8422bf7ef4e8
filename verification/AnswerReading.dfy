/** Reading a draft that is a JSON answer: paragraphs of any shape, citation strings of any form. */
module AnswerReading {
  import opened Wrappers
  import opened Text
  import opened Support
  import opened Evidence
  import opened AnswerContract

  /** An element of the array of paragraphs; None is a text, or a citation, that is no string. */
  datatype RawParagraph = NoRecord | Record(text: Option<string>, citations: seq<Option<string>>)

  /** What parsing gives: `Unreadable` for an exception or no record, None when the paragraphs are no array. */
  datatype RawAnswer = Unreadable | Typed(answerType: string, paragraphs: Option<seq<RawParagraph>>)

  // ---- the labels in a citation string ----

  predicate IsListChar(c: char) { IsDigit(c) || c == ',' || IsSpace(c) }

  /** Length of the run of `[\d,\s]` at the front. */
  function ListRun(s: string): (n: nat)
    ensures n <= |s|
  {
    if s == "" || !IsListChar(s[0]) then 0 else 1 + ListRun(s[1..])
  }

  /** The matches of `\d+`; `numeral` is the match in progress. */
  function NumeralsFrom(numeral: string, s: string): seq<string>
    decreases |s|
  {
    if s == "" then Finished(numeral)
    else if IsDigit(s[0]) then NumeralsFrom(numeral + [s[0]], s[1..])
    else Finished(numeral) + NumeralsFrom("", s[1..])
  }

  /** `extractCitationLabels`, without the brackets: the numerals inside the groups `\[[\d,\s]+\]`. */
  function CitationNumerals(raw: string): seq<string>
    decreases |raw|
  {
    if raw == "" then []
    else
      var n := ListRun(raw[1..]);
      if raw[0] == '[' && n >= 1 && n + 1 < |raw| && raw[n + 1] == ']' then
        NumeralsFrom("", raw[1..n + 1]) + CitationNumerals(raw[n + 2..])
      else CitationNumerals(raw[1..])
  }

  /** The label of the evidence that is written with this numeral. */
  function KnownNumber(numeral: string, evidence: seq<Cited>): (r: Option<nat>)
    ensures forall n: nat :: r == Some(n) <==> KnownLabel(evidence, n) && Decimal(n) == numeral
  {
    if evidence == [] then None
    else
      assert forall x :: x in evidence <==> x == evidence[0] || x in evidence[1..];
      assert forall n :: KnownLabel(evidence, n) <==> n == evidence[0].number || KnownLabel(evidence[1..], n);
      assert forall n: nat | Decimal(n) == Decimal(evidence[0].number) ::
          n == evidence[0].number by { OneNumberPerNumeral(); }
      if Decimal(evidence[0].number) == numeral then Some(evidence[0].number) else KnownNumber(numeral, evidence[1..])
  }

  lemma OneNumberPerNumeral()
    ensures forall n: nat, m: nat | Decimal(n) == Decimal(m) :: n == m
  {
    forall n: nat, m: nat | Decimal(n) == Decimal(m) ensures n == m {
      DecimalInjective(n, m);
    }
  }

  function KnownNumbers(numerals: seq<string>, evidence: seq<Cited>): seq<nat> {
    if numerals == [] then []
    else
      var known := KnownNumber(numerals[0], evidence);
      (if known.Some? then [known.value] else []) + KnownNumbers(numerals[1..], evidence)
  }

  function RawNumbers(citations: seq<Option<string>>, evidence: seq<Cited>): seq<nat> {
    if citations == [] then []
    else
      NumbersIn(citations[0], evidence) + RawNumbers(citations[1..], evidence)
  }

  function NumbersIn(citation: Option<string>, evidence: seq<Cited>): seq<nat> {
    if citation.Some? then KnownNumbers(CitationNumerals(citation.value), evidence) else []
  }

  /** The nested loops of `normalizeCitations`. */
  method NormalizeRawCitations(citations: seq<Option<string>>, evidence: seq<Cited>) returns (unique: seq<nat>)
    ensures unique == NormalizeCitations(RawNumbers(citations, evidence), evidence)
  {
    hide KnownNumber, CitationNumerals, KnownLabel, NormalizeCitations, RawNumbers, KnownNumbers;
    unique := [];
    ghost var read: seq<nat> := [];
    NothingRead(evidence);
    var i := 0;
    while i < |citations|
      invariant 0 <= i <= |citations|
      invariant read == RawNumbers(citations[..i], evidence) && unique == NormalizeCitations(read, evidence)
    {
      NextCitation(citations, i, evidence);
      if citations[i].Some? {
        var numerals := CitationNumerals(citations[i].value);
        ghost var before := read;
        ghost var here: seq<nat> := [];
        var j := 0;
        assert before + here == before;
        while j < |numerals|
          invariant 0 <= j <= |numerals| && here == KnownNumbers(numerals[..j], evidence)
          invariant unique == NormalizeCitations(before + here, evidence)
        {
          var known := KnownNumber(numerals[j], evidence);
          NextNumeral(numerals, j, evidence);
          if known.Some? {
            OneMoreRead(before + here, known.value, evidence);
            assert before + here + [known.value] == before + (here + [known.value]);
            if known.value !in unique {
              unique := unique + [known.value];
            }
            here := here + [known.value];
          }
          j := j + 1;
        }
        assert numerals[..j] == numerals;
        read := before + here;
      }
      i := i + 1;
    }
    assert citations[..i] == citations;
  }

  lemma NothingRead(evidence: seq<Cited>)
    ensures RawNumbers([], evidence) == [] == KnownNumbers([], evidence) && NormalizeCitations([], evidence) == []
  {
  }

  lemma {:induction false} RawNumbersConcat(a: seq<Option<string>>, b: seq<Option<string>>, evidence: seq<Cited>)
    ensures RawNumbers(a + b, evidence) == RawNumbers(a, evidence) + RawNumbers(b, evidence)
    decreases |a|
  {
    hide KnownNumbers, CitationNumerals;
    if a == [] {
      assert a + b == b;
    } else {
      assert (a + b)[1..] == a[1..] + b;
      RawNumbersConcat(a[1..], b, evidence);
    }
  }

  lemma NextCitation(citations: seq<Option<string>>, i: nat, evidence: seq<Cited>)
    requires i < |citations|
    ensures RawNumbers(citations[..i + 1], evidence)
         == RawNumbers(citations[..i], evidence) + NumbersIn(citations[i], evidence)
  {
    hide KnownNumbers, CitationNumerals;
    assert citations[..i + 1] == citations[..i] + [citations[i]];
    RawNumbersConcat(citations[..i], [citations[i]], evidence);
    var none: seq<Option<string>> := [];
    assert [citations[i]][1..] == none;
    assert RawNumbers([citations[i]], evidence) == NumbersIn(citations[i], evidence) + RawNumbers(none, evidence);
  }

  lemma {:induction false} KnownNumbersConcat(a: seq<string>, b: seq<string>, evidence: seq<Cited>)
    ensures KnownNumbers(a + b, evidence) == KnownNumbers(a, evidence) + KnownNumbers(b, evidence)
    decreases |a|
  {
    hide KnownNumber;
    if a == [] {
      assert a + b == b;
    } else {
      assert (a + b)[1..] == a[1..] + b && (a + b)[0] == a[0];
      KnownNumbersConcat(a[1..], b, evidence);
      var known := KnownNumber(a[0], evidence);
      var first := if known.Some? then [known.value] else [];
      assert KnownNumbers(a, evidence) == first + KnownNumbers(a[1..], evidence);
      assert KnownNumbers(a + b, evidence) == first + (KnownNumbers(a[1..], evidence) + KnownNumbers(b, evidence));
    }
  }

  lemma NextNumeral(numerals: seq<string>, j: nat, evidence: seq<Cited>)
    requires j < |numerals|
    ensures var known := KnownNumber(numerals[j], evidence);
            KnownNumbers(numerals[..j + 1], evidence)
            == KnownNumbers(numerals[..j], evidence) + (if known.Some? then [known.value] else [])
  {
    hide KnownNumber;
    assert numerals[..j + 1] == numerals[..j] + [numerals[j]];
    KnownNumbersConcat(numerals[..j], [numerals[j]], evidence);
    var none: seq<string> := [];
    assert [numerals[j]][1..] == none && KnownNumbers(none, evidence) == [];
  }

  lemma OneMoreRead(read: seq<nat>, n: nat, evidence: seq<Cited>)
    ensures var before := NormalizeCitations(read, evidence);
            NormalizeCitations(read + [n], evidence)
            == if KnownLabel(evidence, n) && n !in before then before + [n] else before
  {
    assert (read + [n])[..|read|] == read;
  }

  // ---- exactly the known labels are read ----

  lemma {:induction false} KnownNumbersHold(numerals: seq<string>, evidence: seq<Cited>, n: nat)
    ensures n in KnownNumbers(numerals, evidence) <==> KnownLabel(evidence, n) && Decimal(n) in numerals
    decreases |numerals|
  {
    hide KnownLabel, Decimal;
    if numerals != [] {
      KnownNumbersHold(numerals[1..], evidence, n);
      assert forall x :: x in numerals <==> x == numerals[0] || x in numerals[1..];
    }
  }

  predicate Writes(citations: seq<Option<string>>, numeral: string) {
    exists c | c in citations && c.Some? :: numeral in CitationNumerals(c.value)
  }

  lemma {:induction false} RawNumbersHold(citations: seq<Option<string>>, evidence: seq<Cited>, n: nat)
    ensures n in RawNumbers(citations, evidence) <==> KnownLabel(evidence, n) && Writes(citations, Decimal(n))
    decreases |citations|
  {
    hide KnownLabel, Decimal, CitationNumerals, KnownNumbers;
    if citations != [] {
      RawNumbersHold(citations[1..], evidence, n);
      assert forall x :: x in citations <==> x == citations[0] || x in citations[1..];
      if citations[0].Some? {
        KnownNumbersHold(CitationNumerals(citations[0].value), evidence, n);
      }
    }
  }

  lemma {:induction false} NormalizedHold(numbers: seq<nat>, evidence: seq<Cited>, n: nat)
    ensures n in NormalizeCitations(numbers, evidence) <==> n in numbers && KnownLabel(evidence, n)
    decreases |numbers|
  {
    hide KnownLabel;
    if numbers != [] {
      var k := |numbers| - 1;
      NormalizedHold(numbers[..k], evidence, n);
      assert numbers == numbers[..k] + [numbers[k]];
    }
  }

  /** A label is read exactly when it is known and some citation string writes its numeral in a bracket group. */
  lemma CitedExactly(citations: seq<Option<string>>, evidence: seq<Cited>, n: nat)
    ensures n in NormalizeCitations(RawNumbers(citations, evidence), evidence)
       <==> KnownLabel(evidence, n) && Writes(citations, Decimal(n))
  {
    hide KnownLabel, Decimal, Writes;
    NormalizedHold(RawNumbers(citations, evidence), evidence, n);
    RawNumbersHold(citations, evidence, n);
  }

  // ---- the whole answer ----

  function ReadParagraphs(raws: seq<RawParagraph>, evidence: seq<Cited>): seq<Paragraph> {
    if raws == [] then []
    else
      (match raws[0]
       case NoRecord => []
       case Record(text, citations) =>
         [Paragraph(if text.Some? then text.value else "", RawNumbers(citations, evidence))])
      + ReadParagraphs(raws[1..], evidence)
  }

  /** `answerFromEvidence` on a parsed draft of any shape. */
  function AnswerFromRaw(script: Script, raw: RawAnswer, evidence: seq<Cited>): Answer {
    if raw.Typed? && raw.answerType == "grounded" && raw.paragraphs.Some? then
      AnswerFromEvidence(script, Grounded(ReadParagraphs(raw.paragraphs.value, evidence)), evidence)
    else Insufficient
  }

  /** Whatever the draft holds, no paragraph cites unknown evidence or states what its citations do not. */
  lemma RawAnswerIsSound(script: Script, raw: RawAnswer, evidence: seq<Cited>)
    ensures Sound(script, AnswerFromRaw(script, raw, evidence), evidence)
  {
    hide AnswerFromEvidence, SoundParagraph;
    if raw.Typed? && raw.answerType == "grounded" && raw.paragraphs.Some? {
      AnswerIsSound(script, Grounded(ReadParagraphs(raw.paragraphs.value, evidence)), evidence);
    }
  }

  lemma {:induction false} ReadHolds(raws: seq<RawParagraph>, evidence: seq<Cited>, p: Paragraph)
    ensures p in ReadParagraphs(raws, evidence)
       <==> exists raw | raw in raws ::
              raw.Record?
              && p == Paragraph(if raw.text.Some? then raw.text.value else "", RawNumbers(raw.citations, evidence))
    decreases |raws|
  {
    hide RawNumbers;
    if raws != [] {
      ReadHolds(raws[1..], evidence, p);
      assert forall x :: x in raws <==> x == raws[0] || x in raws[1..];
    }
  }

  /**
    * Which paragraphs a parsed draft yields: those of a grounded answer that are records with text, as they are read,
    * and whose every claim occurs in evidence they cite.
    */
  lemma RawAnswerExactly(script: Script, raw: RawAnswer, evidence: seq<Cited>, q: Paragraph)
    ensures q in ParagraphsOfAnswer(AnswerFromRaw(script, raw, evidence))
       <==> && evidence != [] && q.citations != [] && ClaimsCited(script, q, evidence)
            && raw.Typed? && raw.answerType == "grounded" && raw.paragraphs.Some?
            && exists p | p in raw.paragraphs.value ::
                 && p.Record? && p.text.Some? && Trim(p.text.value) != ""
                 && q == ReadBack(script, Paragraph(p.text.value, RawNumbers(p.citations, evidence)), evidence)
  {
    hide AnswerFromEvidence, ReadParagraphs, ClaimsCited, ReadBack, Trim, RawNumbers;
    if raw.Typed? && raw.answerType == "grounded" && raw.paragraphs.Some? {
      var raws := raw.paragraphs.value;
      AnswerExactly(script, Grounded(ReadParagraphs(raws, evidence)), evidence, q);
      NothingTrims();
      if p :| p in ReadParagraphs(raws, evidence) && Trim(p.text) != "" && q == ReadBack(script, p, evidence) {
        ReadHolds(raws, evidence, p);
      }
      if p :| p in raws && p.Record? && p.text.Some? && Trim(p.text.value) != ""
              && q == ReadBack(script, Paragraph(p.text.value, RawNumbers(p.citations, evidence)), evidence) {
        ReadHolds(raws, evidence, Paragraph(p.text.value, RawNumbers(p.citations, evidence)));
      }
    }
  }

  lemma NothingTrims()
    ensures Trim("") == ""
  {
    TrimTight("");
  }

  // ---- written labels read back ----

  function Decimals(numbers: seq<nat>): (r: seq<string>)
    ensures |r| == |numbers|
  {
    if numbers == [] then [] else [Decimal(numbers[0])] + Decimals(numbers[1..])
  }

  /** Several labels in one bracket group. */
  function ListText(numbers: seq<nat>): string { "[" + Join(Decimals(numbers), ", ") + "]" }

  lemma {:induction false} DigitsJoin(numeral: string, digits: string, rest: string)
    requires forall i :: 0 <= i < |digits| ==> IsDigit(digits[i])
    ensures NumeralsFrom(numeral, digits + rest) == NumeralsFrom(numeral + digits, rest)
    decreases |digits|
  {
    if digits == "" {
      assert digits + rest == rest && numeral + digits == numeral;
    } else {
      assert (digits + rest)[1..] == digits[1..] + rest;
      DigitsJoin(numeral + [digits[0]], digits[1..], rest);
      assert numeral + [digits[0]] + digits[1..] == numeral + digits;
    }
  }

  lemma CommaEnds(numeral: string, rest: string)
    requires numeral != ""
    ensures NumeralsFrom(numeral, ", " + rest) == [numeral] + NumeralsFrom("", rest)
  {
    assert (", " + rest)[1..] == " " + rest && (" " + rest)[1..] == rest;
    assert NumeralsFrom("", " " + rest) == Finished("") + NumeralsFrom("", rest) == NumeralsFrom("", rest);
  }

  lemma {:induction false} ListReads(numbers: seq<nat>)
    requires numbers != []
    ensures NumeralsFrom("", Join(Decimals(numbers), ", ")) == Decimals(numbers)
    decreases |numbers|
  {
    hide Decimal, NumeralsFrom;
    var d := Decimal(numbers[0]);
    assert "" + d == d;
    if |numbers| == 1 {
      DigitsJoin("", d, "");
      assert d + "" == d && Decimals(numbers) == [d];
      assert NumeralsFrom(d, "") == [d] by { EndOfNumerals(d); }
    } else {
      ListReads(numbers[1..]);
      var rest := Join(Decimals(numbers[1..]), ", ");
      assert Decimals(numbers)[1..] == Decimals(numbers[1..]);
      assert Join(Decimals(numbers), ", ") == d + (", " + rest);
      DigitsJoin("", d, ", " + rest);
      CommaEnds(d, rest);
    }
  }

  predicate AllListChars(s: string) { forall i :: 0 <= i < |s| ==> IsListChar(s[i]) }

  lemma ListCharsConcat(a: string, b: string)
    requires AllListChars(a) && AllListChars(b)
    ensures AllListChars(a + b)
  {
    hide IsListChar;
  }

  lemma DigitsAreListChars(digits: string)
    requires forall i :: 0 <= i < |digits| ==> IsDigit(digits[i])
    ensures AllListChars(digits) && AllListChars(", ")
  {
    assert IsListChar(',') && IsListChar(' ');
  }

  /** A list of labels has only list characters between its brackets. */
  lemma {:induction false} ListIsListChars(numbers: seq<nat>)
    requires numbers != []
    ensures AllListChars(Join(Decimals(numbers), ", ")) && Join(Decimals(numbers), ", ") != ""
    decreases |numbers|
  {
    hide AllListChars, Decimal;
    var d := Decimal(numbers[0]);
    DigitsAreListChars(d);
    if |numbers| > 1 {
      ListIsListChars(numbers[1..]);
      var rest := Join(Decimals(numbers[1..]), ", ");
      assert Decimals(numbers)[1..] == Decimals(numbers[1..]);
      assert Join(Decimals(numbers), ", ") == d + ", " + rest;
      ListCharsConcat(d, ", ");
      ListCharsConcat(d + ", ", rest);
    }
  }

  lemma EndOfNumerals(numeral: string)
    requires numeral != ""
    ensures NumeralsFrom(numeral, "") == [numeral]
  {
  }

  lemma {:induction false} ListRunAll(s: string, rest: string)
    requires (forall i :: 0 <= i < |s| ==> IsListChar(s[i])) && (rest == "" || !IsListChar(rest[0]))
    ensures ListRun(s + rest) == |s|
    decreases |s|
  {
    hide IsListChar;
    if s == "" {
      assert s + rest == rest;
    } else {
      assert (s + rest)[1..] == s[1..] + rest;
      ListRunAll(s[1..], rest);
    }
  }

  /** A group written with any labels reads back as their numerals. */
  lemma ListReadsBack(numbers: seq<nat>)
    requires numbers != []
    ensures CitationNumerals(ListText(numbers)) == Decimals(numbers)
  {
    hide NumeralsFrom, IsListChar, Decimals;
    ListReads(numbers);
    ListIsListChars(numbers);
    var inside, raw := Join(Decimals(numbers), ", "), ListText(numbers);
    assert !IsListChar(']') by { CloserEndsList(); }
    ListRunAll(inside, "]");
    assert raw[1..] == inside + "]" && raw[1..|inside| + 1] == inside && raw[|inside| + 2..] == "";
    assert Decimals(numbers) + CitationNumerals("") == Decimals(numbers);
  }

  lemma CloserEndsList()
    ensures !IsListChar(']')
  {
  }

  lemma LabelReadsBack(n: nat)
    ensures CitationNumerals(LabelText(n)) == [Decimal(n)]
  {
    hide Decimal, CitationNumerals;
    ListReadsBack([n]);
    assert Decimals([n]) == [Decimal(n)];
    assert LabelText(n) == ListText([n]);
  }

  function Labels(numbers: seq<nat>): seq<Option<string>> {
    if numbers == [] then [] else [Some(LabelText(numbers[0]))] + Labels(numbers[1..])
  }

  /** The JSON an answer is written as. */
  function RawOf(ps: seq<Paragraph>): seq<RawParagraph> {
    if ps == [] then [] else [Record(Some(ps[0].text), Labels(ps[0].citations))] + RawOf(ps[1..])
  }

  lemma {:induction false} LabelsReadBack(numbers: seq<nat>, evidence: seq<Cited>)
    requires forall n | n in numbers :: KnownLabel(evidence, n)
    ensures RawNumbers(Labels(numbers), evidence) == numbers
    decreases |numbers|
  {
    hide KnownLabel, LabelText, CitationNumerals, Decimal;
    if numbers != [] {
      assert numbers[0] in numbers && forall n | n in numbers[1..] :: n in numbers;
      LabelsReadBack(numbers[1..], evidence);
      LabelReadsBack(numbers[0]);
      var none: seq<string> := [];
      assert [Decimal(numbers[0])][1..] == none;
      assert KnownNumbers([Decimal(numbers[0])], evidence) == [numbers[0]];
    }
  }

  lemma {:induction false} ParagraphsReadBack(ps: seq<Paragraph>, evidence: seq<Cited>)
    requires forall p | p in ps :: forall n | n in p.citations :: KnownLabel(evidence, n)
    ensures ReadParagraphs(RawOf(ps), evidence) == ps
    decreases |ps|
  {
    hide KnownLabel, LabelText;
    if ps != [] {
      assert ps[0] in ps && ps == [ps[0]] + ps[1..];
      LabelsReadBack(ps[0].citations, evidence);
      ParagraphsReadBack(ps[1..], evidence);
    }
  }

  /** A settled answer written as JSON and read again is itself. */
  lemma WrittenAnswerReadsBack(script: Script, ps: seq<Paragraph>, evidence: seq<Cited>)
    requires ps != [] && evidence != [] && forall p | p in ps :: Settled(script, p, evidence)
    ensures AnswerFromRaw(script, Typed("grounded", Some(RawOf(ps))), evidence) == Grounded(ps)
  {
    hide WithSupportedCitations, ParagraphSupported, Trim, KnownLabel, AnswerFromEvidence;
    ParagraphsReadBack(ps, evidence);
    SettledAnswerStays(script, ps, evidence);
  }
}
