/** The reader view: a section's paragraphs cut into plain and cited segments. */
module ReaderSegments {
  import opened Wrappers
  import opened Sequences
  import opened Text

  /** A relied-on span of a section; `citation` is the number of its label, None when it has none. */
  datatype Span = Span(start: int, end: int, citation: Option<nat>)

  datatype Segment = Segment(text: string, citation: Option<nat>, display: Option<nat>)

  // ---- what segments say ----

  function TextOf(segments: seq<Segment>): string {
    if segments == [] then "" else TextOf(segments[..|segments| - 1]) + segments[|segments| - 1].text
  }

  function Repeat(mark: Option<nat>, n: nat): (r: seq<Option<nat>>)
    ensures |r| == n && forall i :: 0 <= i < n ==> r[i] == mark
  {
    seq(n, _ => mark)
  }

  /** The citation of every character. */
  function MarksOf(segments: seq<Segment>): (r: seq<Option<nat>>)
    ensures |r| == |TextOf(segments)|
  {
    if segments == [] then []
    else
      var last := segments[|segments| - 1];
      MarksOf(segments[..|segments| - 1]) + Repeat(last.citation, |last.text|)
  }

  lemma PushSegment(segments: seq<Segment>, s: Segment)
    ensures TextOf(segments + [s]) == TextOf(segments) + s.text
    ensures MarksOf(segments + [s]) == MarksOf(segments) + Repeat(s.citation, |s.text|)
  {
    assert (segments + [s])[..|segments|] == segments;
  }

  predicate Covers(span: Span, at: int) { span.citation.Some? && span.start <= at < span.end }

  predicate Covered(spans: seq<Span>, at: int) { exists span | span in spans :: Covers(span, at) }

  /** The mark of a position: none when no labelled span covers it, else the number of one that does. */
  predicate MarkFits(mark: Option<nat>, spans: seq<Span>, at: int) {
    && (mark.Some? <==> Covered(spans, at))
    && (mark.Some? ==> exists span | span in spans :: Covers(span, at) && span.citation == mark)
  }

  /** The number of the first span that covers a position. */
  function FirstCovering(spans: seq<Span>, at: int): Option<nat> {
    if spans == [] then None
    else if Covers(spans[0], at) then spans[0].citation
    else FirstCovering(spans[1..], at)
  }

  lemma {:induction false} FirstCoveringAt(spans: seq<Span>, i: nat, at: int)
    requires i <= |spans| && forall j :: 0 <= j < i ==> !Covers(spans[j], at)
    ensures i < |spans| && Covers(spans[i], at) ==> FirstCovering(spans, at) == spans[i].citation
    ensures (forall j :: 0 <= j < |spans| ==> !Covers(spans[j], at)) ==> FirstCovering(spans, at) == None
    decreases i, |spans|
  {
    if spans != [] {
      FirstCoveringAt(spans[1..], if i > 0 then i - 1 else 0, at);
    }
  }

  lemma {:induction false} FirstCoveringFits(spans: seq<Span>, at: int)
    ensures MarkFits(FirstCovering(spans, at), spans, at)
    decreases |spans|
  {
    if spans != [] {
      FirstCoveringFits(spans[1..], at);
      assert forall x :: x in spans <==> x == spans[0] || x in spans[1..];
    }
  }

  predicate DisplayFits(s: Segment, display: map<nat, nat>) {
    s.display == if s.citation.Some? && s.citation.value in display then Some(display[s.citation.value]) else None
  }

  /**
    * The segments of a paragraph that starts at `offset`: its text, none empty, every position marked as it should
    * be. Where spans overlap, the one that starts first inside the paragraph gives the mark.
    */
  predicate Segmented(segments: seq<Segment>, text: string, offset: int, spans: seq<Span>, display: map<nat, nat>) {
    && TextOf(segments) == text
    && (forall s | s in segments :: s.text != "" && DisplayFits(s, display))
    && (forall i :: 0 <= i < |text| ==>
                      && MarkFits(MarksOf(segments)[i], spans, offset + i)
                      && MarksOf(segments)[i]
                         == FirstCovering(SortByStart(Inside(spans, offset, offset + |text|)), offset + i))
  }

  // ---- the spans inside a paragraph ----

  function Max(a: int, b: int): int { if a > b then a else b }

  function Min(a: int, b: int): int { if a < b then a else b }

  function Clamp(span: Span, offset: int, end: int): Span {
    Span(Max(span.start, offset), Min(span.end, end), span.citation)
  }

  /** The clamped spans that are not empty and have a label. */
  function Inside(spans: seq<Span>, offset: int, end: int): seq<Span> {
    if spans == [] then []
    else
      var c := Clamp(spans[0], offset, end);
      (if c.end > c.start && c.citation.Some? then [c] else []) + Inside(spans[1..], offset, end)
  }

  predicate StartsNoLater(a: Span, b: Span) { a.start <= b.start }

  function SortByStart(spans: seq<Span>): (r: seq<Span>)
    ensures forall x :: x in r <==> x in spans
  {
    SortBy(StartsNoLater, spans)
  }

  predicate StartsAscend(spans: seq<Span>) { SortedBy(StartsNoLater, spans) }

  lemma SortAscends(spans: seq<Span>)
    ensures StartsAscend(SortByStart(spans))
  {
    SortIsSorted(StartsNoLater, spans);
  }

  predicate Within(spans: seq<Span>, offset: int, end: int) {
    forall span | span in spans :: offset <= span.start < span.end <= end && span.citation.Some?
  }

  /** Clamping changes nothing for positions of the paragraph. */
  lemma {:induction false} InsideCovers(spans: seq<Span>, offset: int, end: int, at: int, mark: Option<nat>)
    requires offset <= at < end
    ensures Within(Inside(spans, offset, end), offset, end)
    ensures (exists s | s in Inside(spans, offset, end) :: Covers(s, at) && s.citation == mark)
       <==> (exists s | s in spans :: Covers(s, at) && s.citation == mark)
    decreases |spans|
  {
    if spans != [] {
      InsideCovers(spans[1..], offset, end, at, mark);
      var c := Clamp(spans[0], offset, end);
      var head := if c.end > c.start && c.citation.Some? then [c] else [];
      assert forall x :: x in Inside(spans, offset, end) <==> x in head || x in Inside(spans[1..], offset, end);
      assert forall x :: x in spans <==> x == spans[0] || x in spans[1..];
      assert Covers(c, at) <==> Covers(spans[0], at);
    }
  }

  lemma MarksFitOutside(mark: Option<nat>, spans: seq<Span>, inside: seq<Span>, offset: int, end: int, at: int)
    requires offset <= at < end && forall x :: x in inside <==> x in Inside(spans, offset, end)
    requires MarkFits(mark, inside, at)
    ensures MarkFits(mark, spans, at)
  {
    InsideCovers(spans, offset, end, at, mark);
    if Covered(inside, at) {
      var s :| s in inside && Covers(s, at);
      InsideCovers(spans, offset, end, at, s.citation);
    }
    if Covered(spans, at) {
      var s :| s in spans && Covers(s, at);
      InsideCovers(spans, offset, end, at, s.citation);
    }
  }

  // ---- segmenting a paragraph ----

  /** Positions from `from` up to `to` belong to no span: those read end before, those to come start after. */
  lemma GapIsPlain(inside: seq<Span>, i: nat, from: int, to: int, at: int)
    requires StartsAscend(inside) && i <= |inside| && from <= at < to
    requires forall j :: 0 <= j < i ==> inside[j].end <= from
    requires i < |inside| ==> to <= inside[i].start
    ensures FirstCovering(inside, at) == None
  {
    forall j | 0 <= j < |inside| ensures !Covers(inside[j], at) {
      assert j > i ==> StartsNoLater(inside[i], inside[j]);
    }
    FirstCoveringAt(inside, 0, at);
  }

  /** The invariant of the cut: text and marks up to the cursor are done. */
  predicate CutUpTo(
    segments: seq<Segment>, text: string, offset: int, inside: seq<Span>, display: map<nat, nat>, cursor: int)
  {
    && offset <= cursor <= offset + |text|
    && TextOf(segments) == text[..cursor - offset]
    && (forall s | s in segments :: s.text != "" && DisplayFits(s, display))
    && (forall k :: 0 <= k < cursor - offset ==> MarksOf(segments)[k] == FirstCovering(inside, offset + k))
  }

  lemma PushKeepsCut(
    segments: seq<Segment>, text: string, offset: int, inside: seq<Span>, display: map<nat, nat>, cursor: int,
    s: Segment, to: int)
    requires CutUpTo(segments, text, offset, inside, display, cursor) && cursor < to <= offset + |text|
    requires s.text == text[cursor - offset..to - offset] && DisplayFits(s, display)
    requires forall at :: cursor <= at < to ==> s.citation == FirstCovering(inside, at)
    ensures CutUpTo(segments + [s], text, offset, inside, display, to)
  {
    hide FirstCovering, DisplayFits;
    PushSegment(segments, s);
    assert text[..cursor - offset] + text[cursor - offset..to - offset] == text[..to - offset];
    assert forall x :: x in segments + [s] <==> x in segments || x == s;
    forall k | 0 <= k < to - offset ensures MarksOf(segments + [s])[k] == FirstCovering(inside, offset + k) {
      if k >= cursor - offset {
        assert MarksOf(segments + [s])[k] == s.citation;
      } else {
        assert MarksOf(segments + [s])[k] == MarksOf(segments)[k];
      }
    }
  }

  function Plain(text: string, offset: int, from: int, to: int): Segment
    requires offset <= from <= to <= offset + |text|
  {
    Segment(text[from - offset..to - offset], None, None)
  }

  /** Text that no span covers is pushed as it is. */
  lemma PlainKeepsCut(
    segments: seq<Segment>, text: string, offset: int, inside: seq<Span>, display: map<nat, nat>, cursor: int,
    to: int, i: nat)
    requires CutUpTo(segments, text, offset, inside, display, cursor) && cursor < to <= offset + |text|
    requires StartsAscend(inside) && i <= |inside| && (i < |inside| ==> to <= inside[i].start)
    requires forall j :: 0 <= j < i ==> inside[j].end <= cursor
    ensures CutUpTo(segments + [Plain(text, offset, cursor, to)], text, offset, inside, display, to)
  {
    hide StartsAscend, CutUpTo, FirstCovering;
    forall at | cursor <= at < to ensures FirstCovering(inside, at) == None {
      GapIsPlain(inside, i, cursor, to, at);
    }
    assert offset <= cursor by { CutBounds(segments, text, offset, inside, display, cursor); }
    PushKeepsCut(segments, text, offset, inside, display, cursor, Plain(text, offset, cursor, to), to);
  }

  lemma CutBounds(
    segments: seq<Segment>, text: string, offset: int, inside: seq<Span>, display: map<nat, nat>, cursor: int)
    requires CutUpTo(segments, text, offset, inside, display, cursor)
    ensures offset <= cursor <= offset + |text|
  {
  }

  function Cited(text: string, offset: int, from: int, span: Span, display: map<nat, nat>): Segment
    requires offset <= from <= span.end <= offset + |text| && span.citation.Some?
  {
    var n := span.citation.value;
    Segment(text[from - offset..span.end - offset], Some(n), if n in display then Some(display[n]) else None)
  }

  lemma CitedKeepsCut(
    segments: seq<Segment>, text: string, offset: int, inside: seq<Span>, display: map<nat, nat>, cursor: int, i: nat)
    requires CutUpTo(segments, text, offset, inside, display, cursor) && i < |inside| && inside[i].citation.Some?
    requires inside[i].start <= cursor < inside[i].end <= offset + |text|
    requires forall j :: 0 <= j < i ==> inside[j].end <= cursor
    ensures offset <= cursor
    ensures CutUpTo(segments + [Cited(text, offset, cursor, inside[i], display)], text, offset, inside, display,
                    inside[i].end)
  {
    hide CutUpTo, FirstCovering;
    CutBounds(segments, text, offset, inside, display, cursor);
    forall at | cursor <= at < inside[i].end ensures FirstCovering(inside, at) == inside[i].citation {
      FirstCoveringAt(inside, i, at);
    }
    PushKeepsCut(segments, text, offset, inside, display, cursor, Cited(text, offset, cursor, inside[i], display),
                 inside[i].end);
  }

  lemma CutIsSegmented(
    segments: seq<Segment>, text: string, offset: int, spans: seq<Span>, inside: seq<Span>, display: map<nat, nat>)
    requires CutUpTo(segments, text, offset, inside, display, offset + |text|)
    requires inside == SortByStart(Inside(spans, offset, offset + |text|))
    ensures Segmented(segments, text, offset, spans, display)
  {
    hide MarkFits, DisplayFits, FirstCovering, SortByStart, Inside, MarksOf;
    forall k | 0 <= k < |text| ensures MarkFits(MarksOf(segments)[k], spans, offset + k) {
      FirstCoveringFits(inside, offset + k);
      MarksFitOutside(MarksOf(segments)[k], spans, inside, offset, offset + |text|, offset + k);
    }
  }

  method SegmentsFor(text: string, offset: int, spans: seq<Span>, display: map<nat, nat>)
    returns (segments: seq<Segment>)
    ensures Segmented(segments, text, offset, spans, display)
  {
    hide CutUpTo, Within, StartsAscend, Segmented, SortByStart, Inside;
    var end := offset + |text|;
    var inside := SortByStart(Inside(spans, offset, end));
    SortAscends(Inside(spans, offset, end));
    InsideWithin(spans, offset, end);
    segments := [];
    var cursor := offset;
    NothingCut(text, offset, inside, display);
    var i := 0;
    while i < |inside|
      invariant 0 <= i <= |inside| && offset <= cursor <= end
      invariant CutUpTo(segments, text, offset, inside, display, cursor)
      invariant forall j :: 0 <= j < i ==> inside[j].end <= cursor
    {
      var span := inside[i];
      SpanWithin(inside, offset, end, i);
      var start := Max(span.start, cursor);
      if span.end > start {
        if start > cursor {
          PlainKeepsCut(segments, text, offset, inside, display, cursor, start, i);
          segments := segments + [Plain(text, offset, cursor, start)];
        }
        CitedKeepsCut(segments, text, offset, inside, display, start, i);
        segments := segments + [Cited(text, offset, start, span, display)];
        cursor := span.end;
      }
      i := i + 1;
    }
    if cursor < end {
      PlainKeepsCut(segments, text, offset, inside, display, cursor, end, i);
      segments := segments + [Plain(text, offset, cursor, end)];
    }
    CutIsSegmented(segments, text, offset, spans, inside, display);
  }

  lemma NothingCut(text: string, offset: int, inside: seq<Span>, display: map<nat, nat>)
    ensures CutUpTo([], text, offset, inside, display, offset)
  {
  }

  lemma InsideWithin(spans: seq<Span>, offset: int, end: int)
    ensures Within(SortByStart(Inside(spans, offset, end)), offset, end)
  {
    InsideAll(spans, offset, end);
  }

  lemma {:induction false} InsideAll(spans: seq<Span>, offset: int, end: int)
    ensures Within(Inside(spans, offset, end), offset, end)
    decreases |spans|
  {
    if spans != [] {
      InsideAll(spans[1..], offset, end);
    }
  }

  lemma SpanWithin(inside: seq<Span>, offset: int, end: int, i: nat)
    requires Within(inside, offset, end) && i < |inside|
    ensures offset <= inside[i].start < inside[i].end <= end && inside[i].citation.Some?
  {
    assert inside[i] in inside;
  }

  // ---- paragraphs of a section ----

  /** A piece of `text.split(/\n{2,}/)` and where it starts. */
  datatype Part = Part(start: nat, text: string)

  /** Length of the run of newlines at the front. */
  function NewlineRun(s: string): (n: nat)
    ensures n <= |s| && (forall i :: 0 <= i < n ==> s[i] == '\n') && (n < |s| ==> s[n] != '\n')
  {
    if s == "" || s[0] != '\n' then 0 else 1 + NewlineRun(s[1..])
  }

  /** The scan of `split`: the piece text[start..at] is being read. */
  function PartsFrom(text: string, start: nat, at: nat): (parts: seq<Part>)
    requires start <= at <= |text|
    ensures parts != []
    decreases |text| - at
  {
    if at == |text| then [Part(start, text[start..at])]
    else
      var run := NewlineRun(text[at..]);
      if run >= 2 then [Part(start, text[start..at])] + PartsFrom(text, at + run, at + run)
      else PartsFrom(text, start, at + 1)
  }

  function Parts(text: string): seq<Part> { PartsFrom(text, 0, 0) }

  predicate AllNewlines(s: string) { forall i :: 0 <= i < |s| ==> s[i] == '\n' }

  predicate HasBreak(s: string) { exists i :: 0 <= i < |s| - 1 && s[i] == '\n' && s[i + 1] == '\n' }

  function EndOf(p: Part): nat { p.start + |p.text| }

  /** The parts tile the text: each where it says, two newlines or more and nothing else between them. */
  predicate Tiles(text: string, parts: seq<Part>, from: nat) {
    && parts != [] && parts[0].start == from && EndOf(parts[|parts| - 1]) == |text|
    && (forall k :: 0 <= k < |parts| ==>
                      EndOf(parts[k]) <= |text| && text[parts[k].start..EndOf(parts[k])] == parts[k].text)
    && (forall k :: 1 <= k < |parts| ==>
                      && EndOf(parts[k - 1]) + 2 <= parts[k].start
                      && AllNewlines(text[EndOf(parts[k - 1])..parts[k].start])
                      && (parts[k].start < |text| ==> text[parts[k].start] != '\n'))
  }

  lemma TilesCons(text: string, p: Part, rest: seq<Part>, from: nat)
    requires EndOf(p) <= from <= |text| && text[p.start..EndOf(p)] == p.text && Tiles(text, rest, from)
    requires EndOf(p) + 2 <= from && AllNewlines(text[EndOf(p)..from]) && (from < |text| ==> text[from] != '\n')
    ensures Tiles(text, [p] + rest, p.start)
  {
    var all := [p] + rest;
    forall k | 1 <= k < |all|
      ensures && EndOf(all[k - 1]) + 2 <= all[k].start && AllNewlines(text[EndOf(all[k - 1])..all[k].start])
              && (all[k].start < |text| ==> text[all[k].start] != '\n')
    {
      if k > 1 {
        assert all[k - 1] == rest[k - 2] && all[k] == rest[k - 1];
      }
    }
  }

  lemma RunIsNewlines(text: string, at: nat)
    requires at <= |text|
    ensures var run := NewlineRun(text[at..]);
            AllNewlines(text[at..at + run]) && (at + run < |text| ==> text[at + run] != '\n')
  {
    var run := NewlineRun(text[at..]);
    assert forall i :: 0 <= i < run ==> text[at..at + run][i] == text[at..][i];
    assert at + run < |text| ==> text[at + run] == text[at..][run];
  }

  lemma TilesStep(text: string, start: nat, at: nat, rest: seq<Part>)
    requires start <= at <= |text|
    requires var run := NewlineRun(text[at..]); run >= 2 && Tiles(text, rest, at + run)
    ensures Tiles(text, [Part(start, text[start..at])] + rest, start)
  {
    hide Tiles, NewlineRun, AllNewlines;
    RunIsNewlines(text, at);
    TilesCons(text, Part(start, text[start..at]), rest, at + NewlineRun(text[at..]));
  }

  lemma {:induction false} PartsTile(text: string, start: nat, at: nat)
    requires start <= at <= |text|
    ensures Tiles(text, PartsFrom(text, start, at), start)
    decreases |text| - at
  {
    hide Tiles, NewlineRun, AllNewlines;
    if at == |text| {
      OnePartTiles(text, start);
    } else {
      var run := NewlineRun(text[at..]);
      if run >= 2 {
        PartsTile(text, at + run, at + run);
        TilesStep(text, start, at, PartsFrom(text, at + run, at + run));
      } else {
        PartsTile(text, start, at + 1);
      }
    }
  }

  lemma OnePartTiles(text: string, start: nat)
    requires start <= |text|
    ensures Tiles(text, [Part(start, text[start..])], start)
  {
  }

  /** `text.indexOf(part, from)`, -1 when there is none. */
  function IndexOfFrom(text: string, part: string, from: nat): (at: int)
    requires from <= |text|
    ensures at == -1 || (from <= at <= |text| && OccursAt(text, part, at))
    ensures forall i: nat :: from <= i <= |text| && OccursAt(text, part, i) ==> at != -1 && at <= i
    decreases |text| - from
  {
    if OccursAt(text, part, from) then from
    else if from == |text| then -1
    else IndexOfFrom(text, part, from + 1)
  }

  /** Searching from the end of the previous part finds the true offset of a part that is not empty. */
  lemma CursorFindsPart(text: string, k: nat)
    requires k < |Parts(text)| && Parts(text)[k].text != ""
    ensures var from := if k == 0 then 0 else EndOf(Parts(text)[k - 1]);
            from <= |text| && IndexOfFrom(text, Parts(text)[k].text, from) == Parts(text)[k].start
  {
    var parts := Parts(text);
    PartsTile(text, 0, 0);
    var from := if k == 0 then 0 else EndOf(parts[k - 1]);
    var p := parts[k];
    assert OccursAt(text, p.text, p.start);
    if k > 0 {
      assert p.text[0] == text[p.start];
      forall i: nat | from <= i < p.start ensures !OccursAt(text, p.text, i) {
        assert text[from..p.start][i - from] == '\n';
        assert i + |p.text| <= |text| ==> text[i..i + |p.text|][0] == text[i];
      }
    }
  }

  lemma StillUnbroken(text: string, start: nat, at: nat)
    requires start <= at < |text| && !HasBreak(text[start..at])
    requires start < at && text[at - 1] == '\n' ==> text[at] != '\n'
    ensures !HasBreak(text[start..at + 1])
  {
    var t, s := text[start..at + 1], text[start..at];
    forall i | 0 <= i < |t| - 1 ensures !(t[i] == '\n' && t[i + 1] == '\n') {
      assert t[i] == text[start + i] && t[i + 1] == text[start + i + 1];
      assert i + 1 < |s| ==> s[i] == t[i] && s[i + 1] == t[i + 1];
    }
  }

  /** No part has a blank line inside. */
  lemma {:induction false} PartsUnbroken(text: string, start: nat, at: nat)
    requires start <= at <= |text| && !HasBreak(text[start..at])
    requires start < at < |text| && text[at - 1] == '\n' ==> text[at] != '\n'
    ensures forall p | p in PartsFrom(text, start, at) :: !HasBreak(p.text)
    decreases |text| - at
  {
    if at < |text| {
      var run := NewlineRun(text[at..]);
      if run >= 2 {
        assert !HasBreak(text[at + run..at + run]);
        PartsUnbroken(text, at + run, at + run);
      } else {
        assert run == 1 && at + 1 < |text| ==> text[at + 1] == text[at..][1];
        assert run == 0 ==> text[at] == text[at..][0];
        StillUnbroken(text, start, at);
        PartsUnbroken(text, start, at + 1);
      }
    }
  }

  /** `split(/\n{2,}/)`: parts without blank lines that tile the text. */
  lemma PartsSplit(text: string)
    ensures Tiles(text, Parts(text), 0) && forall p | p in Parts(text) :: !HasBreak(p.text)
  {
    PartsTile(text, 0, 0);
    assert text[0..0] == "";
    PartsUnbroken(text, 0, 0);
  }

  /** The parts that are shown. */
  function Shown(parts: seq<Part>): seq<Part> {
    if parts == [] then []
    else
      var last := parts[|parts| - 1];
      Shown(parts[..|parts| - 1]) + (if Trim(last.text) != "" then [last] else [])
  }

  lemma ShownPush(parts: seq<Part>, k: nat)
    requires k < |parts|
    ensures Shown(parts[..k + 1]) == Shown(parts[..k]) + (if Trim(parts[k].text) != "" then [parts[k]] else [])
  {
    assert parts[..k + 1][..k] == parts[..k];
  }

  /** Where the cursor stands after a part: at its true end, unless it is an empty last one. */
  lemma CursorFollows(text: string, k: nat, start: int)
    requires k + 1 < |Parts(text)|
    requires var from := if k == 0 then 0 else EndOf(Parts(text)[k - 1]);
             from <= |text| && start == IndexOfFrom(text, Parts(text)[k].text, from)
    ensures start + |Parts(text)[k].text| == EndOf(Parts(text)[k]) && EndOf(Parts(text)[k]) <= |text|
  {
    var parts := Parts(text);
    PartsTile(text, 0, 0);
    if parts[k].text != "" {
      CursorFindsPart(text, k);
    } else {
      var gap := text[EndOf(parts[k])..parts[k + 1].start];
      assert gap[0] == text[parts[k].start] && gap[0] == '\n';
      assert k == 0;
      assert OccursAt(text, "", 0);
    }
  }

  /** Each shown paragraph, segmented at its true offset. */
  predicate ParagraphsFit(
    paragraphs: seq<seq<Segment>>, shown: seq<Part>, spans: seq<Span>, display: map<nat, nat>)
  {
    |paragraphs| == |shown|
    && forall k :: 0 <= k < |shown| ==> Segmented(paragraphs[k], shown[k].text, shown[k].start, spans, display)
  }

  method SectionView(text: string, spans: seq<Span>, display: map<nat, nat>) returns (paragraphs: seq<seq<Segment>>)
    ensures ParagraphsFit(paragraphs, Shown(Parts(text)), spans, display)
  {
    hide Segmented, PartsFrom, Trim, Shown;
    var parts := Parts(text);
    paragraphs := [];
    var cursor := 0;
    var k := 0;
    NoneShown();
    while k < |parts|
      invariant 0 <= k <= |parts| && 0 <= cursor
      invariant k < |parts| ==> cursor == (if k == 0 then 0 else EndOf(parts[k - 1])) && cursor <= |text|
      invariant ParagraphsFit(paragraphs, Shown(parts[..k]), spans, display)
    {
      var part := parts[k].text;
      var start := IndexOfFrom(text, part, cursor);
      ShownPush(parts, k);
      if k + 1 < |parts| {
        CursorFollows(text, k, start);
      }
      if Trim(part) != "" {
        NotBlankNotEmpty(part);
        CursorFindsPart(text, k);
        var segments := SegmentsFor(part, start, spans, display);
        paragraphs := paragraphs + [segments];
      }
      cursor := if start + |part| >= 0 then start + |part| else 0;
      k := k + 1;
    }
    assert parts[..k] == parts;
  }

  lemma NoneShown()
    ensures Shown([]) == []
  {
  }

  lemma NotBlankNotEmpty(part: string)
    requires Trim(part) != ""
    ensures part != ""
  {
    TrimTight("");
  }
}
