/**
  * Paragraphs of a draft: `text.split(/\n\s*\n/u)`, trimmed, blanks dropped. The main results
  * are that a blank-line join concatenates the paragraphs and that splitting undoes joining.
  */
module Paragraphs {
  import opened Text

  const BLANK_LINE := "\n\n"

  /** One past the last newline in s[..n], 0 when there is none. */
  function PastLastNewline(s: string, n: nat): (m: nat)
    requires n <= |s|
    ensures m <= n
    ensures m > 0 ==> s[m - 1] == '\n'
    ensures forall i :: m <= i < n ==> s[i] != '\n'
  {
    if n == 0 then 0 else if s[n - 1] == '\n' then n else PastLastNewline(s, n - 1)
  }

  /** Length of the greedy match of `\n\s*\n` at the front of `s`, 0 when it does not match there. */
  function MatchBreak(s: string): (m: nat)
    ensures m <= |s| && (m > 0 ==> m >= 2 && Blank(s[..m]))
  {
    if s == "" || s[0] != '\n' then 0
    else
      var m := PastLastNewline(s, SpaceRun(s));
      assert forall i :: 0 <= i < m ==> s[..m][i] == s[..SpaceRun(s)][i];
      if m <= 1 then 0 else m
  }

  /** The scan of `split`: `cur` is the piece read so far. */
  function SplitFrom(cur: string, s: string): (pieces: seq<string>)
    ensures pieces != []
    decreases |s|
  {
    if s == "" then [cur]
    else if MatchBreak(s) > 0 then [cur] + SplitFrom("", s[MatchBreak(s)..])
    else SplitFrom(cur + [s[0]], s[1..])
  }

  function SplitBreaks(text: string): seq<string> { SplitFrom("", text) }

  function TrimAll(pieces: seq<string>): seq<string> {
    if pieces == [] then []
    else (if Trim(pieces[0]) == "" then [] else [Trim(pieces[0])]) + TrimAll(pieces[1..])
  }

  function ParagraphsOf(text: string): seq<string> { TrimAll(SplitBreaks(text)) }

  // ---- blank text around and between paragraphs ----

  lemma TrimAllConcat(a: seq<string>, b: seq<string>)
    ensures TrimAll(a + b) == TrimAll(a) + TrimAll(b)
  {
    if a == [] {
      assert a + b == b;
    } else {
      assert (a + b)[1..] == a[1..] + b;
      TrimAllConcat(a[1..], b);
    }
  }

  lemma TrimAllHead(cur: string, rest: seq<string>)
    ensures TrimAll([cur] + rest) == TrimAll([cur]) + TrimAll(rest)
  {
    TrimAllConcat([cur], rest);
  }

  lemma {:induction false} LeadOfPiece(w: string, cur: string, s: string)
    requires Blank(w)
    ensures TrimAll(SplitFrom(w + cur, s)) == TrimAll(SplitFrom(cur, s))
    decreases |s|
  {
    TrimIgnoresLead(w, cur);
    if s == "" {
    } else if MatchBreak(s) > 0 {
      TrimAllHead(w + cur, SplitFrom("", s[MatchBreak(s)..]));
      TrimAllHead(cur, SplitFrom("", s[MatchBreak(s)..]));
    } else {
      assert w + cur + [s[0]] == w + (cur + [s[0]]);
      LeadOfPiece(w, cur + [s[0]], s[1..]);
    }
  }

  lemma {:induction false} LeadingBlank(w: string, s: string)
    requires Blank(w)
    ensures ParagraphsOf(w + s) == ParagraphsOf(s)
    decreases |w + s|
  {
    hide IsSpace, Trim, MatchBreak;
    if w == "" {
      assert w + s == s;
    } else {
      var t := w + s;
      var m := MatchBreak(t);
      assert t[0] == w[0] && t[1..] == w[1..] + s;
      LeadingBlank(w[1..], s);
      if m > 0 {
        TrimTight("");
        TrimAllHead("", SplitFrom("", t[m..]));
        assert t[1..] == t[1..m] + t[m..];
        assert Blank(t[1..m]) by { assert forall i :: 0 <= i < m - 1 ==> t[1..m][i] == t[..m][i + 1]; }
        LeadingBlank(t[1..m], t[m..]);
      } else {
        assert [t[0]] == "" + [t[0]];
        assert [t[0]] == [t[0]] + "";
        LeadOfPiece([t[0]], "", t[1..]);
      }
    }
  }

  /** Scanning on through white space only ever ends the current piece. */
  lemma {:induction false} BlankRest(cur: string, w: string)
    requires Blank(w)
    ensures TrimAll(SplitFrom(cur, w)) == TrimAll([cur])
    decreases |w|
  {
    if w == "" {
    } else if MatchBreak(w) > 0 {
      TrimAllHead(cur, SplitFrom("", w[MatchBreak(w)..]));
      BlankRest("", w[MatchBreak(w)..]);
    } else {
      BlankRest(cur + [w[0]], w[1..]);
      TrimIgnoresTail(cur, [w[0]]);
    }
  }

  // ---- the blank-line join ----

  /** A break that ends inside `a` is the same break in `a + rest`. */
  lemma MatchBreakExtends(a: string, rest: string)
    requires SpaceRun(a) < |a|
    ensures MatchBreak(a + rest) == MatchBreak(a)
  {
    hide IsSpace, Blank, SpaceRun, PastLastNewline;
    SpaceRunExtends(a, rest);
    SameNewlines(a, rest, SpaceRun(a));
    assert (a + rest)[0] == a[0];
  }

  lemma SameNewlines(a: string, rest: string, n: nat)
    requires n <= |a|
    ensures PastLastNewline(a + rest, n) == PastLastNewline(a, n)
  {
    if n > 0 {
      assert (a + rest)[n - 1] == a[n - 1];
      SameNewlines(a, rest, n - 1);
    }
  }

  /** All of `w` and the blank line belong to one break when `w` is blank and starts with a newline. */
  lemma BreakSwallowsBlank(w: string, b: string)
    requires Blank(w) && (w == "" || w[0] == '\n')
    ensures MatchBreak(w + BLANK_LINE + b) >= |w| + 2
  {
    var t := w + BLANK_LINE + b;
    var n := SpaceRun(t);
    assert t[|w|] == '\n' && t[|w| + 1] == '\n' && (w != "" ==> t[0] == '\n');
    assert forall i :: 0 <= i < |w| ==> t[i] == w[i];
  }

  /** The break that swallows a blank `w`, the blank line and the white space that opens `b`. */
  lemma SplitAtBreak(cur: string, t: string)
    requires MatchBreak(t) > 0
    ensures SplitFrom(cur, t) == [cur] + SplitFrom("", t[MatchBreak(t)..])
  {
    hide MatchBreak;
  }

  lemma BlankMeetsJoin(cur: string, w: string, b: string)
    requires Blank(w) && (w == "" || w[0] == '\n')
    ensures TrimAll(SplitFrom(cur, w + BLANK_LINE + b)) == TrimAll([cur]) + ParagraphsOf(b)
  {
    hide IsSpace, Trim, SpaceRun, PastLastNewline, MatchBreak, Blank, SplitFrom, TrimAll;
    var t := w + BLANK_LINE + b;
    var m := MatchBreak(t);
    BreakSwallowsBlank(w, b);
    SplitAtBreak(cur, t);
    TrimAllHead(cur, SplitFrom("", t[m..]));
    var k := m - |w| - 2;
    var open := b[..k];
    assert t == w + BLANK_LINE + open + b[k..];
    assert t[..m] == w + BLANK_LINE + open && t[m..] == b[k..];
    BlankConcat(w + BLANK_LINE, open);
    LeadingBlank(open, b[k..]);
    assert b == open + b[k..];
  }

  /** Elsewhere the blank line does not change what breaks at the front of `a`. */
  lemma BreakBeforeJoin(a: string, b: string)
    requires a != "" && !(a[0] == '\n' && Blank(a))
    ensures MatchBreak(a + BLANK_LINE + b) == MatchBreak(a)
  {
    hide IsSpace, SpaceRun, PastLastNewline, Blank;
    assert a + BLANK_LINE + b == a + (BLANK_LINE + b);
    if a[0] == '\n' {
      assert a[..|a|] == a;
      MatchBreakExtends(a, BLANK_LINE + b);
    }
  }

  lemma {:induction false} JoinFrom(cur: string, a: string, b: string)
    ensures TrimAll(SplitFrom(cur, a + BLANK_LINE + b)) == TrimAll(SplitFrom(cur, a)) + ParagraphsOf(b)
    decreases |a|
  {
    hide IsSpace, Trim, SpaceRun, PastLastNewline;
    if a == "" || (a[0] == '\n' && Blank(a)) {
      BlankMeetsJoin(cur, a, b);
      BlankRest(cur, a);
    } else {
      hide Blank;
      var t := a + BLANK_LINE + b;
      var m := MatchBreak(t);
      BreakBeforeJoin(a, b);
      hide MatchBreak;
      if m > 0 {
        assert t[m..] == a[m..] + BLANK_LINE + b;
        JoinFrom("", a[m..], b);
        TrimAllHead(cur, SplitFrom("", t[m..]));
        TrimAllHead(cur, SplitFrom("", a[m..]));
      } else {
        assert t[1..] == a[1..] + BLANK_LINE + b;
        JoinFrom(cur + [a[0]], a[1..], b);
      }
    }
  }

  /** Joining two texts with a blank line concatenates their paragraphs, whatever white space meets there. */
  lemma JoinConcatenates(a: string, b: string)
    ensures ParagraphsOf(a + BLANK_LINE + b) == ParagraphsOf(a) + ParagraphsOf(b)
  {
    JoinFrom("", a, b);
  }

  lemma {:induction false} TrailFrom(cur: string, s: string, w: string)
    requires Blank(w)
    ensures TrimAll(SplitFrom(cur, s + w)) == TrimAll(SplitFrom(cur, s))
    decreases |s|
  {
    if Blank(s) {
      BlankConcat(s, w);
      BlankRest(cur, s);
      BlankRest(cur, s + w);
    } else {
      assert s[..|s|] == s;
      MatchBreakExtends(s, w);
      var m := MatchBreak(s);
      if m > 0 {
        assert (s + w)[m..] == s[m..] + w;
        TrailFrom("", s[m..], w);
        TrimAllHead(cur, SplitFrom("", s[m..]));
        TrimAllHead(cur, SplitFrom("", s[m..] + w));
      } else {
        assert (s + w)[1..] == s[1..] + w;
        TrailFrom(cur + [s[0]], s[1..], w);
      }
    }
  }

  /** Trimming a text leaves its paragraphs alone. */
  lemma TrimKeepsParagraphs(s: string)
    ensures ParagraphsOf(Trim(s)) == ParagraphsOf(s)
  {
    hide IsSpace, Trim, SplitFrom, TrimAll, Blank, Tight, SpaceRun, TrimEnd;
    var lead, tail := TrimParts(s);
    LeadingBlank(lead, Trim(s) + tail);
    assert s == lead + (Trim(s) + tail);
    TrailFrom("", Trim(s), tail);
  }

  // ---- splitting undoes joining ----

  /** No blank line starts anywhere in `p`. */
  predicate NoBreaks(p: string) { p == "" || (MatchBreak(p) == 0 && NoBreaks(p[1..])) }

  /** The white space that ends `p` holds no newline. */
  predicate OpenEnd(p: string) { forall i :: |TrimEnd(p)| <= i < |p| ==> p[i] != '\n' }

  /** The white space that starts `p` holds no newline. */
  predicate OpenStart(p: string) { forall i :: 0 <= i < SpaceRun(p) ==> p[i] != '\n' }

  /**
    * What `split` returns: pieces without breaks, with no newline at the ends that meet a separator,
    * and none but the first and the last blank.
    */
  predicate Pieces(ps: seq<string>) {
    && (forall i :: 0 <= i < |ps| ==> NoBreaks(ps[i]))
    && (forall i :: 0 <= i < |ps| - 1 ==> OpenEnd(ps[i]))
    && (forall i :: 1 <= i < |ps| ==> OpenStart(ps[i]))
    && (forall i :: 1 <= i < |ps| - 1 ==> !Blank(ps[i]))
  }

  lemma {:induction false} SplitNoBreaks(cur: string, p: string)
    requires NoBreaks(p)
    ensures SplitFrom(cur, p) == [cur + p]
    decreases |p|
  {
    hide IsSpace, MatchBreak;
    if p == "" {
      assert cur + p == cur;
    } else {
      SplitNoBreaks(cur + [p[0]], p[1..]);
      assert cur + [p[0]] + p[1..] == cur + p;
    }
  }

  lemma OpenEndTail(p: string)
    requires p != "" && OpenEnd(p)
    ensures OpenEnd(p[1..])
  {
    hide IsSpace, Blank;
    var t := |TrimEnd(p)|;
    if t == 0 {
      forall i | |TrimEnd(p[1..])| <= i < |p[1..]| ensures p[1..][i] != '\n' {
        assert p[1..][i] == p[i + 1];
      }
    } else {
      assert p == p[..t] + p[t..];
      assert p[1..] == p[1..t] + p[t..];
      assert t > 1 ==> p[1..t][t - 2] == p[..t][t - 1];
      TrimEndUnique(p[1..t], p[t..]);
      forall i | |TrimEnd(p[1..])| <= i < |p[1..]| ensures p[1..][i] != '\n' {
        assert p[1..][i] == p[i + 1];
      }
    }
  }

  /** An open end and a non-empty text meet without a break. */
  lemma NoBreakAtOpenEnd(p: string, rest: string)
    requires p != "" && NoBreaks(p) && OpenEnd(p)
    ensures MatchBreak(p + rest) == 0
  {
    hide IsSpace, PastLastNewline;
    assert (p + rest)[0] == p[0];
    OpenEndNotBlank(p);
    if p[0] == '\n' {
      MatchBreakExtends(p, rest);
    }
  }

  lemma OpenEndNotBlank(p: string)
    requires p != "" && OpenEnd(p)
    ensures p[0] == '\n' ==> SpaceRun(p) < |p|
  {
    hide IsSpace;
    if SpaceRun(p) == |p| {
      assert p[..|p|] == p && "" + p == p;
      TrimEndUnique("", p);
    }
  }

  lemma BlankLineAlone(rest: string)
    requires OpenStart(rest)
    ensures MatchBreak(BLANK_LINE + rest) == 2
  {
    hide IsSpace;
    var t := BLANK_LINE + rest;
    var n := SpaceRun(rest);
    assert t == (BLANK_LINE + rest[..n]) + rest[n..];
    assert Blank(BLANK_LINE) by { NewlinesAreSpace(); }
    BlankConcat(BLANK_LINE, rest[..n]);
    SpaceRunUnique(BLANK_LINE + rest[..n], rest[n..]);
    forall i | 2 <= i < n + 2 ensures t[i] != '\n' {
      assert t[i] == rest[i - 2];
    }
    assert t[0] == '\n' && t[1] == '\n';
  }

  lemma NewlinesAreSpace()
    ensures Blank(BLANK_LINE)
  {
  }

  lemma {:induction false} SplitAtBlankLine(cur: string, p: string, rest: string)
    requires NoBreaks(p) && OpenEnd(p) && OpenStart(rest)
    ensures SplitFrom(cur, p + BLANK_LINE + rest) == [cur + p] + SplitBreaks(rest)
    decreases |p|
  {
    hide IsSpace, MatchBreak, OpenStart, OpenEnd;
    var t := p + BLANK_LINE + rest;
    if p == "" {
      BlankLineAlone(rest);
      assert t == BLANK_LINE + rest && t[2..] == rest && cur + p == cur;
    } else {
      assert t == p + (BLANK_LINE + rest) && t[0] == p[0];
      NoBreakAtOpenEnd(p, BLANK_LINE + rest);
      OpenEndTail(p);
      assert t[1..] == p[1..] + BLANK_LINE + rest;
      SplitAtBlankLine(cur + [p[0]], p[1..], rest);
      assert cur + [p[0]] + p[1..] == cur + p;
    }
  }

  lemma OpenStartExtends(p: string, rest: string)
    requires OpenStart(p) && !Blank(p)
    ensures OpenStart(p + rest)
  {
    hide IsSpace, Blank;
    assert p[..|p|] == p;
    SpaceRunExtends(p, rest);
    forall i | 0 <= i < SpaceRun(p + rest) ensures (p + rest)[i] != '\n' {
      assert (p + rest)[i] == p[i];
    }
  }

  lemma OpenStartJoin(ps: seq<string>)
    requires ps != [] && OpenStart(ps[0]) && (|ps| > 1 ==> !Blank(ps[0]))
    ensures OpenStart(Join(ps, BLANK_LINE))
  {
    hide IsSpace, Blank, OpenStart;
    if |ps| > 1 {
      OpenStartExtends(ps[0], BLANK_LINE + Join(ps[1..], BLANK_LINE));
      assert Join(ps, BLANK_LINE) == ps[0] + (BLANK_LINE + Join(ps[1..], BLANK_LINE));
    }
  }

  lemma PiecesTail(ps: seq<string>)
    requires |ps| > 1 && Pieces(ps)
    ensures Pieces(ps[1..]) && NoBreaks(ps[0]) && OpenEnd(ps[0]) && OpenStart(ps[1]) && (|ps| > 2 ==> !Blank(ps[1]))
  {
    hide IsSpace, NoBreaks, OpenEnd, OpenStart, Blank;
    assert forall i :: 0 <= i < |ps| - 1 ==> ps[1..][i] == ps[i + 1];
  }

  /** Joining the pieces of a split and splitting again gives the pieces back. */
  lemma {:induction false} SplitUndoesJoin(ps: seq<string>)
    requires ps != [] && Pieces(ps)
    ensures SplitBreaks(Join(ps, BLANK_LINE)) == ps
    decreases |ps|
  {
    if |ps| == 1 {
      SplitNoBreaks("", ps[0]);
      assert "" + ps[0] == ps[0] && ps == [ps[0]];
    } else {
      PiecesTail(ps);
      hide IsSpace, NoBreaks, OpenEnd, OpenStart, Blank, Pieces, SplitFrom;
      OpenStartJoin(ps[1..]);
      SplitAtBlankLine("", ps[0], Join(ps[1..], BLANK_LINE));
      SplitUndoesJoin(ps[1..]);
      assert "" + ps[0] == ps[0] && ps == [ps[0]] + ps[1..];
    }
  }

  /** No break starts inside `cur` when `s` follows it. */
  predicate NoBreaksBefore(cur: string, s: string) {
    cur == "" || (MatchBreak(cur + s) == 0 && NoBreaksBefore(cur[1..], s))
  }

  lemma {:induction false} ReadUnbroken(cur: string, s: string)
    requires NoBreaksBefore(cur, s) && s != "" && MatchBreak(s) == 0
    ensures NoBreaksBefore(cur + [s[0]], s[1..])
    decreases |cur|
  {
    hide MatchBreak;
    assert cur + [s[0]] + s[1..] == cur + s;
    if cur == "" {
      assert cur + [s[0]] == [s[0]] && (cur + [s[0]])[1..] == "" && [s[0]] + s[1..] == s;
    } else {
      ReadUnbroken(cur[1..], s);
      assert (cur + [s[0]])[1..] == cur[1..] + [s[0]];
    }
  }

  /** A break survives whatever text follows it. */
  lemma BreakSurvives(p: string, s: string)
    requires MatchBreak(p) > 0
    ensures MatchBreak(p + s) > 0
  {
    hide IsSpace, Blank;
    var m := MatchBreak(p);
    assert p[m - 1] == '\n';
    if SpaceRun(p) < |p| {
      MatchBreakExtends(p, s);
    } else {
      assert p[..|p|] == p;
      LongerRun(p, s);
      assert (p + s)[0] == p[0] && (p + s)[m - 1] == '\n';
      assert PastLastNewline(p + s, SpaceRun(p + s)) >= m;
    }
  }

  lemma LongerRun(p: string, s: string)
    requires Blank(p)
    ensures SpaceRun(p + s) >= |p|
  {
    hide IsSpace;
    assert forall i :: 0 <= i < |p| ==> (p + s)[i] == p[i];
  }

  lemma {:induction false} UnbrokenAlone(cur: string, s: string)
    requires NoBreaksBefore(cur, s)
    ensures NoBreaks(cur)
    decreases |cur|
  {
    hide MatchBreak;
    if cur != "" {
      UnbrokenAlone(cur[1..], s);
      if MatchBreak(cur) > 0 {
        BreakSurvives(cur, s);
      }
    }
  }

  lemma {:induction false} UnbrokenAt(cur: string, s: string, i: nat)
    requires NoBreaksBefore(cur, s) && i < |cur|
    ensures MatchBreak(cur[i..] + s) == 0
    decreases |cur|
  {
    hide MatchBreak;
    if i == 0 {
      assert cur[0..] == cur;
    } else {
      UnbrokenAt(cur[1..], s, i - 1);
      assert cur[1..][i - 1..] == cur[i..];
    }
  }

  /** White space that holds a newline and is followed by another newline is a break. */
  lemma TwoNewlinesBreak(w: string, s: string)
    requires Blank(w) && w != "" && w[0] == '\n' && s != "" && s[0] == '\n'
    ensures MatchBreak(w + s) > 0
  {
    assert w + s == w + [s[0]] + s[1..];
    BlankConcat(w, [s[0]]);
    LongerRun(w + [s[0]], s[1..]);
    assert (w + s)[0] == '\n' && (w + s)[|w|] == '\n';
  }

  /** The piece read when a break comes ends without a newline. */
  lemma UnbrokenOpenEnd(cur: string, s: string)
    requires NoBreaksBefore(cur, s) && s != "" && s[0] == '\n'
    ensures OpenEnd(cur)
  {
    hide IsSpace, MatchBreak, NoBreaksBefore, Blank;
    forall i | |TrimEnd(cur)| <= i < |cur| ensures cur[i] != '\n' {
      UnbrokenAt(cur, s, i);
      var t := |TrimEnd(cur)|;
      assert cur[t..] == cur[t..i] + cur[i..];
      BlankConcat(cur[t..i], cur[i..]);
      if cur[i] == '\n' {
        TwoNewlinesBreak(cur[i..], s);
      }
    }
  }

  /** What follows a break opens without a newline. */
  lemma AfterBreakOpens(s: string)
    requires MatchBreak(s) > 0
    ensures OpenStart(s[MatchBreak(s)..])
  {
    hide IsSpace;
    var m := MatchBreak(s);
    var n := SpaceRun(s);
    assert s[m..] == s[m..n] + s[n..];
    assert s[..n] == s[..m] + s[m..n];
    BlankConcat(s[..m], s[m..n]);
    SpaceRunUnique(s[m..n], s[n..]);
    forall i | 0 <= i < SpaceRun(s[m..]) ensures s[m..][i] != '\n' {
      assert s[m..][i] == s[m + i];
    }
  }

  lemma OpenStartPrefix(cur: string, s: string)
    requires OpenStart(cur + s)
    ensures OpenStart(cur)
    ensures s != "" && s[0] == '\n' ==> !Blank(cur)
  {
    hide IsSpace;
    if SpaceRun(cur) < |cur| {
      SpaceRunExtends(cur, s);
      assert !IsSpace(cur[SpaceRun(cur)]);
    } else {
      assert cur[..|cur|] == cur;
      LongerRun(cur, s);
      if s != "" && s[0] == '\n' {
        assert cur + s == cur + [s[0]] + s[1..];
        assert Blank([s[0]]) by { NewlinesAreSpace(); assert BLANK_LINE[0] == s[0]; }
        BlankConcat(cur, [s[0]]);
        assert (cur + s)[|cur|] == '\n';
        LongerRun(cur + [s[0]], s[1..]);
      }
    }
    assert forall i :: 0 <= i < |cur| ==> (cur + s)[i] == cur[i];
  }

  predicate InnerPieces(ps: seq<string>, first: bool) {
    Pieces(ps) && (!first && ps != [] ==> OpenStart(ps[0]) && (|ps| > 1 ==> !Blank(ps[0])))
  }

  lemma PiecesCons(p: string, rest: seq<string>, first: bool)
    requires InnerPieces(rest, false) && rest != [] && NoBreaks(p) && OpenEnd(p)
    requires !first ==> OpenStart(p) && !Blank(p)
    ensures InnerPieces([p] + rest, first)
  {
    hide IsSpace, NoBreaks, OpenEnd, OpenStart, Blank;
  }

  lemma {:induction false} SplitFromPieces(first: bool, cur: string, s: string)
    requires NoBreaksBefore(cur, s) && (!first ==> OpenStart(cur + s))
    ensures InnerPieces(SplitFrom(cur, s), first)
    decreases |s|
  {
    hide IsSpace, MatchBreak, NoBreaksBefore, OpenStart, OpenEnd, NoBreaks, Blank;
    if s == "" {
      UnbrokenAlone(cur, s);
      assert cur + s == cur;
    } else if MatchBreak(s) > 0 {
      BreakStartsWithNewline(s);
      UnbrokenAlone(cur, s);
      UnbrokenOpenEnd(cur, s);
      AfterBreakOpens(s);
      if !first {
        OpenStartPrefix(cur, s);
      }
      var rest := s[MatchBreak(s)..];
      assert "" + rest == rest;
      assert NoBreaksBefore("", rest) by { NothingUnbroken(rest); }
      SplitFromPieces(false, "", rest);
      PiecesCons(cur, SplitFrom("", rest), first);
    } else {
      ReadUnbroken(cur, s);
      assert cur + [s[0]] + s[1..] == cur + s;
      SplitFromPieces(first, cur + [s[0]], s[1..]);
    }
  }

  lemma BreakStartsWithNewline(s: string)
    requires MatchBreak(s) > 0
    ensures s[0] == '\n'
  {
  }

  lemma NothingUnbroken(s: string)
    ensures NoBreaksBefore("", s)
  {
  }

  lemma SplitGivesPieces(text: string)
    ensures Pieces(SplitBreaks(text))
  {
    NothingUnbroken(text);
    SplitFromPieces(true, "", text);
  }
}
