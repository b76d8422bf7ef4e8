/**
  * Text as the grounding code sees it. A string is a sequence of UTF-16 code units; `char` covers every unit outside
  * the surrogate range.
  */
module Text {

  /** The white space that `\s` and `trim` recognise. */
  predicate IsSpace(c: char) {
    || c == ' ' || '\t' <= c <= '\r' || c == '\U{A0}' || c == '\U{1680}'
    || '\U{2000}' <= c <= '\U{200A}' || c == '\U{2028}' || c == '\U{2029}' || c == '\U{202F}'
    || c == '\U{205F}' || c == '\U{3000}' || c == '\U{FEFF}'
  }

  predicate IsDigit(c: char) { '0' <= c <= '9' }

  /** `String(n)`. */
  function Decimal(n: nat): (s: string)
    ensures s != "" && forall i :: 0 <= i < |s| ==> IsDigit(s[i])
  {
    (if n < 10 then "" else Decimal(n / 10)) + ['0' + (n % 10) as char]
  }

  predicate Blank(s: string) { forall i :: 0 <= i < |s| ==> IsSpace(s[i]) }

  predicate OccursAt(s: string, part: string, i: nat) {
    i + |part| <= |s| && s[i..i + |part|] == part
  }

  predicate Includes(s: string, part: string) {
    exists i: nat | i <= |s| :: OccursAt(s, part, i)
  }

  /** Length of the white space at the front of `s`. */
  function SpaceRun(s: string): (n: nat)
    ensures n <= |s| && Blank(s[..n])
    ensures n < |s| ==> !IsSpace(s[n])
  {
    if s == "" || !IsSpace(s[0]) then 0
    else
      var n := SpaceRun(s[1..]);
      assert s[..n + 1] == [s[0]] + s[1..][..n];
      n + 1
  }

  function TrimStart(s: string): string { s[SpaceRun(s)..] }

  function TrimEnd(s: string): (t: string)
    ensures |t| <= |s| && t == s[..|t|] && Blank(s[|t|..])
    ensures t != "" ==> !IsSpace(t[|t| - 1])
  {
    if s == "" || !IsSpace(s[|s| - 1]) then s else TrimEnd(s[..|s| - 1])
  }

  function Trim(s: string): string { TrimEnd(TrimStart(s)) }

  /** Empty, or with no white space at either end. */
  predicate Tight(s: string) {
    s == "" || (!IsSpace(s[0]) && !IsSpace(s[|s| - 1]))
  }

  function Join(parts: seq<string>, separator: string): string {
    if parts == [] then ""
    else if |parts| == 1 then parts[0]
    else parts[0] + separator + Join(parts[1..], separator)
  }

  lemma BlankConcat(a: string, b: string)
    ensures Blank(a + b) <==> Blank(a) && Blank(b)
  {
    assert forall i :: 0 <= i < |a| ==> (a + b)[i] == a[i];
    assert forall i :: 0 <= i < |b| ==> (a + b)[|a| + i] == b[i];
  }

  lemma SpaceRunUnique(w: string, s: string)
    requires Blank(w) && (s == "" || !IsSpace(s[0]))
    ensures SpaceRun(w + s) == |w|
  {
    hide IsSpace;
    var t := w + s;
    assert forall i :: 0 <= i < |w| ==> t[i] == w[i];
    assert forall i :: 0 <= i < SpaceRun(t) ==> t[..SpaceRun(t)][i] == t[i];
    assert s != "" ==> t[|w|] == s[0];
  }

  lemma SpaceRunExtends(a: string, rest: string)
    requires SpaceRun(a) < |a|
    ensures SpaceRun(a + rest) == SpaceRun(a)
  {
    hide IsSpace, Blank;
    if IsSpace(a[0]) {
      SpaceRunExtends(a[1..], rest);
      assert (a + rest)[1..] == a[1..] + rest;
    }
  }

  lemma TrimEndUnique(t: string, w: string)
    requires Blank(w) && (t == "" || !IsSpace(t[|t| - 1]))
    ensures TrimEnd(t + w) == t
  {
    hide IsSpace;
    if w == "" {
      assert t + w == t;
    } else {
      assert (t + w)[..|t + w| - 1] == t + w[..|w| - 1];
      TrimEndUnique(t, w[..|w| - 1]);
    }
  }

  /** `Trim` cuts a text into white space, a tight core and white space. */
  lemma TrimParts(s: string) returns (lead: string, tail: string)
    ensures s == lead + Trim(s) + tail
    ensures Blank(lead) && Blank(tail) && Tight(Trim(s))
  {
    hide IsSpace, Blank, SpaceRun, TrimEnd;
    var t := s[SpaceRun(s)..];
    lead := s[..SpaceRun(s)];
    tail := t[|TrimEnd(t)|..];
    assert s == lead + t;
    assert t == TrimEnd(t) + tail;
  }

  lemma BlankTrim(s: string)
    ensures Trim(s) == "" <==> Blank(s)
  {
    hide IsSpace, Trim;
    var lead, tail := TrimParts(s);
    BlankConcat(lead, Trim(s));
    BlankConcat(lead + Trim(s), tail);
    assert Trim(s) != "" ==> !IsSpace(Trim(s)[0]);
  }

  /** Trimming only the end keeps the white space in front. */
  lemma TrimEndOnly(lead: string, core: string, tail: string)
    requires Blank(lead) && Blank(tail) && Tight(core) && core != ""
    ensures TrimEnd(lead + core + tail) == lead + core
  {
    hide IsSpace, Blank;
    assert (lead + core)[|lead + core| - 1] == core[|core| - 1];
    TrimEndUnique(lead + core, tail);
  }

  /** The cut is unique. */
  lemma TrimUnique(lead: string, core: string, tail: string)
    requires Blank(lead) && Blank(tail) && Tight(core)
    ensures Trim(lead + core + tail) == core
  {
    hide IsSpace, Blank;
    var s := lead + core + tail;
    if core == "" {
      BlankConcat(lead, tail);
      assert s == lead + tail;
      BlankTrim(s);
    } else {
      assert s == lead + (core + tail);
      assert (core + tail)[0] == core[0];
      SpaceRunUnique(lead, core + tail);
      assert TrimStart(s) == core + tail;
      TrimEndUnique(core, tail);
    }
  }

  lemma TrimIgnoresBlankEnds(lead: string, s: string, tail: string)
    requires Blank(lead) && Blank(tail)
    ensures Trim(lead + s + tail) == Trim(s)
  {
    hide IsSpace, Trim, Blank, Tight, SpaceRun, TrimEnd;
    var a, b := TrimParts(s);
    BlankConcat(lead, a);
    BlankConcat(b, tail);
    TrimUnique(lead + a, Trim(s), b + tail);
    assert lead + s + tail == (lead + a) + Trim(s) + (b + tail);
  }

  lemma TrimIgnoresLead(lead: string, s: string)
    requires Blank(lead)
    ensures Trim(lead + s) == Trim(s)
  {
    TrimIgnoresBlankEnds(lead, s, "");
    assert lead + s + "" == lead + s;
  }

  lemma TrimIgnoresTail(s: string, tail: string)
    requires Blank(tail)
    ensures Trim(s + tail) == Trim(s)
  {
    TrimIgnoresBlankEnds("", s, tail);
    assert "" + s + tail == s + tail;
  }

  lemma TrimTight(s: string)
    requires Tight(s)
    ensures Trim(s) == s
  {
    TrimUnique("", s, "");
    assert "" + s + "" == s;
  }

  lemma {:induction false} DecimalInjective(n: nat, m: nat)
    requires Decimal(n) == Decimal(m)
    ensures n == m
    decreases n
  {
    var s, t := Decimal(n), Decimal(m);
    assert s[|s| - 1] == '0' + (n % 10) as char && t[|t| - 1] == '0' + (m % 10) as char;
    assert s[..|s| - 1] == (if n < 10 then "" else Decimal(n / 10));
    assert t[..|t| - 1] == (if m < 10 then "" else Decimal(m / 10));
    if n >= 10 && m >= 10 {
      DecimalInjective(n / 10, m / 10);
    }
  }
}
