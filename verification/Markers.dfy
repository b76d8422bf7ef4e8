/** Citation markers in prose: the matches of `\[(\d{1,2})\]|〔(\d{1,2})〕`. */
module Markers {
  import opened Text
  import opened Evidence

  predicate Opens(c: char) { c == '[' || c == '\U{3014}' }

  function Closer(c: char): char { if c == '[' then ']' else '\U{3015}' }

  /** Length of the marker at the front of `s`, 0 when there is none. */
  function MarkerLength(s: string): (n: nat)
    ensures n <= |s| && (n == 0 || n == 3 || n == 4)
    ensures n > 0 ==> ShortNumber(s[1..n - 1]).Some?
  {
    if s == "" || !Opens(s[0]) then 0
    else if |s| >= 3 && IsDigit(s[1]) && s[2] == Closer(s[0]) then 3
    else if |s| >= 4 && IsDigit(s[1]) && IsDigit(s[2]) && s[3] == Closer(s[0]) then 4
    else 0
  }

  /** The text after the marker, or the character, at the front. */
  function Rest(s: string): (r: string)
    requires s != ""
    ensures |r| < |s|
  {
    if MarkerLength(s) > 0 then s[MarkerLength(s)..] else s[1..]
  }

  function FrontText(s: string): string
    requires s != ""
  {
    if MarkerLength(s) > 0 then "" else [s[0]]
  }

  function FrontNumber(s: string): (numbers: seq<nat>)
    requires s != ""
    ensures forall n | n in numbers :: n >= 1
  {
    if MarkerLength(s) == 0 then []
    else
      var n := ShortNumber(s[1..MarkerLength(s) - 1]).value;
      if n >= 1 then [n] else []
  }

  /** `replace(MARKER_RE, "")`. */
  function StripMarkers(s: string): string
    decreases |s|
  {
    if s == "" then "" else FrontText(s) + StripMarkers(Rest(s))
  }

  /** `citedMarkerIndexes`: the numbers of the markers, zeros dropped. */
  function MarkerNumbers(s: string): (numbers: seq<nat>)
    ensures forall n | n in numbers :: n >= 1
    decreases |s|
  {
    if s == "" then [] else FrontNumber(s) + MarkerNumbers(Rest(s))
  }

  function LabelsText(numbers: seq<nat>): string {
    if numbers == [] then "" else LabelText(numbers[0]) + LabelsText(numbers[1..])
  }

  /** A marker cannot start before and end after an opening bracket. */
  lemma MarkerStaysBefore(p: string, q: string)
    requires p != "" && (q == "" || q[0] == '[')
    ensures MarkerLength(p + q) == MarkerLength(p)
  {
    var t := p + q;
    assert forall i :: 0 <= i < |p| ==> t[i] == p[i];
    assert q != "" ==> t[|p|] == '[';
  }

  lemma FrontStays(p: string, q: string)
    requires p != "" && (q == "" || q[0] == '[')
    ensures Rest(p + q) == Rest(p) + q && FrontText(p + q) == FrontText(p) && FrontNumber(p + q) == FrontNumber(p)
  {
    hide MarkerLength, ShortNumber;
    MarkerStaysBefore(p, q);
    var n := MarkerLength(p);
    assert (p + q)[0] == p[0];
    if n > 0 {
      assert (p + q)[1..n - 1] == p[1..n - 1];
      assert (p + q)[n..] == p[n..] + q;
    } else {
      assert (p + q)[1..] == p[1..] + q;
    }
  }

  lemma {:induction false} NumbersConcat(p: string, q: string)
    requires q == "" || q[0] == '['
    ensures MarkerNumbers(p + q) == MarkerNumbers(p) + MarkerNumbers(q)
    decreases |p|
  {
    hide Rest, FrontNumber;
    if p == "" {
      assert p + q == q;
    } else {
      FrontStays(p, q);
      NumbersConcat(Rest(p), q);
    }
  }

  lemma {:induction false} StripConcat(p: string, q: string)
    requires q == "" || q[0] == '['
    ensures StripMarkers(p + q) == StripMarkers(p) + StripMarkers(q)
    decreases |p|
  {
    hide Rest, FrontText;
    if p == "" {
      assert p + q == q;
    } else {
      FrontStays(p, q);
      StripConcat(Rest(p), q);
    }
  }

  /** Markers and stripped text of a concatenation that meets at an opening bracket. */
  lemma MarkersConcat(p: string, q: string)
    requires q == "" || q[0] == '['
    ensures MarkerNumbers(p + q) == MarkerNumbers(p) + MarkerNumbers(q)
    ensures StripMarkers(p + q) == StripMarkers(p) + StripMarkers(q)
  {
    NumbersConcat(p, q);
    StripConcat(p, q);
  }

  lemma LabelIsMarker(n: nat)
    requires 1 <= n <= 99
    ensures MarkerNumbers(LabelText(n)) == [n] && StripMarkers(LabelText(n)) == ""
    ensures LabelText(n)[0] == '['
  {
    DecimalLength(n);
    var t := LabelText(n);
    var d := Decimal(n);
    assert t[1..|t| - 1] == d && t[1] == d[0] && t[|t| - 1] == ']';
    assert |d| == 2 ==> t[2] == d[1];
    assert |d| == 1 || |d| == 2;
    assert MarkerLength(t) == |t| by { assert |d| == 2 ==> t[2] != ']'; }
    assert t[|t|..] == "";
  }

  predicate Printable(numbers: seq<nat>) { forall i :: 0 <= i < |numbers| ==> 1 <= numbers[i] <= 99 }

  lemma {:induction false} LabelsAreMarkers(numbers: seq<nat>)
    requires Printable(numbers)
    ensures MarkerNumbers(LabelsText(numbers)) == numbers && StripMarkers(LabelsText(numbers)) == ""
    ensures numbers != [] ==> LabelsText(numbers) != "" && LabelsText(numbers)[0] == '['
    decreases |numbers|
  {
    if numbers != [] {
      hide MarkerNumbers, StripMarkers, LabelText;
      LabelIsMarker(numbers[0]);
      LabelsAreMarkers(numbers[1..]);
      MarkersConcat(LabelText(numbers[0]), LabelsText(numbers[1..]));
    }
  }

  /** Appending labels adds exactly those markers and leaves the stripped text alone. */
  lemma AppendLabels(p: string, numbers: seq<nat>)
    requires Printable(numbers)
    ensures MarkerNumbers(p + LabelsText(numbers)) == MarkerNumbers(p) + numbers
    ensures StripMarkers(p + LabelsText(numbers)) == StripMarkers(p)
  {
    LabelsAreMarkers(numbers);
    MarkersConcat(p, LabelsText(numbers));
  }

  /** Labels hold no white space. */
  lemma {:induction false} LabelsHaveNoSpace(numbers: seq<nat>)
    ensures forall i :: 0 <= i < |LabelsText(numbers)| ==> !IsSpace(LabelsText(numbers)[i])
    decreases |numbers|
  {
    if numbers != [] {
      LabelsHaveNoSpace(numbers[1..]);
      DigitsAreNoSpace(Decimal(numbers[0]));
    }
  }

  lemma DigitsAreNoSpace(s: string)
    requires forall i :: 0 <= i < |s| ==> IsDigit(s[i])
    ensures forall i :: 0 <= i < |"[" + s + "]"| ==> !IsSpace(("[" + s + "]")[i])
  {
    var t := "[" + s + "]";
    forall i | 0 <= i < |t| ensures !IsSpace(t[i]) {
      if 1 <= i < |t| - 1 {
        assert t[i] == s[i - 1];
      }
    }
  }

  /** Markers of either kind of bracket with one or two digits, and no others. */
  lemma MarkersExactly(s: string)
    ensures MarkerLength(s) == 3 <==> |s| >= 3 && s[0] in "[\U{3014}" && IsDigit(s[1]) && s[2] == Closing(s[0])
    ensures MarkerLength(s) == 4
       <==> |s| >= 4 && s[0] in "[\U{3014}" && IsDigit(s[1]) && IsDigit(s[2]) && s[3] == Closing(s[0])
    ensures s != "" && MarkerLength(s) == 3 && s[1] != '0' ==> FrontNumber(s) == [(s[1] - '0') as nat]
    ensures s != "" && MarkerLength(s) == 4 && (s[1] != '0' || s[2] != '0') ==>
              FrontNumber(s) == [10 * (s[1] - '0') as nat + (s[2] - '0') as nat]
  {
  }

  function Closing(c: char): char { if c == '\U{3014}' then '\U{3015}' else ']' }
}
