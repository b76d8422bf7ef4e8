/** Ranking metrics over rankings with duplicates: recall, reciprocal rank and nDCG. */
module Metrics {
  import opened Wrappers
  import opened Sequences

  /** The discount of a position, 1 / log2(position + 2) in `ndcg`: 1 at first, positive, strictly falling. */
  ghost predicate IsDiscount(discount: nat -> real) {
    && discount(0) == 1.0
    && (forall i: nat :: discount(i) > 0.0)
    && (forall i: nat, j: nat :: i < j ==> discount(i) > discount(j))
  }

  method RankedDocumentIds(documentIds: seq<string>) returns (ranked: seq<string>)
    ensures ranked == Distinct(documentIds)
  {
    var seen: set<string> := {};
    ranked := [];
    var i := 0;
    while i < |documentIds|
      invariant 0 <= i <= |documentIds|
      invariant ranked == Distinct(documentIds[..i]) && forall x :: x in seen <==> x in ranked
    {
      assert documentIds[..i + 1][..i] == documentIds[..i];
      if documentIds[i] !in seen {
        seen := seen + {documentIds[i]};
        ranked := ranked + [documentIds[i]];
      }
      i := i + 1;
    }
    assert documentIds[..i] == documentIds;
  }

  function WantedOf(expected: seq<string>): set<string> { set id | id in expected }

  /** Which places of a window hold a wanted document. */
  function HitsOf(window: seq<string>, wanted: set<string>): (hits: seq<bool>)
    ensures |hits| == |window| && forall i :: 0 <= i < |hits| ==> hits[i] == (window[i] in wanted)
  {
    seq(|window|, i requires 0 <= i < |window| => window[i] in wanted)
  }

  function Count(hits: seq<bool>): (n: nat)
    ensures n <= |hits|
  {
    if hits == [] then 0 else Count(hits[..|hits| - 1]) + (if hits[|hits| - 1] then 1 else 0)
  }

  /** The place of the first hit, None when there is none. */
  function FirstHit(hits: seq<bool>): (r: Option<nat>)
    ensures r.Some? ==> r.value < |hits| && hits[r.value] && forall i :: 0 <= i < r.value ==> !hits[i]
    ensures r.None? ==> forall i :: 0 <= i < |hits| ==> !hits[i]
  {
    if hits == [] then None
    else if hits[0] then Some(0)
    else
      var rest := FirstHit(hits[1..]);
      assert forall i :: 1 <= i < |hits| ==> hits[i] == hits[1..][i - 1];
      if rest.Some? then Some(rest.value + 1) else None
  }

  // ---- distinct wanted documents ----

  /** The wanted documents at the hit places. */
  function Found(window: seq<string>, wanted: set<string>): set<string> { set id | id in window && id in wanted }

  lemma FoundPush(front: seq<string>, id: string, wanted: set<string>)
    requires id !in front
    ensures HitsOf(front + [id], wanted) == HitsOf(front, wanted) + [id in wanted]
    ensures |Found(front + [id], wanted)| == |Found(front, wanted)| + (if id in wanted then 1 else 0)
  {
    var more := Found(front + [id], wanted);
    assert more == Found(front, wanted) + (if id in wanted then {id} else {});
  }

  lemma CountPush(hits: seq<bool>, hit: bool)
    ensures Count(hits + [hit]) == Count(hits) + (if hit then 1 else 0)
  {
    assert (hits + [hit])[..|hits|] == hits;
  }

  /** Without duplicates there are as many hits as wanted documents found. */
  lemma {:induction false} CountIsFound(window: seq<string>, wanted: set<string>)
    requires forall i, j :: 0 <= i < j < |window| ==> window[i] != window[j]
    ensures Count(HitsOf(window, wanted)) == |Found(window, wanted)| <= |wanted|
    decreases |window|
  {
    hide Found, HitsOf, Count;
    if window == [] {
      NothingFound(wanted);
    } else {
      var n := |window| - 1;
      CountIsFound(window[..n], wanted);
      assert window == window[..n] + [window[n]];
      FoundPush(window[..n], window[n], wanted);
      CountPush(HitsOf(window[..n], wanted), window[n] in wanted);
    }
    FoundIsWanted(window, wanted);
    SubsetIsSmaller(Found(window, wanted), wanted);
  }

  lemma NothingFound(wanted: set<string>)
    ensures Found([], wanted) == {} && HitsOf([], wanted) == [] && Count([]) == 0
  {
  }

  lemma FoundIsWanted(window: seq<string>, wanted: set<string>)
    ensures Found(window, wanted) <= wanted
  {
  }

  lemma SubsetIsSmaller(a: set<string>, b: set<string>)
    requires a <= b
    ensures |a| <= |b| && (|a| == |b| ==> a == b)
  {
    assert b == a + (b - a) && |b| == |a| + |b - a|;
  }

  // ---- recall ----

  function Share(a: nat, b: nat): real
    requires b > 0
  {
    a as real / b as real
  }

  function Recall(ranked: seq<string>, wanted: set<string>, requireAll: bool): real {
    if wanted == {} then 0.0
    else
      var found := Count(HitsOf(Distinct(ranked), wanted));
      if requireAll then Share(found, |wanted|) else if found > 0 then 1.0 else 0.0
  }

  method RecallOf(ranked: seq<string>, expected: seq<string>, requireAll: bool) returns (score: real)
    ensures score == Recall(ranked, WantedOf(expected), requireAll)
  {
    var wanted := WantedOf(expected);
    if wanted == {} {
      return 0.0;
    }
    var distinct := RankedDocumentIds(ranked);
    var found := 0;
    var i := 0;
    var hits := HitsOf(distinct, wanted);
    while i < |hits|
      invariant 0 <= i <= |hits| && found == Count(hits[..i])
    {
      assert hits[..i + 1][..i] == hits[..i];
      if hits[i] {
        found := found + 1;
      }
      i := i + 1;
    }
    assert hits[..i] == hits;
    score := if requireAll then Share(found, |wanted|) else if found > 0 then 1.0 else 0.0;
  }

  /** Recall is a share; it is 1 exactly when all (or, if asked, any) wanted documents are ranked. */
  lemma RecallIsShare(ranked: seq<string>, wanted: set<string>, requireAll: bool)
    ensures 0.0 <= Recall(ranked, wanted, requireAll) <= 1.0
    ensures Recall(ranked, wanted, requireAll) == 1.0
       <==> wanted != {} && if requireAll then forall id | id in wanted :: id in ranked
            else exists id | id in wanted :: id in ranked
    ensures Recall(ranked, wanted, requireAll) == 0.0 <==> forall id | id in wanted :: id !in ranked
  {
    hide HitsOf, Count, Share;
    var distinct := Distinct(ranked);
    CountIsFound(distinct, wanted);
    FoundDistinct(ranked, wanted);
    if wanted != {} {
      ShareBounds(|Found(distinct, wanted)|, |wanted|);
    }
  }

  lemma FoundDistinct(ranked: seq<string>, wanted: set<string>)
    ensures |Found(Distinct(ranked), wanted)| == |wanted| <==> forall id | id in wanted :: id in ranked
    ensures |Found(Distinct(ranked), wanted)| > 0 <==> exists id | id in wanted :: id in ranked
  {
    var found := Found(Distinct(ranked), wanted);
    assert forall id :: id in found <==> id in wanted && id in ranked;
    SubsetIsSmaller(found, wanted);
    if (forall id | id in wanted :: id in ranked) {
      assert found == wanted;
    }
    if |found| > 0 {
      var id :| id in found;
    }
    if id :| id in wanted && id in ranked {
      assert id in found;
    }
  }

  /** With all documents required, recall times the wanted documents is the number of them that are ranked. */
  lemma RecallCounts(ranked: seq<string>, wanted: set<string>)
    requires wanted != {}
    ensures Recall(ranked, wanted, true) * |wanted| as real == |set id | id in wanted && id in ranked| as real
  {
    hide HitsOf, Count;
    CountIsFound(Distinct(ranked), wanted);
    assert Found(Distinct(ranked), wanted) == set id | id in wanted && id in ranked;
  }

  lemma ShareBounds(a: nat, b: nat)
    requires a <= b && b > 0
    ensures 0.0 <= Share(a, b) <= 1.0
    ensures Share(a, b) == 1.0 <==> a == b
    ensures Share(a, b) == 0.0 <==> a == 0
  {
  }

  // ---- reciprocal rank ----

  function ReciprocalRank(ranked: seq<string>, wanted: set<string>): real {
    if wanted == {} then 0.0
    else
      match FirstHit(HitsOf(Distinct(ranked), wanted))
      case None => 0.0
      case Some(i) => Share(1, i + 1)
  }

  method ReciprocalRankOf(ranked: seq<string>, expected: seq<string>) returns (score: real)
    ensures score == ReciprocalRank(ranked, WantedOf(expected))
  {
    var wanted := WantedOf(expected);
    if wanted == {} {
      return 0.0;
    }
    var distinct := RankedDocumentIds(ranked);
    var i := 0;
    while i < |distinct|
      invariant 0 <= i <= |distinct| && forall j :: 0 <= j < i ==> distinct[j] !in wanted
    {
      if distinct[i] in wanted {
        FirstHitAt(HitsOf(distinct, wanted), i);
        return 1.0 / (i + 1) as real;
      }
      i := i + 1;
    }
    score := 0.0;
  }

  lemma FirstHitAt(hits: seq<bool>, i: nat)
    requires i < |hits| && hits[i] && forall j :: 0 <= j < i ==> !hits[j]
    ensures FirstHit(hits) == Some(i)
  {
  }

  /**
    * The reciprocal rank is a share; it is 1 exactly when a wanted document leads the ranking, 0 when none is
    * ranked.
    */
  lemma ReciprocalRankIsShare(ranked: seq<string>, wanted: set<string>)
    ensures 0.0 <= ReciprocalRank(ranked, wanted) <= 1.0
    ensures ReciprocalRank(ranked, wanted) == 1.0 <==> ranked != [] && ranked[0] in wanted
    ensures ReciprocalRank(ranked, wanted) == 0.0 <==> forall id | id in wanted :: id !in ranked
  {
    hide Share;
    var distinct := Distinct(ranked);
    var hits := HitsOf(distinct, wanted);
    DistinctHead(ranked);
    if FirstHit(hits).Some? {
      var i := FirstHit(hits).value;
      ShareBounds(1, i + 1);
      assert distinct[i] in distinct && distinct[i] in wanted;
    } else {
      forall j | 0 <= j < |distinct| ensures distinct[j] !in wanted {
        assert !hits[j];
      }
      assert forall id :: id in distinct ==> id !in wanted;
    }
  }

  /** What comes later does not change the distinct documents so far. */
  lemma {:induction false} DistinctPrefix(front: seq<string>, rest: seq<string>)
    ensures Distinct(front) <= Distinct(front + rest)
    decreases |rest|
  {
    if rest == [] {
      assert front + rest == front;
    } else {
      var n := |rest| - 1;
      assert (front + rest)[..|front + rest| - 1] == front + rest[..n];
      DistinctPrefix(front, rest[..n]);
    }
  }

  lemma DistinctCounts(s: seq<string>)
    ensures |Distinct(s)| == |set x | x in s|
  {
    OnceEach(Distinct(s), set x | x in s);
  }

  /** The first wanted document counts with one over its place among the distinct documents ranked up to it. */
  lemma ReciprocalRankAt(front: seq<string>, id: string, rest: seq<string>, wanted: set<string>)
    requires id in wanted && forall x | x in front :: x !in wanted
    ensures ReciprocalRank(front + [id] + rest, wanted) == 1.0 / (|set x | x in front| + 1) as real
  {
    var ranked := front + [id] + rest;
    assert (front + [id])[..|front|] == front && id !in front;
    assert Distinct(front + [id]) == Distinct(front) + [id];
    DistinctPrefix(front + [id], rest);
    DistinctCounts(front);
    var distinct, k := Distinct(ranked), |Distinct(front)|;
    assert distinct[k] == id;
    forall j | 0 <= j < k ensures distinct[j] !in wanted {
      assert distinct[j] == Distinct(front)[j] && Distinct(front)[j] in Distinct(front);
    }
    FirstHitAt(HitsOf(distinct, wanted), k);
  }

  lemma {:induction false} DistinctHead(s: seq<string>)
    ensures s != [] ==> Distinct(s) != [] && Distinct(s)[0] == s[0]
    decreases |s|
  {
    if |s| > 1 {
      DistinctHead(s[..|s| - 1]);
    }
  }

  // ---- nDCG ----

  /** The discounted gain of the hits. */
  function Gain(discount: nat -> real, hits: seq<bool>): real {
    if hits == [] then 0.0
    else
      var n := |hits| - 1;
      Gain(discount, hits[..n]) + (if hits[n] then discount(n) else 0.0)
  }

  /** The gain of n hits in the first n places. */
  function Ideal(discount: nat -> real, n: nat): real {
    if n == 0 then 0.0 else Ideal(discount, n - 1) + discount(n - 1)
  }

  lemma {:induction false} IdealGrows(discount: nat -> real, m: nat, n: nat)
    requires IsDiscount(discount) && m <= n
    ensures Ideal(discount, m) <= Ideal(discount, n) && (Ideal(discount, m) == Ideal(discount, n) <==> m == n)
    decreases n
  {
    if m < n {
      IdealGrows(discount, m, n - 1);
    }
  }

  /** What one place contributes. */
  lemma {:induction false} GainOfPlace(discount: nat -> real, hits: seq<bool>, i: nat)
    requires i < |hits| && hits[i]
    ensures Gain(discount, hits) == Gain(discount, hits[i := false]) + discount(i)
    decreases |hits|
  {
    var n := |hits| - 1;
    if i < n {
      GainOfPlace(discount, hits[..n], i);
      assert hits[i := false][..n] == hits[..n][i := false];
    } else {
      assert hits[i := false][..n] == hits[..n];
    }
  }

  /** A hit that moves up gains the difference of the discounts, which is positive. */
  lemma EarlierGainsMore(discount: nat -> real, hits: seq<bool>, i: nat, j: nat)
    requires IsDiscount(discount) && i < j < |hits| && !hits[i] && hits[j]
    ensures Gain(discount, hits[i := true][j := false]) == Gain(discount, hits) + discount(i) - discount(j)
    ensures Gain(discount, hits[i := true][j := false]) > Gain(discount, hits)
  {
    var moved := hits[i := true][j := false];
    GainOfPlace(discount, hits, j);
    GainOfPlace(discount, moved, i);
    assert moved[i := false] == hits[j := false];
  }

  /** Rearrangement: hits gain at most what as many leading hits would, and that only when they lead. */
  lemma {:induction false} GainAtMostIdeal(discount: nat -> real, hits: seq<bool>)
    requires IsDiscount(discount)
    ensures 0.0 <= Gain(discount, hits) <= Ideal(discount, Count(hits))
    ensures Gain(discount, hits) == Ideal(discount, Count(hits)) <==> forall i :: 0 <= i < Count(hits) ==> hits[i]
    decreases |hits|
  {
    if hits != [] {
      var n := |hits| - 1;
      GainAtMostIdeal(discount, hits[..n]);
      var c := Count(hits[..n]);
      assert forall i :: 0 <= i < n ==> hits[..n][i] == hits[i];
      if hits[n] {
        assert c < n ==> discount(n) < discount(c);
        if c < n {
          NotAllLead(hits, c);
        }
      }
    }
  }

  /** When the last place is a hit that not all places before are, some place before the count is no hit. */
  lemma {:induction false} NotAllLead(hits: seq<bool>, c: nat)
    requires hits != [] && hits[|hits| - 1] && c == Count(hits[..|hits| - 1]) < |hits| - 1
    ensures !(forall i :: 0 <= i < Count(hits) ==> hits[i])
  {
    var n := |hits| - 1;
    if forall i :: 0 <= i < c + 1 ==> hits[i] {
      LeadingCount(hits[..n], c + 1);
    }
  }

  lemma {:induction false} LeadingCount(hits: seq<bool>, c: nat)
    requires c <= |hits| && forall i :: 0 <= i < c ==> hits[i]
    ensures Count(hits) >= c
    decreases |hits|
  {
    if hits != [] {
      var n := |hits| - 1;
      LeadingCount(hits[..n], if c <= n then c else n);
    }
  }

  function WindowOf(ranked: seq<string>, k: nat): seq<string> {
    var distinct := Distinct(ranked);
    if k <= |distinct| then distinct[..k] else distinct
  }

  function IdealCount(wanted: set<string>, k: nat): nat { if k < |wanted| then k else |wanted| }

  /** None when k is not positive. */
  function Ndcg(
    discount: nat -> real, ranked: seq<string>, wanted: set<string>, k: int, requireAll: bool): Option<real> {
    if k <= 0 then None
    else if wanted == {} then Some(0.0)
    else
      var hits := HitsOf(WindowOf(ranked, k), wanted);
      if !requireAll then
        match FirstHit(hits)
        case None => Some(0.0)
        case Some(i) => Some(discount(i))
      else
        var ideal := Ideal(discount, IdealCount(wanted, k));
        Some(if ideal == 0.0 then 0.0 else Gain(discount, hits) / ideal)
  }

  method NdcgOf(discount: nat -> real, ranked: seq<string>, expected: seq<string>, k: int, requireAll: bool)
    returns (score: Option<real>)
    ensures score == Ndcg(discount, ranked, WantedOf(expected), k, requireAll)
  {
    hide Distinct, FirstHit;
    if k <= 0 {
      return None;
    }
    var wanted := WantedOf(expected);
    if wanted == {} {
      return Some(0.0);
    }
    var distinct := RankedDocumentIds(ranked);
    var window := if k <= |distinct| then distinct[..k] else distinct;
    ghost var hits := HitsOf(window, wanted);
    if !requireAll {
      var j := 0;
      while j < |window|
        invariant 0 <= j <= |window| && forall i :: 0 <= i < j ==> !hits[i]
      {
        if window[j] in wanted {
          FirstHitAt(hits, j);
          return Some(discount(j));
        }
        j := j + 1;
      }
      assert FirstHit(hits) == None;
      return Some(0.0);
    }
    var dcg := 0.0;
    var i := 0;
    while i < |window|
      invariant 0 <= i <= |window| && dcg == Gain(discount, hits[..i])
    {
      assert hits[..i + 1][..i] == hits[..i];
      if window[i] in wanted {
        dcg := dcg + discount(i);
      }
      i := i + 1;
    }
    assert hits[..i] == hits;
    var count := if k < |wanted| then k else |wanted|;
    var ideal := 0.0;
    var position := 0;
    while position < count
      invariant 0 <= position <= count && ideal == Ideal(discount, position)
    {
      ideal := ideal + discount(position);
      position := position + 1;
    }
    score := Some(if ideal == 0.0 then 0.0 else dcg / ideal);
  }

  lemma RatioBounds(a: real, b: real)
    requires 0.0 <= a <= b && b > 0.0
    ensures 0.0 <= a / b <= 1.0 && (a / b == 1.0 <==> a == b)
  {
  }

  lemma WindowDistinct(ranked: seq<string>, k: nat)
    ensures var w := WindowOf(ranked, k);
            |w| <= k && forall i, j :: 0 <= i < j < |w| ==> w[i] != w[j]
  {
    hide Distinct;
  }

  /** The gain of a window against the ideal one. */
  lemma GainOfWindow(discount: nat -> real, window: seq<string>, wanted: set<string>, k: nat)
    requires IsDiscount(discount) && |window| <= k && forall i, j :: 0 <= i < j < |window| ==> window[i] != window[j]
    ensures var hits, m := HitsOf(window, wanted), IdealCount(wanted, k);
            && 0.0 <= Gain(discount, hits) <= Ideal(discount, m)
            && (Gain(discount, hits) == Ideal(discount, m) <==> m <= |window| && forall i :: 0 <= i < m ==>
                                                                                               window[i] in wanted)
  {
    hide Gain, Ideal, IsDiscount, Found;
    var hits, m := HitsOf(window, wanted), IdealCount(wanted, k);
    var c := Count(hits);
    CountIsFound(window, wanted);
    GainAtMostIdeal(discount, hits);
    assert c <= m;
    IdealGrows(discount, c, m);
    if m <= |window| && forall i :: 0 <= i < m ==> hits[i] {
      LeadingCount(hits, m);
    }
  }

  /**
    * nDCG lies between 0 and 1. With all documents required it is 1 exactly when the first places, as many as k and
    * the wanted documents allow, all hold wanted documents; with any document required, when a wanted one leads.
    */
  lemma NdcgIsShare(discount: nat -> real, ranked: seq<string>, wanted: set<string>, k: nat, requireAll: bool)
    requires IsDiscount(discount) && k >= 1
    ensures var score := Ndcg(discount, ranked, wanted, k, requireAll);
            score.Some? && 0.0 <= score.value <= 1.0
    ensures requireAll && wanted != {} ==>
              var window, m := WindowOf(ranked, k), IdealCount(wanted, k);
              Ndcg(discount, ranked, wanted, k, true) == Some(1.0)
              <==> m <= |window| && forall i :: 0 <= i < m ==> window[i] in wanted
    ensures !requireAll ==>
              (Ndcg(discount, ranked, wanted, k, false) == Some(1.0) <==> ranked != [] && ranked[0] in wanted)
  {
    hide Gain, Ideal, Distinct, HitsOf;
    var window := WindowOf(ranked, k);
    WindowDistinct(ranked, k);
    DistinctHead(ranked);
    GainOfWindow(discount, window, wanted, k);
    IdealGrows(discount, 0, IdealCount(wanted, k));
    IdealOfNone(discount);
    if wanted != {} {
      RatioBounds(Gain(discount, HitsOf(window, wanted)), Ideal(discount, IdealCount(wanted, k)));
    }
  }

  lemma IdealOfNone(discount: nat -> real)
    ensures Ideal(discount, 0) == 0.0
  {
  }
}
