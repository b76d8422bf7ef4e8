/** Lists: repetitions, stable sorting, and what sorting forgets. */
module Sequences {

  // ---- repetitions ----

  /** `[...new Set(items)]`: first occurrences, in order. */
  function Distinct<T(==,!new)>(items: seq<T>): (r: seq<T>)
    ensures forall x :: x in r <==> x in items
    ensures forall i, j :: 0 <= i < j < |r| ==> r[i] != r[j]
    ensures |r| <= |items|
  {
    if items == [] then []
    else
      var k := |items| - 1;
      assert items == items[..k] + [items[k]];
      var r := Distinct(items[..k]);
      if items[k] in r then r else r + [items[k]]
  }

  predicate NoRepeats<T(==)>(s: seq<T>) { forall i, j :: 0 <= i < j < |s| ==> s[i] != s[j] }

  lemma {:induction false} OnceCounted<T>(s: seq<T>, x: T)
    requires NoRepeats(s)
    ensures multiset(s)[x] == if x in s then 1 else 0
    decreases |s|
  {
    if s != [] {
      var n := |s| - 1;
      assert s == s[..n] + [s[n]];
      OnceCounted(s[..n], x);
      if x == s[n] {
        assert x !in s[..n];
      }
    }
  }

  lemma TwiceCounted<T>(s: seq<T>, i: nat, j: nat)
    requires i < j < |s| && s[i] == s[j]
    ensures multiset(s)[s[i]] >= 2
  {
    assert s == s[..j] + [s[j]] + s[j + 1..];
    assert s[i] in s[..j];
  }

  /** A list without repetitions is as long as the set of its members. */
  lemma {:induction false} OnceEach<T>(list: seq<T>, members: set<T>)
    requires NoRepeats(list) && forall x :: x in list <==> x in members
    ensures |list| == |members|
    decreases |list|
  {
    if list == [] {
      assert members == {};
    } else {
      assert list == [list[0]] + list[1..];
      assert list[0] !in list[1..];
      OnceEach(list[1..], members - {list[0]});
    }
  }

  /** Reordering keeps a list free of repetitions. */
  lemma ReorderedNoRepeats<T>(s: seq<T>, t: seq<T>)
    requires multiset(s) == multiset(t) && NoRepeats(s)
    ensures NoRepeats(t)
  {
    forall i, j | 0 <= i < j < |t| ensures t[i] != t[j] {
      OnceCounted(s, t[i]);
      if t[i] == t[j] {
        TwiceCounted(t, i, j);
      }
    }
  }

  lemma InSame<T>(s: seq<T>, t: seq<T>, x: T)
    requires multiset(s) == multiset(t)
    ensures x in s <==> x in t
  {
    assert x in s <==> x in multiset(s);
    assert x in t <==> x in multiset(t);
  }

  // ---- sorting ----

  function InsertBy<T(==,!new)>(le: (T, T) -> bool, x: T, s: seq<T>): (r: seq<T>)
    ensures |r| == |s| + 1 && multiset(r) == multiset{x} + multiset(s)
    ensures forall y :: y in r <==> y == x || y in s
  {
    if s == [] || le(x, s[0]) then [x] + s
    else
      assert s == [s[0]] + s[1..];
      [s[0]] + InsertBy(le, x, s[1..])
  }

  /** A stable sort. */
  function SortBy<T(==,!new)>(le: (T, T) -> bool, s: seq<T>): (r: seq<T>)
    ensures |r| == |s| && multiset(r) == multiset(s)
    ensures forall y :: y in r <==> y in s
  {
    if s == [] then []
    else
      assert s == [s[0]] + s[1..];
      InsertBy(le, s[0], SortBy(le, s[1..]))
  }

  predicate SortedBy<T>(le: (T, T) -> bool, s: seq<T>) { forall i, j :: 0 <= i < j < |s| ==> le(s[i], s[j]) }

  ghost predicate TotalPreorder<T(!new)>(le: (T, T) -> bool) {
    && (forall a, b :: le(a, b) || le(b, a))
    && (forall a, b, c :: le(a, b) && le(b, c) ==> le(a, c))
  }

  lemma {:induction false} InsertIsSorted<T(!new)>(le: (T, T) -> bool, x: T, s: seq<T>)
    requires TotalPreorder(le) && SortedBy(le, s)
    ensures SortedBy(le, InsertBy(le, x, s))
    decreases |s|
  {
    if s != [] {
      if le(x, s[0]) {
        forall j | 0 <= j < |s| ensures le(x, s[j]) {
          assert j > 0 ==> le(s[0], s[j]);
        }
      } else {
        InsertIsSorted(le, x, s[1..]);
        var rest := InsertBy(le, x, s[1..]);
        forall j | 0 <= j < |rest| ensures le(s[0], rest[j]) {
          assert rest[j] in rest;
          assert le(x, s[0]) || le(s[0], x);
        }
      }
    }
  }

  lemma {:induction false} SortIsSorted<T(!new)>(le: (T, T) -> bool, s: seq<T>)
    requires TotalPreorder(le)
    ensures SortedBy(le, SortBy(le, s))
    decreases |s|
  {
    hide TotalPreorder;
    if s != [] {
      SortIsSorted(le, s[1..]);
      InsertIsSorted(le, s[0], SortBy(le, s[1..]));
    }
  }

  /** Elements of the list that tie are equal. */
  predicate NoTiesIn<T(==)>(le: (T, T) -> bool, s: seq<T>) {
    forall i, j | 0 <= i < |s| && 0 <= j < |s| :: le(s[i], s[j]) && le(s[j], s[i]) ==> s[i] == s[j]
  }

  lemma SameHead<T>(le: (T, T) -> bool, s: seq<T>, t: seq<T>)
    requires SortedBy(le, s) && SortedBy(le, t) && NoTiesIn(le, s) && multiset(s) == multiset(t) && s != []
    ensures t != [] && s[0] == t[0]
  {
    InSame(s, t, s[0]);
    assert s[0] in t;
    InSame(s, t, t[0]);
    var i :| 0 <= i < |t| && t[i] == s[0];
    var j :| 0 <= j < |s| && s[j] == t[0];
    assert j == 0 || le(s[0], s[j]);
    assert i == 0 || le(t[0], t[i]);
  }

  lemma SameTail<T>(x: T, s: seq<T>, t: seq<T>)
    requires multiset([x] + s) == multiset([x] + t)
    ensures multiset(s) == multiset(t)
  {
    assert multiset(s) == multiset([x] + s) - multiset{x};
    assert multiset(t) == multiset([x] + t) - multiset{x};
  }

  /** Without ties a sorted list is determined by its elements. */
  lemma {:induction false} SortedUnique<T>(le: (T, T) -> bool, s: seq<T>, t: seq<T>)
    requires SortedBy(le, s) && SortedBy(le, t) && NoTiesIn(le, s) && multiset(s) == multiset(t)
    ensures s == t
    decreases |s|
  {
    if s == [] {
      assert |multiset(t)| == 0;
    } else {
      SameHead(le, s, t);
      assert s == [s[0]] + s[1..] && t == [s[0]] + t[1..];
      SameTail(s[0], s[1..], t[1..]);
      SortedUnique(le, s[1..], t[1..]);
    }
  }

  lemma ReorderedNoTies<T>(le: (T, T) -> bool, s: seq<T>, t: seq<T>)
    requires multiset(s) == multiset(t) && NoTiesIn(le, s)
    ensures NoTiesIn(le, t)
  {
    forall i, j | 0 <= i < |t| && 0 <= j < |t| && le(t[i], t[j]) && le(t[j], t[i]) ensures t[i] == t[j] {
      InSame(s, t, t[i]);
      InSame(s, t, t[j]);
      var a :| 0 <= a < |s| && s[a] == t[i];
      var b :| 0 <= b < |s| && s[b] == t[j];
    }
  }

  /** Sorting forgets exactly the order. */
  lemma SortCanonical<T(!new)>(le: (T, T) -> bool, s: seq<T>, t: seq<T>)
    requires TotalPreorder(le) && NoTiesIn(le, s)
    ensures SortBy(le, s) == SortBy(le, t) <==> multiset(s) == multiset(t)
  {
    hide TotalPreorder;
    if multiset(s) == multiset(t) {
      SortIsSorted(le, s);
      SortIsSorted(le, t);
      ReorderedNoTies(le, s, SortBy(le, s));
      SortedUnique(le, SortBy(le, s), SortBy(le, t));
    }
  }
}
