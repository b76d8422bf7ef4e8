/** Hashed group keys of access shapes: a length-prefixed text, canonical up to list order. */
module AclGroup {
  import opened Text
  import opened Sequences

  datatype AccessScope = Public | Role | Department | Private

  datatype AclShape = AclShape(
    scope: AccessScope, allowedRoles: seq<string>, allowedDepartments: seq<string>, ownerUserId: string)

  const ACL_GROUP_WIDTH := 32

  function ScopeText(scope: AccessScope): string {
    match scope
    case Public => "public"
    case Role => "role"
    case Department => "department"
    case Private => "private"
  }

  // ---- order of strings ----

  /** Code unit order. */
  predicate AtMost(a: string, b: string) {
    a == "" || (b != "" && (a[0] < b[0] || (a[0] == b[0] && AtMost(a[1..], b[1..]))))
  }

  lemma {:induction false} AtMostTotal(a: string, b: string)
    ensures AtMost(a, b) || AtMost(b, a)
    ensures AtMost(a, b) && AtMost(b, a) ==> a == b
    decreases |a|
  {
    if a != "" && b != "" && a[0] == b[0] {
      AtMostTotal(a[1..], b[1..]);
      assert a == [a[0]] + a[1..] && b == [b[0]] + b[1..];
    }
  }

  lemma {:induction false} AtMostChain(a: string, b: string, c: string)
    requires AtMost(a, b) && AtMost(b, c)
    ensures AtMost(a, c)
    decreases |a|
  {
    if a != "" && a[0] == b[0] && b[0] == c[0] {
      AtMostChain(a[1..], b[1..], c[1..]);
    }
  }

  lemma AtMostIsTotal()
    ensures TotalPreorder(AtMost)
    ensures forall a, b :: AtMost(a, b) && AtMost(b, a) ==> a == b
  {
    hide AtMost;
    forall a, b ensures (AtMost(a, b) || AtMost(b, a)) && (AtMost(a, b) && AtMost(b, a) ==> a == b) {
      AtMostTotal(a, b);
    }
    forall a, b, c | AtMost(a, b) && AtMost(b, c) ensures AtMost(a, c) {
      AtMostChain(a, b, c);
    }
  }

  /** `[...s].sort()`. */
  function Sort(s: seq<string>): (r: seq<string>)
    ensures |r| == |s| && multiset(r) == multiset(s)
  {
    SortBy(AtMost, s)
  }

  /** Two lists sort alike exactly when they hold the same strings equally often. */
  lemma SortForgetsOrder(s: seq<string>, t: seq<string>)
    ensures Sort(s) == Sort(t) <==> multiset(s) == multiset(t)
  {
    hide AtMost;
    AtMostIsTotal();
    SortCanonical(AtMost, s, t);
  }

  // ---- the length-prefixed encoding ----

  function Part(part: string): string { Decimal(|part|) + ":" + part }

  function Encode(parts: seq<string>): string {
    if parts == [] then "" else Part(parts[0]) + Encode(parts[1..])
  }

  /** A part and what follows it are read back uniquely. */
  lemma PartSplits(p: string, x: string, q: string, y: string)
    requires Part(p) + x == Part(q) + y
    ensures p == q && x == y
  {
    var s := Part(p) + x;
    var m, n := |Decimal(|p|)|, |Decimal(|q|)|;
    assert s[m] == ':' && s[n] == ':';
    assert forall i :: 0 <= i < m ==> s[i] == Decimal(|p|)[i];
    assert forall i :: 0 <= i < n ==> s[i] == Decimal(|q|)[i];
    assert m == n;
    assert Decimal(|p|) == s[..m] == Decimal(|q|);
    DecimalInjective(|p|, |q|);
    assert p == s[m + 1..][..|p|] && q == s[m + 1..][..|q|];
    assert x == s[m + 1 + |p|..] && y == s[m + 1 + |q|..];
  }

  lemma PartNotEmpty(p: string)
    ensures |Part(p)| > 0
  {
  }

  /** The encoding is injective. */
  lemma {:induction false} EncodeInjective(a: seq<string>, b: seq<string>)
    requires Encode(a) == Encode(b)
    ensures a == b
    decreases |a|
  {
    hide Part;
    if a != [] {
      PartNotEmpty(a[0]);
    }
    if b != [] {
      PartNotEmpty(b[0]);
    }
    if a != [] && b != [] {
      PartSplits(a[0], Encode(a[1..]), b[0], Encode(b[1..]));
      EncodeInjective(a[1..], b[1..]);
      assert a == [a[0]] + a[1..] && b == [b[0]] + b[1..];
    }
  }

  // ---- group keys ----

  /** The text under the hash. */
  function Canonical(shape: AclShape): string {
    Encode([ScopeText(shape.scope), Encode(Sort(shape.allowedRoles)), Encode(Sort(shape.allowedDepartments)),
            shape.ownerUserId])
  }

  /** The same access shape up to the order of its lists. */
  predicate SameShape(a: AclShape, b: AclShape) {
    && a.scope == b.scope && multiset(a.allowedRoles) == multiset(b.allowedRoles)
    && multiset(a.allowedDepartments) == multiset(b.allowedDepartments) && a.ownerUserId == b.ownerUserId
  }

  lemma ScopeTextInjective(a: AccessScope, b: AccessScope)
    requires ScopeText(a) == ScopeText(b)
    ensures a == b
  {
    assert |"public"| == 6 && |"role"| == 4 && |"department"| == 10 && |"private"| == 7;
  }

  /** Two shapes have the same canonical text exactly when they are the same up to list order. */
  lemma CanonicalIdentifiesShape(a: AclShape, b: AclShape)
    ensures Canonical(a) == Canonical(b) <==> SameShape(a, b)
  {
    hide Encode, Sort, ScopeText;
    SortForgetsOrder(a.allowedRoles, b.allowedRoles);
    SortForgetsOrder(a.allowedDepartments, b.allowedDepartments);
    if Canonical(a) == Canonical(b) {
      var p := [ScopeText(a.scope), Encode(Sort(a.allowedRoles)), Encode(Sort(a.allowedDepartments)), a.ownerUserId];
      var q := [ScopeText(b.scope), Encode(Sort(b.allowedRoles)), Encode(Sort(b.allowedDepartments)), b.ownerUserId];
      EncodeInjective(p, q);
      assert p[0] == q[0] && p[1] == q[1] && p[2] == q[2] && p[3] == q[3];
      ScopeTextInjective(a.scope, b.scope);
      EncodeInjective(Sort(a.allowedRoles), Sort(b.allowedRoles));
      EncodeInjective(Sort(a.allowedDepartments), Sort(b.allowedDepartments));
    }
  }

  /** The digest cut to the width of a group key. */
  function ShortDigest(digest: string -> string, text: string): string {
    var hex := digest(text);
    if |hex| <= ACL_GROUP_WIDTH then hex else hex[..ACL_GROUP_WIDTH]
  }

  /** `aclGroupKey`. */
  function GroupKey(digest: string -> string, shape: AclShape): string { ShortDigest(digest, Canonical(shape)) }

  /** The shortened digest does not collide on these texts. */
  predicate CollisionFree(digest: string -> string, texts: set<string>) {
    forall s, t | s in texts && t in texts :: ShortDigest(digest, s) == ShortDigest(digest, t) ==> s == t
  }

  /** Without collisions a key names one shape. */
  lemma KeyIdentifiesShape(digest: string -> string, texts: set<string>, a: AclShape, b: AclShape)
    requires CollisionFree(digest, texts) && Canonical(a) in texts && Canonical(b) in texts
    ensures GroupKey(digest, a) == GroupKey(digest, b) <==> SameShape(a, b)
  {
    hide Canonical;
    CanonicalIdentifiesShape(a, b);
  }
}
