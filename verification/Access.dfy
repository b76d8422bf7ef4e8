/** The access decision of one chunk, and the group keys the vector index filters by. */
module Access {
  import opened Wrappers
  import opened AclGroup
  import opened Sequences

  const ADMIN_ROLE := "admin"
  const MAX_FILTER_TERMS := 40

  datatype Principal = Principal(userId: string, roles: seq<string>, departments: seq<string>)

  datatype AclFilter = AclFilter(userId: string, roles: seq<string>, departments: seq<string>)

  /** A metadata value: a text, or another kind of JSON value with its printed form. */
  datatype MetaValue = MetaText(value: string) | MetaOther(kind: OtherKind, printed: string)

  datatype OtherKind = JsonNull | JsonNumber | JsonBoolean | JsonArray | JsonObject

  datatype Controlled = Controlled(
    scope: string, allowedRoles: seq<string>, allowedDepartments: seq<string>,
    ownerUserId: Option<string>, metadata: Option<map<string, MetaValue>>)

  datatype Verdict = Allowed | Refused(reason: string)

  const OWNER_KEY := "owner_user_id"

  /** The metadata's owner when it names one at all, the record's own field otherwise; "" is nobody. */
  function OwnerFromControlled(item: Controlled): string {
    if item.metadata.Some? && OWNER_KEY in item.metadata.value then
      match item.metadata.value[OWNER_KEY]
      case MetaText(owner) => owner
      case MetaOther(_, _) => ""
    else if item.ownerUserId.Some? then item.ownerUserId.value
    else ""
  }

  predicate Overlap(a: seq<string>, b: seq<string>) { exists x | x in a :: x in b }

  function CanAccessChunk(principal: Principal, chunk: Controlled): Verdict {
    if chunk.scope == "public" then Allowed
    else if chunk.scope == "department" then
      if chunk.allowedDepartments == [] then Refused("department_scope_empty")
      else if Overlap(chunk.allowedDepartments, principal.departments) then Allowed
      else Refused("department_denied")
    else if chunk.scope == "role" then
      if chunk.allowedRoles == [] then Refused("role_scope_empty")
      else if exists role | role in chunk.allowedRoles :: role != ADMIN_ROLE && role in principal.roles then Allowed
      else Refused("role_denied")
    else if chunk.scope == "private" then
      var owner := OwnerFromControlled(chunk);
      if owner != "" && owner == principal.userId then Allowed else Refused("private_denied")
    else Refused("unknown_scope")
  }

  predicate CanAccess(principal: Principal, chunk: Controlled) { CanAccessChunk(principal, chunk) == Allowed }

  /** The chunk names this user as its owner; metadata that has the key at all decides alone. */
  predicate OwnedBy(chunk: Controlled, userId: string) {
    && userId != ""
    && if chunk.metadata.Some? && "owner_user_id" in chunk.metadata.value
       then chunk.metadata.value["owner_user_id"] == MetaText(userId)
       else chunk.ownerUserId == Some(userId)
  }

  /** Who may read: everybody, a shared department, a shared role other than "admin", or the named owner. */
  lemma ReadsExactly(principal: Principal, chunk: Controlled)
    ensures CanAccess(principal, chunk)
       <==> || chunk.scope == "public"
            || (chunk.scope == "department" && exists d | d in chunk.allowedDepartments :: d in principal.departments)
            || (chunk.scope == "role" && exists r | r in chunk.allowedRoles :: r != "admin" && r in principal.roles)
            || (chunk.scope == "private" && OwnedBy(chunk, principal.userId))
  {
    if chunk.scope == "department" && CanAccess(principal, chunk) {
      var d :| d in chunk.allowedDepartments && d in principal.departments;
    }
    NamesDiffer();
  }

  lemma NamesDiffer()
    ensures "public" != "department" && "public" != "role" && "public" != "private" && "department" != "role"
    ensures "department" != "private" && "role" != "private"
  {
    assert |"public"| == 6 && |"role"| == 4 && |"department"| == 10 && |"private"| == 7;
  }

  /** The reason a refusal gives. */
  lemma RefusedBecause(principal: Principal, chunk: Controlled)
    requires !CanAccess(principal, chunk)
    ensures var verdict := CanAccessChunk(principal, chunk);
            && (chunk.scope == "department" ==>
                  verdict
                  == Refused(if chunk.allowedDepartments == [] then "department_scope_empty" else "department_denied"))
            && (chunk.scope == "role" ==>
                  verdict == Refused(if chunk.allowedRoles == [] then "role_scope_empty" else "role_denied"))
            && (chunk.scope == "private" ==> verdict == Refused("private_denied"))
            && (chunk.scope !in {"department", "role", "private"} ==> verdict == Refused("unknown_scope"))
  {
    hide OwnerFromControlled, Overlap;
    NamesDiffer();
  }

  // ---- the filter a principal carries ----

  function WithoutAdmin(roles: seq<string>): (r: seq<string>)
    ensures forall x :: x in r <==> x in roles && x != ADMIN_ROLE
  {
    if roles == [] then []
    else
      assert roles == [roles[0]] + roles[1..];
      (if roles[0] != ADMIN_ROLE then [roles[0]] else []) + WithoutAdmin(roles[1..])
  }

  /** None when the principal has too many roles or departments for the store-side filter. */
  function AclFilterFor(principal: Principal): Option<AclFilter> {
    var roles := WithoutAdmin(Distinct(principal.roles));
    var departments := Distinct(principal.departments);
    if |roles| > MAX_FILTER_TERMS || |departments| > MAX_FILTER_TERMS then None
    else Some(AclFilter(principal.userId, roles, departments))
  }

  /** There is a filter exactly up to 40 distinct roles other than "admin" and 40 distinct departments. */
  lemma FilterExactly(principal: Principal)
    ensures AclFilterFor(principal).Some?
       <==> && |set r | r in principal.roles && r != "admin"| <= 40
            && |set d | d in principal.departments| <= 40
    ensures AclFilterFor(principal).Some? ==>
              var filter := AclFilterFor(principal).value;
              && filter.userId == principal.userId
              && (forall r :: r in filter.roles <==> r in principal.roles && r != "admin")
              && (forall d :: d in filter.departments <==> d in principal.departments)
              && NoRepeats(filter.roles) && NoRepeats(filter.departments)
  {
    var roles, departments := WithoutAdmin(Distinct(principal.roles)), Distinct(principal.departments);
    WithoutAdminOnce(Distinct(principal.roles));
    OnceEach(roles, set r | r in principal.roles && r != "admin");
    OnceEach(departments, set d | d in principal.departments);
  }

  lemma {:induction false} WithoutAdminOnce(roles: seq<string>)
    requires NoRepeats(roles)
    ensures NoRepeats(WithoutAdmin(roles))
    decreases |roles|
  {
    if roles != [] {
      assert roles == [roles[0]] + roles[1..];
      WithoutAdminOnce(roles[1..]);
      assert roles[0] !in roles[1..];
    }
  }

  function AsPrincipal(filter: AclFilter): Principal { Principal(filter.userId, filter.roles, filter.departments) }

  predicate ChunkMatchesFilter(filter: AclFilter, chunk: Controlled) { CanAccess(AsPrincipal(filter), chunk) }

  /** The filter decides like the principal it was made for; the admin role never grants a read. */
  lemma FilterDecidesLikePrincipal(principal: Principal, chunk: Controlled)
    requires AclFilterFor(principal).Some?
    ensures ChunkMatchesFilter(AclFilterFor(principal).value, chunk) <==> CanAccess(principal, chunk)
  {
    hide Distinct, WithoutAdmin, OwnerFromControlled;
    var filter := AclFilterFor(principal).value;
    if Overlap(chunk.allowedDepartments, principal.departments) {
      var x :| x in chunk.allowedDepartments && x in principal.departments;
      assert x in filter.departments;
    }
    if role :| role in chunk.allowedRoles && role != ADMIN_ROLE && role in principal.roles {
      assert role in filter.roles;
    }
  }

  // ---- shapes and keys ----

  function ScopeOf(text: string): Option<AccessScope> {
    if text == "public" then Some(Public)
    else if text == "department" then Some(Department)
    else if text == "role" then Some(Role)
    else if text == "private" then Some(Private)
    else None
  }

  /** None when the scope is missing or invalid. */
  function AclShapeFor(chunk: Controlled): Option<AclShape> {
    var scope := ScopeOf(chunk.scope);
    if scope.None? then None
    else Some(AclShape(scope.value, Sort(chunk.allowedRoles), Sort(chunk.allowedDepartments),
                       OwnerFromControlled(chunk)))
  }

  function ShapeAsChunk(shape: AclShape): Controlled {
    Controlled(ScopeText(shape.scope), shape.allowedRoles, shape.allowedDepartments, Some(shape.ownerUserId), None)
  }

  predicate GroupMatchesFilter(filter: AclFilter, shape: AclShape) { ChunkMatchesFilter(filter, ShapeAsChunk(shape)) }

  /** A key the principal may read under. */
  predicate AllowedKey(digest: string -> string, filter: AclFilter, shapes: seq<AclShape>, key: string) {
    exists shape | shape in shapes :: GroupMatchesFilter(filter, shape) && GroupKey(digest, shape) == key
  }

  /** The enumerated keys: sorted, each once, exactly the allowed ones. */
  method EnumerateAllowedAclGroups(digest: string -> string, filter: AclFilter, shapes: seq<AclShape>)
    returns (keys: seq<string>)
    ensures forall key :: key in keys <==> AllowedKey(digest, filter, shapes, key)
    ensures SortedBy(AtMost, keys) && NoRepeats(keys)
  {
    hide GroupMatchesFilter, GroupKey, AtMost;
    var found: seq<string> := [];
    var seen: set<string> := {};
    var i := 0;
    while i < |shapes|
      invariant 0 <= i <= |shapes|
      invariant forall key :: key in found <==> AllowedKey(digest, filter, shapes[..i], key)
      invariant forall key :: key in found <==> key in seen
      invariant NoRepeats(found)
    {
      AllowedByOneMore(digest, filter, shapes, i);
      if GroupMatchesFilter(filter, shapes[i]) {
        var key := GroupKey(digest, shapes[i]);
        if key !in seen {
          seen := seen + {key};
          found := found + [key];
        }
      }
      i := i + 1;
    }
    assert shapes[..i] == shapes;
    AtMostIsTotal();
    SortIsSorted(AtMost, found);
    keys := Sort(found);
    ReorderedNoRepeats(found, keys);
    forall key ensures key in keys <==> key in found {
      InSame(keys, found, key);
    }
  }

  lemma AllowedByOneMore(digest: string -> string, filter: AclFilter, shapes: seq<AclShape>, i: nat)
    requires i < |shapes|
    ensures forall key :: AllowedKey(digest, filter, shapes[..i + 1], key) <==>
                          (AllowedKey(digest, filter, shapes[..i], key) || AllowedKey(digest, filter, [shapes[i]], key))
    ensures forall key :: AllowedKey(digest, filter, [shapes[i]], key) <==>
                          (GroupMatchesFilter(filter, shapes[i]) && GroupKey(digest, shapes[i]) == key)
  {
    hide GroupMatchesFilter, GroupKey;
    assert forall s :: s in shapes[..i + 1] <==> s in shapes[..i] || s in [shapes[i]];
    forall key
      ensures AllowedKey(digest, filter, [shapes[i]], key)
         <==> GroupMatchesFilter(filter, shapes[i]) && GroupKey(digest, shapes[i]) == key
    {
      assert shapes[i] in [shapes[i]];
    }
  }

  lemma ScopeOfText(scope: AccessScope, text: string)
    ensures ScopeOf(text) == Some(scope) <==> text == ScopeText(scope)
  {
    if ScopeOf(text).Some? && text == ScopeText(scope) {
      ScopeTextInjective(ScopeOf(text).value, scope);
    }
  }

  /** The shape of a chunk decides like the chunk. */
  lemma ShapeDecidesLikeChunk(filter: AclFilter, chunk: Controlled)
    requires AclShapeFor(chunk).Some?
    ensures GroupMatchesFilter(filter, AclShapeFor(chunk).value) <==> ChunkMatchesFilter(filter, chunk)
  {
    hide Sort;
    var shape := AclShapeFor(chunk).value;
    ScopeOfText(shape.scope, chunk.scope);
    SameMembersDecideAlike(AsPrincipal(filter), ShapeAsChunk(shape), chunk);
  }

  /** Only the members of the lists matter. */
  lemma SameMembersDecideAlike(principal: Principal, a: Controlled, b: Controlled)
    requires a.scope == b.scope && OwnerFromControlled(a) == OwnerFromControlled(b)
    requires multiset(a.allowedRoles) == multiset(b.allowedRoles)
    requires multiset(a.allowedDepartments) == multiset(b.allowedDepartments)
    ensures CanAccess(principal, a) <==> CanAccess(principal, b)
  {
    hide OwnerFromControlled;
    forall x ensures x in a.allowedRoles <==> x in b.allowedRoles {
      InSame(a.allowedRoles, b.allowedRoles, x);
    }
    forall x ensures x in a.allowedDepartments <==> x in b.allowedDepartments {
      InSame(a.allowedDepartments, b.allowedDepartments, x);
    }
  }

  function CanonicalTexts(shapes: seq<AclShape>): set<string> { set s | s in shapes :: Canonical(s) }

  /**
    * The vector filter equals the direct decision: for a list of shapes that covers the chunk, its key is among
    * the enumerated keys exactly when the principal may read the chunk.
    */
  lemma VectorFilterEqualsAcl(
    digest: string -> string, principal: Principal, shapes: seq<AclShape>, chunk: Controlled)
    requires AclFilterFor(principal).Some? && AclShapeFor(chunk).Some?
    requires exists s | s in shapes :: SameShape(s, AclShapeFor(chunk).value)
    requires CollisionFree(digest, CanonicalTexts(shapes + [AclShapeFor(chunk).value]))
    ensures AllowedKey(digest, AclFilterFor(principal).value, shapes, GroupKey(digest, AclShapeFor(chunk).value))
       <==> CanAccess(principal, chunk)
  {
    hide AclFilterFor, AclShapeFor, CanAccessChunk, GroupKey, CollisionFree, OwnerFromControlled, Canonical;
    var filter, shape := AclFilterFor(principal).value, AclShapeFor(chunk).value;
    FilterDecidesLikePrincipal(principal, chunk);
    ShapeDecidesLikeChunk(filter, chunk);
    var all := shapes + [shape];
    assert all[|shapes|] == shape;
    forall s | s in shapes
      ensures s in all && (GroupKey(digest, s) == GroupKey(digest, shape) <==> SameShape(s, shape))
      ensures SameShape(s, shape) ==> (GroupMatchesFilter(filter, s) <==> GroupMatchesFilter(filter, shape))
    {
      assert s in all && shape in all;
      KeyIdentifiesShape(digest, CanonicalTexts(all), s, shape);
      if SameShape(s, shape) {
        SameShapesDecideAlike(filter, s, shape);
      }
    }
  }

  lemma SameShapesDecideAlike(filter: AclFilter, a: AclShape, b: AclShape)
    requires SameShape(a, b)
    ensures GroupMatchesFilter(filter, a) <==> GroupMatchesFilter(filter, b)
  {
    SameMembersDecideAlike(AsPrincipal(filter), ShapeAsChunk(a), ShapeAsChunk(b));
  }
}
