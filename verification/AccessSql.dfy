/**
  * The generated SQL predicates, as syntax trees read under three-valued logic with positional parameters.
  */
module AccessSql {
  import opened Wrappers
  import opened Access

  datatype Scalar = Null | Text(value: string) | Number(printed: string)

  datatype Truth = True | False | Unknown

  /** A row of any of the tables; columns a table does not have are NULL. */
  datatype Row = Row(
    generation: Scalar, documentId: Scalar, scope: Scalar, departments: Option<seq<Scalar>>, roles: Option<seq<Scalar>>,
    metadata: Option<map<string, MetaValue>>)

  datatype Table = Bodies | Chunks

  datatype Database = Database(bodies: seq<Row>, chunks: seq<Row>) {
    function Rows(table: Table): seq<Row> {
      match table
      case Bodies => bodies
      case Chunks => chunks
    }
  }

  datatype Column = Generation | DocumentId | AccessScope

  datatype ListColumn = AllowedDepartments | AllowedRoles

  datatype Expr =
    | Col(alias: string, column: Column)
    | Lit(text: string)
    | Param
    | JsonTypeOfOwner(alias: string)
    | JsonExtractOwner(alias: string)

  datatype Cond =
    | Eq(left: Expr, right: Expr)
    | Neq(left: Expr, right: Expr)
    | And(l: Cond, r: Cond)
    | Or(l: Cond, r: Cond)
    | Not(c: Cond)
    | IsNotTrue(c: Cond)
    | EachIn(alias: string, list: ListColumn, places: nat)
    | Exists(table: Table, alias: string, where: Cond)

  // ---- meaning ----

  function OwnerType(row: Row): Scalar {
    if row.metadata.Some? && OWNER_KEY in row.metadata.value then
      match row.metadata.value[OWNER_KEY]
      case MetaText(_) => Text("text")
      case MetaOther(kind, _) =>
        match kind {
          case JsonNull => Text("null")
          case JsonNumber => Text("real")
          case JsonBoolean => Text("true")
          case JsonArray => Text("array")
          case JsonObject => Text("object")
        }
    else Null
  }

  function OwnerValue(row: Row): Scalar {
    if row.metadata.Some? && OWNER_KEY in row.metadata.value then
      match row.metadata.value[OWNER_KEY]
      case MetaText(owner) => Text(owner)
      case MetaOther(kind, printed) =>
        if kind == JsonNull then Null
        else if kind == JsonNumber || kind == JsonBoolean then Number(printed)
        else Text(printed)
    else Null
  }

  function Places(e: Expr): nat { if e.Param? then 1 else 0 }

  /** How many parameters a condition takes. */
  function ParamCount(c: Cond): nat {
    match c
    case Eq(l, r) => Places(l) + Places(r)
    case Neq(l, r) => Places(l) + Places(r)
    case And(l, r) => ParamCount(l) + ParamCount(r)
    case Or(l, r) => ParamCount(l) + ParamCount(r)
    case Not(d) => ParamCount(d)
    case IsNotTrue(d) => ParamCount(d)
    case EachIn(_, _, n) => n
    case Exists(_, _, w) => ParamCount(w)
  }

  function RowOf(env: map<string, Row>, alias: string): Row {
    if alias in env then env[alias] else Row(Null, Null, Null, None, None, None)
  }

  function Value(env: map<string, Row>, e: Expr, params: seq<Scalar>): Scalar
    requires |params| == Places(e)
  {
    match e
    case Col(alias, column) =>
      var row := RowOf(env, alias);
      (match column
       case Generation => row.generation
       case DocumentId => row.documentId
       case AccessScope => row.scope)
    case Lit(text) => Text(text)
    case Param => params[0]
    case JsonTypeOfOwner(alias) => OwnerType(RowOf(env, alias))
    case JsonExtractOwner(alias) => OwnerValue(RowOf(env, alias))
  }

  function Compare(a: Scalar, b: Scalar): Truth {
    if a == Null || b == Null then Unknown else if a == b then True else False
  }

  function Negate(t: Truth): Truth {
    match t
    case True => False
    case False => True
    case Unknown => Unknown
  }

  function Both(a: Truth, b: Truth): Truth {
    if a == False || b == False then False else if a == True && b == True then True else Unknown
  }

  function Either(a: Truth, b: Truth): Truth { Negate(Both(Negate(a), Negate(b))) }

  function Truly(b: bool): Truth { if b then True else False }

  function Elements(row: Row, list: ListColumn): seq<Scalar> {
    var column := if list.AllowedDepartments? then row.departments else row.roles;
    if column.Some? then column.value else []
  }

  function Eval(db: Database, env: map<string, Row>, c: Cond, params: seq<Scalar>): Truth
    requires |params| == ParamCount(c)
    decreases c
  {
    match c
    case Eq(l, r) => Compare(Value(env, l, params[..Places(l)]), Value(env, r, params[Places(l)..]))
    case Neq(l, r) => Negate(Compare(Value(env, l, params[..Places(l)]), Value(env, r, params[Places(l)..])))
    case And(l, r) => Both(Eval(db, env, l, params[..ParamCount(l)]), Eval(db, env, r, params[ParamCount(l)..]))
    case Or(l, r) => Either(Eval(db, env, l, params[..ParamCount(l)]), Eval(db, env, r, params[ParamCount(l)..]))
    case Not(d) => Negate(Eval(db, env, d, params))
    case IsNotTrue(d) => Truly(Eval(db, env, d, params) != True)
    case EachIn(alias, list, _) =>
      Truly(exists v | v in Elements(RowOf(env, alias), list) :: v != Null && v in params)
    case Exists(table, alias, where) =>
      Truly(exists row | row in db.Rows(table) :: Eval(db, env[alias := row], where, params) == True)
  }

  // ---- the generated predicate ----

  datatype Query = Query(cond: Cond, params: seq<Scalar>)

  function Texts(items: seq<string>): (r: seq<Scalar>)
    ensures |r| == |items|
    ensures forall i :: 0 <= i < |r| ==> r[i] == Text(items[i])
  {
    seq(|items|, i requires 0 <= i < |items| => Text(items[i]))
  }

  function OrAll(branches: seq<Cond>): Cond
    requires branches != []
  {
    var n := |branches| - 1;
    if n == 0 then branches[0] else Or(OrAll(branches[..n]), branches[n])
  }

  function PublicBranch(a: string): Cond { Eq(Col(a, AccessScope), Lit("public")) }

  function DepartmentBranch(a: string, places: nat): Cond {
    And(Eq(Col(a, AccessScope), Lit("department")), EachIn(a, AllowedDepartments, places))
  }

  function RoleBranch(a: string, places: nat): Cond {
    And(Eq(Col(a, AccessScope), Lit("role")), EachIn(a, AllowedRoles, places))
  }

  function PrivateBranch(a: string): Cond {
    And(And(And(Eq(Col(a, AccessScope), Lit("private")), Eq(JsonTypeOfOwner(a), Lit("text"))),
            Neq(JsonExtractOwner(a), Lit(""))),
        Eq(JsonExtractOwner(a), Param))
  }

  /** Each branch with the parameters it takes. */
  function Branches(filter: AclFilter, a: string): (r: seq<Query>)
    ensures r != []
  {
    [Query(PublicBranch(a), [])]
    + (if filter.departments != [] then [Query(DepartmentBranch(a, |filter.departments|), Texts(filter.departments))]
       else [])
    + (if filter.roles != [] then [Query(RoleBranch(a, |filter.roles|), Texts(filter.roles))] else [])
    + [Query(PrivateBranch(a), [Text(filter.userId)])]
  }

  function CondsOf(queries: seq<Query>): (r: seq<Cond>)
    ensures |r| == |queries|
    ensures forall i :: 0 <= i < |r| ==> r[i] == queries[i].cond
  {
    seq(|queries|, i requires 0 <= i < |queries| => queries[i].cond)
  }

  function ParamsOf(queries: seq<Query>): seq<Scalar> {
    if queries == [] then [] else ParamsOf(queries[..|queries| - 1]) + queries[|queries| - 1].params
  }

  function AclSql(filter: AclFilter, a: string): Query {
    var branches := Branches(filter, a);
    Query(OrAll(CondsOf(branches)), ParamsOf(branches))
  }

  lemma PushBranch(queries: seq<Query>, q: Query)
    ensures ParamsOf(queries + [q]) == ParamsOf(queries) + q.params
    ensures CondsOf(queries + [q]) == CondsOf(queries) + [q.cond]
  {
    assert (queries + [q])[..|queries|] == queries;
  }

  lemma OneBranch(q: Query)
    ensures CondsOf([q]) == [q.cond] && ParamsOf([q]) == q.params
  {
    var none: seq<Query> := [];
    PushBranch(none, q);
    assert none + [q] == [q];
  }

  /** `aclSqlAndParams`: branches and parameters are pushed side by side. */
  method AclSqlAndParams(filter: AclFilter, a: string) returns (query: Query)
    ensures query == AclSql(filter, a)
  {
    hide OrAll, CondsOf, ParamsOf, PublicBranch, DepartmentBranch, RoleBranch, PrivateBranch;
    ghost var pushed: seq<Query> := [Query(PublicBranch(a), [])];
    var branches := [PublicBranch(a)];
    var params: seq<Scalar> := [];
    OneBranch(Query(PublicBranch(a), []));
    if |filter.departments| > 0 {
      PushBranch(pushed, Query(DepartmentBranch(a, |filter.departments|), Texts(filter.departments)));
      branches := branches + [DepartmentBranch(a, |filter.departments|)];
      params := params + Texts(filter.departments);
      pushed := pushed + [Query(DepartmentBranch(a, |filter.departments|), Texts(filter.departments))];
    }
    if |filter.roles| > 0 {
      PushBranch(pushed, Query(RoleBranch(a, |filter.roles|), Texts(filter.roles)));
      branches := branches + [RoleBranch(a, |filter.roles|)];
      params := params + Texts(filter.roles);
      pushed := pushed + [Query(RoleBranch(a, |filter.roles|), Texts(filter.roles))];
    }
    PushBranch(pushed, Query(PrivateBranch(a), [Text(filter.userId)]));
    branches := branches + [PrivateBranch(a)];
    params := params + [Text(filter.userId)];
    pushed := pushed + [Query(PrivateBranch(a), [Text(filter.userId)])];
    assert pushed == Branches(filter, a);
    query := Query(OrAll(branches), params);
  }

  // ---- what it decides ----

  /** A query that takes exactly its parameters. */
  predicate Closed(q: Query) { |q.params| == ParamCount(q.cond) }

  predicate AllClosed(queries: seq<Query>) { forall q | q in queries :: Closed(q) }

  predicate Holds(db: Database, env: map<string, Row>, q: Query)
    requires Closed(q)
  {
    Eval(db, env, q.cond, q.params) == True
  }

  /** A disjunction with its parameters in order holds exactly when one of its branches does. */
  lemma {:induction false} OrAllHolds(db: Database, env: map<string, Row>, queries: seq<Query>)
    requires queries != [] && AllClosed(queries)
    ensures Closed(Query(OrAll(CondsOf(queries)), ParamsOf(queries)))
    ensures Holds(db, env, Query(OrAll(CondsOf(queries)), ParamsOf(queries)))
       <==> exists q | q in queries :: Holds(db, env, q)
    decreases |queries|
  {
    hide Eval, ParamsOf, CondsOf;
    var n := |queries| - 1;
    assert queries == queries[..n] + [queries[n]];
    assert forall q :: q in queries <==> q in queries[..n] || q == queries[n];
    if n == 0 {
      OneBranch(queries[0]);
      assert queries == [queries[0]];
    } else {
      OrAllHolds(db, env, queries[..n]);
      PushBranch(queries[..n], queries[n]);
      assert CondsOf(queries)[..n] == CondsOf(queries[..n]);
      OrHolds(db, env, Query(OrAll(CondsOf(queries[..n])), ParamsOf(queries[..n])), queries[n]);
    }
  }

  lemma OrHolds(db: Database, env: map<string, Row>, l: Query, r: Query)
    requires Closed(l) && Closed(r)
    ensures Closed(Query(Or(l.cond, r.cond), l.params + r.params))
    ensures Holds(db, env, Query(Or(l.cond, r.cond), l.params + r.params)) <==> Holds(db, env, l) || Holds(db, env, r)
  {
    var both := l.params + r.params;
    assert both[..|l.params|] == l.params && both[|l.params|..] == r.params;
  }

  lemma AndHolds(db: Database, env: map<string, Row>, l: Query, r: Query)
    requires Closed(l) && Closed(r)
    ensures Closed(Query(And(l.cond, r.cond), l.params + r.params))
    ensures Holds(db, env, Query(And(l.cond, r.cond), l.params + r.params)) <==> Holds(db, env, l) && Holds(db, env, r)
  {
    var both := l.params + r.params;
    assert both[..|l.params|] == l.params && both[|l.params|..] == r.params;
  }

  function TextsIn(items: seq<Scalar>): (r: seq<string>)
    ensures forall x :: x in r <==> Text(x) in items
  {
    if items == [] then []
    else
      assert items == [items[0]] + items[1..];
      (if items[0].Text? then [items[0].value] else []) + TextsIn(items[1..])
  }

  /** The chunk of a row, its owner taken from the metadata. */
  function ChunkOf(row: Row): Controlled {
    Controlled(
      if row.scope.Text? then row.scope.value else "",
      TextsIn(Elements(row, AllowedRoles)), TextsIn(Elements(row, AllowedDepartments)), None, row.metadata)
  }

  lemma TextIn(items: seq<string>, x: string)
    ensures Text(x) in Texts(items) <==> x in items
  {
    if x in items {
      var i :| 0 <= i < |items| && items[i] == x;
      assert Texts(items)[i] == Text(x);
    }
  }

  lemma EachInHolds(db: Database, env: map<string, Row>, a: string, list: ListColumn, wanted: seq<string>)
    ensures Closed(Query(EachIn(a, list, |wanted|), Texts(wanted)))
    ensures Holds(db, env, Query(EachIn(a, list, |wanted|), Texts(wanted)))
       <==> Overlap(TextsIn(Elements(RowOf(env, a), list)), wanted)
  {
    var items := Elements(RowOf(env, a), list);
    forall x ensures Text(x) in Texts(wanted) <==> x in wanted {
      TextIn(wanted, x);
    }
    if v :| v in items && v != Null && v in Texts(wanted) {
      assert v.Text? && v.value in TextsIn(items);
    }
    if x :| x in TextsIn(items) && x in wanted {
      assert Text(x) in items && Text(x) in Texts(wanted);
    }
  }

  predicate ScopeIs(row: Row, text: string) { row.scope == Text(text) }

  lemma ScopeHolds(db: Database, env: map<string, Row>, a: string, text: string)
    ensures Closed(Query(Eq(Col(a, AccessScope), Lit(text)), []))
    ensures Holds(db, env, Query(Eq(Col(a, AccessScope), Lit(text)), [])) <==> ScopeIs(RowOf(env, a), text)
  {
  }

  lemma NothingFirst(params: seq<Scalar>)
    ensures [] + params == params && params + [] == params
  {
  }

  lemma PublicHolds(db: Database, env: map<string, Row>, a: string)
    ensures var q := Query(PublicBranch(a), []);
            Closed(q) && (Holds(db, env, q) <==> ScopeIs(RowOf(env, a), "public"))
  {
    ScopeHolds(db, env, a, "public");
  }

  lemma DepartmentHolds(db: Database, env: map<string, Row>, a: string, wanted: seq<string>)
    ensures var q := Query(DepartmentBranch(a, |wanted|), Texts(wanted));
            Closed(q) && (Holds(db, env, q) <==>
                          ScopeIs(RowOf(env, a), "department")
                          && Overlap(TextsIn(Elements(RowOf(env, a), AllowedDepartments)), wanted))
  {
    hide Eval, Overlap, ScopeIs;
    ScopeHolds(db, env, a, "department");
    EachInHolds(db, env, a, AllowedDepartments, wanted);
    AndHolds(db, env, Query(Eq(Col(a, AccessScope), Lit("department")), []),
             Query(EachIn(a, AllowedDepartments, |wanted|), Texts(wanted)));
    NothingFirst(Texts(wanted));
  }

  lemma RoleHolds(db: Database, env: map<string, Row>, a: string, wanted: seq<string>)
    ensures var q := Query(RoleBranch(a, |wanted|), Texts(wanted));
            Closed(q) && (Holds(db, env, q) <==>
                          ScopeIs(RowOf(env, a), "role")
                          && Overlap(TextsIn(Elements(RowOf(env, a), AllowedRoles)), wanted))
  {
    hide Eval, Overlap, ScopeIs;
    ScopeHolds(db, env, a, "role");
    EachInHolds(db, env, a, AllowedRoles, wanted);
    AndHolds(db, env, Query(Eq(Col(a, AccessScope), Lit("role")), []),
             Query(EachIn(a, AllowedRoles, |wanted|), Texts(wanted)));
    NothingFirst(Texts(wanted));
  }

  /** The metadata names the user as owner, in a text that is not empty. */
  predicate OwnedBy(row: Row, userId: string) { OwnerFromControlled(ChunkOf(row)) == userId && userId != "" }

  lemma OwnerHolds(db: Database, env: map<string, Row>, a: string, userId: string)
    ensures var t, n, p := Query(Eq(JsonTypeOfOwner(a), Lit("text")), []), Query(Neq(JsonExtractOwner(a), Lit("")), []),
                           Query(Eq(JsonExtractOwner(a), Param), [Text(userId)]);
            && Closed(t) && Closed(n) && Closed(p)
            && (Holds(db, env, t) && Holds(db, env, n) && Holds(db, env, p) <==> OwnedBy(RowOf(env, a), userId))
  {
    KindsAreNoText();
  }

  lemma KindsAreNoText()
    ensures "null" != "text" && "real" != "text" && "true" != "text" && "array" != "text" && "object" != "text"
  {
    assert "null"[0] == 'n' && "real"[0] == 'r' && "true"[1] == 'r' && "text"[0] == 't' && "text"[1] == 'e';
    assert |"array"| == 5 && |"object"| == 6 && |"text"| == 4;
  }

  lemma PrivateHolds(db: Database, env: map<string, Row>, a: string, userId: string)
    ensures var q := Query(PrivateBranch(a), [Text(userId)]);
            Closed(q) && (Holds(db, env, q) <==> ScopeIs(RowOf(env, a), "private") && OwnedBy(RowOf(env, a), userId))
  {
    hide Eval, ScopeIs, OwnedBy;
    var s := Query(Eq(Col(a, AccessScope), Lit("private")), []);
    var t := Query(Eq(JsonTypeOfOwner(a), Lit("text")), []);
    var n := Query(Neq(JsonExtractOwner(a), Lit("")), []);
    var p := Query(Eq(JsonExtractOwner(a), Param), [Text(userId)]);
    var none: seq<Scalar> := [];
    assert none + none == none;
    ScopeHolds(db, env, a, "private");
    OwnerHolds(db, env, a, userId);
    AndHolds(db, env, s, t);
    AndHolds(db, env, Query(And(s.cond, t.cond), none), n);
    AndHolds(db, env, Query(And(And(s.cond, t.cond), n.cond), none), p);
    NothingFirst([Text(userId)]);
  }

  /** The admin role alone opens the row to the predicate; the direct decision never counts that role. */
  predicate OpenedByAdmin(filter: AclFilter, row: Row) {
    ScopeIs(row, "role") && ADMIN_ROLE in filter.roles && ADMIN_ROLE in TextsIn(Elements(row, AllowedRoles))
  }

  /** The direct decision, branch by branch. */
  lemma DecisionByBranches(filter: AclFilter, row: Row)
    ensures (ChunkMatchesFilter(filter, ChunkOf(row)) || OpenedByAdmin(filter, row))
       <==> || ScopeIs(row, "public")
            || (ScopeIs(row, "department") && Overlap(TextsIn(Elements(row, AllowedDepartments)), filter.departments))
            || (ScopeIs(row, "role") && Overlap(TextsIn(Elements(row, AllowedRoles)), filter.roles))
            || (ScopeIs(row, "private") && OwnedBy(row, filter.userId))
  {
    hide TextsIn, Elements, OwnerFromControlled;
    ScopesDiffer();
  }

  lemma ScopesDiffer()
    ensures "public" != "department" && "public" != "role" && "public" != "private" && "department" != "role"
    ensures "department" != "private" && "role" != "private" && "" != "public" && "" != "role"
    ensures "" != "department" && "" != "private"
  {
    assert |"public"| == 6 && |"role"| == 4 && |"department"| == 10 && |"private"| == 7;
  }

  /**
    * The generated predicate is true of a row exactly when the direct decision allows its chunk or the admin role
    * opens it, NULL columns, foreign values and missing metadata included.
    */
  lemma AclSqlDecides(db: Database, env: map<string, Row>, filter: AclFilter, a: string)
    ensures Closed(AclSql(filter, a))
    ensures Holds(db, env, AclSql(filter, a))
       <==> ChunkMatchesFilter(filter, ChunkOf(RowOf(env, a))) || OpenedByAdmin(filter, RowOf(env, a))
  {
    hide OpenedByAdmin, Eval, ScopeIs, OwnedBy, Overlap, TextsIn, Elements, CanAccessChunk, PublicBranch,
      DepartmentBranch, RoleBranch, PrivateBranch, Texts, OrAll, ParamsOf, CondsOf;
    var row := RowOf(env, a);
    PublicHolds(db, env, a);
    DepartmentHolds(db, env, a, filter.departments);
    RoleHolds(db, env, a, filter.roles);
    PrivateHolds(db, env, a, filter.userId);
    DecisionByBranches(filter, row);
    var p, d, r, o := Query(PublicBranch(a), []),
                      Query(DepartmentBranch(a, |filter.departments|), Texts(filter.departments)),
                      Query(RoleBranch(a, |filter.roles|), Texts(filter.roles)),
                      Query(PrivateBranch(a), [Text(filter.userId)]);
    assert forall q :: q in Branches(filter, a) <==>
                       (q == p || (filter.departments != [] && q == d) || (filter.roles != [] && q == r) || q == o);
    OrAllHolds(db, env, Branches(filter, a));
    NoOverlapWithNothing(TextsIn(Elements(row, AllowedDepartments)));
    NoOverlapWithNothing(TextsIn(Elements(row, AllowedRoles)));
  }

  lemma NoOverlapWithNothing(a: seq<string>)
    ensures !Overlap(a, [])
  {
  }

  predicate DecidesAlike(db: Database, env: map<string, Row>, filter: AclFilter, a: string)
    requires Closed(AclSql(filter, a))
  {
    Holds(db, env, AclSql(filter, a)) <==> ChunkMatchesFilter(filter, ChunkOf(RowOf(env, a)))
  }

  /** A row shared with the admin role alone. */
  const ADMIN_ROW := Row(Null, Null, Text("role"), None, Some([Text(ADMIN_ROLE)]), None)

  /** A filter that carries the admin role opens that row, and the direct decision does not. */
  lemma AdminRowDiffers(db: Database, filter: AclFilter, a: string)
    requires ADMIN_ROLE in filter.roles
    ensures var env := map[a := ADMIN_ROW];
            && Closed(AclSql(filter, a)) && Holds(db, env, AclSql(filter, a))
            && !ChunkMatchesFilter(filter, ChunkOf(RowOf(env, a)))
  {
    hide AclSql, Holds;
    AclSqlDecides(db, map[a := ADMIN_ROW], filter, a);
    ScopesDiffer();
    var items := Elements(ADMIN_ROW, AllowedRoles);
    assert items == [Text(ADMIN_ROLE)] && Text(ADMIN_ROLE) in items;
    assert ADMIN_ROLE in TextsIn(items);
    assert forall x | x in TextsIn(items) :: x == ADMIN_ROLE;
  }

  /** Predicate and direct decision agree on every row of every database exactly for filters without the admin role. */
  lemma AclSqlAgrees(filter: AclFilter, a: string)
    ensures Closed(AclSql(filter, a))
    ensures (forall db, env :: DecidesAlike(db, env, filter, a)) <==> ADMIN_ROLE !in filter.roles
  {
    hide AclSql, Holds, ChunkOf, ChunkMatchesFilter, TextsIn;
    var db := Database([], []);
    AclSqlDecides(db, map[], filter, a);
    if ADMIN_ROLE in filter.roles {
      AdminRowDiffers(db, filter, a);
      assert !DecidesAlike(db, map[a := ADMIN_ROW], filter, a);
    } else {
      forall db, env ensures DecidesAlike(db, env, filter, a) {
        AclSqlDecides(db, env, filter, a);
      }
    }
  }

  /** The predicate made for a principal is true of a row exactly when the principal may read its chunk. */
  lemma PrincipalSqlDecides(db: Database, env: map<string, Row>, principal: Principal, a: string)
    requires AclFilterFor(principal).Some?
    ensures var acl := AclSql(AclFilterFor(principal).value, a);
            Closed(acl) && (Holds(db, env, acl) <==> CanAccess(principal, ChunkOf(RowOf(env, a))))
  {
    hide AclSql, Holds, ChunkOf, ChunkMatchesFilter, CanAccess, TextsIn, AclFilterFor;
    FilterHasNoAdmin(principal);
    AclSqlDecides(db, env, AclFilterFor(principal).value, a);
    FilterDecidesLikePrincipal(principal, ChunkOf(RowOf(env, a)));
  }

  // ---- documents ----

  function SameDocumentCond(a: string): Cond {
    And(Eq(Col(a, Generation), Col("c", Generation)), Eq(Col(a, DocumentId), Col("c", DocumentId)))
  }

  /** `readableDocumentPredicate`; None when the principal's filter is too wide. */
  function ReadableDocumentPredicate(generationId: string, principal: Principal): Option<Query> {
    var filter := AclFilterFor(principal);
    if filter.None? then None
    else
      var catalogAcl, chunkAcl := AclSql(filter.value, "c"), AclSql(filter.value, "k");
      Some(Query(
             And(And(And(And(Eq(Col("c", Generation), Param), catalogAcl.cond),
                         Exists(Bodies, "b0", SameDocumentCond("b0"))),
                     Exists(Chunks, "k0", SameDocumentCond("k0"))),
                 Not(Exists(Chunks, "k", And(SameDocumentCond("k"), IsNotTrue(chunkAcl.cond))))),
             [Text(generationId)] + catalogAcl.params + chunkAcl.params))
  }

  predicate SameDocument(row: Row, c: Row) {
    && row.generation == c.generation && c.generation != Null
    && row.documentId == c.documentId && c.documentId != Null
  }

  /** The chunks of a catalog row's document. */
  function ChunksOf(rows: seq<Row>, c: Row): (r: seq<Controlled>)
    ensures forall chunk :: chunk in r <==> exists row | row in rows :: SameDocument(row, c) && ChunkOf(row) == chunk
  {
    if rows == [] then []
    else
      assert forall x :: x in rows <==> x == rows[0] || x in rows[1..];
      (if SameDocument(rows[0], c) then [ChunkOf(rows[0])] else []) + ChunksOf(rows[1..], c)
  }

  /** `principalHasFullDocumentAccess`: at least one chunk, and every one is allowed. */
  predicate FullDocumentAccess(principal: Principal, chunks: seq<Controlled>) {
    chunks != [] && forall chunk | chunk in chunks :: CanAccess(principal, chunk)
  }

  predicate HasBody(db: Database, c: Row) { exists b | b in db.bodies :: SameDocument(b, c) }

  lemma SameDocumentHolds(db: Database, c: Row, a: string, row: Row)
    requires a != "c"
    ensures var q := Query(SameDocumentCond(a), []);
            Closed(q) && (Holds(db, map["c" := c][a := row], q) <==> SameDocument(row, c))
  {
    hide TextsIn;
    var env := map["c" := c][a := row];
    var none: seq<Scalar> := [];
    assert none + none == none;
    AndHolds(db, env, Query(Eq(Col(a, Generation), Col("c", Generation)), none),
             Query(Eq(Col(a, DocumentId), Col("c", DocumentId)), none));
  }

  predicate SomeRow(db: Database, env: map<string, Row>, table: Table, alias: string, w: Query)
    requires Closed(w)
  {
    exists row | row in db.Rows(table) :: Holds(db, env[alias := row], w)
  }

  lemma ExistsHolds(db: Database, env: map<string, Row>, table: Table, alias: string, w: Query)
    requires Closed(w)
    ensures var q := Query(Exists(table, alias, w.cond), w.params);
            Closed(q) && (Holds(db, env, q) <==> SomeRow(db, env, table, alias, w))
    ensures var q := Query(Not(Exists(table, alias, w.cond)), w.params);
            Closed(q) && (Holds(db, env, q) <==> !SomeRow(db, env, table, alias, w))
  {
    var q := Query(Exists(table, alias, w.cond), w.params);
    assert Holds(db, env, q)
      <==> exists row | row in db.Rows(table) :: Eval(db, env[alias := row], w.cond, w.params) == True;
    if row :| row in db.Rows(table) && Eval(db, env[alias := row], w.cond, w.params) == True {
      assert Holds(db, env[alias := row], w);
    }
  }

  lemma AliasesDiffer()
    ensures "b0" != "c" && "k0" != "c" && "k" != "c"
  {
    assert |"b0"| == 2 && |"k0"| == 2 && |"c"| == 1 && "k"[0] == 'k' && "c"[0] == 'c';
  }

  lemma BodyHolds(db: Database, c: Row)
    ensures var q := Query(Exists(Bodies, "b0", SameDocumentCond("b0")), []);
            Closed(q) && (Holds(db, map["c" := c], q) <==> HasBody(db, c))
  {
    hide SameDocumentCond, SameDocument, Eval, Holds;
    AliasesDiffer();
    ExistsHolds(db, map["c" := c], Bodies, "b0", Query(SameDocumentCond("b0"), []))
    by { SameDocumentHolds(db, c, "b0", c); }
    forall row | row in db.bodies
      ensures var q := Query(SameDocumentCond("b0"), []);
              Closed(q) && (Holds(db, map["c" := c]["b0" := row], q) <==> SameDocument(row, c))
    {
      SameDocumentHolds(db, c, "b0", row);
    }
    SameDocumentHolds(db, c, "b0", c);
    assert db.Rows(Bodies) == db.bodies;
    if HasBody(db, c) {
      var b :| b in db.bodies && SameDocument(b, c);
      assert Holds(db, map["c" := c]["b0" := b], Query(SameDocumentCond("b0"), []));
    }
  }

  lemma SomeChunkHolds(db: Database, c: Row)
    ensures var q := Query(Exists(Chunks, "k0", SameDocumentCond("k0")), []);
            Closed(q) && (Holds(db, map["c" := c], q) <==> ChunksOf(db.chunks, c) != [])
  {
    hide SameDocumentCond, SameDocument, ChunkOf, Eval, Holds;
    AliasesDiffer();
    ExistsHolds(db, map["c" := c], Chunks, "k0", Query(SameDocumentCond("k0"), []))
    by { SameDocumentHolds(db, c, "k0", c); }
    forall row | row in db.chunks
      ensures var q := Query(SameDocumentCond("k0"), []);
              Closed(q) && (Holds(db, map["c" := c]["k0" := row], q) <==> SameDocument(row, c))
      ensures SameDocument(row, c) ==> ChunkOf(row) in ChunksOf(db.chunks, c)
    {
      SameDocumentHolds(db, c, "k0", row);
    }
    SameDocumentHolds(db, c, "k0", c);
    assert db.Rows(Chunks) == db.chunks;
    if row :| row in db.chunks && SameDocument(row, c) {
      assert Holds(db, map["c" := c]["k0" := row], Query(SameDocumentCond("k0"), []));
    }
    assert ChunksOf(db.chunks, c) != [] ==> ChunksOf(db.chunks, c)[0] in ChunksOf(db.chunks, c);
  }

  lemma IsNotTrueHolds(db: Database, env: map<string, Row>, q: Query)
    requires Closed(q)
    ensures Closed(Query(IsNotTrue(q.cond), q.params))
    ensures Holds(db, env, Query(IsNotTrue(q.cond), q.params)) <==> !Holds(db, env, q)
  {
  }

  /** The chunk test: a chunk of the document whose predicate is not true, NULL included. */
  lemma DeniedChunkHolds(db: Database, c: Row, filter: AclFilter, row: Row)
    requires ADMIN_ROLE !in filter.roles
    ensures var acl := AclSql(filter, "k");
            var q := Query(And(SameDocumentCond("k"), IsNotTrue(acl.cond)), acl.params);
            Closed(q) && (Holds(db, map["c" := c]["k" := row], q)
                          <==> SameDocument(row, c) && !ChunkMatchesFilter(filter, ChunkOf(row)))
  {
    hide SameDocumentCond, SameDocument, ChunkOf, AclSql, ChunkMatchesFilter, Eval, Holds;
    AliasesDiffer();
    var env := map["c" := c]["k" := row];
    var acl := AclSql(filter, "k");
    AclSqlDecides(db, env, filter, "k");
    SameDocumentHolds(db, c, "k", row);
    IsNotTrueHolds(db, env, acl);
    AndHolds(db, env, Query(SameDocumentCond("k"), []), Query(IsNotTrue(acl.cond), acl.params));
    NothingFirst(acl.params);
  }

  lemma NoDeniedChunkHolds(db: Database, c: Row, filter: AclFilter)
    requires ADMIN_ROLE !in filter.roles
    ensures var acl := AclSql(filter, "k");
            var q := Query(Not(Exists(Chunks, "k", And(SameDocumentCond("k"), IsNotTrue(acl.cond)))), acl.params);
            Closed(q) && (Holds(db, map["c" := c], q)
                          <==> forall chunk | chunk in ChunksOf(db.chunks, c) :: ChunkMatchesFilter(filter, chunk))
  {
    hide SameDocumentCond, SameDocument, ChunkOf, AclSql, ChunkMatchesFilter, Eval, Holds;
    var acl := AclSql(filter, "k");
    var test := Query(And(SameDocumentCond("k"), IsNotTrue(acl.cond)), acl.params);
    DeniedChunkHolds(db, c, filter, c);
    ExistsHolds(db, map["c" := c], Chunks, "k", test);
    forall row | row in db.chunks
      ensures Closed(test)
      ensures Holds(db, map["c" := c]["k" := row], test)
         <==> SameDocument(row, c) && !ChunkMatchesFilter(filter, ChunkOf(row))
      ensures SameDocument(row, c) ==> ChunkOf(row) in ChunksOf(db.chunks, c)
    {
      DeniedChunkHolds(db, c, filter, row);
    }
    assert db.Rows(Chunks) == db.chunks;
    if row :| row in db.chunks && SameDocument(row, c) && !ChunkMatchesFilter(filter, ChunkOf(row)) {
      assert Holds(db, map["c" := c]["k" := row], test);
    }
  }

  /**
    * The document predicate holds of a catalog row exactly when the row is of the generation and allowed, a body
    * exists, and the principal may read every one of at least one chunk.
    */
  lemma ReadableDocumentDecides(db: Database, c: Row, generationId: string, principal: Principal)
    requires AclFilterFor(principal).Some?
    ensures var q := ReadableDocumentPredicate(generationId, principal).value;
            Closed(q) && (Holds(db, map["c" := c], q)
                          <==> && c.generation == Text(generationId) && CanAccess(principal, ChunkOf(c))
                               && HasBody(db, c)
                               && FullDocumentAccess(principal, ChunksOf(db.chunks, c)))
  {
    hide Eval, AclFilterFor, AclSql, CanAccess, ChunkMatchesFilter, ChunkOf, ChunksOf, HasBody, SameDocumentCond;
    var env := map["c" := c];
    var filter := AclFilterFor(principal).value;
    FilterHasNoAdmin(principal);
    var catalogAcl, chunkAcl := AclSql(filter, "c"), AclSql(filter, "k");
    AclSqlDecides(db, env, filter, "c");
    NoDeniedChunkHolds(db, c, filter);
    BodyHolds(db, c);
    SomeChunkHolds(db, c);
    GenerationHolds(db, c, generationId);
    forall chunk ensures ChunkMatchesFilter(filter, chunk) <==> CanAccess(principal, chunk) {
      FilterDecidesLikePrincipal(principal, chunk);
    }
    var g := Query(Eq(Col("c", Generation), Param), [Text(generationId)]);
    var body := Query(Exists(Bodies, "b0", SameDocumentCond("b0")), []);
    var some := Query(Exists(Chunks, "k0", SameDocumentCond("k0")), []);
    var all := Query(Not(Exists(Chunks, "k", And(SameDocumentCond("k"), IsNotTrue(chunkAcl.cond)))), chunkAcl.params);
    AndHolds(db, env, g, catalogAcl);
    var two := Query(And(g.cond, catalogAcl.cond), g.params + catalogAcl.params);
    NothingFirst(two.params);
    AndHolds(db, env, two, body);
    AndHolds(db, env, Query(And(two.cond, body.cond), two.params), some);
    AndHolds(db, env, Query(And(And(two.cond, body.cond), some.cond), two.params), all);
  }

  lemma FilterHasNoAdmin(principal: Principal)
    requires AclFilterFor(principal).Some?
    ensures ADMIN_ROLE !in AclFilterFor(principal).value.roles
  {
  }

  lemma GenerationHolds(db: Database, c: Row, generationId: string)
    ensures var q := Query(Eq(Col("c", Generation), Param), [Text(generationId)]);
            Closed(q) && (Holds(db, map["c" := c], q) <==> c.generation == Text(generationId))
  {
  }
}
