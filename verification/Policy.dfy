/** Canonical tool arguments, the fingerprints approvals are bound to, and the policy gateway. */
module Policy {
  import opened Wrappers
  import opened Json
  import opened Sequences

  // ---- canonical arguments ----

  /** The order object keys end up in; `localeCompare`, with integer-like keys first as objects list them. */
  type KeyOrder = (string, string) -> bool

  /** No two different keys compare as equal. */
  ghost predicate NoTies(le: KeyOrder) { forall a, b :: le(a, b) && le(b, a) ==> a == b }

  predicate DistinctKeys(fields: seq<Field>) {
    forall i, j :: 0 <= i < j < |fields| ==> fields[i].key != fields[j].key
  }

  /** Every object in the value has each key once. */
  predicate WellFormed(v: Value)
    decreases v
  {
    match v
    case Arr(items) => forall i | 0 <= i < |items| :: WellFormed(items[i])
    case Obj(fields) => DistinctKeys(fields) && forall i | 0 <= i < |fields| :: WellFormed(fields[i].value)
    case _ => true
  }

  /** Equal up to object key order at every depth. */
  predicate Same(v: Value, w: Value)
    decreases v
  {
    if v.Arr? && w.Arr? then
      |v.items| == |w.items| && forall i | 0 <= i < |v.items| :: Same(v.items[i], w.items[i])
    else if v.Obj? && w.Obj? then
      |v.fields| == |w.fields| && forall i | 0 <= i < |v.fields| :: HasField(v.fields[i], w.fields)
    else v == w
  }

  predicate HasField(f: Field, fields: seq<Field>)
    decreases f
  {
    exists j | 0 <= j < |fields| :: f.key == fields[j].key && Same(f.value, fields[j].value)
  }

  /** Fields are compared by their keys. */
  function ByKey(le: KeyOrder): (Field, Field) -> bool { (f: Field, g: Field) => le(f.key, g.key) }

  function SortFields(le: KeyOrder, fields: seq<Field>): (r: seq<Field>)
    ensures |r| == |fields| && multiset(r) == multiset(fields)
    ensures forall x :: x in r <==> x in fields
  {
    SortBy(ByKey(le), fields)
  }

  /** `normalizeToolArguments`. */
  function Normalize(le: KeyOrder, v: Value): Value
    decreases v
  {
    match v
    case Arr(items) => Arr(NormalizeItems(le, items))
    case Obj(fields) => Obj(SortFields(le, NormalizeFields(le, fields)))
    case _ => v
  }

  function NormalizeItems(le: KeyOrder, items: seq<Value>): (r: seq<Value>)
    ensures |r| == |items|
    ensures forall i :: 0 <= i < |r| ==> r[i] == Normalize(le, items[i])
    decreases items
  {
    if items == [] then [] else [Normalize(le, items[0])] + NormalizeItems(le, items[1..])
  }

  function NormalizeFields(le: KeyOrder, fields: seq<Field>): (r: seq<Field>)
    ensures |r| == |fields|
    ensures forall i :: 0 <= i < |r| ==> r[i] == Field(fields[i].key, Normalize(le, fields[i].value))
    decreases fields
  {
    if fields == [] then []
    else [Field(fields[0].key, Normalize(le, fields[0].value))] + NormalizeFields(le, fields[1..])
  }

  /** `argumentFingerprint`. */
  function Fingerprint(le: KeyOrder, v: Value): string { Stringify(Normalize(le, v)) }

  // ---- sorting by key ----

  lemma ByKeyIsTotal(le: KeyOrder)
    requires TotalPreorder(le)
    ensures TotalPreorder(ByKey(le))
  {
    var order := ByKey(le);
    forall f: Field, g: Field ensures order(f, g) || order(g, f) {
      assert le(f.key, g.key) || le(g.key, f.key);
    }
    forall f: Field, g: Field, h: Field | order(f, g) && order(g, h) ensures order(f, h) {
      assert le(f.key, g.key) && le(g.key, h.key);
    }
  }

  lemma DistinctKeysNoRepeats(fields: seq<Field>)
    requires DistinctKeys(fields)
    ensures NoRepeats(fields)
  {
  }

  lemma SortDistinct(le: KeyOrder, fields: seq<Field>)
    requires DistinctKeys(fields)
    ensures DistinctKeys(SortFields(le, fields))
  {
    var r := SortFields(le, fields);
    ReorderedNoRepeats(fields, r);
    forall i, j | 0 <= i < j < |r| ensures r[i].key != r[j].key {
      assert r[i] in fields && r[j] in fields;
      var a :| 0 <= a < |fields| && fields[a] == r[i];
      var b :| 0 <= b < |fields| && fields[b] == r[j];
    }
  }

  predicate SameMembers(s: seq<Field>, t: seq<Field>) {
    && (forall i :: 0 <= i < |s| ==> s[i] in t)
    && (forall i :: 0 <= i < |t| ==> t[i] in s)
  }

  /** Lists of distinct keys with the same members are reorderings of each other. */
  lemma SameMembersReorder(s: seq<Field>, t: seq<Field>)
    requires DistinctKeys(s) && DistinctKeys(t)
    ensures SameMembers(s, t) <==> multiset(s) == multiset(t)
  {
    DistinctKeysNoRepeats(s);
    DistinctKeysNoRepeats(t);
    if SameMembers(s, t) {
      forall x ensures multiset(s)[x] == multiset(t)[x] {
        OnceCounted(s, x);
        OnceCounted(t, x);
        assert x in s ==> x in t;
        assert x in t ==> x in s;
      }
    }
    if multiset(s) == multiset(t) {
      forall x ensures x in s <==> x in t {
        InSame(s, t, x);
      }
    }
  }

  // ---- what a fingerprint identifies ----

  /** Sorting forgets exactly the order of the fields. */
  lemma SortForgetsOrder(le: KeyOrder, s: seq<Field>, t: seq<Field>)
    requires TotalPreorder(le) && NoTies(le) && DistinctKeys(s) && DistinctKeys(t)
    ensures SortFields(le, s) == SortFields(le, t) <==> SameMembers(s, t)
  {
    hide TotalPreorder;
    ByKeyIsTotal(le);
    SameMembersReorder(s, t);
    assert NoTiesIn(ByKey(le), s);
    SortCanonical(ByKey(le), s, t);
  }

  lemma NormalizedDistinct(le: KeyOrder, fields: seq<Field>)
    requires DistinctKeys(fields)
    ensures DistinctKeys(NormalizeFields(le, fields))
  {
    hide Normalize;
  }

  lemma ObjectsSame(a: seq<Field>, b: seq<Field>)
    ensures Same(Obj(a), Obj(b)) <==> |a| == |b| && forall i | 0 <= i < |a| :: HasField(a[i], b)
  {
  }

  /** Normal forms are equal exactly when the values are equal up to key order. */
  lemma {:induction false} NormalFormIdentifies(le: KeyOrder, v: Value, w: Value)
    requires TotalPreorder(le) && NoTies(le) && WellFormed(v) && WellFormed(w)
    ensures Normalize(le, v) == Normalize(le, w) <==> Same(v, w)
    decreases v
  {
    hide TotalPreorder, NoTies;
    if v.Arr? && w.Arr? {
      ArraysIdentified(le, v, w);
    } else if v.Obj? && w.Obj? {
      forall i, j | 0 <= i < |v.fields| && 0 <= j < |w.fields|
        ensures Normalize(le, v.fields[i].value) == Normalize(le, w.fields[j].value)
           <==> Same(v.fields[i].value, w.fields[j].value)
      {
        NormalFormIdentifies(le, v.fields[i].value, w.fields[j].value);
      }
      ObjectsIdentified(le, v.fields, w.fields);
    }
  }

  lemma {:induction false} ArraysIdentified(le: KeyOrder, v: Value, w: Value)
    requires TotalPreorder(le) && NoTies(le) && WellFormed(v) && WellFormed(w) && v.Arr? && w.Arr?
    ensures Normalize(le, v) == Normalize(le, w) <==> Same(v, w)
    decreases v, 0
  {
    hide TotalPreorder, NoTies;
    var a, b := NormalizeItems(le, v.items), NormalizeItems(le, w.items);
    if |v.items| == |w.items| {
      forall i | 0 <= i < |v.items| ensures a[i] == b[i] <==> Same(v.items[i], w.items[i]) {
        NormalFormIdentifies(le, v.items[i], w.items[i]);
      }
    }
    assert a == b <==> |a| == |b| && forall i :: 0 <= i < |a| ==> a[i] == b[i];
  }

  /** A list of distinct keys contained in an equally long one holds the same fields. */
  lemma ContainedIsSame(s: seq<Field>, t: seq<Field>)
    requires DistinctKeys(s) && DistinctKeys(t) && |s| == |t| && forall i :: 0 <= i < |s| ==> s[i] in t
    ensures SameMembers(s, t)
  {
    DistinctKeysNoRepeats(s);
    DistinctKeysNoRepeats(t);
    forall x ensures multiset(s)[x] <= multiset(t)[x] {
      OnceCounted(s, x);
      OnceCounted(t, x);
    }
    assert multiset(s) <= multiset(t) && |multiset(t) - multiset(s)| == |t| - |s|;
    SameMembersReorder(s, t);
  }

  /** A normalised field occurs among others exactly when the field has an equivalent there. */
  lemma FieldFound(le: KeyOrder, f: Field, fields: seq<Field>)
    requires forall j | 0 <= j < |fields| ::
               Normalize(le, f.value) == Normalize(le, fields[j].value) <==> Same(f.value, fields[j].value)
    ensures Field(f.key, Normalize(le, f.value)) in NormalizeFields(le, fields) <==> HasField(f, fields)
  {
    hide Normalize, Same;
    var t := NormalizeFields(le, fields);
    if Field(f.key, Normalize(le, f.value)) in t {
      var j :| 0 <= j < |t| && t[j] == Field(f.key, Normalize(le, f.value));
      assert f.key == fields[j].key && Same(f.value, fields[j].value);
    }
    if j :| 0 <= j < |fields| && f.key == fields[j].key && Same(f.value, fields[j].value) {
      assert t[j] == Field(f.key, Normalize(le, f.value));
    }
  }

  lemma {:induction false} ObjectsIdentified(le: KeyOrder, a: seq<Field>, b: seq<Field>)
    requires TotalPreorder(le) && NoTies(le) && DistinctKeys(a) && DistinctKeys(b)
    requires forall i, j | 0 <= i < |a| && 0 <= j < |b| ::
               Normalize(le, a[i].value) == Normalize(le, b[j].value) <==> Same(a[i].value, b[j].value)
    ensures SortFields(le, NormalizeFields(le, a)) == SortFields(le, NormalizeFields(le, b)) <==> Same(Obj(a), Obj(b))
  {
    hide TotalPreorder, NoTies, Normalize, Same, SortFields, HasField, DistinctKeys;
    var s, t := NormalizeFields(le, a), NormalizeFields(le, b);
    NormalizedDistinct(le, a);
    NormalizedDistinct(le, b);
    SortForgetsOrder(le, s, t);
    forall i | 0 <= i < |a| ensures s[i] in t <==> HasField(a[i], b) {
      FieldFound(le, a[i], b);
    }
    ObjectsSame(a, b);
    SameMembersReorder(s, t);
    assert multiset(s) == multiset(t) ==> |multiset(s)| == |multiset(t)|;
    if Same(Obj(a), Obj(b)) {
      ContainedIsSame(s, t);
    }
  }

  /** Equal fingerprints come exactly from values that are equal up to key order. */
  lemma FingerprintIdentifies(le: KeyOrder, v: Value, w: Value)
    requires TotalPreorder(le) && NoTies(le) && WellFormed(v) && WellFormed(w)
    ensures Fingerprint(le, v) == Fingerprint(le, w) <==> Same(v, w)
  {
    hide TotalPreorder, NoTies, WellFormed, Same, Normalize, Stringify;
    NormalFormIdentifies(le, v, w);
    if Fingerprint(le, v) == Fingerprint(le, w) {
      StringifyInjective(Normalize(le, v), Normalize(le, w));
    }
  }

  // ---- normalising twice ----

  lemma SortKeepsMembers(le: KeyOrder, fields: seq<Field>)
    requires DistinctKeys(fields)
    ensures SameMembers(SortFields(le, fields), fields)
  {
    assert forall i :: 0 <= i < |fields| ==> fields[i] in SortFields(le, fields);
    assert forall i :: 0 <= i < |fields| ==> SortFields(le, fields)[i] in SortFields(le, fields);
  }

  /** A value and its normal form are equal up to key order. */
  lemma {:induction false} NormalFormIsSame(le: KeyOrder, v: Value)
    requires WellFormed(v)
    ensures WellFormed(Normalize(le, v)) && Same(Normalize(le, v), v)
    decreases v
  {
    match v
    case Arr(items) =>
      forall i | 0 <= i < |items|
        ensures WellFormed(Normalize(le, items[i])) && Same(Normalize(le, items[i]), items[i])
      {
        NormalFormIsSame(le, items[i]);
      }
    case Obj(fields) =>
      forall i | 0 <= i < |fields|
        ensures WellFormed(Normalize(le, fields[i].value)) && Same(Normalize(le, fields[i].value), fields[i].value)
      {
        NormalFormIsSame(le, fields[i].value);
      }
      NormalObjectIsSame(le, fields);
    case _ =>
  }

  lemma {:induction false} NormalObjectIsSame(le: KeyOrder, fields: seq<Field>)
    requires DistinctKeys(fields)
    requires forall i | 0 <= i < |fields| ::
               WellFormed(Normalize(le, fields[i].value)) && Same(Normalize(le, fields[i].value), fields[i].value)
    ensures var done := Obj(SortFields(le, NormalizeFields(le, fields))); WellFormed(done) && Same(done, Obj(fields))
  {
    hide Normalize, SortFields;
    var s := NormalizeFields(le, fields);
    NormalizedDistinct(le, fields);
    SortDistinct(le, s);
    SortKeepsMembers(le, s);
    var done := SortFields(le, s);
    forall i | 0 <= i < |done| ensures WellFormed(done[i].value) && HasField(done[i], fields) {
      assert done[i] in s;
      var k :| 0 <= k < |s| && s[k] == done[i];
      assert done[i].key == fields[k].key && Same(done[i].value, fields[k].value);
    }
  }

  /** Normalising is idempotent. */
  lemma NormalizeTwice(le: KeyOrder, v: Value)
    requires TotalPreorder(le) && NoTies(le) && WellFormed(v)
    ensures Normalize(le, Normalize(le, v)) == Normalize(le, v)
  {
    hide TotalPreorder, NoTies, WellFormed, Same, Normalize;
    NormalFormIsSame(le, v);
    NormalFormIdentifies(le, Normalize(le, v), v);
  }

  // ---- what ties would break ----

  ghost predicate FingerprintsForgetOrder(le: KeyOrder) {
    forall v, w :: WellFormed(v) && WellFormed(w) && Same(v, w) ==> Fingerprint(le, v) == Fingerprint(le, w)
  }

  function Pair(a: string, b: string): Value { Obj([Field(a, Null), Field(b, Null)]) }

  lemma PairsAreSame(a: string, b: string)
    requires a != b
    ensures WellFormed(Pair(a, b)) && WellFormed(Pair(b, a)) && Same(Pair(a, b), Pair(b, a))
  {
    var s, t := [Field(a, Null), Field(b, Null)], [Field(b, Null), Field(a, Null)];
    assert s[0].key == t[1].key && s[1].key == t[0].key && Same(s[0].value, t[1].value) && Same(s[1].value, t[0].value);
    assert HasField(s[0], t) && HasField(s[1], t);
  }

  lemma TiedPairStays(le: KeyOrder, a: string, b: string)
    requires le(a, b)
    ensures Normalize(le, Pair(a, b)) == Pair(a, b)
  {
    hide SortBy;
    var s := [Field(a, Null), Field(b, Null)];
    PairStays(ByKey(le), s[0], s[1]);
    hide ByKey;
    assert NormalizeFields(le, s) == s;
  }

  lemma PairStays(order: (Field, Field) -> bool, f: Field, g: Field)
    requires order(f, g)
    ensures SortBy(order, [f, g]) == [f, g]
  {
    assert [f, g][1..] == [g] && [g][1..] == [];
    assert SortBy(order, [g]) == [g];
  }

  /**
    * A comparison that orders keys in a total preorder makes fingerprints forget key order exactly when it has no
    * ties.
    */
  lemma TiesBreakFingerprints(le: KeyOrder)
    requires TotalPreorder(le)
    ensures FingerprintsForgetOrder(le) <==> NoTies(le)
  {
    hide WellFormed, Same, Normalize, TotalPreorder, Fingerprint;
    if NoTies(le) {
      forall v, w | WellFormed(v) && WellFormed(w) && Same(v, w) ensures Fingerprint(le, v) == Fingerprint(le, w) {
        FingerprintIdentifies(le, v, w);
      }
    } else {
      var a, b :| le(a, b) && le(b, a) && a != b;
      PairsAreSame(a, b);
      PairsPrintApart(le, a, b);
    }
  }

  lemma PairsPrintApart(le: KeyOrder, a: string, b: string)
    requires a != b && le(a, b) && le(b, a)
    ensures Fingerprint(le, Pair(a, b)) != Fingerprint(le, Pair(b, a))
  {
    hide Normalize, Stringify;
    TiedPairStays(le, a, b);
    TiedPairStays(le, b, a);
    assert Pair(a, b).fields[0].key == a && Pair(b, a).fields[0].key == b;
    if Fingerprint(le, Pair(a, b)) == Fingerprint(le, Pair(b, a)) {
      StringifyInjective(Pair(a, b), Pair(b, a));
    }
  }

  // ---- the gateway ----

  datatype Risk = Read | ReversibleWrite | ExternalWrite | HighRisk

  datatype ToolPolicy = ToolPolicy(risk: Risk, sequential: bool)

  /** None is an unknown tool. */
  function PolicyOf(tool: string): Option<ToolPolicy> {
    if tool in {"search_knowledge", "fetch_allowlisted_http", "mcp_lookup", "plugin_echo"} then
      Some(ToolPolicy(Read, false))
    else if tool in {"mcp_create_ticket", "create_ticket", "action_sink_write", "send_email"} then
      Some(ToolPolicy(ExternalWrite, true))
    else if tool == "create_draft" then Some(ToolPolicy(ReversibleWrite, true))
    else if tool == "delete_records" then Some(ToolPolicy(HighRisk, true))
    else None
  }

  datatype ApprovalBinding = ApprovalBinding(
    principalId: string, conversationId: string, tool: string, argumentFingerprint: string, idempotencyKey: string,
    expiresAt: int)

  datatype Decision = Allow | Deny(reason: string) | PendingApproval(binding: ApprovalBinding) | Rejected

  datatype Attempt = Attempt(
    tool: string, principalId: string, conversationId: string, args: Value, idempotencyKey: string, now: int)

  const APPROVAL_EXPIRY_MS := 900000

  function ApprovalsMatch(stored: ApprovalBinding, next: ApprovalBinding, now: int): bool {
    now <= stored.expiresAt && stored == next
  }

  /** The binding an attempt asks for. */
  function BindingOf(le: KeyOrder, a: Attempt, expiresAt: int): ApprovalBinding {
    ApprovalBinding(a.principalId, a.conversationId, a.tool, Fingerprint(le, a.args), a.idempotencyKey, expiresAt)
  }

  /** `evaluateToolPolicy`; `Rejected` is a policy error. */
  function EvaluateToolPolicy(le: KeyOrder, a: Attempt, approval: Option<ApprovalBinding>): Decision {
    match PolicyOf(a.tool)
    case None => Rejected
    case Some(policy) =>
      if policy.risk != Read && !policy.sequential then Rejected
      else if policy.risk == HighRisk then Deny("high-risk actions are denied in the first release")
      else if policy.risk == Read then Allow
      else
        match approval
        case None => PendingApproval(BindingOf(le, a, a.now + APPROVAL_EXPIRY_MS))
        case Some(stored) =>
          if ApprovalsMatch(stored, BindingOf(le, a, stored.expiresAt), a.now) then Allow
          else Deny("approval does not match principal, tool, arguments or key")
  }

  /** The approval was given for this attempt and has not expired. */
  predicate Approves(le: KeyOrder, stored: ApprovalBinding, a: Attempt) {
    && stored.principalId == a.principalId && stored.conversationId == a.conversationId && stored.tool == a.tool
    && stored.argumentFingerprint == Fingerprint(le, a.args) && stored.idempotencyKey == a.idempotencyKey
    && a.now <= stored.expiresAt
  }

  const READ_TOOLS := {"search_knowledge", "fetch_allowlisted_http", "mcp_lookup", "plugin_echo"}
  const WRITE_TOOLS := {"mcp_create_ticket", "create_ticket", "action_sink_write", "send_email", "create_draft"}

  /**
    * The decision by tool name: read tools are allowed whatever the approval, a write needs an approval for this very
    * attempt and otherwise asks for one that lasts fifteen minutes, deletion is denied, anything else is an error.
    */
  lemma DecisionByTool(le: KeyOrder, a: Attempt, approval: Option<ApprovalBinding>)
    ensures var d := EvaluateToolPolicy(le, a, approval);
            && (a.tool in READ_TOOLS ==> d == Allow)
            && (a.tool in WRITE_TOOLS && approval.None? ==>
                  d == PendingApproval(ApprovalBinding(a.principalId, a.conversationId, a.tool, Fingerprint(le, a.args),
                                                       a.idempotencyKey, a.now + 15 * 60 * 1000)))
            && (a.tool in WRITE_TOOLS && approval.Some? ==>
                  d == if Approves(le, approval.value, a) then Allow
                       else Deny("approval does not match principal, tool, arguments or key"))
            && (a.tool == "delete_records" ==> d == Deny("high-risk actions are denied in the first release"))
            && (a.tool !in READ_TOOLS + WRITE_TOOLS + {"delete_records"} ==> d == Rejected)
            && (Gated(a.tool) <==> a.tool in WRITE_TOOLS)
  {
    hide Fingerprint;
    RiskByTool(a.tool);
    hide PolicyOf;
    assert BindingOf(le, a, 0).tool == a.tool;
  }

  lemma RiskByTool(tool: string)
    ensures tool in READ_TOOLS <==> PolicyOf(tool).Some? && PolicyOf(tool).value.risk == Read
    ensures tool in WRITE_TOOLS
       <==> PolicyOf(tool).Some? && PolicyOf(tool).value.risk in {ReversibleWrite, ExternalWrite}
    ensures tool == "delete_records" <==> PolicyOf(tool).Some? && PolicyOf(tool).value.risk == HighRisk
    ensures PolicyOf(tool).Some? ==> PolicyOf(tool).value.sequential == (PolicyOf(tool).value.risk != Read)
  {
    assert |"create_draft"| == 12 && |"delete_records"| == 14;
    assert |"search_knowledge"| == 16 && |"mcp_lookup"| == 10 && |"plugin_echo"| == 11 && |"create_ticket"| == 13;
    assert |"mcp_create_ticket"| == 17 && |"send_email"| == 10 && "mcp_lookup"[0] == 'm' && "send_email"[0] == 's';
    assert |"action_sink_write"| == 17 && "action_sink_write"[0] == 'a' && "mcp_create_ticket"[0] == 'm';
    assert |"fetch_allowlisted_http"| == 22;
  }

  predicate Gated(tool: string) {
    PolicyOf(tool).Some? && PolicyOf(tool).value.risk in {ReversibleWrite, ExternalWrite}
  }

  /**
    * A gated write approved for one attempt is allowed in another exactly when nothing but the order of argument
    * keys differs and the approval has not expired; no approval allows a high-risk or unknown tool.
    */
  lemma AllowedExactlyAsApproved(le: KeyOrder, approved: Attempt, a: Attempt, expiresAt: int)
    requires TotalPreorder(le) && NoTies(le) && WellFormed(approved.args) && WellFormed(a.args)
    ensures var stored := Some(BindingOf(le, approved, expiresAt));
            && (Gated(a.tool) ==>
                  (EvaluateToolPolicy(le, a, stored) == Allow
                   <==> && a.tool == approved.tool && a.principalId == approved.principalId
                        && a.conversationId == approved.conversationId && a.idempotencyKey == approved.idempotencyKey
                        && Same(approved.args, a.args) && a.now <= expiresAt))
            && (Gated(a.tool) ==> EvaluateToolPolicy(le, a, None).PendingApproval?)
            && (EvaluateToolPolicy(le, a, stored) == Allow ==>
                  PolicyOf(a.tool).Some? && PolicyOf(a.tool).value.risk != HighRisk)
  {
    hide TotalPreorder, NoTies, WellFormed, Same, Fingerprint;
    FingerprintIdentifies(le, approved.args, a.args);
  }

  /** An attempt answered with a pending approval is allowed by that very approval until it expires. */
  lemma PendingThenAllowed(le: KeyOrder, a: Attempt, later: int)
    requires Gated(a.tool)
    ensures var pending := EvaluateToolPolicy(le, a, None);
            && pending.PendingApproval?
            && (EvaluateToolPolicy(le, a.(now := later), Some(pending.binding)) == Allow
                <==> later <= a.now + APPROVAL_EXPIRY_MS)
  {
    hide Fingerprint;
  }
}
