/**
  * The hook before every tool call, and what a whole run of calls leaves behind. The model, the tools and the
  * loop that drives them are the environment: any sequence of events is a run.
  */
module ToolLoop {
  import opened Wrappers
  import opened Text
  import opened Evidence
  import opened Transcript
  import opened HostStrings
  import opened Budgets

  const SEARCH_LIMIT_REASON := "search_knowledge budget exhausted: no more searches run in this turn."
  const PENDING_APPROVAL := "pending_approval"
  const SEARCH_FIRST_TOOLS: set<string> := {"create_ticket"}

  datatype Call = Call(id: string, name: string)

  // ---- the hook ----

  /** An error text the loop reports for a call, and the payload it would parse to. */
  datatype ErrorText = ErrorText(text: string, parsed: Option<Payload>)

  /** "pending_approval" is no JSON object. */
  type Failure = e: ErrorText | e.text == PENDING_APPROVAL ==> e.parsed.None? witness ErrorText("", None)

  /** What the policy gateway says of a call; `Rejected` is a policy error, `Broke` any other exception. */
  datatype Policy = Allow | Pending | Deny(reason: string) | Rejected | Broke(error: Failure)

  datatype Decision = Proceed | Block(reason: string, terminate: bool) | Raise(error: Failure)

  datatype Hook = Hook(counters: Counters, blocked: set<string>, hardBlock: Option<string>)

  predicate SearchOnly(calls: seq<Call>) { forall c | c in calls :: c.name == SEARCH_KNOWLEDGE_TOOL }

  /** What happens to a call within budget. */
  function Gate(call: Call, allowed: set<string>, hasEvidence: bool, policy: Policy): Decision {
    if call.name !in allowed then Block("tool is not enabled for this run", true)
    else if call.name in SEARCH_FIRST_TOOLS && !hasEvidence then
      Block(call.name + " is blocked until search_knowledge has returned evidence in this turn", false)
    else
      match policy
      case Allow => Proceed
      case Pending => Block(PENDING_APPROVAL, true)
      case Deny(reason) => Block(reason, true)
      case Rejected => Block("tool denied by policy", true)
      case Broke(error) => Raise(error)
  }

  function Decide(h: Hook, message: seq<Call>, call: Call, allowed: set<string>, hasEvidence: bool, policy: Policy)
    : (Hook, Decision)
  {
    var (counters, error) := CountToolCall(h.counters, call.name);
    var counted := h.(counters := counters);
    match error
    case None => (counted, Gate(call, allowed, hasEvidence, policy))
    case Some(code) =>
      if code == SearchLimit && SearchOnly(message) then
        (counted.(blocked := h.blocked + {call.id}), Block(SEARCH_LIMIT_REASON, false))
      else
        (counted.(hardBlock := if h.hardBlock.Some? then h.hardBlock else Some(ErrorMessage(code))),
         Block(ErrorMessage(code), true))
  }

  /** The closure state of the hook. */
  class ToolCallHook {
    const budgets: BudgetTracker
    var budgetBlockedCallIds: set<string>
    var hardBudgetBlockMessage: Option<string>

    constructor (tracker: BudgetTracker)
      ensures budgets == tracker && budgetBlockedCallIds == {} && hardBudgetBlockMessage == None
    {
      budgets := tracker;
      budgetBlockedCallIds, hardBudgetBlockMessage := {}, None;
    }

    function View(): Hook
      reads this, budgets
    {
      Hook(budgets.View(), budgetBlockedCallIds, hardBudgetBlockMessage)
    }

    method DecideToolCall(message: seq<Call>, call: Call, allowed: set<string>, hasEvidence: bool, policy: Policy)
      returns (decision: Decision)
      modifies this, budgets
      ensures (View(), decision) == Decide(old(View()), message, call, allowed, hasEvidence, policy)
    {
      var error := budgets.NoteToolCall(call.name);
      if error.Some? {
        if error.value == SearchLimit && SearchOnly(message) {
          budgetBlockedCallIds := budgetBlockedCallIds + {call.id};
          return Block(SEARCH_LIMIT_REASON, false);
        }
        if hardBudgetBlockMessage.None? {
          hardBudgetBlockMessage := Some(ErrorMessage(error.value));
        }
        return Block(ErrorMessage(error.value), true);
      }
      decision := Gate(call, allowed, hasEvidence, policy);
    }
  }

  // ---- a run ----

  datatype ToolResult = ToolResult(id: string, tool: string, text: string, isError: bool, pending: bool)

  datatype Status = AwaitsApproval | Error | Denied | Ok

  /** The status `toolCallsFromMessages` records. */
  function StatusOf(m: ToolResult): Status {
    if m.pending || m.text == PENDING_APPROVAL then AwaitsApproval
    else if m.isError then Error
    else if Includes(m.text, "denied by policy") || Includes(m.text, "high-risk actions are denied") then Denied
    else Ok
  }

  /** What running the search tool does: `lost` when the loop replaced the finished search's result by an error. */
  datatype SearchRan =
    | Searches(outcome: SearchOutcome, json: string, lost: Option<Failure>)
    | DeniedInside
    | Threw(error: Failure)

  datatype OtherRan = OtherRan(text: string, isError: bool, pending: bool)

  datatype Event =
    | Says(text: string, calls: seq<Call>)
    | Tries(call: Call, policy: Policy, search: SearchRan, other: OtherRan)
    | Skips(call: Call, error: Failure)
    | EndsTurn(late: bool, inputTokens: int, outputTokens: int)

  /** A tool result, whether the soft search cap produced it, and whether a finished search was lost in it. */
  datatype Recorded = Recorded(result: ToolResult, capped: bool, lost: bool)

  datatype Run = Run(
    hook: Hook, message: seq<Call>, terminated: nat, turnLimitStopped: bool, ledger: Ledger,
    outcomes: seq<SearchOutcome>, results: seq<Recorded>, transcript: seq<Message>, passed: nat, searched: nat)

  const START := Run(Hook(FRESH, {}, None), [], 0, false, CreateLedger(), [], [], [], 0, 0)

  function Result(call: Call, text: string, isError: bool, pending: bool): ToolResult {
    ToolResult(call.id, call.name, text, isError, pending)
  }

  /** A result enters the messages. */
  function Enter(r: Run, rec: Recorded, parsed: Option<Payload>): Run {
    r.(results := r.results + [rec], transcript := r.transcript + [Tool(rec.result.tool, parsed)])
  }

  function Record(r: Run, m: ToolResult, capped: bool, parsed: Option<Payload>): Run {
    Enter(r, Recorded(m, capped, false), parsed)
  }

  function RecordLost(r: Run, call: Call, error: Failure): Run {
    Enter(r, Recorded(Result(call, error.text, true, false), false, true), error.parsed)
  }

  function RecordError(r: Run, call: Call, error: Failure): Run {
    Record(r, Result(call, error.text, true, false), false, error.parsed)
  }

  function Perform(r: Run, call: Call, search: SearchRan, other: OtherRan): Run {
    if call.name != SEARCH_KNOWLEDGE_TOOL then
      Record(r, Result(call, other.text, other.isError, other.pending), false, None)
    else
      var started := r.(searched := r.searched + 1);
      match search
      case DeniedInside => Record(started, Result(call, "search_knowledge was denied by policy.", false, false),
                                  false, None)
      case Threw(error) => RecordError(started, call, error)
      case Searches(outcome, json, lost) =>
        var (ledger, payload) := Execute(r.ledger, outcome);
        var done := started.(ledger := ledger, outcomes := r.outcomes + [outcome]);
        if lost.Some? then RecordLost(done, call, lost.value)
        else Record(done, Result(call, "UNTRUSTED_EVIDENCE\n" + json, false, false), false, Some(payload))
  }

  function Try(r: Run, allowed: set<string>, call: Call, policy: Policy, search: SearchRan, other: OtherRan): Run {
    var (hook, decision) := Decide(r.hook, r.message, call, allowed, r.ledger.entries != [], policy);
    var error := CountToolCall(r.hook.counters, call.name).1;
    var tried := r.(hook := hook, passed := if error.None? then r.passed + 1 else r.passed);
    match decision
    case Proceed => Perform(tried, call, search, other)
    case Raise(failure) => RecordError(tried, call, failure)
    case Block(reason, terminate) =>
      var ended := tried.(terminated := if terminate then r.terminated + 1 else r.terminated);
      Record(ended, Result(call, reason, true, false),
             error == Some(SearchLimit) && SearchOnly(r.message), None)
  }

  function EndTurn(r: Run, late: bool, inputTokens: int, outputTokens: int): Run {
    if late then r
    else
      var (counters, error) := CountTurn(r.hook.counters);
      if error.Some? then r.(hook := r.hook.(counters := counters), turnLimitStopped := true)
      else r.(hook := r.hook.(counters := CountTokens(counters, inputTokens, outputTokens).0))
  }

  function Step(r: Run, allowed: set<string>, e: Event): Run {
    match e
    case Says(text, calls) => r.(message := calls, terminated := 0, transcript := r.transcript + [Assistant(text)])
    case Tries(call, policy, search, other) => Try(r, allowed, call, policy, search, other)
    case Skips(call, error) => RecordError(r, call, error)
    case EndsTurn(late, inputTokens, outputTokens) => EndTurn(r, late, inputTokens, outputTokens)
  }

  function RunOf(allowed: set<string>, events: seq<Event>): Run {
    if events == [] then START
    else Step(RunOf(allowed, events[..|events| - 1]), allowed, events[|events| - 1])
  }

  // ---- budgets over whole runs ----

  predicate WithinBudgets(r: Run) {
    && r.passed <= MAX_TOOL_CALLS && r.passed <= r.hook.counters.toolCalls
    && r.searched <= MAX_SEARCH_KNOWLEDGE && r.searched <= r.hook.counters.searches
    && |r.outcomes| <= r.searched
    && (r.hook.blocked != {} ==> r.hook.counters.searches > MAX_SEARCH_KNOWLEDGE)
  }

  lemma PerformCounts(r: Run, call: Call, search: SearchRan, other: OtherRan)
    ensures var after := Perform(r, call, search, other);
            var ran := if call.name == SEARCH_KNOWLEDGE_TOOL then 1 else 0;
            && after.hook == r.hook && after.passed == r.passed && after.searched == r.searched + ran
            && |after.outcomes| <= |r.outcomes| + ran
  {
    hide Execute;
  }

  lemma TryKeepsBudgets(r: Run, allowed: set<string>, e: Event)
    requires WithinBudgets(r) && e.Tries?
    ensures WithinBudgets(Step(r, allowed, e))
  {
    hide Perform, Gate, ErrorMessage;
    var (hook, _) := Decide(r.hook, r.message, e.call, allowed, r.ledger.entries != [], e.policy);
    PerformCounts(r.(hook := hook, passed := r.passed + 1), e.call, e.search, e.other);
  }

  /**
    * In every run at most eight calls pass the budget and at most four searches run, and a soft cap comes
    * only after four searches were granted.
    */
  lemma {:induction false} BudgetsHold(allowed: set<string>, events: seq<Event>)
    ensures WithinBudgets(RunOf(allowed, events))
    decreases |events|
  {
    hide Try, WithinBudgets;
    if events == [] {
      assert WithinBudgets(START) by { StartsWithinBudgets(); }
    } else {
      var n := |events| - 1;
      BudgetsHold(allowed, events[..n]);
      var r := RunOf(allowed, events[..n]);
      if events[n].Tries? {
        TryKeepsBudgets(r, allowed, events[n]);
      } else {
        OtherKeepsBudgets(r, allowed, events[n]);
      }
    }
  }

  lemma StartsWithinBudgets()
    ensures WithinBudgets(START)
  {
  }

  lemma OtherKeepsBudgets(r: Run, allowed: set<string>, e: Event)
    requires WithinBudgets(r) && !e.Tries?
    ensures WithinBudgets(Step(r, allowed, e))
  {
  }

  // ---- turns and tokens of a driven run ----

  /** The hook at the end of a turn asks the loop to stop. */
  predicate Stops(r: Run, e: Event) {
    && e.EndsTurn?
    && (e.late || CountTurn(r.hook.counters).1.Some?
        || CountTokens(r.hook.counters, e.inputTokens, e.outputTokens).1.Some?)
  }

  predicate Stopped(allowed: set<string>, events: seq<Event>) {
    events != [] && Stops(RunOf(allowed, events[..|events| - 1]), events[|events| - 1])
  }

  /** A loop that obeys: nothing follows a turn that asked it to stop. */
  predicate Driven(allowed: set<string>, events: seq<Event>) {
    events == []
    || (Driven(allowed, events[..|events| - 1]) && !Stopped(allowed, events[..|events| - 1]))
  }

  function TurnsEnded(events: seq<Event>): nat {
    if events == [] then 0
    else TurnsEnded(events[..|events| - 1]) + (if events[|events| - 1].EndsTurn? then 1 else 0)
  }

  predicate WithinTokens(c: Counters) { c.inputTokens <= MAX_INPUT_TOKENS && c.outputTokens <= MAX_OUTPUT_TOKENS }

  /** What holds between the turns that ended and the counters. */
  predicate TurnsKept(r: Run, turns: nat, stopped: bool) {
    var c := r.hook.counters;
    && turns <= MAX_TURNS && c.turns <= turns <= c.turns + 1
    && (!stopped ==> turns == c.turns < MAX_TURNS && WithinTokens(c) && !r.turnLimitStopped)
    && (r.turnLimitStopped <==> c.turns == MAX_TURNS)
  }

  /** Whatever is no end of a turn leaves the turn and token counters alone. */
  lemma CallsCountNoTurns(r: Run, allowed: set<string>, e: Event)
    requires !e.EndsTurn?
    ensures var after, c := Step(r, allowed, e), r.hook.counters;
            && after.hook.counters
               == c.(toolCalls := after.hook.counters.toolCalls, searches := after.hook.counters.searches)
            && after.turnLimitStopped == r.turnLimitStopped
  {
    hide Gate, Perform, SearchOnly, ErrorMessage;
    if e.Tries? {
      var (hook, _) := Decide(r.hook, r.message, e.call, allowed, r.ledger.entries != [], e.policy);
      var error := CountToolCall(r.hook.counters, e.call.name).1;
      PerformStopsNothing(r.(hook := hook, passed := if error.None? then r.passed + 1 else r.passed),
                          e.call, e.search, e.other);
    }
  }

  lemma PerformStopsNothing(r: Run, call: Call, search: SearchRan, other: OtherRan)
    ensures Perform(r, call, search, other).hook == r.hook
    ensures Perform(r, call, search, other).turnLimitStopped == r.turnLimitStopped
  {
    hide Execute;
  }

  /**
    * A loop that stops when it is asked to ends at most eight turns. While it goes on, every turn was counted and both
    * token totals are within their limits; the turn limit stops it at the eighth turn, and at no other.
    */
  lemma {:induction false} TurnsHold(allowed: set<string>, events: seq<Event>)
    requires Driven(allowed, events)
    ensures TurnsKept(RunOf(allowed, events), TurnsEnded(events), Stopped(allowed, events))
    ensures RunOf(allowed, events).turnLimitStopped ==> Stopped(allowed, events) && TurnsEnded(events) == MAX_TURNS
    decreases |events|
  {
    hide Step;
    if events != [] {
      var n := |events| - 1;
      TurnsHold(allowed, events[..n]);
      var r := RunOf(allowed, events[..n]);
      if events[n].EndsTurn? {
        TurnEndKeeps(r, allowed, events[n], TurnsEnded(events[..n]));
      } else {
        CallsCountNoTurns(r, allowed, events[n]);
      }
    }
  }

  lemma TurnEndKeeps(r: Run, allowed: set<string>, e: Event, turns: nat)
    requires e.EndsTurn? && TurnsKept(r, turns, false)
    ensures TurnsKept(Step(r, allowed, e), turns + 1, Stops(r, e))
    ensures Step(r, allowed, e).turnLimitStopped ==> Stops(r, e) && turns + 1 == MAX_TURNS
  {
  }

  // ---- the ledger the run leaves behind ----

  /** The payloads that are JSON objects. */
  function Parsed(payloads: seq<Option<Payload>>): seq<Option<Payload>> {
    if payloads == [] then []
    else Parsed(payloads[..|payloads| - 1])
         + (if payloads[|payloads| - 1].Some? then [payloads[|payloads| - 1]] else [])
  }

  /** Tool results without a payload change nothing. */
  lemma {:induction false} IngestSkipsUnparsed(ledger: Ledger, payloads: seq<Option<Payload>>)
    ensures IngestAll(ledger, payloads) == IngestAll(ledger, Parsed(payloads))
    decreases |payloads|
  {
    if payloads != [] {
      var n := |payloads| - 1;
      IngestSkipsUnparsed(ledger, payloads[..n]);
      if payloads[n].Some? {
        assert Parsed(payloads)[..|Parsed(payloads)| - 1] == Parsed(payloads[..n]);
      } else {
        var none: seq<Option<Payload>> := [];
        assert Parsed(payloads[..n]) + none == Parsed(payloads[..n]);
      }
    }
  }

  predicate FailedSearch(m: ToolResult) { m.tool == SEARCH_KNOWLEDGE_TOOL && StatusOf(m) == Error }

  /** A failed search other than a soft cap block. */
  predicate RealFailure(rec: Recorded) { FailedSearch(rec.result) && !rec.capped }

  predicate HasRealFailure(results: seq<Recorded>) { exists rec | rec in results :: RealFailure(rec) }

  /** A finished search whose result was lost in words that no failure is recognised by. */
  predicate SilentlyLost(rec: Recorded) { rec.lost && rec.result.text == PENDING_APPROVAL }

  function LostCount(results: seq<Recorded>): nat {
    if results == [] then 0
    else LostCount(results[..|results| - 1]) + (if SilentlyLost(results[|results| - 1]) then 1 else 0)
  }

  /** The payloads of the finished searches are all there, up to those silently lost. */
  predicate Carries(payloads: seq<Option<Payload>>, lost: nat, outcomes: seq<SearchOutcome>) {
    && |payloads| + lost == |outcomes|
    && (lost == 0 ==> payloads == Payloads(outcomes))
  }

  /**
    * The live ledger is the ledger of the searches that ran; without a failed result the transcript carries their
    * payloads, fewer by those that were silently lost.
    */
  predicate Follows(r: Run) {
    && r.ledger == LiveLedger(r.outcomes)
    && (HasRealFailure(r.results) || Carries(Parsed(SearchPayloads(r.transcript)), LostCount(r.results), r.outcomes))
  }

  lemma {:induction false} PayloadPerOutcome(outcomes: seq<SearchOutcome>)
    ensures |Payloads(outcomes)| == |outcomes|
    decreases |outcomes|
  {
    if outcomes != [] {
      PayloadPerOutcome(outcomes[..|outcomes| - 1]);
    }
  }

  lemma FailureStays(results: seq<Recorded>, rec: Recorded)
    ensures HasRealFailure(results + [rec]) <==> HasRealFailure(results) || RealFailure(rec)
  {
    assert forall x :: x in results + [rec] <==> x in results || x == rec;
  }

  /** One more result in the messages. */
  lemma EnterAdds(r: Run, rec: Recorded, parsed: Option<Payload>)
    ensures var after := Enter(r, rec, parsed);
            && (HasRealFailure(after.results) <==> HasRealFailure(r.results) || RealFailure(rec))
            && LostCount(after.results) == LostCount(r.results) + (if SilentlyLost(rec) then 1 else 0)
            && Parsed(SearchPayloads(after.transcript))
               == Parsed(SearchPayloads(r.transcript))
                  + (if rec.result.tool == SEARCH_KNOWLEDGE_TOOL && parsed.Some? then [parsed] else [])
  {
    hide RealFailure, HasRealFailure, SilentlyLost;
    FailureStays(r.results, rec);
    assert (r.results + [rec])[..|r.results|] == r.results;
    var more := r.transcript + [Tool(rec.result.tool, parsed)];
    assert more[..|more| - 1] == r.transcript;
    var before := SearchPayloads(r.transcript);
    assert (before + [parsed])[..|before|] == before;
    var none: seq<Option<Payload>> := [];
    assert before + none == before && Parsed(before) + none == Parsed(before);
  }

  lemma SaysFollows(r: Run, text: string)
    ensures SearchPayloads(r.transcript + [Assistant(text)]) == SearchPayloads(r.transcript)
  {
    var more := r.transcript + [Assistant(text)];
    assert more[..|more| - 1] == r.transcript;
  }

  lemma ErrorFollows(r: Run, call: Call, error: Failure)
    requires Follows(r)
    ensures Follows(RecordError(r, call, error))
  {
    hide HasRealFailure, LiveLedger, Parsed, SearchPayloads, Includes, Carries, LostCount;
    EnterAdds(r, Recorded(Result(call, error.text, true, false), false, false), error.parsed);
    var none: seq<Option<Payload>> := [];
    assert Parsed(SearchPayloads(r.transcript)) + none == Parsed(SearchPayloads(r.transcript));
  }

  /** A finished search: the ledger and the outcomes take it in together. */
  lemma SearchFollows(r: Run, call: Call, outcome: SearchOutcome, json: string, lost: Option<Failure>, other: OtherRan)
    requires Follows(r) && call.name == SEARCH_KNOWLEDGE_TOOL
    ensures Follows(Perform(r, call, Searches(outcome, json, lost), other))
  {
    hide HasRealFailure, LiveLedger, Parsed, SearchPayloads, Includes, Execute, Payloads, LostCount;
    var (ledger, payload) := Execute(r.ledger, outcome);
    var done := r.(searched := r.searched + 1, ledger := ledger, outcomes := r.outcomes + [outcome]);
    OneMoreOutcome(r.outcomes, outcome);
    PayloadPerOutcome(r.outcomes);
    if lost.Some? {
      EnterAdds(done, Recorded(Result(call, lost.value.text, true, false), false, true), lost.value.parsed);
      var none: seq<Option<Payload>> := [];
      assert Parsed(SearchPayloads(r.transcript)) + none == Parsed(SearchPayloads(r.transcript));
    } else {
      EnterAdds(done, Recorded(Result(call, "UNTRUSTED_EVIDENCE\n" + json, false, false), false, false), Some(payload));
    }
  }

  lemma OneMoreOutcome(outcomes: seq<SearchOutcome>, outcome: SearchOutcome)
    ensures LiveLedger(outcomes + [outcome]) == Execute(LiveLedger(outcomes), outcome).0
    ensures Payloads(outcomes + [outcome]) == Payloads(outcomes) + [Some(Execute(LiveLedger(outcomes), outcome).1)]
  {
    hide Execute;
    var more := outcomes + [outcome];
    assert more[..|more| - 1] == outcomes;
  }

  /** A result that carries no payload and is no real failure. */
  lemma PlainFollows(r: Run, m: ToolResult, capped: bool)
    requires Follows(r)
    ensures Follows(Record(r, m, capped, None))
  {
    hide HasRealFailure, LiveLedger, Parsed, SearchPayloads, Payloads, LostCount;
    EnterAdds(r, Recorded(m, capped, false), None);
    var none: seq<Option<Payload>> := [];
    assert Parsed(SearchPayloads(r.transcript)) + none == Parsed(SearchPayloads(r.transcript));
  }

  lemma PerformFollows(r: Run, call: Call, search: SearchRan, other: OtherRan)
    requires Follows(r)
    ensures Follows(Perform(r, call, search, other))
  {
    hide Follows, Record, RecordError, Result, Execute;
    var started := r.(searched := r.searched + 1);
    assert Follows(started) by { SameFollows(r, started); }
    if call.name != SEARCH_KNOWLEDGE_TOOL {
      PlainFollows(r, Result(call, other.text, other.isError, other.pending), false);
    } else if search.DeniedInside? {
      PlainFollows(started, Result(call, "search_knowledge was denied by policy.", false, false), false);
    } else if search.Threw? {
      ErrorFollows(started, call, search.error);
    } else {
      SearchFollows(r, call, search.outcome, search.json, search.lost, other);
    }
  }

  lemma SameFollows(r: Run, same: Run)
    requires Follows(r)
    requires same.ledger == r.ledger && same.outcomes == r.outcomes && same.results == r.results
    requires same.transcript == r.transcript
    ensures Follows(same)
  {
  }

  lemma StepFollows(r: Run, allowed: set<string>, e: Event)
    requires Follows(r)
    ensures Follows(Step(r, allowed, e))
  {
    hide Follows, Decide, Perform, Record, RecordError, Result, CountToolCall, CountTurn, CountTokens;
    match e
    case Says(text, calls) =>
      SaysFollowsOn(r, text, calls);
    case Tries(call, policy, search, other) =>
      var (hook, decision) := Decide(r.hook, r.message, call, allowed, r.ledger.entries != [], policy);
      var error := CountToolCall(r.hook.counters, call.name).1;
      var tried := r.(hook := hook, passed := if error.None? then r.passed + 1 else r.passed);
      SameFollows(r, tried);
      match decision {
        case Proceed => PerformFollows(tried, call, search, other);
        case Raise(failure) => ErrorFollows(tried, call, failure);
        case Block(reason, terminate) =>
          var ended := tried.(terminated := if terminate then r.terminated + 1 else r.terminated);
          SameFollows(r, ended);
          PlainFollows(ended, Result(call, reason, true, false), error == Some(SearchLimit) && SearchOnly(r.message));
      }
    case Skips(call, error) => ErrorFollows(r, call, error);
    case EndsTurn(late, inputTokens, outputTokens) => SameFollows(r, EndTurn(r, late, inputTokens, outputTokens));
  }

  lemma SaysFollowsOn(r: Run, text: string, calls: seq<Call>)
    requires Follows(r)
    ensures Follows(r.(message := calls, terminated := 0, transcript := r.transcript + [Assistant(text)]))
  {
    hide HasRealFailure, LiveLedger, Parsed, SearchPayloads, Payloads, LostCount;
    SaysFollows(r, text);
  }

  /**
    * In every run the live ledger is the ledger of the searches that ran; unless a search result failed, the
    * transcript carries exactly their payloads, if and only if no finished search was silently lost.
    */
  lemma {:induction false} RunFollows(allowed: set<string>, events: seq<Event>)
    ensures Follows(RunOf(allowed, events))
    decreases |events|
  {
    hide Step, Follows;
    if events == [] {
      StartFollows();
    } else {
      RunFollows(allowed, events[..|events| - 1]);
      StepFollows(RunOf(allowed, events[..|events| - 1]), allowed, events[|events| - 1]);
    }
  }

  lemma StartFollows()
    ensures Follows(START)
  {
  }

  // ---- what counts as a failed search ----

  function IdCount(results: seq<Recorded>, id: string): nat {
    if results == [] then 0
    else IdCount(results[..|results| - 1], id) + (if results[|results| - 1].result.id == id then 1 else 0)
  }

  /** The result the soft cap is recognised by: its text, and an id no other result carries. */
  predicate IsCapBlock(results: seq<Recorded>, blocked: set<string>, m: ToolResult) {
    m.id in blocked && IdCount(results, m.id) == 1 && m.text == SEARCH_LIMIT_REASON
  }

  /** Some of the read results failed and is no cap block among all of them. */
  predicate SomeFailed(read: seq<Recorded>, results: seq<Recorded>, blocked: set<string>) {
    exists rec | rec in read :: FailedSearch(rec.result) && !IsCapBlock(results, blocked, rec.result)
  }

  /** `searchFailed`: the live ledger saw an error, or a search result failed and is no cap block. */
  predicate SearchFailed(r: Run) { r.ledger.searchError || SomeFailed(r.results, r.results, r.hook.blocked) }

  method FindSearchFailure(results: seq<Recorded>, blocked: set<string>, searchError: bool) returns (failed: bool)
    ensures failed <==> searchError || SomeFailed(results, results, blocked)
  {
    hide FailedSearch;
    var counts: map<string, nat> := map[];
    var i := 0;
    while i < |results|
      invariant 0 <= i <= |results|
      invariant forall id :: (if id in counts then counts[id] else 0) == IdCount(results[..i], id)
    {
      var id := results[i].result.id;
      assert results[..i + 1][..i] == results[..i];
      counts := counts[id := (if id in counts then counts[id] else 0) + 1];
      i := i + 1;
    }
    assert results[..i] == results;
    failed := searchError;
    i := 0;
    while i < |results|
      invariant 0 <= i <= |results|
      invariant failed <==> searchError || SomeFailed(results[..i], results, blocked)
    {
      var m := results[i].result;
      assert forall x :: x in results[..i + 1] <==> x in results[..i] || x == results[i];
      var cap := m.id in blocked && m.id in counts && counts[m.id] == 1 && m.text == SEARCH_LIMIT_REASON;
      if !cap && FailedSearch(m) {
        failed := true;
      }
      i := i + 1;
    }
  }

  lemma {:induction false} IdCountHas(results: seq<Recorded>, i: nat, id: string)
    requires i < |results| && results[i].result.id == id
    ensures IdCount(results, id) >= 1
    ensures IdCount(results, id) >= 2 <==> exists j | 0 <= j < |results| :: j != i && results[j].result.id == id
    decreases |results|
  {
    var n := |results| - 1;
    if i < n {
      IdCountHas(results[..n], i, id);
      assert forall j :: 0 <= j < n ==> results[..n][j] == results[j];
      if j :| 0 <= j < |results| && j != i && results[j].result.id == id {
        assert j < n ==> results[..n][j].result.id == id;
      }
    } else {
      IdCountZero(results[..n], id);
      assert forall j :: 0 <= j < n ==> results[..n][j] == results[j];
    }
  }

  lemma {:induction false} IdCountZero(results: seq<Recorded>, id: string)
    ensures IdCount(results, id) >= 1 <==> exists j | 0 <= j < |results| :: results[j].result.id == id
    decreases |results|
  {
    if results != [] {
      var n := |results| - 1;
      IdCountZero(results[..n], id);
      assert forall j :: 0 <= j < n ==> results[..n][j] == results[j];
    }
  }

  /** Capped results look like cap blocks, and every recorded id has one. */
  predicate CapsKnown(r: Run) {
    && (forall rec | rec in r.results && rec.capped ::
          && rec.result.id in r.hook.blocked && rec.result.text == SEARCH_LIMIT_REASON
          && FailedSearch(rec.result))
    && (forall id | id in r.hook.blocked :: exists rec | rec in r.results :: rec.capped && rec.result.id == id)
  }

  lemma EnterKeepsCaps(r: Run, rec: Recorded, parsed: Option<Payload>)
    requires CapsKnown(r) && !rec.capped
    ensures CapsKnown(Enter(r, rec, parsed))
  {
    hide FailedSearch;
    var after := Enter(r, rec, parsed);
    assert forall x :: x in after.results <==> x in r.results || x == rec;
    forall id | id in after.hook.blocked
      ensures exists rec | rec in after.results :: rec.capped && rec.result.id == id
    {
      var known :| known in r.results && known.capped && known.result.id == id;
      assert known in after.results;
    }
  }

  lemma RecordKeepsCaps(r: Run, m: ToolResult, parsed: Option<Payload>)
    requires CapsKnown(r)
    ensures CapsKnown(Record(r, m, false, parsed))
  {
    hide CapsKnown;
    EnterKeepsCaps(r, Recorded(m, false, false), parsed);
  }

  lemma CapKeepsCaps(r: Run, call: Call)
    requires CapsKnown(r) && call.name == SEARCH_KNOWLEDGE_TOOL
    ensures var capped := r.(hook := r.hook.(blocked := r.hook.blocked + {call.id}));
            CapsKnown(Record(capped, Result(call, SEARCH_LIMIT_REASON, true, false), true, None))
  {
    hide Includes;
    var capped := r.(hook := r.hook.(blocked := r.hook.blocked + {call.id}));
    var m := Result(call, SEARCH_LIMIT_REASON, true, false);
    var after := Record(capped, m, true, None);
    assert forall x :: x in after.results <==> x in r.results || x == Recorded(m, true, false);
    forall id | id in after.hook.blocked
      ensures exists rec | rec in after.results :: rec.capped && rec.result.id == id
    {
      if id == call.id {
        assert Recorded(m, true, false) in after.results;
      } else {
        var rec :| rec in r.results && rec.capped && rec.result.id == id;
        assert rec in after.results;
      }
    }
    assert m.text != PENDING_APPROVAL by { CapIsNoApproval(); }
    assert FailedSearch(m);
  }

  lemma CapIsNoApproval()
    ensures SEARCH_LIMIT_REASON != PENDING_APPROVAL
  {
    assert |SEARCH_LIMIT_REASON| != |PENDING_APPROVAL|;
  }

  lemma SameCaps(r: Run, same: Run)
    requires CapsKnown(r) && same.results == r.results && same.hook.blocked == r.hook.blocked
    ensures CapsKnown(same)
  {
  }

  lemma PerformKeepsCaps(r: Run, call: Call, search: SearchRan, other: OtherRan)
    requires CapsKnown(r)
    ensures CapsKnown(Perform(r, call, search, other))
  {
    hide CapsKnown, Record, Enter, Result, Execute;
    var started := r.(searched := r.searched + 1);
    SameCaps(r, started);
    if call.name != SEARCH_KNOWLEDGE_TOOL {
      RecordKeepsCaps(r, Result(call, other.text, other.isError, other.pending), None);
    } else if search.DeniedInside? {
      RecordKeepsCaps(started, Result(call, "search_knowledge was denied by policy.", false, false), None);
    } else if search.Threw? {
      RecordKeepsCaps(started, Result(call, search.error.text, true, false), search.error.parsed);
    } else {
      var (ledger, payload) := Execute(r.ledger, search.outcome);
      var done := started.(ledger := ledger, outcomes := r.outcomes + [search.outcome]);
      SameCaps(r, done);
      if search.lost.Some? {
        EnterKeepsCaps(done, Recorded(Result(call, search.lost.value.text, true, false), false, true),
                       search.lost.value.parsed);
      } else {
        RecordKeepsCaps(done, Result(call, "UNTRUSTED_EVIDENCE\n" + search.json, false, false), Some(payload));
      }
    }
  }

  lemma StepKeepsCaps(r: Run, allowed: set<string>, e: Event)
    requires CapsKnown(r)
    ensures CapsKnown(Step(r, allowed, e))
  {
    hide CapsKnown, Perform, Record, Result, CountTurn, CountTokens, Gate, ErrorMessage;
    match e
    case Says(text, calls) => SameCaps(r, Step(r, allowed, e));
    case Skips(call, error) => RecordKeepsCaps(r, Result(call, error.text, true, false), error.parsed);
    case EndsTurn(late, inputTokens, outputTokens) => SameCaps(r, EndTurn(r, late, inputTokens, outputTokens));
    case Tries(call, policy, search, other) => TryKeepsCaps(r, allowed, call, policy, search, other);
  }

  lemma TryKeepsCaps(r: Run, allowed: set<string>, call: Call, policy: Policy, search: SearchRan, other: OtherRan)
    requires CapsKnown(r)
    ensures CapsKnown(Try(r, allowed, call, policy, search, other))
  {
    hide CapsKnown, Perform, Gate, ErrorMessage, StatusOf, Execute;
    var (hook, decision) := Decide(r.hook, r.message, call, allowed, r.ledger.entries != [], policy);
    var (counters, error) := CountToolCall(r.hook.counters, call.name);
    var tried := r.(hook := hook, passed := if error.None? then r.passed + 1 else r.passed);
    if error == Some(SearchLimit) && SearchOnly(r.message) {
      var counted := tried.(hook := hook.(blocked := r.hook.blocked));
      SameCaps(r, counted);
      CapKeepsCaps(counted, call);
    } else {
      SameCaps(r, tried);
      match decision {
        case Proceed => PerformKeepsCaps(tried, call, search, other);
        case Raise(failure) => RecordKeepsCaps(tried, Result(call, failure.text, true, false), failure.parsed);
        case Block(reason, terminate) =>
          var ended := tried.(terminated := if terminate then r.terminated + 1 else r.terminated);
          SameCaps(r, ended);
          RecordKeepsCaps(ended, Result(call, reason, true, false), None);
      }
    }
  }

  lemma {:induction false} RunKnowsCaps(allowed: set<string>, events: seq<Event>)
    ensures CapsKnown(RunOf(allowed, events))
    decreases |events|
  {
    hide Step, CapsKnown;
    if events == [] {
      assert CapsKnown(START) by { StartKnowsCaps(); }
    } else {
      RunKnowsCaps(allowed, events[..|events| - 1]);
      StepKeepsCaps(RunOf(allowed, events[..|events| - 1]), allowed, events[|events| - 1]);
    }
  }

  lemma StartKnowsCaps()
    ensures CapsKnown(START)
  {
  }

  /** Result i is a failed search that is no cap block, or a cap block whose id another result repeats. */
  predicate Counts(results: seq<Recorded>, i: nat)
    requires i < |results|
  {
    && FailedSearch(results[i].result)
    && (results[i].capped ==> exists j | 0 <= j < |results| :: j != i && results[j].result.id == results[i].result.id)
  }

  lemma CapBlockExactly(r: Run, i: nat)
    requires CapsKnown(r) && i < |r.results| && FailedSearch(r.results[i].result)
    ensures !IsCapBlock(r.results, r.hook.blocked, r.results[i].result) <==> Counts(r.results, i)
  {
    hide FailedSearch;
    var rec := r.results[i];
    assert rec in r.results;
    IdCountHas(r.results, i, rec.result.id);
    if rec.result.id in r.hook.blocked && !rec.capped {
      var other :| other in r.results && other.capped && other.result.id == rec.result.id;
      var j :| 0 <= j < |r.results| && r.results[j] == other;
      assert j != i;
    }
  }

  /**
    * The cap exclusion hides no real failure: the run counts as failed exactly when the ledger saw an error,
    * a search result other than a soft cap block failed, or a cap block's id is repeated by another result.
    */
  lemma CapHidesNoFailure(allowed: set<string>, events: seq<Event>)
    ensures var r := RunOf(allowed, events);
            && (SearchFailed(r) <==> r.ledger.searchError || exists i | 0 <= i < |r.results| :: Counts(r.results, i))
            && (HasRealFailure(r.results) ==> SearchFailed(r))
  {
    hide RunOf, FailedSearch, CapsKnown, IsCapBlock;
    var r := RunOf(allowed, events);
    RunKnowsCaps(allowed, events);
    forall i | 0 <= i < |r.results| && FailedSearch(r.results[i].result)
      ensures !IsCapBlock(r.results, r.hook.blocked, r.results[i].result) <==> Counts(r.results, i)
    {
      CapBlockExactly(r, i);
    }
    assert forall i :: 0 <= i < |r.results| ==> r.results[i] in r.results;
    if HasRealFailure(r.results) {
      var rec :| rec in r.results && RealFailure(rec);
      var i :| 0 <= i < |r.results| && r.results[i] == rec;
      assert Counts(r.results, i);
    }
  }

  // ---- raw errors ----

  /** A search result that came back as an error. */
  predicate RawError(m: ToolResult) { m.tool == SEARCH_KNOWLEDGE_TOOL && m.isError }

  /** The raw error counts as a failed search unless it has the words of an approval. */
  lemma RawErrorFails(m: ToolResult)
    requires RawError(m) && !m.pending
    ensures FailedSearch(m) <==> m.text != PENDING_APPROVAL
  {
  }

  /** No search result asks for an approval. */
  predicate NonePending(results: seq<Recorded>) {
    forall rec | rec in results && rec.result.tool == SEARCH_KNOWLEDGE_TOOL :: !rec.result.pending
  }

  /** A step leaves the results alone or adds one; one of a search asks for no approval. */
  predicate AddsPlain(before: seq<Recorded>, after: seq<Recorded>) {
    || after == before
    || (&& |after| == |before| + 1 && after[..|before|] == before
        && (after[|before|].result.tool == SEARCH_KNOWLEDGE_TOOL ==> !after[|before|].result.pending))
  }

  lemma PerformAddsPlain(r: Run, call: Call, search: SearchRan, other: OtherRan)
    ensures AddsPlain(r.results, Perform(r, call, search, other).results)
  {
    hide Execute;
  }

  lemma StepAddsPlain(r: Run, allowed: set<string>, e: Event)
    ensures AddsPlain(r.results, Step(r, allowed, e).results)
  {
    hide Decide, Perform, CountToolCall, CountTurn, CountTokens, SearchOnly, AddsPlain;
    match e
    case Says(_, _) => assert AddsPlain(r.results, r.results) by { NothingAdded(r.results); }
    case Skips(call, error) => OneAdded(r.results, Recorded(Result(call, error.text, true, false), false, false));
    case EndsTurn(_, _, _) => NothingAdded(r.results);
    case Tries(call, policy, search, other) =>
      var (hook, decision) := Decide(r.hook, r.message, call, allowed, r.ledger.entries != [], policy);
      var error := CountToolCall(r.hook.counters, call.name).1;
      var tried := r.(hook := hook, passed := if error.None? then r.passed + 1 else r.passed);
      match decision {
        case Proceed => PerformAddsPlain(tried, call, search, other);
        case Raise(failure) => OneAdded(r.results, Recorded(Result(call, failure.text, true, false), false, false));
        case Block(reason, terminate) =>
          OneAdded(r.results, Recorded(Result(call, reason, true, false),
                                       error == Some(SearchLimit) && SearchOnly(r.message), false));
      }
  }

  lemma NothingAdded(results: seq<Recorded>)
    ensures AddsPlain(results, results)
  {
  }

  lemma OneAdded(results: seq<Recorded>, rec: Recorded)
    requires !rec.result.pending
    ensures AddsPlain(results, results + [rec])
  {
  }

  lemma {:induction false} SearchesAreNeverPending(allowed: set<string>, events: seq<Event>)
    ensures NonePending(RunOf(allowed, events).results)
    decreases |events|
  {
    hide Step;
    if events != [] {
      var n := |events| - 1;
      SearchesAreNeverPending(allowed, events[..n]);
      var before, after := RunOf(allowed, events[..n]).results, RunOf(allowed, events).results;
      StepAddsPlain(RunOf(allowed, events[..n]), allowed, events[n]);
      forall rec | rec in after && rec.result.tool == SEARCH_KNOWLEDGE_TOOL ensures !rec.result.pending {
        var i :| 0 <= i < |after| && after[i] == rec;
        assert i < |before| ==> after[i] == before[i];
      }
    }
  }

  /** Result i came back as an error in other words than an approval; a cap block needs a repeated id as well. */
  predicate RawCounts(results: seq<Recorded>, i: nat)
    requires i < |results|
  {
    && RawError(results[i].result) && results[i].result.text != PENDING_APPROVAL
    && (results[i].capped ==> exists j | 0 <= j < |results| :: j != i && results[j].result.id == results[i].result.id)
  }

  /**
    * In every run: the run counts as failed exactly when the ledger saw an error, a search that is no soft cap block
    * came back as an error in other words than "pending_approval", or a cap block's id is repeated. So every search
    * error that is not capped makes the run fail, unless it has exactly those words.
    */
  lemma RawErrorsCount(allowed: set<string>, events: seq<Event>)
    ensures var r := RunOf(allowed, events);
            && (SearchFailed(r) <==> r.ledger.searchError || exists i | 0 <= i < |r.results| :: RawCounts(r.results, i))
            && (forall rec | rec in r.results :: RawError(rec.result) && !rec.capped ==>
                                                   (FailedSearch(rec.result) <==> rec.result.text != PENDING_APPROVAL)
                                                   && (rec.result.text != PENDING_APPROVAL ==> SearchFailed(r)))
  {
    hide RunOf, FailedSearch, SearchFailed, HasRealFailure;
    var r := RunOf(allowed, events);
    CapHidesNoFailure(allowed, events);
    SearchesAreNeverPending(allowed, events);
    forall i | 0 <= i < |r.results| ensures RawCounts(r.results, i) <==> Counts(r.results, i) {
      assert r.results[i] in r.results;
      RawOrFailed(r.results[i].result);
    }
    forall rec | rec in r.results && RawError(rec.result) && !rec.capped
      ensures FailedSearch(rec.result) <==> rec.result.text != PENDING_APPROVAL
      ensures rec.result.text != PENDING_APPROVAL ==> SearchFailed(r)
    {
      RawErrorFails(rec.result);
      var i :| 0 <= i < |r.results| && r.results[i] == rec;
      assert RawCounts(r.results, i) <==> Counts(r.results, i);
    }
  }

  lemma RawOrFailed(m: ToolResult)
    requires m.tool == SEARCH_KNOWLEDGE_TOOL ==> !m.pending
    ensures FailedSearch(m) <==> RawError(m) && m.text != PENDING_APPROVAL
  {
  }

  lemma TwoSteps(allowed: set<string>, first: Event, second: Event)
    ensures RunOf(allowed, [first, second]) == Step(Step(START, allowed, first), allowed, second)
  {
    hide Step;
    var none: seq<Event> := [];
    assert [first, second][..1] == [first] && [first][..0] == none;
    assert RunOf(allowed, none) == START;
    assert RunOf(allowed, [first]) == Step(START, allowed, first);
  }

  /**
    * A run whose only search finished and whose result was then replaced by an error in the words of an approval, as
    * when the progress callback throws them: it does not count as failed, and its transcript carries no payload.
    */
  lemma ErrorInApprovalWords(allowed: set<string>, call: Call, hit: SearchHit, json: string, other: OtherRan)
    requires call.name == SEARCH_KNOWLEDGE_TOOL && call.name in allowed && hit.chunkId != ""
    ensures var outcome := Returned([hit], false);
            var search := Searches(outcome, json, Some(ErrorText(PENDING_APPROVAL, None)));
            var r := RunOf(allowed, [Says("", [call]), Tries(call, Allow, search, other)]);
            && |r.results| == 1 && RawError(r.results[0].result) && !r.results[0].capped
            && r.outcomes == [outcome] && r.ledger.entries != [] && !r.ledger.searchError && !SearchFailed(r)
            && LostCount(r.results) == 1 && r.transcript == [Assistant(""), Tool(SEARCH_KNOWLEDGE_TOOL, None)]
  {
    hide Execute, Decide, SearchFailed, LostCount, CountToolCall;
    var error: Failure := ErrorText(PENDING_APPROVAL, None);
    var outcome := Returned([hit], false);
    var first, second := Says("", [call]), Tries(call, Allow, Searches(outcome, json, Some(error)), other);
    TwoSteps(allowed, first, second);
    OneHitIsLabelled(hit);
    var r1 := Step(START, allowed, first);
    ProceedsExactly(r1.hook, r1.message, call, allowed, false, Allow);
    FirstCallLeavesNoMark(r1.hook, r1.message, call, allowed);
    OneLostResult(Step(r1, allowed, second), Recorded(Result(call, PENDING_APPROVAL, true, false), false, true));
  }

  lemma FirstCallLeavesNoMark(h: Hook, message: seq<Call>, call: Call, allowed: set<string>)
    requires h.counters == FRESH && h.blocked == {}
    ensures Decide(h, message, call, allowed, false, Allow).0.blocked == {}
  {
    hide Gate, ErrorMessage, SearchOnly;
  }

  lemma OneLostResult(r: Run, rec: Recorded)
    requires r.results == [rec] && SilentlyLost(rec) && !r.ledger.searchError
    ensures LostCount(r.results) == 1 && !SearchFailed(r)
  {
    var none: seq<Recorded> := [];
    assert r.results[..0] == none && LostCount(none) == 0;
    assert !FailedSearch(rec.result);
  }

  lemma OneHitIsLabelled(hit: SearchHit)
    requires hit.chunkId != ""
    ensures var ledger := Execute(CreateLedger(), Returned([hit], false)).0;
            ledger.entries != [] && !ledger.searchError
  {
    var none: seq<SearchHit> := [];
    assert [hit][1..] == none;
    var added := AddIdentity(CreateLedger(), HitIdentity(hit), None);
    assert AppendHits(added.ledger, none).0 == added.ledger;
  }

  /** The recorded status: an approval first, then an error, then what the text says. */
  lemma StatusExactly(m: ToolResult)
    ensures StatusOf(m) == AwaitsApproval <==> m.pending || m.text == "pending_approval"
    ensures StatusOf(m) == Error <==> m.isError && !m.pending && m.text != "pending_approval"
    ensures StatusOf(m) == Denied
       <==> && !m.isError && !m.pending && m.text != "pending_approval"
            && (Includes(m.text, "denied by policy") || Includes(m.text, "high-risk actions are denied"))
  {
    hide Includes;
  }

  // ---- what is recorded as denied ----

  /** Gate lets the policy speak: the tool is enabled and not held back for lack of evidence. */
  predicate PolicyAsked(call: Call, allowed: set<string>, hasEvidence: bool) {
    call.name in allowed && (call.name in SEARCH_FIRST_TOOLS ==> hasEvidence)
  }

  /**
    * A result of a blocked call is never recorded as denied: it is an error, unless the policy blocked the call with
    * the words of an approval.
    */
  lemma BlockedIsNotDenied(
    h: Hook, message: seq<Call>, call: Call, allowed: set<string>, hasEvidence: bool, policy: Policy)
    ensures var decision := Decide(h, message, call, allowed, hasEvidence, policy).1;
            decision.Block? ==>
              var status := StatusOf(Result(call, decision.reason, true, false));
              && status in {Error, AwaitsApproval}
              && (status == AwaitsApproval <==>
                  CountToolCall(h.counters, call.name).1.None? && PolicyAsked(call, allowed, hasEvidence)
                  && policy in {Pending, Deny(PENDING_APPROVAL)})
  {
    hide Includes;
    CapIsNoApproval();
    var decision := Decide(h, message, call, allowed, hasEvidence, policy).1;
    NotEnabledIsNoApproval(call.name);
  }

  lemma NotEnabledIsNoApproval(name: string)
    ensures "tool is not enabled for this run" != PENDING_APPROVAL && "tool denied by policy" != PENDING_APPROVAL
    ensures name + " is blocked until search_knowledge has returned evidence in this turn" != PENDING_APPROVAL
    ensures forall code :: ErrorMessage(code) != PENDING_APPROVAL
  {
  }

  /** A policy error is recorded as an error although its text says "denied by policy". */
  lemma PolicyErrorIsError(call: Call)
    ensures Gate(call, {call.name}, true, Rejected) == Block("tool denied by policy", true)
    ensures Includes("tool denied by policy", "denied by policy")
    ensures StatusOf(Result(call, "tool denied by policy", true, false)) == Error
  {
    assert OccursAt("tool denied by policy", "denied by policy", 5);
  }

  /** A finished search is recorded as denied when its evidence happens to say "denied by policy". */
  lemma EvidenceCanReadAsDenied(call: Call, json: string)
    requires Includes(json, "denied by policy")
    ensures StatusOf(Result(call, "UNTRUSTED_EVIDENCE\n" + json, false, false)) == Denied
  {
    var head := "UNTRUSTED_EVIDENCE\n";
    var i: nat :| i <= |json| && OccursAt(json, "denied by policy", i);
    assert (head + json)[|head| + i..|head| + i + 16] == json[i..i + 16];
    assert OccursAt(head + json, "denied by policy", |head| + i);
    assert (head + json)[0] == 'U' && PENDING_APPROVAL[0] == 'p';
  }

  // ---- when a call runs ----

  /** Within the budget of eight calls, and of four searches for a search. */
  predicate WithinCalls(c: Counters, name: string) {
    c.toolCalls < 8 && (name == SEARCH_KNOWLEDGE_TOOL ==> c.searches < 4)
  }

  /** The call runs: it is within budget and enabled, a ticket has evidence, and the policy allows it. */
  predicate Runs(c: Counters, name: string, allowed: set<string>, hasEvidence: bool, policy: Policy) {
    WithinCalls(c, name) && name in allowed && (name == "create_ticket" ==> hasEvidence) && policy == Allow
  }

  /** A call proceeds exactly when it may run. */
  lemma ProceedsExactly(
    h: Hook, message: seq<Call>, call: Call, allowed: set<string>, hasEvidence: bool, policy: Policy)
    ensures Decide(h, message, call, allowed, hasEvidence, policy).1 == Proceed
       <==> Runs(h.counters, call.name, allowed, hasEvidence, policy)
  {
    hide ErrorMessage, SearchOnly;
  }

  /** What a call over budget is blocked with; only a message of searches alone is blocked softly. */
  lemma BudgetBlocks(h: Hook, message: seq<Call>, call: Call, allowed: set<string>, hasEvidence: bool, policy: Policy)
    ensures var c, d := h.counters, Decide(h, message, call, allowed, hasEvidence, policy).1;
            && (c.toolCalls >= 8 ==> d == Block("tool-call budget exhausted", true))
            && (c.toolCalls < 8 && !WithinCalls(c, call.name) ==>
                  d == if forall other | other in message :: other.name == SEARCH_KNOWLEDGE_TOOL
                       then Block(SEARCH_LIMIT_REASON, false) else Block("search_knowledge budget exhausted", true))
  {
    hide Gate;
  }

  /** What a call within budget is blocked with, and whether the batch ends. */
  lemma GateBlocks(h: Hook, message: seq<Call>, call: Call, allowed: set<string>, hasEvidence: bool, policy: Policy)
    requires WithinCalls(h.counters, call.name)
    ensures var d := Decide(h, message, call, allowed, hasEvidence, policy).1;
            var gated := call.name in allowed && (call.name == "create_ticket" ==> hasEvidence);
            && (call.name !in allowed ==> d == Block("tool is not enabled for this run", true))
            && (call.name in allowed && !gated ==>
                  d == Block("create_ticket" + " is blocked until search_knowledge has returned evidence in this turn",
                             false))
            && (gated && policy.Pending? ==> d == Block("pending_approval", true))
            && (gated && policy.Deny? ==> d == Block(policy.reason, true))
            && (gated && policy.Rejected? ==> d == Block("tool denied by policy", true))
            && (gated && policy.Broke? ==> d == Raise(policy.error))
  {
    hide ErrorMessage, SearchOnly;
    assert CountToolCall(h.counters, call.name).1.None?;
    hide Gate, CountToolCall;
    if call.name !in allowed {
      GateNotEnabled(call, allowed, hasEvidence, policy);
    } else if call.name == "create_ticket" && !hasEvidence {
      GateNeedsEvidence(call, allowed, hasEvidence, policy);
    } else {
      GateAsksPolicy(call, allowed, hasEvidence, policy);
    }
  }

  lemma GateNotEnabled(call: Call, allowed: set<string>, hasEvidence: bool, policy: Policy)
    requires call.name !in allowed
    ensures Gate(call, allowed, hasEvidence, policy) == Block("tool is not enabled for this run", true)
  {
  }

  lemma GateNeedsEvidence(call: Call, allowed: set<string>, hasEvidence: bool, policy: Policy)
    requires call.name in allowed && call.name == "create_ticket" && !hasEvidence
    ensures Gate(call, allowed, hasEvidence, policy)
         == Block("create_ticket" + " is blocked until search_knowledge has returned evidence in this turn", false)
  {
  }

  lemma GateAsksPolicy(call: Call, allowed: set<string>, hasEvidence: bool, policy: Policy)
    requires call.name in allowed && (call.name == "create_ticket" ==> hasEvidence)
    ensures var d := Gate(call, allowed, hasEvidence, policy);
            && (policy.Allow? ==> d == Proceed)
            && (policy.Pending? ==> d == Block("pending_approval", true))
            && (policy.Deny? ==> d == Block(policy.reason, true))
            && (policy.Rejected? ==> d == Block("tool denied by policy", true))
            && (policy.Broke? ==> d == Raise(policy.error))
  {
  }

  /**
    * What the hook keeps: the call was counted; a soft cap marks the call, and the first hard block leaves its
    * message.
    */
  lemma HookRemembers(h: Hook, message: seq<Call>, call: Call, allowed: set<string>, hasEvidence: bool, policy: Policy)
    ensures var c, after := h.counters, Decide(h, message, call, allowed, hasEvidence, policy).0;
            var soft := c.toolCalls < 8 && !WithinCalls(c, call.name)
                        && forall other | other in message :: other.name == SEARCH_KNOWLEDGE_TOOL;
            && after.counters.toolCalls == c.toolCalls + 1
            && after.counters.searches
               == c.searches + (if c.toolCalls < 8 && call.name == SEARCH_KNOWLEDGE_TOOL then 1 else 0)
            && after.counters.turns == c.turns
            && after.blocked == (if soft then h.blocked + {call.id} else h.blocked)
            && after.hardBlock == (if h.hardBlock.Some? || WithinCalls(c, call.name) || soft then h.hardBlock
                                   else if c.toolCalls >= 8 then Some("tool-call budget exhausted")
                                   else Some("search_knowledge budget exhausted"))
  {
  }

  predicate MayRun(r: Run, allowed: set<string>, e: Event) {
    e.Tries? && Runs(r.hook.counters, e.call.name, allowed, r.ledger.entries != [], e.policy)
  }

  /** A tool runs in a run only then: otherwise the one result is an error of the hook, and no search takes place. */
  lemma StepRunsOnlyThen(r: Run, allowed: set<string>, e: Event)
    requires e.Tries?
    ensures var after := Step(r, allowed, e);
            && |after.results| == |r.results| + 1 && after.results[..|r.results|] == r.results
            && after.results[|r.results|].result.id == e.call.id
            && after.results[|r.results|].result.tool == e.call.name
            && (!MayRun(r, allowed, e) ==>
                  && after.results[|r.results|].result.isError && after.searched == r.searched
                  && after.outcomes == r.outcomes && after.ledger == r.ledger)
            && (MayRun(r, allowed, e) && e.call.name != SEARCH_KNOWLEDGE_TOOL ==>
                  && after.results[|r.results|].result
                     == ToolResult(e.call.id, e.call.name, e.other.text, e.other.isError, e.other.pending)
                  && after.searched == r.searched && after.outcomes == r.outcomes && after.ledger == r.ledger)
            && (MayRun(r, allowed, e) && e.call.name == SEARCH_KNOWLEDGE_TOOL ==>
                  && after.searched == r.searched + 1
                  && after.outcomes == r.outcomes + (if e.search.Searches? then [e.search.outcome] else []))
  {
    hide Runs, Gate, SearchOnly, ErrorMessage, CountToolCall, Execute, Decide;
    var (hook, decision) := Decide(r.hook, r.message, e.call, allowed, r.ledger.entries != [], e.policy);
    ProceedsExactly(r.hook, r.message, e.call, allowed, r.ledger.entries != [], e.policy);
    var none: seq<SearchOutcome> := [];
    assert r.outcomes + none == r.outcomes;
  }

  /** The calls of a run that ran, in order. */
  function CallsRun(allowed: set<string>, events: seq<Event>): seq<Call> {
    if events == [] then []
    else
      var n := |events| - 1;
      CallsRun(allowed, events[..n])
      + (if MayRun(RunOf(allowed, events[..n]), allowed, events[n]) then [events[n].call] else [])
  }

  function SearchesIn(calls: seq<Call>): nat {
    if calls == [] then 0
    else SearchesIn(calls[..|calls| - 1]) + (if calls[|calls| - 1].name == SEARCH_KNOWLEDGE_TOOL then 1 else 0)
  }

  function Attempts(events: seq<Event>): nat {
    if events == [] then 0
    else Attempts(events[..|events| - 1]) + (if events[|events| - 1].Tries? then 1 else 0)
  }

  /** The attempts to search among the first eight attempts. */
  function SearchAttempts(events: seq<Event>): nat {
    if events == [] then 0
    else
      var before, last := events[..|events| - 1], events[|events| - 1];
      SearchAttempts(before)
      + (if last.Tries? && last.call.name == SEARCH_KNOWLEDGE_TOOL && Attempts(before) < 8 then 1 else 0)
  }

  lemma StepCounts(r: Run, allowed: set<string>, e: Event)
    ensures var c, after := r.hook.counters, Step(r, allowed, e).hook.counters;
            && after.toolCalls == c.toolCalls + (if e.Tries? then 1 else 0)
            && after.searches
               == c.searches + (if e.Tries? && c.toolCalls < 8 && e.call.name == SEARCH_KNOWLEDGE_TOOL then 1 else 0)
  {
    hide Gate, Perform, SearchOnly, ErrorMessage, Decide, CountToolCall;
    if e.Tries? {
      var (hook, _) := Decide(r.hook, r.message, e.call, allowed, r.ledger.entries != [], e.policy);
      HookRemembers(r.hook, r.message, e.call, allowed, r.ledger.entries != [], e.policy);
      var error := CountToolCall(r.hook.counters, e.call.name).1;
      PerformStopsNothing(r.(hook := hook, passed := if error.None? then r.passed + 1 else r.passed),
                          e.call, e.search, e.other);
    }
  }

  /** In every run the counters count the attempts, whatever became of them. */
  lemma {:induction false} CountersCountAttempts(allowed: set<string>, events: seq<Event>)
    ensures var c := RunOf(allowed, events).hook.counters;
            c.toolCalls == Attempts(events) && c.searches == SearchAttempts(events)
    decreases |events|
  {
    hide Step;
    if events != [] {
      var n := |events| - 1;
      CountersCountAttempts(allowed, events[..n]);
      StepCounts(RunOf(allowed, events[..n]), allowed, events[n]);
    }
  }

  /**
    * In every run the next call runs exactly when it is among the first eight attempts, for a search among the first
    * four searches, enabled, allowed by the policy and, for a ticket, preceded by evidence.
    */
  lemma RunsExactly(allowed: set<string>, events: seq<Event>, e: Event)
    requires e.Tries?
    ensures MayRun(RunOf(allowed, events), allowed, e)
       <==> && Attempts(events) < 8 && (e.call.name == SEARCH_KNOWLEDGE_TOOL ==> SearchAttempts(events) < 4)
            && e.call.name in allowed && e.policy == Allow
            && (e.call.name == "create_ticket" ==> LiveLedger(RunOf(allowed, events).outcomes).entries != [])
  {
    hide RunOf, HasRealFailure, Carries, LiveLedger, LostCount;
    CountersCountAttempts(allowed, events);
    RunFollows(allowed, events);
  }

  /**
    * The calls that ran are enabled, at most eight, and the searches among them are those that took place, at most
    * four.
    */
  lemma {:induction false} CallsThatRan(allowed: set<string>, events: seq<Event>)
    ensures var ran := CallsRun(allowed, events);
            && (forall c | c in ran :: c.name in allowed)
            && |ran| <= 8 && |ran| <= Attempts(events)
            && SearchesIn(ran) == RunOf(allowed, events).searched <= 4
    decreases |events|
  {
    hide Step, Execute, Runs;
    BudgetsHold(allowed, events);
    if events != [] {
      var n := |events| - 1;
      CallsThatRan(allowed, events[..n]);
      CountersCountAttempts(allowed, events[..n]);
      var r := RunOf(allowed, events[..n]);
      var before := CallsRun(allowed, events[..n]);
      var none: seq<Call> := [];
      assert before + none == before;
      if events[n].Tries? {
        StepRunsOnlyThen(r, allowed, events[n]);
        if MayRun(r, allowed, events[n]) {
          RunsMeans(r, allowed, events[n]);
          assert forall c :: c in before + [events[n].call] <==> c in before || c == events[n].call;
          assert (before + [events[n].call])[..|before|] == before;
        }
      } else {
        OthersSearchNothing(r, allowed, events[n]);
      }
    }
  }

  lemma RunsMeans(r: Run, allowed: set<string>, e: Event)
    requires MayRun(r, allowed, e)
    ensures e.Tries? && e.call.name in allowed && r.hook.counters.toolCalls < 8
  {
  }

  lemma OthersSearchNothing(r: Run, allowed: set<string>, e: Event)
    requires !e.Tries?
    ensures Step(r, allowed, e).searched == r.searched
  {
  }

  /** No ticket is created in a run before a search of this run has returned a hit. */
  lemma TicketNeedsHit(allowed: set<string>, events: seq<Event>, e: Event)
    requires MayRun(RunOf(allowed, events), allowed, e) && e.call.name == "create_ticket"
    ensures exists o | o in RunOf(allowed, events).outcomes :: o.Returned? && o.hits != []
  {
    hide RunOf, HasRealFailure, Carries, LiveLedger, LostCount;
    RunFollows(allowed, events);
    var r := RunOf(allowed, events);
    EntriesNeedHits(r.outcomes);
  }

  lemma {:induction false} EntriesNeedHits(outcomes: seq<SearchOutcome>)
    requires LiveLedger(outcomes).entries != []
    ensures exists o | o in outcomes :: o.Returned? && o.hits != []
    decreases |outcomes|
  {
    var n := |outcomes| - 1;
    assert outcomes == outcomes[..n] + [outcomes[n]];
    if LiveLedger(outcomes[..n]).entries != [] {
      EntriesNeedHits(outcomes[..n]);
      var o :| o in outcomes[..n] && o.Returned? && o.hits != [];
      assert o in outcomes;
    } else {
      assert outcomes[n] in outcomes;
    }
  }
}
