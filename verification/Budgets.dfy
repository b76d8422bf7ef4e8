/** The counters that bound one run. */
module Budgets {
  import opened Wrappers
  import opened HostStrings

  const MAX_TURNS := 8
  const MAX_TOOL_CALLS := 8
  const MAX_SEARCH_KNOWLEDGE := 4
  const MAX_INPUT_TOKENS := 32000
  const MAX_OUTPUT_TOKENS := 4000
  const WALL_TIME_MS := 90000

  datatype Code = TurnLimit | ToolLimit | SearchLimit | WallTime | TokenLimit

  function ErrorMessage(code: Code): string {
    match code
    case TurnLimit => "turn budget exhausted"
    case ToolLimit => "tool-call budget exhausted"
    case SearchLimit => "search_knowledge budget exhausted"
    case WallTime => "interactive wall time budget exhausted"
    case TokenLimit => "token budget exhausted"
  }

  datatype Counters = Counters(turns: nat, toolCalls: nat, searches: nat, inputTokens: int, outputTokens: int)

  const FRESH := Counters(0, 0, 0, 0, 0)

  /** The counters after a call is noted, and the error it raised. */
  function CountToolCall(c: Counters, name: string): (Counters, Option<Code>) {
    var counted := c.(toolCalls := c.toolCalls + 1);
    if counted.toolCalls > MAX_TOOL_CALLS then (counted, Some(ToolLimit))
    else if name == SEARCH_KNOWLEDGE_TOOL then
      var searched := counted.(searches := c.searches + 1);
      (searched, if searched.searches > MAX_SEARCH_KNOWLEDGE then Some(SearchLimit) else None)
    else (counted, None)
  }

  function CountTurn(c: Counters): (Counters, Option<Code>) {
    var counted := c.(turns := c.turns + 1);
    (counted, if counted.turns >= MAX_TURNS then Some(TurnLimit) else None)
  }

  function CountTokens(c: Counters, input: int, output: int): (Counters, Option<Code>) {
    (c.(inputTokens := input, outputTokens := output),
     if input > MAX_INPUT_TOKENS || output > MAX_OUTPUT_TOKENS then Some(TokenLimit) else None)
  }

  /** The wall time left at `now`. */
  function RemainingMs(startedAt: int, now: int): int
  {
    var left := WALL_TIME_MS - (now - startedAt);
    if left > 0 then left else 0
  }

  function WallTimeError(startedAt: int, now: int): Option<Code> {
    if now - startedAt > WALL_TIME_MS then Some(WallTime) else None
  }

  /** At exactly the edge no time is left and the check during the run still passes; nowhere else do the two differ. */
  lemma EdgeIsLeftToTheEnd(startedAt: int, now: int)
    ensures (RemainingMs(startedAt, now) == 0 && WallTimeError(startedAt, now).None?)
       <==> now == startedAt + WALL_TIME_MS
    ensures WallTimeError(startedAt, now).Some? ==> RemainingMs(startedAt, now) == 0
    ensures RemainingMs(0, 90000) == 0 && WallTimeError(0, 90000).None?
  {
  }

  class BudgetTracker {
    var turns: nat
    var toolCalls: nat
    var searchKnowledgeCalls: nat
    var inputTokens: int
    var outputTokens: int
    const startedAt: int

    constructor (now: int)
      ensures View() == FRESH && startedAt == now
    {
      turns, toolCalls, searchKnowledgeCalls, inputTokens, outputTokens := 0, 0, 0, 0, 0;
      startedAt := now;
    }

    function View(): Counters
      reads this
    {
      Counters(turns, toolCalls, searchKnowledgeCalls, inputTokens, outputTokens)
    }

    /** Zero exactly from the wall-time edge on; before it, what is left. */
    function RemainingWallTimeMs(now: int): (left: int)
      ensures left >= 0 && (left == 0 <==> now >= startedAt + WALL_TIME_MS)
      ensures left > 0 ==> now + left == startedAt + WALL_TIME_MS
    {
      RemainingMs(startedAt, now)
    }

    method AssertWithinWallTime(now: int) returns (error: Option<Code>)
      ensures error == WallTimeError(startedAt, now)
    {
      error := if now - startedAt > WALL_TIME_MS then Some(WallTime) else None;
    }

    method NoteTurn() returns (error: Option<Code>)
      modifies this
      ensures (View(), error) == CountTurn(old(View()))
    {
      turns := turns + 1;
      error := if turns >= MAX_TURNS then Some(TurnLimit) else None;
    }

    method NoteToolCall(name: string) returns (error: Option<Code>)
      modifies this
      ensures (View(), error) == CountToolCall(old(View()), name)
    {
      toolCalls := toolCalls + 1;
      if toolCalls > MAX_TOOL_CALLS {
        return Some(ToolLimit);
      }
      if name == SEARCH_KNOWLEDGE_TOOL {
        searchKnowledgeCalls := searchKnowledgeCalls + 1;
        if searchKnowledgeCalls > MAX_SEARCH_KNOWLEDGE {
          return Some(SearchLimit);
        }
      }
      error := None;
    }

    method AssertTokenTotals(input: int, output: int) returns (error: Option<Code>)
      modifies this
      ensures (View(), error) == CountTokens(old(View()), input, output)
    {
      inputTokens, outputTokens := input, output;
      error := if inputTokens > MAX_INPUT_TOKENS || outputTokens > MAX_OUTPUT_TOKENS then Some(TokenLimit) else None;
    }

    method NoteTokens(input: int, output: int) returns (error: Option<Code>)
      modifies this
      ensures (View(), error)
           == CountTokens(old(View()), old(View()).inputTokens + input, old(View()).outputTokens + output)
    {
      error := AssertTokenTotals(inputTokens + input, outputTokens + output);
    }
  }
}
