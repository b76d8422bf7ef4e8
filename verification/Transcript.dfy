/** The turn a transcript ends with: which search payloads the ledger is rebuilt from. */
module Transcript {
  import opened Wrappers
  import opened Text
  import Support
  import opened Evidence
  import opened HostStrings

  /** A tool message carries its parsed payload, None when the content is no JSON object. */
  datatype Message =
    | User(content: string)
    | Assistant(content: string)
    | Tool(name: string, payload: Option<Payload>)

  predicate StartsWith(s: string, prefix: string) { |prefix| <= |s| && s[..|prefix|] == prefix }

  /** A user message the host wrote itself. */
  predicate IsSynthetic(script: Support.Script, content: string) {
    && Includes(Support.Lower(script, content), "incomplete") && StartsWith(content, "[")
    && (StartsWith(content, "[System:") || Includes(content, "Continue now"))
  }

  /** A text reads as synthetic when it says "incomplete" in any case and starts or continues like a host message. */
  lemma SyntheticExactly(script: Support.Script, content: string)
    ensures IsSynthetic(script, content)
       <==> && Includes(Support.Lower(script, content), "incomplete")
            && (|| (|content| >= 8 && content[..8] == "[System:")
                || (|content| >= 1 && content[0] == '[' && Includes(content, "Continue now")))
  {
    hide Includes, Support.Lower;
    assert |content| >= 1 ==> content[..1] == [content[0]];
    assert |content| >= 8 ==> content[..8][0] == content[0];
    assert "[System:"[0] == '[';
  }

  /** The search payloads after the last user message that is not synthetic. */
  function TurnPayloads(script: Support.Script, messages: seq<Message>): seq<Option<Payload>>
    decreases |messages|
  {
    if messages == [] then []
    else
      var last := messages[|messages| - 1];
      var before := messages[..|messages| - 1];
      match last
      case User(content) => if IsSynthetic(script, content) then TurnPayloads(script, before) else []
      case Assistant(_) => TurnPayloads(script, before)
      case Tool(name, payload) =>
        TurnPayloads(script, before) + (if name == SEARCH_KNOWLEDGE_TOOL then [payload] else [])
  }

  function BuildTurnLedger(script: Support.Script, messages: seq<Message>): Ledger {
    IngestAll(CreateLedger(), TurnPayloads(script, messages))
  }

  function SearchPayloads(messages: seq<Message>): seq<Option<Payload>> {
    if messages == [] then []
    else
      var last := messages[|messages| - 1];
      SearchPayloads(messages[..|messages| - 1])
      + (if last.Tool? && last.name == SEARCH_KNOWLEDGE_TOOL then [last.payload] else [])
  }

  /**
    * The messages a run adds after its question are exactly the turn, unless the question itself reads as
    * synthetic: then the previous turn's evidence is taken in as well.
    */
  lemma {:induction false} TurnStartsAtQuestion(
    script: Support.Script, prior: seq<Message>, question: string, run: seq<Message>)
    requires forall m | m in run :: !m.User?
    ensures TurnPayloads(script, prior + [User(question)] + run)
         == (if IsSynthetic(script, question) then TurnPayloads(script, prior) else []) + SearchPayloads(run)
    decreases |run|
  {
    hide IsSynthetic;
    var all := prior + [User(question)] + run;
    var n := |all| - 1;
    if run == [] {
      assert all[..n] == prior && all[n] == User(question);
    } else {
      var k := |run| - 1;
      assert all[..n] == prior + [User(question)] + run[..k] && all[n] == run[k];
      assert run[k] in run;
      TurnStartsAtQuestion(script, prior, question, run[..k]);
    }
  }

  /** The turn is the run alone exactly when the question is an ordinary one, or nothing was searched before it. */
  lemma TurnIsTheRun(script: Support.Script, prior: seq<Message>, question: string, run: seq<Message>)
    requires forall m | m in run :: !m.User?
    ensures TurnPayloads(script, prior + [User(question)] + run) == SearchPayloads(run)
       <==> !IsSynthetic(script, question) || TurnPayloads(script, prior) == []
  {
    hide IsSynthetic, TurnPayloads, SearchPayloads;
    TurnStartsAtQuestion(script, prior, question, run);
    var taken := if IsSynthetic(script, question) then TurnPayloads(script, prior) else [];
    assert |taken + SearchPayloads(run)| == |taken| + |SearchPayloads(run)|;
    assert taken == [] ==> taken + SearchPayloads(run) == SearchPayloads(run);
  }

  const SYNTHETIC_QUESTION := "[System:" + "incomplete"

  lemma QuestionIsSynthetic(script: Support.Script)
    requires forall c | c in "incomplete" :: script.lower(c) == [c]
    ensures IsSynthetic(script, SYNTHETIC_QUESTION)
  {
    hide Support.Lower;
    var tail := "incomplete";
    LowerKeeps(script, tail);
    LowerAppends(script, "[System:", tail);
    var head := Support.Lower(script, "[System:");
    assert OccursAt(head + tail, tail, |head|);
    assert StartsWith("[System:" + tail, "[System:") && StartsWith("[System:" + tail, "[");
  }

  /** A question a user may ask that takes in the search of the turn before it. */
  lemma SyntheticQuestionReachesBack(script: Support.Script, payload: Payload)
    requires forall c | c in "incomplete" :: script.lower(c) == [c]
    ensures var prior := [User("?"), Tool(SEARCH_KNOWLEDGE_TOOL, Some(payload))];
            TurnPayloads(script, prior + [User(SYNTHETIC_QUESTION)] + []) == [Some(payload)]
  {
    hide IsSynthetic;
    QuestionIsSynthetic(script);
    PlainIsNotSynthetic(script, "?");
    var first, search := User("?"), Tool(SEARCH_KNOWLEDGE_TOOL, Some(payload));
    var none: seq<Message> := [];
    assert [first, search][..1] == [first] && [first][..0] == none;
    assert TurnPayloads(script, [first]) == [];
    assert TurnPayloads(script, [first, search]) == [Some(payload)];
    TurnStartsAtQuestion(script, [first, search], SYNTHETIC_QUESTION, none);
    assert SearchPayloads(none) == [];
  }

  lemma PlainIsNotSynthetic(script: Support.Script, content: string)
    requires content != "" && content[0] != '['
    ensures !IsSynthetic(script, content)
  {
    assert content[..1][0] == content[0];
  }

  lemma {:induction false} LowerAppends(script: Support.Script, a: string, b: string)
    ensures Support.Lower(script, a + b) == Support.Lower(script, a) + Support.Lower(script, b)
    decreases |a|
  {
    if a == "" {
      assert a + b == b;
    } else {
      assert (a + b)[1..] == a[1..] + b;
      LowerAppends(script, a[1..], b);
    }
  }

  lemma {:induction false} LowerKeeps(script: Support.Script, s: string)
    requires forall c | c in s :: script.lower(c) == [c]
    ensures Support.Lower(script, s) == s
  {
    if s != "" {
      assert s == [s[0]] + s[1..];
      LowerKeeps(script, s[1..]);
    }
  }
}
