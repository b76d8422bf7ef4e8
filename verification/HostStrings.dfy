/** The fixed sentences the host answers with, and the name of its search tool. */
module HostStrings {
  const SEARCH_KNOWLEDGE_TOOL := "search_knowledge"

  // The sentences are written in pieces: the verifier unrolls a literal character by character, and a long one is slow.

  const BRAIN_NOT_ENOUGH_EVIDENCE := "I do not have enough retrieved" + " evidence to answer that question."
  const BRAIN_KNOWLEDGE_UNAVAILABLE :=
    "The knowledge base is " + "unavailable. Try the question " + "again in a new turn."
  const BRAIN_MUST_RETRIEVE :=
    "Answers must be grounded in " + "retrieved evidence. No " + "retrieval ran for this turn, "
    + "so no answer can be given."
  const BRAIN_INVALID_CITATION :=
    "A citation in the draft answer" + " did not match evidence " + "retrieved in this turn, so the"
    + " answer was refused."

  const HOST_STRINGS: set<string> :=
    {BRAIN_NOT_ENOUGH_EVIDENCE, BRAIN_KNOWLEDGE_UNAVAILABLE, BRAIN_MUST_RETRIEVE, BRAIN_INVALID_CITATION}

  predicate OneLine(s: string) { '\n' !in s }

  lemma HostStringsDiffer()
    ensures BRAIN_NOT_ENOUGH_EVIDENCE != BRAIN_INVALID_CITATION
    ensures BRAIN_KNOWLEDGE_UNAVAILABLE != BRAIN_INVALID_CITATION
    ensures BRAIN_MUST_RETRIEVE != BRAIN_INVALID_CITATION
    ensures BRAIN_NOT_ENOUGH_EVIDENCE != BRAIN_KNOWLEDGE_UNAVAILABLE
    ensures BRAIN_NOT_ENOUGH_EVIDENCE != BRAIN_MUST_RETRIEVE
    ensures BRAIN_MUST_RETRIEVE != BRAIN_KNOWLEDGE_UNAVAILABLE
  {
    assert |BRAIN_NOT_ENOUGH_EVIDENCE| == 64 && |BRAIN_KNOWLEDGE_UNAVAILABLE| == 72;
    assert |BRAIN_MUST_RETRIEVE| == 106 && |BRAIN_INVALID_CITATION| == 104;
  }

  lemma HostStringsAreHosts()
    ensures BRAIN_NOT_ENOUGH_EVIDENCE in HOST_STRINGS && BRAIN_KNOWLEDGE_UNAVAILABLE in HOST_STRINGS
    ensures BRAIN_MUST_RETRIEVE in HOST_STRINGS && BRAIN_INVALID_CITATION in HOST_STRINGS
    ensures BRAIN_NOT_ENOUGH_EVIDENCE != BRAIN_INVALID_CITATION
  {
    HostStringsDiffer();
  }

  lemma NotEnoughIsOneLine()
    ensures OneLine(BRAIN_NOT_ENOUGH_EVIDENCE)
  {
  }

  lemma UnavailableIsOneLine()
    ensures OneLine(BRAIN_KNOWLEDGE_UNAVAILABLE)
  {
  }

  lemma MustRetrieveIsOneLine()
    ensures OneLine(BRAIN_MUST_RETRIEVE)
  {
  }

  lemma InvalidIsOneLine()
    ensures OneLine(BRAIN_INVALID_CITATION)
  {
  }

  lemma HostStringsAreOneLine(s: string)
    requires s in HOST_STRINGS
    ensures OneLine(s)
  {
    hide OneLine;
    NotEnoughIsOneLine();
    UnavailableIsOneLine();
    MustRetrieveIsOneLine();
    InvalidIsOneLine();
  }
}
