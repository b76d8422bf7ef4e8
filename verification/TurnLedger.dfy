/**
  * The mutable ledger of a turn: a list and two maps that share their identity objects, so filling
  * in the text of one identity shows through all three.
  */
module TurnLedger {
  import opened Wrappers
  import Evidence
  import Support
  import Transcript
  import HostStrings

  class EvidenceIdentity {
    const chunkId: string
    const documentId: string
    const version: Option<string>
    var section: string
    var text: string

    constructor (identity: Evidence.Identity)
      ensures View() == identity
    {
      chunkId, documentId, version := identity.chunkId, identity.documentId, identity.version;
      section, text := identity.section, identity.text;
    }

    function View(): Evidence.Identity
      reads this
    {
      Evidence.Identity(chunkId, documentId, version, section, text)
    }
  }

  /** The list and the two maps hold the same identities, each under one chunk id and one label. */
  ghost predicate Consistent(identities: seq<EvidenceIdentity>, byChunkId: map<string, EvidenceIdentity>,
                             byLabel: map<nat, EvidenceIdentity>, numbers: seq<nat>)
  {
    && |numbers| == |identities|
    && (forall i, j :: 0 <= i < j < |identities| ==> identities[i].chunkId != identities[j].chunkId)
    && (forall i, j :: 0 <= i < j < |numbers| ==> numbers[i] != numbers[j])
    && (forall i :: 0 <= i < |identities| ==>
                      identities[i].chunkId in byChunkId && byChunkId[identities[i].chunkId] == identities[i])
    && (forall i :: 0 <= i < |numbers| ==> numbers[i] in byLabel && byLabel[numbers[i]] == identities[i])
    && (forall c | c in byChunkId :: byChunkId[c] in identities && byChunkId[c].chunkId == c)
    && (forall n | n in byLabel :: n in numbers)
  }

  lemma ConsistentAppend(identities: seq<EvidenceIdentity>, byChunkId: map<string, EvidenceIdentity>,
                         byLabel: map<nat, EvidenceIdentity>, numbers: seq<nat>, identity: EvidenceIdentity,
                         number: nat)
    requires Consistent(identities, byChunkId, byLabel, numbers)
    requires identity.chunkId !in byChunkId && number !in byLabel
    ensures Consistent(identities + [identity], byChunkId[identity.chunkId := identity], byLabel[number := identity],
                       numbers + [number])
  {
    assert (numbers + [number])[|numbers|] == number && (identities + [identity])[|identities|] == identity;
  }

  class TurnEvidenceLedger {
    var identities: seq<EvidenceIdentity>
    var byChunkId: map<string, EvidenceIdentity>
    var byLabel: map<nat, EvidenceIdentity>
    var successfulSearchCount: nat
    var emptyOrInsufficient: bool
    var searchError: bool
    var labelConflict: bool
    var vectorDegradedCount: nat
    /** numbers[i] is the label of identities[i]. */
    ghost var numbers: seq<nat>

    ghost predicate Valid()
      reads this
    {
      Consistent(identities, byChunkId, byLabel, numbers)
    }

    ghost function Entries(n: nat): (es: seq<Evidence.Entry>)
      requires n <= |identities| == |numbers|
      reads this, identities
      ensures |es| == n
      ensures forall i :: 0 <= i < n ==> es[i] == Evidence.Entry(numbers[i], identities[i].View())
    {
      if n == 0 then [] else Entries(n - 1) + [Evidence.Entry(numbers[n - 1], identities[n - 1].View())]
    }

    ghost function View(): Evidence.Ledger
      requires Valid()
      reads this, identities
    {
      Evidence.Ledger(Entries(|identities|), successfulSearchCount, emptyOrInsufficient, searchError, labelConflict,
                      vectorDegradedCount)
    }

    constructor ()
      ensures Valid() && View() == Evidence.CreateLedger() && identities == []
    {
      identities, byChunkId, byLabel := [], map[], map[];
      successfulSearchCount, emptyOrInsufficient, searchError, labelConflict := 0, false, false, false;
      vectorDegradedCount, numbers := 0, [];
    }

    // ---- the structures seen as one list of entries ----

    lemma ChunkView(chunkId: string)
      requires Valid()
      ensures match Evidence.FindChunk(View().entries, chunkId)
              case Some(k) => k < |identities| && chunkId in byChunkId && byChunkId[chunkId] == identities[k]
                              && identities[k].chunkId == chunkId && |numbers| == |identities|
                              && View().entries[k] == Evidence.Entry(numbers[k], identities[k].View())
              case None => chunkId !in byChunkId
    {
      hide Entries, Evidence.FindChunk;
      var entries := View().entries;
      assert forall i :: 0 <= i < |entries| ==> entries[i].identity.chunkId == identities[i].chunkId;
    }

    lemma LabelView(number: nat)
      requires Valid()
      ensures match Evidence.FindLabel(View().entries, number)
              case Some(k) => k < |identities| && |numbers| == |identities| && number in byLabel
                              && byLabel[number] == identities[k]
                              && View().entries[k] == Evidence.Entry(number, identities[k].View())
              case None => number !in byLabel
    {
      hide Entries, Evidence.FindLabel;
      var entries := View().entries;
      assert forall i :: 0 <= i < |entries| ==> entries[i].number == numbers[i];
    }

    lemma LargestLabel(next: nat)
      requires Valid() && (forall n | n in byLabel :: n < next) && next >= 1 && (next == 1 || next - 1 in byLabel)
      ensures Evidence.MaxLabel(View().entries) + 1 == next
    {
      hide Entries, Evidence.MaxLabel;
      var entries := View().entries;
      var m := Evidence.MaxLabel(entries);
      assert forall i :: 0 <= i < |entries| ==> entries[i].number == numbers[i] && numbers[i] in byLabel;
      if next > 1 {
        var j :| 0 <= j < |numbers| && numbers[j] == next - 1;
        assert entries[j].number == next - 1;
      }
    }

    /** `labelForChunk`: the label under which the map holds this chunk. */
    method LabelForChunk(chunkId: string) returns (found: Option<nat>)
      ensures found.Some? ==> found.value in byLabel && byLabel[found.value].chunkId == chunkId
      ensures found.None? ==> forall n | n in byLabel :: byLabel[n].chunkId != chunkId
    {
      var left := byLabel.Keys;
      while left != {}
        invariant left <= byLabel.Keys
        invariant forall n | n in byLabel && n !in left :: byLabel[n].chunkId != chunkId
        decreases |left|
      {
        var n :| n in left;
        if byLabel[n].chunkId == chunkId {
          return Some(n);
        }
        left := left - {n};
      }
      return None;
    }

    /** `nextSequentialLabel`: one above the largest label in use. */
    method NextSequentialLabel() returns (next: nat)
      ensures next >= 1 && (forall n | n in byLabel :: n < next) && (next == 1 || next - 1 in byLabel)
    {
      var left := byLabel.Keys;
      next := 1;
      while left != {}
        invariant left <= byLabel.Keys
        invariant next >= 1 && (next == 1 || next - 1 in byLabel)
        invariant forall n | n in byLabel && n !in left :: n < next
        decreases |left|
      {
        var n :| n in left;
        next := if n + 1 > next then n + 1 else next;
        left := left - {n};
      }
    }

    /** A later hit supplies the text of an identity first seen without one. */
    method Fill(existing: EvidenceIdentity, identity: EvidenceIdentity, ghost k: nat)
      requires Valid() && k < |identities| && existing == identities[k] && identity !in identities
      modifies existing
      ensures Valid()
      ensures View() == old(View()).(entries :=
                        old(View()).entries[k := Evidence.FilledEntry(old(View()).entries[k], identity.View())])
    {
      hide Entries;
      ghost var before := View().entries;
      if existing.text == "" && identity.text != "" {
        existing.text := identity.text;
        existing.section := identity.section;
      }
      assert View().entries == before[k := Evidence.FilledEntry(before[k], identity.View())];
    }

    method NoteSuccess()
      requires Valid()
      modifies this`successfulSearchCount
      ensures Valid() && View() == old(View()).(successfulSearchCount := old(View()).successfulSearchCount + 1)
    {
      successfulSearchCount := successfulSearchCount + 1;
    }

    method NoteError()
      requires Valid()
      modifies this`searchError
      ensures Valid() && View() == old(View()).(searchError := true)
    {
      searchError := true;
    }

    method NoteDegraded()
      requires Valid()
      modifies this`vectorDegradedCount
      ensures Valid() && View() == old(View()).(vectorDegradedCount := old(View()).vectorDegradedCount + 1)
    {
      vectorDegradedCount := vectorDegradedCount + 1;
    }

    method SetEmpty(empty: bool)
      requires Valid()
      modifies this`emptyOrInsufficient
      ensures Valid() && View() == old(View()).(emptyOrInsufficient := empty)
    {
      emptyOrInsufficient := empty;
    }

    method MarkConflict()
      requires Valid()
      modifies this`labelConflict
      ensures Valid() && View() == old(View()).(labelConflict := true)
    {
      labelConflict := true;
    }

    /** A new identity enters the list and both maps. */
    method Record(identity: EvidenceIdentity, number: nat)
      requires Valid() && identity.chunkId !in byChunkId && number !in byLabel
      modifies this
      ensures Valid() && identities == old(identities) + [identity]
      ensures View() == old(View()).(entries := old(View()).entries + [Evidence.Entry(number, identity.View())])
    {
      hide Entries, Consistent;
      ghost var before := View().entries;
      assert |numbers| == |identities| by { SameLength(); }
      ConsistentAppend(identities, byChunkId, byLabel, numbers, identity, number);
      byChunkId := byChunkId[identity.chunkId := identity];
      identities := identities + [identity];
      byLabel := byLabel[number := identity];
      numbers := numbers + [number];
      OneMoreEntry(before);
    }

    lemma SameLength()
      requires Valid()
      ensures |numbers| == |identities|
    {
    }

    lemma OneMoreEntry(before: seq<Evidence.Entry>)
      requires Valid() && |identities| == |before| + 1
      requires |numbers| == |identities|
      requires forall i :: 0 <= i < |before| ==> before[i] == Evidence.Entry(numbers[i], identities[i].View())
      ensures View().entries == before + [Evidence.Entry(numbers[|before|], identities[|before|].View())]
    {
      hide Entries, Consistent;
    }

    method AddKnown(identity: EvidenceIdentity, requested: Option<nat>) returns (r: Option<nat>)
      requires Valid() && identity !in identities && identity.chunkId in byChunkId
      modifies this, identities
      ensures Valid() && identities == old(identities)
      ensures var k := Evidence.FindChunk(old(View()).entries, identity.chunkId);
              k.Some? && Evidence.Added(View(), r)
                         == Evidence.AddKnown(old(View()), k.value, old(identity.View()), requested)
    {
      hide Entries, Consistent, View, Evidence.FindChunk, Evidence.FindLabel, Evidence.FilledEntry;
      ChunkView(identity.chunkId);
      if requested.Some? {
        LabelView(requested.value);
      }
      var existing := byChunkId[identity.chunkId];
      ghost var k := Evidence.FindChunk(View().entries, identity.chunkId).value;
      r := LabelForChunk(identity.chunkId);
      SameLabel(k, r);
      var occupied := requested.Some? && requested.value in byLabel
                      && byLabel[requested.value].chunkId != identity.chunkId;
      if occupied {
        MarkConflict();
      }
      if requested.Some? && r != requested {
        MarkConflict();
      }
      Fill(existing, identity, k);
    }

    /** `addIdentity` changes the three structures together, as the value ledger prescribes. */
    method AddIdentity(identity: EvidenceIdentity, labelText: Option<string>) returns (r: Option<nat>)
      requires Valid() && identity !in identities
      modifies this, identities
      ensures Valid() && (identities == old(identities) || identities == old(identities) + [identity])
      ensures Evidence.Added(View(), r) == Evidence.AddIdentity(old(View()), old(identity.View()), labelText)
    {
      hide Entries, Consistent, View, Evidence.FindChunk, Evidence.FindLabel, Evidence.MaxLabel,
        Evidence.ParseCitationLabel,
        Evidence.AddKnown;
      if identity.chunkId == "" {
        return None;
      }
      var requested := Evidence.ParseCitationLabel(labelText);
      ChunkView(identity.chunkId);
      if identity.chunkId in byChunkId {
        r := AddKnown(identity, requested);
        return;
      }
      if requested.Some? {
        LabelView(requested.value);
        if requested.value in byLabel {
          MarkConflict();
          return None;
        }
      }
      var number;
      if requested.Some? {
        number := requested.value;
      } else {
        number := NextSequentialLabel();
        LargestLabel(number);
      }
      Record(identity, number);
      r := Some(number);
    }

    lemma SameLabel(k: nat, found: Option<nat>)
      requires Valid() && k < |identities|
      requires found.Some? ==> found.value in byLabel && byLabel[found.value].chunkId == identities[k].chunkId
      requires found.None? ==> forall n | n in byLabel :: byLabel[n].chunkId != identities[k].chunkId
      ensures found == Some(numbers[k])
    {
      assert byLabel[numbers[k]] == identities[k];
      if found.Some? {
        var j :| 0 <= j < |numbers| && numbers[j] == found.value;
      }
    }

    /** `appendSearchHit`: None where it throws. */
    method AppendSearchHit(identity: EvidenceIdentity) returns (r: Option<string>)
      requires Valid() && identity !in identities
      modifies this, identities
      ensures Valid() && (identities == old(identities) || identities == old(identities) + [identity])
      ensures var a := Evidence.AddIdentity(old(View()), old(identity.View()), None);
              View() == a.ledger && r == if a.number.Some? then Some(Evidence.LabelText(a.number.value)) else None
    {
      var number := AddIdentity(identity, None);
      r := if number.Some? then Some(Evidence.LabelText(number.value)) else None;
    }

    method IngestHits(hits: seq<Evidence.HitJson>)
      requires Valid()
      modifies this, identities
      ensures Valid() && View() == Evidence.IngestHits(old(View()), hits)
      ensures forall k :: 0 <= k < |identities| ==> identities[k] in old(identities) || fresh(identities[k])
    {
      hide Evidence.AddIdentity, Evidence.IdentityFromHit, View, Consistent;
      var i := 0;
      while i < |hits|
        invariant 0 <= i <= |hits|
        invariant Valid() && Evidence.IngestHits(View(), hits[i..]) == Evidence.IngestHits(old(View()), hits)
        invariant forall k :: 0 <= k < |identities| ==> identities[k] in old(identities) || fresh(identities[k])
      {
        var found := Evidence.IdentityFromHit(hits[i]);
        if found.Some? {
          var identity := new EvidenceIdentity(found.value);
          var _ := AddIdentity(identity, Evidence.HitLabel(hits[i]));
        }
        assert hits[i..][1..] == hits[i + 1..];
        i := i + 1;
      }
    }

    method IngestCitations(citations: seq<Evidence.CitationJson>)
      requires Valid()
      modifies this, identities
      ensures Valid() && View() == Evidence.IngestCitations(old(View()), citations)
      ensures forall k :: 0 <= k < |identities| ==> identities[k] in old(identities) || fresh(identities[k])
    {
      hide Evidence.AddIdentity, Evidence.IdentityFromCitation, View, Consistent;
      var i := 0;
      while i < |citations|
        invariant 0 <= i <= |citations|
        invariant Valid() && Evidence.IngestCitations(View(), citations[i..])
                             == Evidence.IngestCitations(old(View()), citations)
        invariant forall k :: 0 <= k < |identities| ==> identities[k] in old(identities) || fresh(identities[k])
      {
        var found := Evidence.IdentityFromCitation(citations[i]);
        if found.Some? {
          var identity := new EvidenceIdentity(found.value);
          var _ := AddIdentity(identity, citations[i].labelText);
        }
        assert citations[i..][1..] == citations[i + 1..];
        i := i + 1;
      }
    }

    /** How a payload leaves the flag for empty or insufficient evidence. */
    method NoteEmptiness(nothing: bool)
      requires Valid()
      modifies this
      ensures Valid() && identities == old(identities)
      ensures View() == if nothing then if old(View()).entries == [] then old(View()).(emptyOrInsufficient := true)
                                        else old(View())
                        else if old(View()).entries != [] then old(View()).(emptyOrInsufficient := false)
                        else old(View())
    {
      hide Entries, Consistent;
      SameLength();
      if nothing {
        if |identities| == 0 {
          SetEmpty(true);
        }
      } else if |identities| > 0 {
        SetEmpty(false);
      }
    }

    /** `ingestSearchPayload`: the rebuilt ledger takes in one tool result. */
    method IngestSearchPayload(payload: Option<Evidence.Payload>)
      requires Valid()
      modifies this, identities
      ensures Valid() && View() == Evidence.Ingest(old(View()), payload)
      ensures forall k :: 0 <= k < |identities| ==> identities[k] in old(identities) || fresh(identities[k])
    {
      hide Evidence.IngestHits, Evidence.IngestCitations, Consistent, Entries, View;
      if payload.None? {
        return;
      }
      match payload.value {
        case ErrorPayload =>
          NoteError();
        case Results(hits, citations, notEnough) =>
          IngestResults(hits, citations, notEnough);
      }
    }

    lemma EntriesLength()
      requires Valid()
      ensures |View().entries| == |identities|
    {
    }

    method IngestResults(hits: seq<Evidence.HitJson>, citations: seq<Evidence.CitationJson>, notEnough: bool)
      requires Valid()
      modifies this, identities
      ensures Valid() && View() == Evidence.Ingest(old(View()), Some(Evidence.Results(hits, citations, notEnough)))
      ensures forall k :: 0 <= k < |identities| ==> identities[k] in old(identities) || fresh(identities[k])
    {
      hide Evidence.IngestHits, Evidence.IngestCitations, Consistent, Entries, View, Valid;
      ghost var start := View();
      EntriesLength();
      NoteSuccess();
      var before := |identities|;
      IngestHits(hits);
      IngestCitations(citations);
      EntriesLength();
      var added := |identities| - before;
      ghost var filled := View();
      assert filled == Evidence.IngestCitations(
                         Evidence.IngestHits(start.(successfulSearchCount := start.successfulSearchCount + 1), hits),
                         citations);
      NoteEmptiness(notEnough || (added == 0 && hits == [] && citations == []));
    }

    /** The live append of a returned result; None where an append threw half way. */
    method AppendHits(hits: seq<Evidence.SearchHit>) returns (numbered: Option<seq<nat>>)
      requires Valid()
      modifies this, identities
      ensures Valid() && (View(), numbered) == Evidence.AppendHits(old(View()), hits)
      ensures forall k :: 0 <= k < |identities| ==> identities[k] in old(identities) || fresh(identities[k])
    {
      hide Evidence.AddIdentity, View, Consistent;
      var i := 0;
      var numbers: seq<nat> := [];
      ghost var all := Evidence.AppendHits(View(), hits);
      assert hits[0..] == hits && (all.1.Some? ==> numbers + all.1.value == all.1.value);
      while i < |hits|
        invariant 0 <= i <= |hits| && |numbers| == i && Valid()
        invariant var rest := Evidence.AppendHits(View(), hits[i..]);
                  all == (rest.0, if rest.1.None? then None else Some(numbers + rest.1.value))
        invariant forall k :: 0 <= k < |identities| ==> identities[k] in old(identities) || fresh(identities[k])
      {
        var identity := new EvidenceIdentity(Evidence.HitIdentity(hits[i]));
        var number := AddIdentity(identity, None);
        assert hits[i..][1..] == hits[i + 1..];
        if number.None? {
          return None;
        }
        ghost var rest := Evidence.AppendHits(View(), hits[i + 1..]);
        assert rest.1.Some? ==> numbers + ([number.value] + rest.1.value) == numbers + [number.value] + rest.1.value;
        numbers := numbers + [number.value];
        i := i + 1;
      }
      numbered := Some(numbers);
      assert numbers + [] == numbers;
    }

    /** The `execute` body of the search tool: what the live ledger records and the payload it returns. */
    method ExecuteSearch(outcome: Evidence.SearchOutcome) returns (payload: Evidence.Payload)
      requires Valid()
      modifies this, identities
      ensures Valid() && (View(), payload) == Evidence.Execute(old(View()), outcome)
      ensures forall k :: 0 <= k < |identities| ==> identities[k] in old(identities) || fresh(identities[k])
    {
      hide Evidence.AppendHits, Consistent, Entries;
      match outcome {
        case Failed =>
          NoteError();
          payload := Evidence.ErrorPayload;
        case Returned(hits, vectorFailed) =>
          if vectorFailed {
            NoteDegraded();
          }
          var numbered := AppendHits(hits);
          if numbered.None? {
            NoteError();
            payload := Evidence.ErrorPayload;
          } else {
            payload := Evidence.Results(
              Evidence.HitsJson(hits, numbered.value), Evidence.CitationsJson(hits, numbered.value), hits == []);
          }
      }
    }
  }

  function Reversed<T>(s: seq<T>): (r: seq<T>)
    ensures |r| == |s| && forall i :: 0 <= i < |s| ==> r[i] == s[|s| - 1 - i]
  {
    seq(|s|, i requires 0 <= i < |s| => s[|s| - 1 - i])
  }

  /** The backward scan over the messages: the search payloads of the turn, last one first. */
  method CollectTurnPayloads(script: Support.Script, messages: seq<Transcript.Message>)
    returns (turnPayloads: seq<Option<Evidence.Payload>>)
    ensures Reversed(turnPayloads) == Transcript.TurnPayloads(script, messages)
  {
    hide Transcript.IsSynthetic;
    turnPayloads := [];
    var i := |messages|;
    assert messages[..i] == messages;
    assert Transcript.TurnPayloads(script, messages)
        == Transcript.TurnPayloads(script, messages) + Reversed(turnPayloads);
    while i > 0
      invariant 0 <= i <= |messages|
      invariant Transcript.TurnPayloads(script, messages)
             == Transcript.TurnPayloads(script, messages[..i]) + Reversed(turnPayloads)
    {
      i := i - 1;
      assert messages[..i + 1][..i] == messages[..i];
      match messages[i] {
        case User(content) =>
          if !Transcript.IsSynthetic(script, content) {
            assert Transcript.TurnPayloads(script, messages[..i + 1]) == [];
            return;
          }
        case Assistant(_) =>
        case Tool(name, payload) =>
          if name == HostStrings.SEARCH_KNOWLEDGE_TOOL {
            assert Reversed(turnPayloads + [payload]) == [payload] + Reversed(turnPayloads);
            turnPayloads := turnPayloads + [payload];
          }
      }
    }
  }

  /** `buildTurnLedger`. */
  method BuildTurnLedger(script: Support.Script, messages: seq<Transcript.Message>) returns (ledger: TurnEvidenceLedger)
    ensures fresh(ledger) && ledger.Valid() && ledger.View() == Transcript.BuildTurnLedger(script, messages)
  {
    hide Transcript.TurnPayloads, Evidence.Ingest, Consistent;
    ledger := new TurnEvidenceLedger();
    var turnPayloads := CollectTurnPayloads(script, messages);
    ghost var inOrder := Reversed(turnPayloads);
    var i := |turnPayloads|;
    while i > 0
      invariant 0 <= i <= |turnPayloads| && ledger.Valid() && fresh(ledger)
      invariant forall k :: 0 <= k < |ledger.identities| ==> fresh(ledger.identities[k])
      invariant ledger.View() == Evidence.IngestAll(Evidence.CreateLedger(), inOrder[..|turnPayloads| - i])
    {
      i := i - 1;
      ledger.IngestSearchPayload(turnPayloads[i]);
      assert inOrder[..|turnPayloads| - i][..|turnPayloads| - i - 1] == inOrder[..|turnPayloads| - i - 1];
    }
    assert inOrder[..|turnPayloads|] == inOrder;
  }
}
