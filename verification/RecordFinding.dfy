/**
 Recording a finding against the evidence trail: all of its citations name results, or
 nothing is recorded (apps/api/src/agent/report.ts).
 */
module RecordFindings {
  import opened Wrappers
  import opened Transcript
  import opened TranscriptWrites
  import opened Evidence
  import opened Record

  /** recordFinding: refused whole when one citation names no result, or when there is none. */
  method RecordFinding(r: Record, entries: seq<Evidence.ToolCall>, input: FindingInput) returns (next: Record, recorded: bool)
    ensures recorded <==> input.evidence != [] && forall id :: id in input.evidence ==> id in Issued(entries)
    ensures !recorded ==> next == r
    ensures recorded ==> exists kept :: next == Recorded(r, input.(evidence := kept)) && SameIds(kept, input.evidence)
  {
    var kept, unknown := KnownCitations(entries, input.evidence);
    if |unknown| > 0 || |kept| == 0 {
      assert |unknown| > 0 ==> unknown[0] in unknown;
      assert |kept| == 0 && input.evidence != [] ==> input.evidence[0] in input.evidence;
      return r, false;
    }
    assert kept[0] in kept;
    next := Recorded(r, input.(evidence := kept));
    recorded := true;
    forall id | id in input.evidence
      ensures id in Issued(entries)
    {
      assert id !in unknown;
    }
    assert SameIds(kept, input.evidence);
  }

  // The same ids, each once.
  ghost predicate SameIds(kept: seq<nat>, ids: seq<nat>) {
    && (forall id :: id in kept <==> id in ids)
    && (forall i, j :: 0 <= i < j < |kept| ==> kept[i] != kept[j])
  }
}
