/** One record per processed input, and the append-only log that holds its versions. */
module EvalRecords {
  import opened Options
  import opened OrderedDict

  datatype RealityStatus = PENDING | OBSERVED | ASKED | ANSWERED | SKIPPED

  datatype RealitySource =
    | HumanLabel | HumanAction | Cowork | SlackAsk | CalendarObservation | BookingConfirmation | Other

  datatype ObservedReality = ObservedReality(outcome: string, source: RealitySource, observedAt: int)

  datatype Prediction = Prediction(tierId: string, output: string, abstained: bool)

  /** The texts the runs write into a skipped record. */
  datatype SkipReason = BelowPriorityThreshold | RealityWindowExpired | OtherReason(text: string)

  datatype EvalRecord = EvalRecord(
    recordId: string,
    inputId: string,
    predictions: seq<Prediction>,
    activeDecision: string,
    status: RealityStatus,
    reality: Option<ObservedReality>,
    windowEndsAt: Option<int>,
    askId: Option<nat>,
    isGroundTruth: bool,
    skipReason: Option<SkipReason>)
  {
    function RecordReality(reality: ObservedReality): EvalRecord {
      this.(reality := Some(reality),
            status := if reality.source.SlackAsk? then ANSWERED else OBSERVED,
            isGroundTruth := true)
    }

    function MarkSkipped(reason: Option<SkipReason>): EvalRecord {
      this.(status := SKIPPED, skipReason := if reason.Some? then reason else skipReason)
    }

    function LinkAsk(id: nat): EvalRecord {
      this.(askId := Some(id), status := ASKED)
    }

    /** Still waiting for reality and never asked about. */
    predicate Candidate() {
      status.PENDING? && askId.None? && reality.None?
    }
  }

  /** Skipping again without a reason keeps the reason there is, and a new reason replaces it. */
  lemma SkippedAgain(r: EvalRecord, a: SkipReason, b: SkipReason)
    ensures r.MarkSkipped(Some(a)).MarkSkipped(None) == r.MarkSkipped(Some(a))
    ensures r.MarkSkipped(Some(a)).MarkSkipped(Some(b)) == r.MarkSkipped(Some(b))
  {
  }

  function InputOf(r: EvalRecord): string { r.inputId }

  /** The current version of every input, in the order the inputs first appeared. */
  function Latest(log: seq<EvalRecord>): Dict<string, EvalRecord> {
    LatestBy(InputOf, log)
  }

  /** The file of one task: lines are only ever added at the end. */
  class EvalRecordStore {
    var log: seq<EvalRecord>

    constructor ()
      ensures log == []
    {
      log := [];
    }

    method Append(r: EvalRecord)
      modifies this
      ensures log == old(log) + [r]
    {
      log := log + [r];
    }
  }

  method LatestRecordsPerInput(records: seq<EvalRecord>) returns (latest: seq<EvalRecord>)
    ensures latest == Values(Latest(records))
  {
    var d := Empty();
    for i := 0 to |records|
      invariant d == Latest(records[..i])
    {
      LatestAppend(InputOf, records[..i], records[i]);
      assert records[..i + 1] == records[..i] + [records[i]];
      d := Put(d, records[i].inputId, records[i]);
    }
    assert records[..|records|] == records;
    latest := Values(d);
  }
}
