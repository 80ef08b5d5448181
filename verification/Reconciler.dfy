/** The reconciliation runner: folds the record log, asks a reconciler about every input
    that is not settled, and appends what changed. */
module Reconciler {
  import opened Options
  import opened OrderedDict
  import opened EvalRecords

  datatype Outcome = Observed | StillPending | Expired | Skip

  datatype Result = Result(outcome: Outcome, reality: Option<ObservedReality>)

  /** A task's `reconcile_one`: what it sees for a record at a clock reading. */
  type Observer = (EvalRecord, int) -> Result

  datatype Verdict = Verdict(outcome: Outcome, update: Option<EvalRecord>)

  predicate WindowPassed(r: EvalRecord, now: int) {
    !r.isGroundTruth && r.windowEndsAt.Some? && now > r.windowEndsAt.value && r.reality.None?
  }

  function Reconcile(r: EvalRecord, now: int, observe: Observer): Verdict {
    if r.isGroundTruth then Verdict(Skip, None)
    else if WindowPassed(r, now) then Verdict(Expired, Some(r.MarkSkipped(Some(RealityWindowExpired))))
    else
      var result := observe(r, now);
      Verdict(result.outcome,
              if result.outcome.Observed? && result.reality.Some?
              then Some(r.RecordReality(result.reality.value)) else None)
  }

  function Reconciliations(rs: seq<EvalRecord>, now: int, observe: Observer): (us: seq<Option<EvalRecord>>)
    ensures |us| == |rs|
    ensures forall i :: 0 <= i < |rs| ==> us[i] == Reconcile(rs[i], now, observe).update
  {
    seq(|rs|, i requires 0 <= i < |rs| => Reconcile(rs[i], now, observe).update)
  }

  /** The log after one run. */
  function Reconciled(log: seq<EvalRecord>, now: int, observe: Observer): seq<EvalRecord> {
    log + Somes(Reconciliations(Values(Latest(log)), now, observe))
  }

  /** How many of `rs` ended with outcome `o`. */
  function Tally(rs: seq<EvalRecord>, now: int, observe: Observer, o: Outcome): nat {
    if rs == [] then 0
    else Tally(rs[..|rs| - 1], now, observe, o)
         + if Reconcile(rs[|rs| - 1], now, observe).outcome == o then 1 else 0
  }

  /** The report of a run: one count for every outcome. */
  function Tallies(rs: seq<EvalRecord>, now: int, observe: Observer): map<Outcome, nat> {
    map[Observed := Tally(rs, now, observe, Observed),
        StillPending := Tally(rs, now, observe, StillPending),
        Expired := Tally(rs, now, observe, Expired),
        Skip := Tally(rs, now, observe, Skip)]
  }

  function Bump(counts: map<Outcome, nat>, o: Outcome): map<Outcome, nat>
    requires o in counts
  {
    counts[o := counts[o] + 1]
  }

  lemma OneMore(rs: seq<EvalRecord>, i: nat, now: int, observe: Observer)
    requires i < |rs|
    ensures var v := Reconcile(rs[i], now, observe);
            && v.outcome in Tallies(rs[..i], now, observe)
            && Tallies(rs[..i + 1], now, observe) == Bump(Tallies(rs[..i], now, observe), v.outcome)
    ensures var v := Reconcile(rs[i], now, observe);
            Somes(Reconciliations(rs, now, observe)[..i + 1])
            == Somes(Reconciliations(rs, now, observe)[..i]) + if v.update.Some? then [v.update.value] else []
  {
    var us := Reconciliations(rs, now, observe);
    assert rs[..i + 1][..i] == rs[..i] && us[..i + 1][..i] == us[..i];
  }

  class RealityReconciliationRunner {
    const evalStore: EvalRecordStore

    constructor (evalStore: EvalRecordStore)
      ensures this.evalStore == evalStore
    {
      this.evalStore := evalStore;
    }

    method RunForTask(observe: Observer, now: int) returns (counts: map<Outcome, nat>)
      modifies evalStore
      ensures evalStore.log == Reconciled(old(evalStore.log), now, observe)
      ensures counts == Tallies(Values(Latest(old(evalStore.log))), now, observe)
    {
      hide LatestBy;
      counts := map[Observed := 0, StillPending := 0, Expired := 0, Skip := 0];
      var latest := LatestRecordsPerInput(evalStore.log);
      ghost var us := Reconciliations(latest, now, observe);
      for i := 0 to |latest|
        invariant evalStore.log == old(evalStore.log) + Somes(us[..i])
        invariant counts == Tallies(latest[..i], now, observe)
      {
        OneMore(latest, i, now, observe);
        var outcome := ReconcileRecord(latest[i], observe, now);
        counts := Bump(counts, outcome);
      }
      assert latest[..|latest|] == latest && us[..|latest|] == us;
    }

    /** The body of the loop over the inputs. */
    method ReconcileRecord(record: EvalRecord, observe: Observer, now: int) returns (outcome: Outcome)
      modifies evalStore
      ensures var v := Reconcile(record, now, observe);
              && outcome == v.outcome
              && evalStore.log == old(evalStore.log) + if v.update.Some? then [v.update.value] else []
    {
      if record.isGroundTruth {
        return Skip;
      }
      if record.windowEndsAt.Some? && now > record.windowEndsAt.value && record.reality.None? {
        evalStore.Append(record.MarkSkipped(Some(RealityWindowExpired)));
        return Expired;
      }
      var result := observe(record, now);
      if result.outcome.Observed? && result.reality.Some? {
        evalStore.Append(record.RecordReality(result.reality.value));
      }
      return result.outcome;
    }
  }

  /** What one run makes of a single record. */
  function After(r: EvalRecord, now: int, observe: Observer): EvalRecord {
    var v := Reconcile(r, now, observe);
    if v.update.Some? then v.update.value else r
  }

  /** A run maps every input's current version and touches nothing else of the view. */
  lemma ReconciledView(log: seq<EvalRecord>, now: int, observe: Observer)
    ensures Latest(Reconciled(log, now, observe)).keys == Latest(log).keys
    ensures Latest(Reconciled(log, now, observe)).vals.Keys == Latest(log).vals.Keys
    ensures forall x :: x in Latest(log).vals ==>
              Latest(Reconciled(log, now, observe)).vals[x] == After(Latest(log).vals[x], now, observe)
  {
    hide LatestBy, Somes;
    var d := Latest(log);
    var rs := Values(d);
    var us := Reconciliations(rs, now, observe);
    ValuesDistinct(InputOf, log);
    UpdatedFold(InputOf, log, rs, us);
    forall x | x in d.vals
      ensures Latest(Reconciled(log, now, observe)).vals[x] == After(d.vals[x], now, observe)
    {
      var i :| 0 <= i < |d.keys| && d.keys[i] == x;
      assert InputOf(rs[i]) == x;
    }
  }

  /** What one run makes of the current version of input `x`: ground truth stays; a pending reality past
      its window makes the record skipped, whatever could be observed; otherwise an observed reality makes
      it ground truth, and everything else leaves it alone. */
  lemma RunOutcome(log: seq<EvalRecord>, now: int, observe: Observer, x: string)
    requires x in Latest(log).vals
    ensures x in Latest(Reconciled(log, now, observe)).vals
    ensures var r, r' := Latest(log).vals[x], Latest(Reconciled(log, now, observe)).vals[x];
            && (r.isGroundTruth ==> r' == r)
            && (!r.isGroundTruth && r.reality.None? && r.windowEndsAt.Some? && now > r.windowEndsAt.value ==>
                  r' == r.(status := SKIPPED, skipReason := Some(RealityWindowExpired)))
            && (!r.isGroundTruth && (r.reality.Some? || r.windowEndsAt.None? || now <= r.windowEndsAt.value) ==>
                  var seen := observe(r, now);
                  r' == if seen.outcome.Observed? && seen.reality.Some?
                        then r.(reality := seen.reality, isGroundTruth := true,
                                status := if seen.reality.value.source.SlackAsk? then ANSWERED else OBSERVED)
                        else r)
  {
    hide LatestBy, Reconciled;
    ReconciledView(log, now, observe);
  }

  function Settled(): EvalRecord -> bool { (r: EvalRecord) => r.isGroundTruth }

  function TooLate(now: int): EvalRecord -> bool {
    (r: EvalRecord) => !r.isGroundTruth && r.reality.None? && r.windowEndsAt.Some? && r.windowEndsAt.value < now
  }

  /** The records a run asks its reconciler about and gets outcome `o` for. */
  function Sees(now: int, observe: Observer, o: Outcome): EvalRecord -> bool {
    (r: EvalRecord) => !r.isGroundTruth && !TooLate(now)(r) && observe(r, now).outcome == o
  }

  /** The report: ground truth counts as skipped, windows that passed as expired, and everything else as
      the reconciler says. */
  lemma {:induction false} CountsAre(rs: seq<EvalRecord>, now: int, observe: Observer)
    ensures var c := Tallies(rs, now, observe);
            && c[Skip] == |Filter(Settled(), rs)| + |Filter(Sees(now, observe, Skip), rs)|
            && c[Expired] == |Filter(TooLate(now), rs)| + |Filter(Sees(now, observe, Expired), rs)|
            && c[Observed] == |Filter(Sees(now, observe, Observed), rs)|
            && c[StillPending] == |Filter(Sees(now, observe, StillPending), rs)|
  {
    if rs != [] {
      CountsAre(rs[..|rs| - 1], now, observe);
    }
  }

  /** Every input is counted once. */
  lemma {:induction false} OutcomesAddUp(rs: seq<EvalRecord>, now: int, observe: Observer)
    ensures Tally(rs, now, observe, Observed) + Tally(rs, now, observe, StillPending)
          + Tally(rs, now, observe, Expired) + Tally(rs, now, observe, Skip) == |rs|
  {
    if rs != [] {
      OutcomesAddUp(rs[..|rs| - 1], now, observe);
    }
  }

  /** The records a run expires by itself, as opposed to those its reconciler calls expired. */
  function PassedCount(rs: seq<EvalRecord>, now: int): nat {
    if rs == [] then 0
    else PassedCount(rs[..|rs| - 1], now) + if WindowPassed(rs[|rs| - 1], now) then 1 else 0
  }

  /** A second run with the same clock and the same observations changes no input, yet the
      log grows again by one line for every input whose window has passed. */
  lemma SecondRun(log: seq<EvalRecord>, now: int, observe: Observer)
    ensures var once := Reconciled(log, now, observe);
            var twice := Reconciled(once, now, observe);
            && Latest(twice) == Latest(once)
            && |twice| == |once| + PassedCount(Values(Latest(log)), now)
  {
    var once := Reconciled(log, now, observe);
    ReconciledView(log, now, observe);
    ReconciledView(once, now, observe);
    ViewSettles(log, now, observe);
    SecondRunLines(Values(Latest(log)), Values(Latest(once)), now, observe);
  }

  lemma ViewSettles(log: seq<EvalRecord>, now: int, observe: Observer)
    ensures var once := Reconciled(log, now, observe);
            && Latest(Reconciled(once, now, observe)).vals == Latest(once).vals
            && |Values(Latest(once))| == |Values(Latest(log))|
            && forall i :: 0 <= i < |Values(Latest(log))| ==>
                 Values(Latest(once))[i] == After(Values(Latest(log))[i], now, observe)
  {
    var once := Reconciled(log, now, observe);
    var d, d' := Latest(log), Latest(once);
    ReconciledView(log, now, observe);
    ReconciledView(once, now, observe);
    forall x | x in d'.vals ensures After(d'.vals[x], now, observe) == d'.vals[x] {
      AfterTwice(d.vals[x], now, observe);
    }
    forall i | 0 <= i < |d.keys| ensures Values(d')[i] == After(Values(d)[i], now, observe) {
      assert d.keys[i] in d.vals;
    }
  }

  lemma AfterTwice(r: EvalRecord, now: int, observe: Observer)
    ensures var r' := After(r, now, observe);
            && After(r', now, observe) == r'
            && (Reconcile(r', now, observe).update.Some? <==> WindowPassed(r, now))
  {
  }

  lemma {:induction false} SecondRunLines(rs: seq<EvalRecord>, rs': seq<EvalRecord>, now: int, observe: Observer)
    requires |rs'| == |rs|
    requires forall i :: 0 <= i < |rs| ==> rs'[i] == After(rs[i], now, observe)
    ensures |Somes(Reconciliations(rs', now, observe))| == PassedCount(rs, now)
  {
    if rs != [] {
      var n := |rs| - 1;
      SecondRunLines(rs[..n], rs'[..n], now, observe);
      AfterTwice(rs[n], now, observe);
      assert Reconciliations(rs', now, observe)[..n] == Reconciliations(rs'[..n], now, observe);
    }
  }
}
