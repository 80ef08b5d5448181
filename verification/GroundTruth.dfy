/** When ground truth is final: what a step may do to a settled input, which states let an old
    answer replace it, and where ground truth comes from. */
module GroundTruth {
  import opened Options
  import opened OrderedDict
  import opened EvalRecords
  import opened Asks
  import Rec = Reconciler
  import Replies = AskReplies
  import opened Orchestrator
  import opened EvalLoop

  // ----- one step

  /** The step decides about input `x`: it asks about it or skips it. */
  ghost predicate Decides(cfg: Config, s: State, e: Event, x: string) {
    e.ReviewPending?
    && exists i :: 0 <= i < |Ranked(cfg, s.log)| && Ranked(cfg, s.log)[i].record.inputId == x
                   && !Review(cfg, s.log, s.asks, s.nextAsk, e.at).plan[i].Wait?
  }

  /** The step brings an answer for an unsettled record of input `x`. */
  ghost predicate Answers(s: State, e: Event, x: string) {
    e.Answered?
    && exists t :: t in Replies.Targets(s.log, e.ask) && !t.isGroundTruth && t.inputId == x
  }

  /** A step changes the current version of a settled input exactly when it records the input again,
      brings an answer for an unsettled record of it, or decides about it; and it can decide about it
      only if the record lacks the reality that ground truth should have. */
  lemma GroundTruthChangesIff(cfg: Config, s: State, e: Event, x: string)
    requires Enabled(s, e) && x in View(s) && View(s)[x].isGroundTruth
    ensures x in View(Next(cfg, s, e))
    ensures View(Next(cfg, s, e))[x] != View(s)[x] <==> Arrives(e, x) || Answers(s, e, x) || Decides(cfg, s, e, x)
    ensures Decides(cfg, s, e, x) ==> View(s)[x].reality.None?
  {
    hide LatestBy, Review, Ranked, Replies.Propagated, Replies.Targets;
    StepView(cfg, s, e);
    match e
    case Arrive(_) => RecordedIsNew(s, e, x);
    case Escalated(_, _) => RecordedIsNew(s, e, x);
    case AskMoves(_) =>
    case Reconcile(_, _) =>
    case Answered(a, at) => Replies.GroundTruthSurvivesReply(s.log, a, at, x);
    case ReviewPending(now, _) => DecidedIsChanged(cfg, s, now, x);
  }

  lemma RecordedIsNew(s: State, e: Event, x: string)
    requires (e.Arrive? || e.Escalated?) && Enabled(s, e) && x in View(s)
    ensures Recorded(s, e) != View(s)[x]
  {
    hide LatestBy;
    var i := Replies.LastLine(s.log, x);
    LatestDomain(Replies.RecordIdOf, s.log, s.log[i].recordId);
    assert Replies.RecordIdOf(s.log[i]) == s.log[i].recordId;
  }

  lemma DecidedIsChanged(cfg: Config, s: State, now: int, x: string)
    requires x in View(s) && View(s)[x].isGroundTruth
    ensures var p := Review(cfg, s.log, s.asks, s.nextAsk, now);
            var after := Latest(s.log + p.lines).vals;
            && x in after
            && (after[x] != View(s)[x] <==>
                  exists i :: 0 <= i < |Ranked(cfg, s.log)| && Ranked(cfg, s.log)[i].record.inputId == x && !p.plan[i].Wait?)
            && ((exists i :: 0 <= i < |Ranked(cfg, s.log)| && Ranked(cfg, s.log)[i].record.inputId == x) ==>
                  View(s)[x].reality.None?)
  {
    hide LatestBy, Review, Ranked;
    var ss, p := Ranked(cfg, s.log), Review(cfg, s.log, s.asks, s.nextAsk, now);
    ReviewedView(cfg, s.log, s.asks, s.nextAsk, now);
    if exists i :: 0 <= i < |ss| && ss[i].record.inputId == x {
      var i :| 0 <= i < |ss| && ss[i].record.inputId == x;
      RankedOnce(cfg, s.log, i);
      DecisionShows(ss[i].record, p.plan[i]);
    }
  }

  /** A ranked record is a candidate, and the only one ranked of its input. */
  lemma RankedOnce(cfg: Config, log: seq<EvalRecord>, i: nat)
    requires i < |Ranked(cfg, log)|
    ensures Ranked(cfg, log)[i].record.Candidate()
    ensures forall j :: 0 <= j < |Ranked(cfg, log)| && j != i ==>
              Ranked(cfg, log)[j].record.inputId != Ranked(cfg, log)[i].record.inputId
  {
    hide LatestBy, Ranked;
    var ss := Ranked(cfg, log);
    RankedRecords(cfg, log);
    assert Records(ss)[i] == ss[i].record && ss[i].record in Records(ss);
    forall j | 0 <= j < |ss| && j != i ensures ss[j].record.inputId != ss[i].record.inputId {
      assert Records(ss)[j] == ss[j].record;
      assert if j < i then InputOf(Records(ss)[j]) != InputOf(Records(ss)[i])
             else InputOf(Records(ss)[i]) != InputOf(Records(ss)[j]);
    }
  }

  lemma DecisionShows(r: EvalRecord, d: Decision)
    requires r.Candidate()
    ensures Reviewed(r, d) == r <==> d.Wait?
  {
  }

  // ----- any run

  /** From the clock reading `now` on, some open ask can bring an answer for an unsettled record of
      input `x`. */
  ghost predicate Exposed(s: State, x: string, now: int) {
    exists id: nat, t :: Exposes(s, x, now, id, t)
  }

  ghost predicate Exposes(s: State, x: string, now: int, id: nat, t: EvalRecord) {
    && id in Asks.State(s.asks).vals && Answerable(Asks.State(s.asks).vals[id], now)
    && t in Replies.Targets(s.log, Asks.State(s.asks).vals[id])
    && !t.isGroundTruth && t.inputId == x
  }

  /** No answer is read before the clock reading `now`. */
  predicate AnswersFrom(es: seq<Event>, now: int) {
    forall i :: 0 <= i < |es| && es[i].Answered? ==> now <= es[i].at
  }

  /** The clock reading of the earliest answer. */
  function Earliest(es: seq<Event>): (now: int)
    ensures AnswersFrom(es, now)
  {
    if es == [] then 0
    else
      var e, now := es[|es| - 1], Earliest(es[..|es| - 1]);
      assert forall i :: 0 <= i < |es| - 1 ==> es[..|es| - 1][i] == es[i];
      if e.Answered? && e.at < now then e.at else now
  }

  ghost predicate Settled(s: State, x: string) {
    x in View(s) && View(s)[x].isGroundTruth && View(s)[x].reality.Some?
  }

  /** Whom an answer is for depends only on which ask it is and on the records it names. */
  lemma SameTargets(log: seq<EvalRecord>, a: Ask, b: Ask)
    requires SameAsk(a, b)
    ensures Replies.Targets(log, a) == Replies.Targets(log, b)
  {
  }

  lemma KeptTarget(s: State, a: Ask, x: string, now: int, t: EvalRecord)
    requires Known(s, a) && Answerable(Asks.State(s.asks).vals[a.askId], now)
    requires t in Replies.Targets(s.log, a) && !t.isGroundTruth && t.inputId == x
    ensures Exposed(s, x, now)
  {
    hide LatestBy, Replies.Targets;
    SameTargets(s.log, a, Asks.State(s.asks).vals[a.askId]);
    assert Exposes(s, x, now, a.askId, t);
  }

  /** No line is added for a settled input that no open ask exposes. */
  lemma NoNewLine(cfg: Config, s: State, e: Event, x: string, now: int, j: nat)
    requires Enabled(s, e) && Settled(s, x) && !Exposed(s, x, now) && !Arrives(e, x) && AnswersFrom([e], now)
    requires |s.log| <= j < |Next(cfg, s, e).log|
    ensures Next(cfg, s, e).log[j].inputId != x
  {
    hide LatestBy, Next, Replies.Targets, Exposed;
    assert [e][0] == e;
    var r := LineOrigin(cfg, s, e, j);
    if e.Answered? && r.inputId == x {
      KeptTarget(s, e.ask, x, now, r);
    }
  }

  lemma StaysSettled(cfg: Config, s: State, e: Event, x: string, now: int)
    requires Enabled(s, e) && Tidy(s) && Settled(s, x) && !Exposed(s, x, now) && !Arrives(e, x) && AnswersFrom([e], now)
    ensures x in View(Next(cfg, s, e)) && View(Next(cfg, s, e))[x] == View(s)[x]
    ensures !Exposed(Next(cfg, s, e), x, now)
  {
    hide LatestBy, Next, Enabled, Exposed, Tidy, Replies.Targets;
    var s' := Next(cfg, s, e);
    LogGrows(cfg, s, e);
    var lines := s'.log[|s.log|..];
    assert s'.log == s.log + lines;
    forall k | 0 <= k < |lines| ensures InputOf(lines[k]) != x {
      NoNewLine(cfg, s, e, x, now, |s.log| + k);
    }
    LatestAppendMiss(InputOf, s.log, lines, x);
    if Exposed(s', x, now) {
      OldExposure(cfg, s, e, x, now);
    }
  }

  lemma OldExposure(cfg: Config, s: State, e: Event, x: string, now: int)
    requires Enabled(s, e) && Tidy(s) && Exposed(Next(cfg, s, e), x, now)
    requires s.log <= Next(cfg, s, e).log
    requires forall j :: |s.log| <= j < |Next(cfg, s, e).log| ==> Next(cfg, s, e).log[j].inputId != x
    ensures Exposed(s, x, now)
  {
    hide LatestBy, Next, Enabled, Replies.Targets;
    var s' := Next(cfg, s, e);
    var id: nat, t :| Exposes(s', x, now, id, t);
    var a := Asks.State(s'.asks).vals[id];
    Replies.TargetIff(s'.log, a, t);
    var i := Replies.LastVersion(s'.log, t.recordId);
    assert i < |s.log| && s.log[i] == t && t in s.log;
    forall j | i < j < |s.log| ensures Replies.RecordIdOf(s.log[j]) != Replies.RecordIdOf(s.log[i]) {
      assert s.log[j] == s'.log[j];
    }
    LatestIsLast(Replies.RecordIdOf, s.log, i);
    AskOrigin(cfg, s, e, id);
    assert AskIdOf(a) == id;
    if id in Asks.State(s.asks).vals {
      Replies.TargetIff(s.log, a, t);
      KeptTarget(s, a, x, now, t);
    } else {
      assert false;
    }
  }

  lemma {:induction false} SafeAlong(cfg: Config, s: State, es: seq<Event>, x: string, now: int)
    requires Legal(cfg, s, es) && Tidy(s) && Settled(s, x) && !Exposed(s, x, now)
    requires Arrivals(es, x) == 0 && AnswersFrom(es, now)
    ensures x in View(Run(cfg, s, es)) && View(Run(cfg, s, es))[x] == View(s)[x]
    ensures !Exposed(Run(cfg, s, es), x, now)
  {
    hide Next, View, Enabled, Tidy, Exposed;
    if es != [] {
      var n := |es| - 1;
      assert forall i :: 0 <= i < n ==> es[..n][i] == es[i];
      SafeAlong(cfg, s, es[..n], x, now);
      RunKeepsTidy(cfg, s, es[..n]);
      StaysSettled(cfg, Run(cfg, s, es[..n]), es[n], x, now);
    }
  }

  /** An answer to the open ask that exposes a settled input replaces its ground truth. */
  lemma ExposedIsReplaced(cfg: Config, s: State, x: string, now: int, id: nat, t: EvalRecord) returns (e: Event)
    requires Settled(s, x) && Exposes(s, x, now, id, t)
    ensures Legal(cfg, s, [e]) && !Arrives(e, x) && AnswersFrom([e], now)
    ensures x in View(Run(cfg, s, [e])) && View(Run(cfg, s, [e]))[x] != View(s)[x]
  {
    hide LatestBy, Replies.Targets, Replies.Propagated;
    var a := Asks.State(s.asks).vals[id];
    var answered := a.(status := AskStatus.Answered, answeredAt := Some(now), answer := Some(""));
    assert AskIdOf(a) == id;
    e := Event.Answered(answered, now);
    SameTargets(s.log, answered, a);
    assert [e][..0] == [];
    assert Run(cfg, s, [e]) == Next(cfg, s, e);
    Replies.GroundTruthSurvivesReply(s.log, answered, now, x);
  }

  /** From the clock reading `now` on, ground truth stands in every run that does not record the input
      again exactly when no ask that is open and not expired at `now` leads to an unsettled record of
      the input. */
  lemma FinalIffNotExposed(cfg: Config, s: State, x: string, now: int)
    requires Tidy(s) && Settled(s, x)
    ensures (forall es :: Legal(cfg, s, es) && Arrivals(es, x) == 0 && AnswersFrom(es, now) ==>
               x in View(Run(cfg, s, es)) && View(Run(cfg, s, es))[x] == View(s)[x])
            <==> !Exposed(s, x, now)
  {
    hide Legal, Run, Tidy, LatestBy;
    if Exposed(s, x, now) {
      var id: nat, t :| Exposes(s, x, now, id, t);
      var e := ExposedIsReplaced(cfg, s, x, now, id, t);
      NoArrival(e, x);
      assert Legal(cfg, s, [e]) && Arrivals([e], x) == 0 && AnswersFrom([e], now);
    } else {
      forall es | Legal(cfg, s, es) && Arrivals(es, x) == 0 && AnswersFrom(es, now)
        ensures x in View(Run(cfg, s, es)) && View(Run(cfg, s, es))[x] == View(s)[x]
      {
        SafeAlong(cfg, s, es, x, now);
      }
    }
  }

  lemma NoArrival(e: Event, x: string)
    requires !Arrives(e, x)
    ensures Arrivals([e], x) == 0
  {
    assert [e][..0] == [];
  }

  // ----- inputs recorded once

  /** All lines of input `x` are versions of one record. */
  ghost predicate OneRecord(log: seq<EvalRecord>, x: string) {
    forall q, r :: q in log && r in log && q.inputId == x == r.inputId ==> q.recordId == r.recordId
  }

  lemma OneRecordNotExposed(s: State, x: string, now: int)
    requires Settled(s, x) && OneRecord(s.log, x)
    ensures !Exposed(s, x, now)
  {
    hide LatestBy, Replies.Targets;
    if Exposed(s, x, now) {
      var id: nat, t :| Exposes(s, x, now, id, t);
      Replies.TargetIff(s.log, Asks.State(s.asks).vals[id], t);
      var i := Replies.LastLine(s.log, x);
      var j := Replies.LastVersion(s.log, t.recordId);
      Replies.SameVersion(s.log, x, t);
    }
  }

  /** Once an input that has one record is ground truth, no run of the loop changes it, unless the
      input is recorded again. */
  lemma GroundTruthIsFinal(cfg: Config, s: State, es: seq<Event>, x: string)
    requires Tidy(s) && Legal(cfg, s, es) && Arrivals(es, x) == 0
    requires Settled(s, x) && OneRecord(s.log, x)
    ensures x in View(Run(cfg, s, es)) && View(Run(cfg, s, es))[x] == View(s)[x]
  {
    OneRecordNotExposed(s, x, Earliest(es));
    SafeAlong(cfg, s, es, x, Earliest(es));
  }

  lemma {:induction false} RecordedOnce(cfg: Config, es: seq<Event>, x: string)
    requires Legal(cfg, Start, es)
    ensures Arrivals(es, x) == 0 ==> forall r :: r in Run(cfg, Start, es).log ==> r.inputId != x
    ensures Arrivals(es, x) <= 1 ==> OneRecord(Run(cfg, Start, es).log, x)
  {
    hide Next, Enabled, OneRecord;
    if es == [] {
      assert OneRecord([], x) by { NothingRecorded(x); }
    } else {
      var n := |es| - 1;
      RecordedOnce(cfg, es[..n], x);
      StepRecordsOnce(cfg, Run(cfg, Start, es[..n]), es[n], x);
    }
  }

  lemma NothingRecorded(x: string)
    ensures OneRecord([], x)
  {
  }

  lemma StepRecordsOnce(cfg: Config, s: State, e: Event, x: string)
    requires Enabled(s, e)
    ensures !Arrives(e, x) && (forall r :: r in s.log ==> r.inputId != x) ==>
              forall r :: r in Next(cfg, s, e).log ==> r.inputId != x
    ensures !Arrives(e, x) && OneRecord(s.log, x) ==> OneRecord(Next(cfg, s, e).log, x)
    ensures Arrives(e, x) && (forall r :: r in s.log ==> r.inputId != x) ==> OneRecord(Next(cfg, s, e).log, x)
  {
    hide LatestBy, Enabled, NewRecord, Rec.Reconciled, Replies.Propagated, Review;
    var log' := Next(cfg, s, e).log;
    if e.Arrive? || e.Escalated? {
      assert log' == s.log + [Recorded(s, e)];
      assert forall r :: r in log' <==> r in s.log || r == Recorded(s, e);
    } else {
      forall q | q in log' ensures exists q0 :: q0 in s.log && q0.recordId == q.recordId && q0.inputId == q.inputId {
        var q0 := OldRecord(cfg, s, e, q);
      }
    }
  }

  /** So from the empty loop, an input that is recorded once and becomes ground truth keeps it. */
  lemma RecordedOnceIsFinal(cfg: Config, es: seq<Event>, more: seq<Event>, x: string)
    requires Legal(cfg, Start, es + more) && Arrivals(es + more, x) <= 1
    requires x in View(Run(cfg, Start, es)) && View(Run(cfg, Start, es))[x].isGroundTruth
    ensures x in View(Run(cfg, Start, es + more)) && View(Run(cfg, Start, es + more))[x] == View(Run(cfg, Start, es))[x]
  {
    hide Next, Enabled, LatestBy, OneRecord;
    var s := Run(cfg, Start, es);
    RunInTwo(cfg, Start, es, more);
    ArrivalsInTwo(es, more, x);
    StartIsTidy();
    RunKeepsTidy(cfg, Start, es);
    RunKeeps(cfg, Start, es);
    RecordedOnce(cfg, es, x);
    var i := Replies.LastLine(s.log, x);
    assert s.log[i] in s.log;
    GroundTruthIsFinal(cfg, s, more, x);
  }

  // ----- inputs recorded again

  /** An input whose record waits for an open ask is recorded again and its new record observed: an
      answer to the first ask, before it expires, then replaces what was observed, by a version of an
      older record. */
  lemma OldAnswerReplacesGroundTruth(cfg: Config, s: State, x: string, r: EvalRecord, now: int, observe: Rec.Observer,
                                     reality: ObservedReality, text: string, at: int) returns (es: seq<Event>)
    requires Tidy(s) && x in View(s) && !View(s)[x].isGroundTruth
    requires View(s)[x].askId.Some? && View(s)[x].askId.value in Asks.State(s.asks).vals
    requires Answerable(Asks.State(s.asks).vals[View(s)[x].askId.value], at)
    requires NewRecord(s, r) && r.inputId == x && (r.windowEndsAt.None? || now <= r.windowEndsAt.value)
    requires observe(r, now) == Rec.Result(Rec.Observed, Some(reality))
    ensures var a := Asks.State(s.asks).vals[View(s)[x].askId.value]
                     .(status := AskStatus.Answered, answeredAt := Some(at), answer := Some(text));
            && es == [Arrive(r), Reconcile(now, observe), Event.Answered(a, at)] && Legal(cfg, s, es)
            && x in View(Run(cfg, s, es[..2])) && View(Run(cfg, s, es[..2]))[x] == r.RecordReality(reality)
            && x in View(Run(cfg, s, es))
            && View(Run(cfg, s, es))[x].isGroundTruth
            && View(Run(cfg, s, es))[x].reality == Some(Replies.Answer(a, at))
            && View(Run(cfg, s, es))[x].recordId != r.recordId
  {
    hide LatestBy, Rec.Reconciled, Replies.Propagated, Replies.Targets, Tidy;
    var t := View(s)[x];
    var a := Asks.State(s.asks).vals[t.askId.value]
             .(status := AskStatus.Answered, answeredAt := Some(at), answer := Some(text));
    assert AskIdOf(Asks.State(s.asks).vals[t.askId.value]) == t.askId.value;
    var e0, e1, e2 := Arrive(r), Reconcile(now, observe), Event.Answered(a, at);
    es := [e0, e1, e2];
    var s1 := Next(cfg, s, e0);
    var s2 := Next(cfg, s1, e1);
    ThreeSteps(cfg, s, e0, e1, e2);
    assert Enabled(s, e0) && Enabled(s1, e1) && Enabled(s2, e2);
    StepView(cfg, s, e0);
    StepView(cfg, s1, e1);
    assert View(s1)[x] == r && View(s2)[x] == r.RecordReality(reality);
    OldVersionStays(cfg, s, x, r, now, observe);
    Replies.TargetIff(s2.log, a, t);
    AnsweredOldRecord(s2, a, at, x, t);
  }

  lemma ThreeSteps(cfg: Config, s: State, e0: Event, e1: Event, e2: Event)
    ensures var es := [e0, e1, e2];
            var s1 := Next(cfg, s, e0);
            var s2 := Next(cfg, s1, e1);
            && es[..2] == [e0, e1] && Run(cfg, s, es[..2]) == s2 && Run(cfg, s, es) == Next(cfg, s2, e2)
            && (Legal(cfg, s, es) <==> Enabled(s, e0) && Enabled(s1, e1) && Enabled(s2, e2))
  {
    hide Next, Enabled;
    assert [e0, e1, e2][..2] == [e0, e1] && [e0, e1][..1] == [e0] && [e0][..0] == [];
    assert Run(cfg, s, []) == s && Run(cfg, s, [e0]) == Next(cfg, s, e0);
    assert Legal(cfg, s, [e0]) <==> Enabled(s, e0);
    assert Legal(cfg, s, [e0, e1]) <==> Legal(cfg, s, [e0]) && Enabled(Next(cfg, s, e0), e1);
  }

  lemma OldVersionStays(cfg: Config, s: State, x: string, r: EvalRecord, now: int, observe: Rec.Observer)
    requires Tidy(s) && x in View(s) && NewRecord(s, r) && r.inputId == x
    ensures var s2 := Next(cfg, Next(cfg, s, Arrive(r)), Reconcile(now, observe));
            var t := View(s)[x];
            t.recordId in Replies.Versions(s2.log).vals && Replies.Versions(s2.log).vals[t.recordId] == t
  {
    hide LatestBy, Rec.Reconciled, Tidy;
    var t := View(s)[x];
    CurrentIsVersion(s, x);
    var s1 := Next(cfg, s, Arrive(r));
    var s2 := Next(cfg, s1, Reconcile(now, observe));
    LatestAppend(Replies.RecordIdOf, s.log, r);
    StepView(cfg, s, Arrive(r));
    StepKeepsTidy(cfg, s, Arrive(r));
    UntouchedVersion(cfg, s1, x, t, now, observe);
  }

  /** A reconciler run leaves a record alone that is no longer the current version of its input. */
  lemma UntouchedVersion(cfg: Config, s: State, x: string, t: EvalRecord, now: int, observe: Rec.Observer)
    requires Tidy(s) && t in s.log && t.inputId == x && x in View(s) && View(s)[x].recordId != t.recordId
    requires t.recordId in Replies.Versions(s.log).vals && Replies.Versions(s.log).vals[t.recordId] == t
    ensures var log' := Next(cfg, s, Reconcile(now, observe)).log;
            t.recordId in Replies.Versions(log').vals && Replies.Versions(log').vals[t.recordId] == t
  {
    hide LatestBy, Next, Tidy;
    var log' := Next(cfg, s, Reconcile(now, observe)).log;
    LogGrows(cfg, s, Reconcile(now, observe));
    var lines := log'[|s.log|..];
    assert log' == s.log + lines;
    forall k | 0 <= k < |lines| ensures Replies.RecordIdOf(lines[k]) != t.recordId {
      var q := LineOrigin(cfg, s, Reconcile(now, observe), |s.log| + k);
      SameRecordSameInput(s, q, t);
    }
    LatestAppendMiss(Replies.RecordIdOf, s.log, lines, t.recordId);
  }

  lemma SameRecordSameInput(s: State, q: EvalRecord, t: EvalRecord)
    requires Tidy(s) && q in s.log && t in s.log
    ensures q.recordId == t.recordId ==> q.inputId == t.inputId
  {
  }

  /** An input's current version is the newest line of its record. */
  lemma CurrentIsVersion(s: State, x: string)
    requires Tidy(s) && x in View(s)
    ensures var t := View(s)[x];
            && t in s.log && t.inputId == x
            && t.recordId in Replies.Versions(s.log).vals && Replies.Versions(s.log).vals[t.recordId] == t
  {
    hide LatestBy;
    var i := Replies.LastLine(s.log, x);
    assert s.log[i] in s.log;
    forall j | i < j < |s.log| ensures Replies.RecordIdOf(s.log[j]) != Replies.RecordIdOf(s.log[i]) {
      assert InputOf(s.log[j]) != x && s.log[j] in s.log;
    }
    LatestIsLast(Replies.RecordIdOf, s.log, i);
  }

  lemma AnsweredOldRecord(s: State, a: Ask, at: int, x: string, t: EvalRecord)
    requires a.answer.Some? && x in View(s) && View(s)[x].isGroundTruth
    requires t in Replies.Targets(s.log, a) && !t.isGroundTruth && t.inputId == x
    ensures var after := Latest(Replies.Propagated(s.log, a, at)).vals;
            && x in after && after[x].isGroundTruth && after[x].reality == Some(Replies.Answer(a, at))
            && after[x].recordId != View(s)[x].recordId
  {
    hide LatestBy, Replies.Propagated, Replies.Targets;
    Replies.GroundTruthSurvivesReply(s.log, a, at, x);
    Replies.PropagatedView(s.log, a, at, x);
    var after := Latest(Replies.Propagated(s.log, a, at)).vals;
    var u :| u in Replies.Targets(s.log, a) && !u.isGroundTruth && u.inputId == x
             && after[x] == u.RecordReality(Replies.Answer(a, at));
    Replies.TargetIff(s.log, a, u);
    if u.recordId == View(s)[x].recordId {
      Replies.SameVersion(s.log, x, u);
    }
  }

  lemma AfterEscalation(cfg: Config, first: EvalRecord, postedAt: int, r: EvalRecord)
    requires NewRecord(Start, first) && NewRecord(Start, r) && r.recordId != first.recordId && r.inputId == first.inputId
    ensures var s := Next(cfg, Start, Escalated(first, postedAt));
            && Legal(cfg, Start, [Escalated(first, postedAt)])
            && NewRecord(s, r) && View(s) == map[r.inputId := first.LinkAsk(0)]
            && 0 in Asks.State(s.asks).vals && Asks.State(s.asks).vals[0] == NewAsk(0, [], postedAt, cfg.replyWindow)
  {
    hide LatestBy;
    var e := Escalated(first, postedAt);
    var ask := NewAsk(0, [], postedAt, cfg.replyWindow);
    assert [e][..0] == [] && Run(cfg, Start, []) == Start && [] + [ask] == [ask];
    assert [] + [first.LinkAsk(0)] == [first.LinkAsk(0)];
    EmptyFolds();
    LatestAppend(InputOf, [], first.LinkAsk(0));
    LatestAppend(Replies.RecordIdOf, [], first.LinkAsk(0));
    LatestAppend(AskIdOf, [], ask);
  }

  lemma EmptyFolds()
    ensures LatestBy(InputOf, []) == Empty() && LatestBy(Replies.RecordIdOf, []) == Empty()
    ensures LatestBy(AskIdOf, []) == Empty()
  {
  }

  lemma ArrivalsOfThree(e0: Event, e1: Event, e2: Event, x: string)
    ensures Arrivals([e0, e1, e2], x)
         == (if Arrives(e0, x) then 1 else 0) + (if Arrives(e1, x) then 1 else 0) + if Arrives(e2, x) then 1 else 0
  {
    assert [e0, e1, e2][..2] == [e0, e1] && [e0, e1][..1] == [e0] && [e0][..0] == [];
    assert Arrivals([e0], x) == if Arrives(e0, x) then 1 else 0;
    assert Arrivals([e0, e1], x) == Arrivals([e0], x) + if Arrives(e1, x) then 1 else 0;
  }

  /** This happens from the empty loop: escalate, record again, observe, and answer the
      escalation before it expires. */
  lemma OldAnswerFromStart(cfg: Config, first: EvalRecord, postedAt: int, r: EvalRecord, now: int,
                           observe: Rec.Observer, reality: ObservedReality, text: string, at: int)
      returns (es: seq<Event>)
    requires NewRecord(Start, first) && NewRecord(Start, r) && r.recordId != first.recordId && r.inputId == first.inputId
    requires r.windowEndsAt.None? || now <= r.windowEndsAt.value
    requires observe(r, now) == Rec.Result(Rec.Observed, Some(reality))
    requires at <= postedAt + cfg.replyWindow
    ensures |es| == 4 && Legal(cfg, Start, es) && Arrivals(es, r.inputId) == 2
    ensures var x := r.inputId;
            && x in View(Run(cfg, Start, es[..3])) && View(Run(cfg, Start, es[..3]))[x] == r.RecordReality(reality)
            && x in View(Run(cfg, Start, es)) && View(Run(cfg, Start, es))[x].reality.Some?
            && View(Run(cfg, Start, es))[x].reality.value.outcome == text
            && View(Run(cfg, Start, es))[x].recordId != r.recordId
  {
    hide Next, LatestBy, Tidy, Replies.Targets, Replies.Propagated, Rec.Reconciled;
    var x, e := r.inputId, Escalated(first, postedAt);
    var s := Next(cfg, Start, e);
    assert [e][..0] == [] && Run(cfg, Start, [e]) == s;
    StartIsTidy();
    StepKeepsTidy(cfg, Start, e);
    AfterEscalation(cfg, first, postedAt, r);
    var more := OldAnswerReplacesGroundTruth(cfg, s, x, r, now, observe, reality, text, at);
    es := [e] + more;
    RunInTwo(cfg, Start, [e], more);
    RunInTwo(cfg, Start, [e], more[..2]);
    assert es[..3] == [e] + more[..2];
    ArrivalsInTwo([e], more, x);
    ArrivalsOfThree(more[0], more[1], more[2], x);
    assert Arrivals([e], x) == 1;
  }

  // ----- where ground truth comes from

  /** The run's step `k` observed the reality of input `x` within its window. */
  ghost predicate Observes(cfg: Config, s: State, es: seq<Event>, k: nat, x: string, reality: ObservedReality)
    requires k < |es|
  {
    var before, after := View(Run(cfg, s, es[..k])), View(Run(cfg, s, es));
    && es[k].Reconcile? && x in before && x in after && !before[x].isGroundTruth
    && !Rec.WindowPassed(before[x], es[k].now)
    && es[k].observe(before[x], es[k].now) == Rec.Result(Rec.Observed, Some(reality))
    && after[x] == before[x].RecordReality(reality)
  }

  /** The run's step `k` brought the answer for a record of input `x` that was not settled. */
  ghost predicate Replied(cfg: Config, s: State, es: seq<Event>, k: nat, x: string, reality: ObservedReality)
    requires k < |es|
  {
    var before, after := Run(cfg, s, es[..k]), View(Run(cfg, s, es));
    && es[k].Answered? && x in after && reality == Replies.Answer(es[k].ask, es[k].at)
    && exists t :: t in Replies.Targets(before.log, es[k].ask) && !t.isGroundTruth && t.inputId == x
                   && after[x] == t.RecordReality(reality)
  }

  /** Ground truth has an origin: a reconciler run within the observation window that saw a reality,
      or an answered ask; and the record that this step wrote is the input's to the end. */
  lemma {:induction false} GroundTruthWasObserved(cfg: Config, s: State, es: seq<Event>, x: string)
      returns (k: nat, reality: ObservedReality)
    requires Sound(s) && Legal(cfg, s, es)
    requires x in View(s) ==> !View(s)[x].isGroundTruth
    requires x in View(Run(cfg, s, es)) && View(Run(cfg, s, es))[x].isGroundTruth
    ensures k < |es| && (Observes(cfg, s, es, k, x, reality) || Replied(cfg, s, es, k, x, reality))
    ensures View(Run(cfg, s, es))[x].reality == Some(reality)
  {
    hide Next, LatestBy, Sound, Enabled, Replies.Targets;
    assert es != [];
    var n := |es| - 1;
    var s', after := Run(cfg, s, es[..n]), View(Run(cfg, s, es));
    RunKeeps(cfg, s, es[..n]);
    StepView(cfg, s', es[n]);
    if x in View(s') && View(s')[x] == after[x] {
      k, reality := GroundTruthWasObserved(cfg, s, es[..n], x);
      assert es[..n][..k] == es[..k] && es[..n][k] == es[k];
    } else {
      k := n;
      reality := LastStepSettles(cfg, s', es[n], x);
    }
  }

  lemma LastStepSettles(cfg: Config, s: State, e: Event, x: string) returns (reality: ObservedReality)
    requires Sound(s) && Enabled(s, e) && x in View(Next(cfg, s, e)) && View(Next(cfg, s, e))[x].isGroundTruth
    requires x in View(s) ==> View(s)[x] != View(Next(cfg, s, e))[x]
    ensures var after := View(Next(cfg, s, e))[x];
            && after.reality == Some(reality)
            && ((&& e.Reconcile? && x in View(s) && !View(s)[x].isGroundTruth && !Rec.WindowPassed(View(s)[x], e.now)
                 && e.observe(View(s)[x], e.now) == Rec.Result(Rec.Observed, Some(reality))
                 && after == View(s)[x].RecordReality(reality))
                || (&& e.Answered? && reality == Replies.Answer(e.ask, e.at)
                    && exists t :: t in Replies.Targets(s.log, e.ask) && !t.isGroundTruth && t.inputId == x
                                   && after == t.RecordReality(reality)))
  {
    hide Next, LatestBy, Replies.Targets;
    StepView(cfg, s, e);
    reality := View(Next(cfg, s, e))[x].reality.value;
  }
}
