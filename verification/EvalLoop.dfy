/** The eval loop as a whole: one record log and one ask log, changed by whole runs of the
    orchestrator and of the reconciler in any order, by inputs that are recorded, by asks whose
    lifecycle moves on, and by answers. */
module EvalLoop {
  import opened Options
  import opened OrderedDict
  import opened EvalRecords
  import opened Asks
  import Rec = Reconciler
  import Replies = AskReplies
  import opened Orchestrator

  /** `own` are the ids of the asks the orchestrator's runs posted; the human tier posts others. */
  datatype State = State(log: seq<EvalRecord>, asks: seq<Ask>, nextAsk: nat, own: set<nat>)

  datatype Event =
    | Arrive(record: EvalRecord)
    | Escalated(record: EvalRecord, postedAt: int)
    | Reconcile(now: int, observe: Rec.Observer)
    | ReviewPending(at: int, postTimes: nat -> int)
    | AskMoves(ask: Ask)
    | Answered(ask: Ask, at: int)

  const Start := State([], [], 0, {})

  function Next(cfg: Config, s: State, e: Event): State {
    match e
    case Arrive(r) => s.(log := s.log + [r])
    case Escalated(r, at) =>
      State(s.log + [r.LinkAsk(s.nextAsk)], s.asks + [NewAsk(s.nextAsk, [], at, cfg.replyWindow)], s.nextAsk + 1, s.own)
    case Reconcile(now, observe) => s.(log := Rec.Reconciled(s.log, now, observe))
    case ReviewPending(now, postTimes) =>
      var p := Review(cfg, s.log, s.asks, s.nextAsk, now);
      State(s.log + p.lines, s.asks + Posts(cfg, s.nextAsk, p.counts.asked, postTimes), s.nextAsk + p.counts.asked,
            s.own + IdsFrom(s.nextAsk, p.counts.asked))
    case AskMoves(a) => s.(asks := s.asks + [a])
    case Answered(a, at) => s.(log := Replies.Propagated(s.log, a, at), asks := s.asks + [a])
  }

  function IdsFrom(first: nat, n: nat): (ids: set<nat>)
    ensures forall id: nat :: id in ids <==> first <= id < first + n
  {
    if n == 0 then {} else IdsFrom(first, n - 1) + {first + n - 1}
  }

  /** A record as the task runner makes it: under a record id of its own, pending, and with nothing
      observed.  Its input may have been recorded before. */
  ghost predicate NewRecord(s: State, r: EvalRecord) {
    && r.recordId !in Replies.Versions(s.log).vals
    && r.status.PENDING? && r.reality.None? && r.askId.None? && !r.isGroundTruth
  }

  /** A later line of an ask that exists: its posting time, its expiry and its records stay. */
  ghost predicate Known(s: State, a: Ask) {
    a.askId in Asks.State(s.asks).vals && SameAsk(a, Asks.State(s.asks).vals[a.askId])
  }

  predicate SameAsk(a: Ask, b: Ask) {
    a.askId == b.askId && a.postedAt == b.postedAt && a.expiresAt == b.expiresAt && a.recordIds == b.recordIds
  }

  /** The ask is open and has not expired at `now`. */
  predicate Answerable(a: Ask, now: int) { a.status.Open? && (a.expiresAt.Some? ==> now <= a.expiresAt.value) }

  /** Ask `a` is what a poll at `at` writes when an open ask has a valid reply before it expires. */
  predicate AnswerTo(current: Ask, a: Ask, at: int) {
    && Answerable(current, at)
    && a.answer.Some? && a == current.(status := AskStatus.Answered, answeredAt := Some(at), answer := a.answer)
  }

  /** What the surroundings promise: recorded inputs are new records, a post is not stamped before
      the clock reading of its run, a closed ask is not opened again, and only open asks are answered. */
  ghost predicate Enabled(s: State, e: Event) {
    match e
    case Arrive(r) => NewRecord(s, r)
    case Escalated(r, _) => NewRecord(s, r)
    case Reconcile(_, _) => true
    case ReviewPending(now, postTimes) => forall i: nat :: postTimes(i) >= now
    case AskMoves(a) => Known(s, a) && (a.status.Open? ==> Asks.State(s.asks).vals[a.askId].status.Open?)
    case Answered(a, at) => Known(s, a) && AnswerTo(Asks.State(s.asks).vals[a.askId], a, at)
  }

  function Run(cfg: Config, s: State, es: seq<Event>): State {
    if es == [] then s else Next(cfg, Run(cfg, s, es[..|es| - 1]), es[|es| - 1])
  }

  ghost predicate Legal(cfg: Config, s: State, es: seq<Event>) {
    es == [] || (Legal(cfg, s, es[..|es| - 1]) && Enabled(Run(cfg, s, es[..|es| - 1]), es[|es| - 1]))
  }

  lemma {:induction false} RunInTwo(cfg: Config, s: State, a: seq<Event>, b: seq<Event>)
    ensures Run(cfg, s, a + b) == Run(cfg, Run(cfg, s, a), b)
    ensures Legal(cfg, s, a + b) <==> Legal(cfg, s, a) && Legal(cfg, Run(cfg, s, a), b)
  {
    hide Next, Enabled;
    if b == [] {
      assert a + b == a;
    } else {
      var n := |b| - 1;
      assert (a + b)[..|a + b| - 1] == a + b[..n];
      RunInTwo(cfg, s, a, b[..n]);
    }
  }

  function View(s: State): map<string, EvalRecord> { Latest(s.log).vals }

  /** The event records input `x`, for the first time or again. */
  predicate Arrives(e: Event, x: string) { (e.Arrive? || e.Escalated?) && e.record.inputId == x }

  function Arrivals(es: seq<Event>, x: string): nat {
    if es == [] then 0 else Arrivals(es[..|es| - 1], x) + if Arrives(es[|es| - 1], x) then 1 else 0
  }

  lemma {:induction false} ArrivalsInTwo(a: seq<Event>, b: seq<Event>, x: string)
    ensures Arrivals(a + b, x) == Arrivals(a, x) + Arrivals(b, x)
  {
    if b == [] {
      assert a + b == a;
    } else {
      assert (a + b)[..|a + b| - 1] == a + b[..|b| - 1];
      ArrivalsInTwo(a, b[..|b| - 1], x);
    }
  }

  /** The line with which a recorded input enters the log. */
  function Recorded(s: State, e: Event): EvalRecord
    requires e.Arrive? || e.Escalated?
  {
    if e.Arrive? then e.record else e.record.LinkAsk(s.nextAsk)
  }

  /** Ground truth comes with the reality it was derived from. */
  ghost predicate Sound(s: State) {
    forall x :: x in View(s) && View(s)[x].isGroundTruth ==> View(s)[x].reality.Some?
  }

  /** Ask ids are handed out in order, records link to asks that exist, and a record id belongs to
      one input. */
  ghost predicate Tidy(s: State) {
    && (forall id: nat :: id in Asks.State(s.asks).vals || id in s.own ==> id < s.nextAsk)
    && (forall r :: r in s.log && r.askId.Some? ==> r.askId.value < s.nextAsk)
    && RecordsOfOneInput(s.log)
  }

  ghost predicate RecordsOfOneInput(log: seq<EvalRecord>) {
    forall q, r :: q in log && r in log && q.recordId == r.recordId ==> q.inputId == r.inputId
  }

  lemma StartIsTidy()
    ensures Tidy(Start) && Sound(Start)
  {
  }

  // ----- one step, one input

  /** What a step from `s` may make of the current version `r` of input `x`. */
  ghost predicate Step(s: State, e: Event, x: string, r: EvalRecord, r': EvalRecord) {
    match e
    case Arrive(_) => r' == if Arrives(e, x) then Recorded(s, e) else r
    case Escalated(_, _) => r' == if Arrives(e, x) then Recorded(s, e) else r
    case AskMoves(_) => r' == r
    case Reconcile(now, observe) => r' == Rec.After(r, now, observe)
    case Answered(a, at) =>
      r' == r || exists t :: t in Replies.Targets(s.log, a) && !t.isGroundTruth && t.inputId == x
                             && r' == t.RecordReality(Replies.Answer(a, at))
    case ReviewPending(_, _) => r' == r || (r.Candidate() && exists d: Decision :: !d.Wait? && r' == Reviewed(r, d))
  }

  lemma StepView(cfg: Config, s: State, e: Event)
    requires Enabled(s, e)
    ensures forall x :: x in View(s) ==> x in View(Next(cfg, s, e)) && Step(s, e, x, View(s)[x], View(Next(cfg, s, e))[x])
    ensures !e.Arrive? && !e.Escalated? ==> View(Next(cfg, s, e)).Keys == View(s).Keys
    ensures e.Arrive? || e.Escalated? ==> View(Next(cfg, s, e)) == View(s)[e.record.inputId := Recorded(s, e)]
  {
    hide Review, LatestBy, Replies.Propagated, Replies.Targets, Enabled;
    match e
    case Arrive(r) => LatestAppend(InputOf, s.log, r);
    case Escalated(r, _) => LatestAppend(InputOf, s.log, r.LinkAsk(s.nextAsk));
    case AskMoves(_) =>
    case Answered(a, at) =>
      forall x
        ensures x in View(Next(cfg, s, e)) <==> x in View(s)
        ensures x in View(s) ==> Step(s, e, x, View(s)[x], View(Next(cfg, s, e))[x])
      {
        Replies.PropagatedView(s.log, a, at, x);
      }
    case Reconcile(now, observe) => Rec.ReconciledView(s.log, now, observe);
    case ReviewPending(now, postTimes) => ReviewStepView(cfg, s, now, postTimes);
  }

  lemma ReviewStepView(cfg: Config, s: State, now: int, postTimes: nat -> int)
    ensures var e := ReviewPending(now, postTimes);
            && View(Next(cfg, s, e)).Keys == View(s).Keys
            && forall x :: x in View(s) ==> Step(s, e, x, View(s)[x], View(Next(cfg, s, e))[x])
  {
    hide Review, LatestBy, Ranked;
    var e := ReviewPending(now, postTimes);
    var ss := Ranked(cfg, s.log);
    ReviewedView(cfg, s.log, s.asks, s.nextAsk, now);
    RankedRecords(cfg, s.log);
    forall x | x in View(s)
      ensures x in View(Next(cfg, s, e)) && Step(s, e, x, View(s)[x], View(Next(cfg, s, e))[x])
    {
      if exists i :: 0 <= i < |ss| && ss[i].record.inputId == x {
        var i :| 0 <= i < |ss| && ss[i].record.inputId == x;
        assert Records(ss)[i] == ss[i].record;
        assert ss[i].record in Records(ss);
      }
    }
    assert View(Next(cfg, s, e)).Keys == View(s).Keys;
  }

  /** Soundness survives every step, no input is forgotten, and only recording an input again makes
      it a candidate again. */
  lemma StepKeeps(cfg: Config, s: State, e: Event)
    requires Enabled(s, e)
    ensures Sound(s) ==> Sound(Next(cfg, s, e))
    ensures forall x :: x in View(s) ==> x in View(Next(cfg, s, e))
    ensures forall x :: x in View(s) && !View(s)[x].Candidate() && !Arrives(e, x) ==>
              !View(Next(cfg, s, e))[x].Candidate()
  {
    hide Next, View, Replies.Targets;
    StepView(cfg, s, e);
  }

  lemma {:induction false} RunKeeps(cfg: Config, s: State, es: seq<Event>)
    requires Sound(s) && Legal(cfg, s, es)
    ensures Sound(Run(cfg, s, es))
    ensures forall x :: x in View(s) ==> x in View(Run(cfg, s, es))
  {
    hide Next, View, Enabled, Sound;
    if es != [] {
      RunKeeps(cfg, s, es[..|es| - 1]);
      StepKeeps(cfg, Run(cfg, s, es[..|es| - 1]), es[|es| - 1]);
    }
  }

  // ----- where new lines come from

  /** What a new line may be a version of: a current version the run may touch, or an unsettled
      target of an answer. */
  ghost predicate Touched(s: State, e: Event, r: EvalRecord) {
    && r in s.log
    && match e
       case Reconcile(_, _) => r.inputId in View(s) && r == View(s)[r.inputId] && !r.isGroundTruth
       case ReviewPending(_, _) => r.inputId in View(s) && r == View(s)[r.inputId] && r.Candidate()
       case Answered(a, _) => r in Replies.Targets(s.log, a) && !r.isGroundTruth
       case _ => false
  }

  /** Every line a step adds is the recorded input's, or a new version of a touched record: it keeps
      the record and the input, and links to an old ask or to one of this step. */
  lemma LineOrigin(cfg: Config, s: State, e: Event, j: nat) returns (r: EvalRecord)
    requires Enabled(s, e) && |s.log| <= j < |Next(cfg, s, e).log|
    ensures s.log <= Next(cfg, s, e).log
    ensures var u := Next(cfg, s, e).log[j];
            if e.Arrive? || e.Escalated? then r == u == Recorded(s, e) && j == |s.log|
            else Touched(s, e, r) && u.inputId == r.inputId && u.recordId == r.recordId
                 && (u.askId == r.askId || (u.askId.Some? && s.nextAsk <= u.askId.value < Next(cfg, s, e).nextAsk))
  {
    hide LatestBy, Replies.Targets, Replies.Settled, Rec.Reconciliations, Review, Enabled, Somes;
    match e
    case Arrive(q) => r := q;
    case Escalated(q, _) => r := q.LinkAsk(s.nextAsk);
    case AskMoves(_) => assert false;
    case Answered(a, at) =>
      var targets, reality := Replies.Targets(s.log, a), Replies.Answer(a, at);
      var lines := Replies.Settled(targets, reality);
      var u := lines[j - |s.log|];
      assert u in lines;
      Replies.SettledOrigin(targets, reality, u);
      var i :| 0 <= i < |targets| && !targets[i].isGroundTruth && u == targets[i].RecordReality(reality);
      r := targets[i];
      assert r in targets;
      Replies.TargetIff(s.log, a, r);
      Replies.LatestFromLog(s.log, r.recordId);
    case Reconcile(now, observe) =>
      var rs := Values(Latest(s.log));
      var us := Rec.Reconciliations(rs, now, observe);
      var i := SomesOrigin(us, j - |s.log|);
      r := rs[i];
      CurrentVersion(s, i);
    case ReviewPending(now, postTimes) =>
      r := ReviewLine(cfg, s, now, j - |s.log|);
  }

  lemma CurrentVersion(s: State, i: nat)
    requires i < |Values(Latest(s.log))|
    ensures var r := Values(Latest(s.log))[i];
            r in s.log && r.inputId in View(s) && View(s)[r.inputId] == r
  {
    hide LatestBy;
    var d := Latest(s.log);
    assert d.keys[i] in d.vals && InputOf(d.vals[d.keys[i]]) == d.keys[i];
    var k := Replies.LastLine(s.log, d.keys[i]);
  }

  lemma ReviewLine(cfg: Config, s: State, now: int, k: nat) returns (r: EvalRecord)
    requires k < |Review(cfg, s.log, s.asks, s.nextAsk, now).lines|
    ensures var p := Review(cfg, s.log, s.asks, s.nextAsk, now);
            var u := p.lines[k];
            && r in s.log && r.inputId in View(s) && View(s)[r.inputId] == r && r.Candidate()
            && u.inputId == r.inputId && u.recordId == r.recordId
            && (u.askId == r.askId || (u.askId.Some? && s.nextAsk <= u.askId.value < s.nextAsk + p.counts.asked))
  {
    hide Walk, Ranked, Used, Values, LatestBy, Somes;
    var ss := Ranked(cfg, s.log);
    var p := Review(cfg, s.log, s.asks, s.nextAsk, now);
    var budget := cfg.dailyBudget - Used(cfg, s.asks, now);
    WalkLines(ss, |ss|, cfg.minPriority, budget, s.nextAsk);
    AskedIds(ss, |ss|, cfg.minPriority, budget, s.nextAsk);
    assert ss[..|ss|] == ss;
    var i := SomesOrigin(UpdatesFor(ss, p.plan), k);
    r := ss[i].record;
    assert Records(ss)[i] == r && r in Records(ss);
    RankedRecords(cfg, s.log);
    var m :| 0 <= m < |Values(Latest(s.log))| && Values(Latest(s.log))[m] == r;
    CurrentVersion(s, m);
    assert p.plan[i].AskNow? ==> p.lines[k] == r.LinkAsk(p.plan[i].id);
  }

  /** An ask is as it was, but for its answer and for being closed, or was posted by this step and names no record. */
  lemma AskOrigin(cfg: Config, s: State, e: Event, id: nat)
    requires Enabled(s, e) && Tidy(s)
    ensures var d, d' := Asks.State(s.asks), Asks.State(Next(cfg, s, e).asks);
            && (id in d.vals ==> id in d'.vals && SameAsk(d'.vals[id], d.vals[id]))
            && (id in d.vals && d'.vals[id].status.Open? ==> d.vals[id].status.Open?)
            && (id in d'.vals && id !in d.vals ==>
                  s.nextAsk <= id < Next(cfg, s, e).nextAsk && d'.vals[id].askId == id && d'.vals[id].recordIds == [])
  {
    hide LatestBy, Review, Rec.Reconciled, Replies.Propagated;
    assert id in Asks.State(s.asks).vals ==> id < s.nextAsk && AskIdOf(Asks.State(s.asks).vals[id]) == id;
    match e
    case Arrive(_) =>
    case Reconcile(_, _) =>
    case Escalated(_, at) => LatestAppend(AskIdOf, s.asks, NewAsk(s.nextAsk, [], at, cfg.replyWindow));
    case AskMoves(a) => LatestAppend(AskIdOf, s.asks, a);
    case Answered(a, _) => LatestAppend(AskIdOf, s.asks, a);
    case ReviewPending(now, postTimes) =>
      PostOrigin(cfg, s, Review(cfg, s.log, s.asks, s.nextAsk, now).counts.asked, postTimes, id);
  }

  lemma PostOrigin(cfg: Config, s: State, n: nat, postTimes: nat -> int, id: nat)
    requires id in Asks.State(s.asks).vals ==> id < s.nextAsk
    ensures var d, d' := Asks.State(s.asks), Asks.State(s.asks + Posts(cfg, s.nextAsk, n, postTimes));
            && (id in d.vals ==> id in d'.vals && d'.vals[id] == d.vals[id])
            && (id in d'.vals && id !in d.vals ==>
                  s.nextAsk <= id < s.nextAsk + n && d'.vals[id].askId == id && d'.vals[id].recordIds == [])
  {
    hide LatestBy;
    var posts := Posts(cfg, s.nextAsk, n, postTimes);
    if s.nextAsk <= id < s.nextAsk + n {
      assert AskIdOf(posts[id - s.nextAsk]) == id;
      LatestAppendHit(AskIdOf, s.asks, posts, id - s.nextAsk);
    } else {
      forall i | 0 <= i < n ensures AskIdOf(posts[i]) != id {
        assert posts[i].askId == s.nextAsk + i;
      }
      LatestAppendMiss(AskIdOf, s.asks, posts, id);
    }
  }

  lemma StepKeepsTidy(cfg: Config, s: State, e: Event)
    requires Enabled(s, e) && Tidy(s)
    ensures Tidy(Next(cfg, s, e))
  {
    hide Touched, Recorded, LatestBy, Rec.Reconciled, Replies.Propagated, Review, NewRecord, Known;
    var s' := Next(cfg, s, e);
    assert s'.nextAsk >= s.nextAsk;
    forall id: nat | id in Asks.State(s'.asks).vals || id in s'.own ensures id < s'.nextAsk {
      AskOrigin(cfg, s, e, id);
    }
    forall r | r in s'.log ensures LineFits(s, s', r) {
      var j :| 0 <= j < |s'.log| && s'.log[j] == r;
      LineIsFit(cfg, s, e, j);
    }
    assert RecordsOfOneInput(s'.log) by {
      if e.Arrive? || e.Escalated? {
        ArrivalKeepsRecords(cfg, s, e);
      } else {
        forall q, r | q in s'.log && r in s'.log && q.recordId == r.recordId ensures q.inputId == r.inputId {
          var q0 := OldRecord(cfg, s, e, q);
          var r0 := OldRecord(cfg, s, e, r);
        }
      }
    }
  }

  ghost predicate LineFits(s: State, s': State, r: EvalRecord) {
    r.askId.Some? ==> r.askId.value < s'.nextAsk
  }

  lemma LineIsFit(cfg: Config, s: State, e: Event, j: nat)
    requires Enabled(s, e) && Tidy(s) && j < |Next(cfg, s, e).log|
    ensures LineFits(s, Next(cfg, s, e), Next(cfg, s, e).log[j])
  {
    hide LatestBy, Rec.Reconciled, Replies.Propagated, Replies.Targets, Review;
    var s' := Next(cfg, s, e);
    assert s'.nextAsk >= s.nextAsk;
    LogGrows(cfg, s, e);
    if j < |s.log| {
      assert s'.log[j] == s.log[j];
      assert s.log[j] in s.log;
    } else {
      var r := LineOrigin(cfg, s, e, j);
    }
  }

  lemma LogGrows(cfg: Config, s: State, e: Event)
    ensures s.log <= Next(cfg, s, e).log
  {
  }

  /** The old line a line is a version of, if nothing was recorded. */
  lemma OldRecord(cfg: Config, s: State, e: Event, u: EvalRecord) returns (r: EvalRecord)
    requires Enabled(s, e) && !e.Arrive? && !e.Escalated? && u in Next(cfg, s, e).log
    ensures r in s.log && r.recordId == u.recordId && r.inputId == u.inputId
  {
    hide Next, Enabled;
    LogGrows(cfg, s, e);
    var log' := Next(cfg, s, e).log;
    var j :| 0 <= j < |log'| && log'[j] == u;
    if j < |s.log| {
      r := s.log[j];
    } else {
      r := LineOrigin(cfg, s, e, j);
    }
  }

  lemma ArrivalKeepsRecords(cfg: Config, s: State, e: Event)
    requires e.Arrive? || e.Escalated?
    requires Enabled(s, e) && RecordsOfOneInput(s.log)
    ensures RecordsOfOneInput(Next(cfg, s, e).log)
  {
    hide LatestBy;
    var log' := Next(cfg, s, e).log;
    assert log' == s.log + [Recorded(s, e)];
    forall r | r in s.log ensures r.recordId != e.record.recordId {
      var j :| 0 <= j < |s.log| && s.log[j] == r;
      LatestDomain(Replies.RecordIdOf, s.log, r.recordId);
      assert Replies.RecordIdOf(s.log[j]) == r.recordId;
    }
    assert forall r :: r in log' <==> r in s.log || r == Recorded(s, e);
  }

  lemma {:induction false} RunKeepsTidy(cfg: Config, s: State, es: seq<Event>)
    requires Tidy(s) && Legal(cfg, s, es)
    ensures Tidy(Run(cfg, s, es))
  {
    hide Next, Enabled, Tidy;
    if es != [] {
      RunKeepsTidy(cfg, s, es[..|es| - 1]);
      StepKeepsTidy(cfg, Run(cfg, s, es[..|es| - 1]), es[|es| - 1]);
    }
  }

  // ----- the lifecycle of a record

  /** Status, reality, ground truth and ask tell one story. */
  predicate Coherent(r: EvalRecord) {
    && (r.isGroundTruth <==> r.reality.Some?)
    && (r.isGroundTruth <==> r.status.OBSERVED? || r.status.ANSWERED?)
    && (r.reality.Some? ==> (r.status.ANSWERED? <==> r.reality.value.source.SlackAsk?))
    && (r.status.ASKED? ==> r.askId.Some?)
    && (r.status.SKIPPED? ==> r.skipReason.Some?)
  }

  ghost predicate AllCoherent(s: State) { forall r :: r in s.log ==> Coherent(r) }

  /** Every line of the log is coherent in every run. */
  lemma {:induction false} LifecycleIsCoherent(cfg: Config, s: State, es: seq<Event>)
    requires AllCoherent(s) && Legal(cfg, s, es)
    ensures AllCoherent(Run(cfg, s, es))
  {
    hide Next, AllCoherent, Enabled;
    if es != [] {
      LifecycleIsCoherent(cfg, s, es[..|es| - 1]);
      StepKeepsCoherence(cfg, Run(cfg, s, es[..|es| - 1]), es[|es| - 1]);
    }
  }

  lemma StepKeepsCoherence(cfg: Config, s: State, e: Event)
    requires Enabled(s, e) && AllCoherent(s)
    ensures AllCoherent(Next(cfg, s, e))
  {
    hide LatestBy, Rec.Reconciliations, Replies.Targets, Replies.Settled, Review, Somes;
    var log' := Next(cfg, s, e).log;
    forall j | |s.log| <= j < |log'| ensures Coherent(log'[j]) {
      match e
      case Arrive(_) =>
      case Escalated(_, _) =>
      case AskMoves(_) =>
      case Answered(a, at) =>
        var targets, reality := Replies.Targets(s.log, a), Replies.Answer(a, at);
        var u := Replies.Settled(targets, reality)[j - |s.log|];
        assert u in Replies.Settled(targets, reality);
        Replies.SettledOrigin(targets, reality, u);
      case Reconcile(now, observe) =>
        var rs := Values(Latest(s.log));
        var i := SomesOrigin(Rec.Reconciliations(rs, now, observe), j - |s.log|);
        CurrentVersion(s, i);
      case ReviewPending(now, postTimes) => ReviewLineCoherent(cfg, s, now, j - |s.log|);
    }
  }

  lemma ReviewLineCoherent(cfg: Config, s: State, now: int, k: nat)
    requires AllCoherent(s) && k < |Review(cfg, s.log, s.asks, s.nextAsk, now).lines|
    ensures Coherent(Review(cfg, s.log, s.asks, s.nextAsk, now).lines[k])
  {
    hide Walk, Ranked, Used, Values, LatestBy, Somes;
    var ss := Ranked(cfg, s.log);
    var p := Review(cfg, s.log, s.asks, s.nextAsk, now);
    WalkLines(ss, |ss|, cfg.minPriority, cfg.dailyBudget - Used(cfg, s.asks, now), s.nextAsk);
    assert ss[..|ss|] == ss;
    var i := SomesOrigin(UpdatesFor(ss, p.plan), k);
    assert Records(ss)[i] == ss[i].record && ss[i].record in Records(ss);
    RankedRecords(cfg, s.log);
    var m :| 0 <= m < |Values(Latest(s.log))| && Values(Latest(s.log))[m] == ss[i].record;
    CurrentVersion(s, m);
  }

  // ----- a poll of the open asks is a run of these events

  /** The event a poll makes of one open ask, if any. */
  function PollEvent(a: Ask, reply: Replies.Reply, now: int): seq<Event> {
    if a.expiresAt.Some? && now > a.expiresAt.value then [AskMoves(a.(status := Expired, answeredAt := Some(now)))]
    else
      match reply
      case NoReply => []
      case InvalidReply => []
      case ValidReply(answer) =>
        [Event.Answered(a.(status := AskStatus.Answered, answeredAt := Some(now), answer := Some(answer)), now)]
  }

  function PollEvents(open: seq<Ask>, n: nat, replies: Ask -> Replies.Reply, now: int): seq<Event>
    requires n <= |open|
  {
    if n == 0 then [] else PollEvents(open, n - 1, replies, now) + PollEvent(open[n - 1], replies(open[n - 1]), now)
  }

  /** The asks from `n` on are still as the poll found them. */
  ghost predicate Waiting(s: State, open: seq<Ask>, n: nat) {
    forall j :: n <= j < |open| ==>
      open[j].askId in Asks.State(s.asks).vals && Asks.State(s.asks).vals[open[j].askId] == open[j] && open[j].status.Open?
  }

  lemma PollOneIsARun(cfg: Config, s: State, p: Replies.Progress, open: seq<Ask>, n: nat, reply: Replies.Reply, now: int)
    requires n < |open| && Waiting(s, open, n) && DistinctBy(AskIdOf, open) && p.log == s.log && p.asks == s.asks
    ensures var es := PollEvent(open[n], reply, now);
            var p' := Replies.PollOne(p, open[n], reply, now);
            && Legal(cfg, s, es)
            && Run(cfg, s, es) == State(p'.log, p'.asks, s.nextAsk, s.own)
            && Waiting(Run(cfg, s, es), open, n + 1)
  {
    hide LatestBy, Replies.Propagated;
    var es := PollEvent(open[n], reply, now);
    if es != [] {
      assert es[..0] == [];
      LatestAppend(AskIdOf, s.asks, es[0].ask);
      assert Run(cfg, s, es) == Next(cfg, s, es[0]);
      forall j | n < j < |open| ensures open[j].askId != open[n].askId {
        assert AskIdOf(open[n]) != AskIdOf(open[j]);
      }
    }
  }

  lemma {:induction false} PollSoFar(cfg: Config, s: State, open: seq<Ask>, n: nat, replies: Ask -> Replies.Reply, now: int,
                                     p: Replies.Progress)
    requires n <= |open| && p.log == s.log && p.asks == s.asks
    requires Waiting(s, open, 0) && DistinctBy(AskIdOf, open)
    ensures var es, p' := PollEvents(open, n, replies, now), Replies.Poll(p, open, n, replies, now);
            && Legal(cfg, s, es)
            && Run(cfg, s, es) == State(p'.log, p'.asks, s.nextAsk, s.own)
            && Waiting(Run(cfg, s, es), open, n)
  {
    hide Waiting, Next, Replies.PollOne, PollEvent, Enabled;
    if n > 0 {
      PollSoFar(cfg, s, open, n - 1, replies, now, p);
      var es, a := PollEvents(open, n - 1, replies, now), open[n - 1];
      PollOneIsARun(cfg, Run(cfg, s, es), Replies.Poll(p, open, n - 1, replies, now), open, n - 1, replies(a), now);
      RunInTwo(cfg, s, es, PollEvent(a, replies(a), now));
    }
  }

  lemma OpenAreWaiting(s: State)
    ensures Waiting(s, OpenIn(s.asks), 0) && DistinctBy(AskIdOf, OpenIn(s.asks))
  {
    hide LatestBy, Values, Filter;
    var open := OpenIn(s.asks);
    forall j | 0 <= j < |open|
      ensures open[j].askId in Asks.State(s.asks).vals && Asks.State(s.asks).vals[open[j].askId] == open[j]
    {
      assert open[j] in open;
      Replies.OpenAreCurrent(s.asks, open[j]);
    }
    forall j | 0 <= j < |open| ensures open[j].status.Open? {
      assert open[j] in open;
    }
    ValuesDistinct(AskIdOf, s.asks);
    FilterDistinct(AskIdOf, (a: Ask) => a.status.Open?, Values(Asks.State(s.asks)));
  }

  /** Whatever the replies, a whole poll of the open asks is a legal run of the loop, so what holds
      of every run holds across polls. */
  lemma PollIsARun(cfg: Config, s: State, replies: Ask -> Replies.Reply, now: int)
    ensures var open := OpenIn(s.asks);
            var es := PollEvents(open, |open|, replies, now);
            var p := Replies.Poll(Replies.Progress(s.log, s.asks, Replies.Counts(0, 0, 0, 0)), open, |open|, replies, now);
            && Legal(cfg, s, es)
            && Run(cfg, s, es) == State(p.log, p.asks, s.nextAsk, s.own)
  {
    hide Legal, Run, Replies.Poll, PollEvents, OpenIn, Waiting;
    var open := OpenIn(s.asks);
    OpenAreWaiting(s);
    PollSoFar(cfg, s, open, |open|, replies, now, Replies.Progress(s.log, s.asks, Replies.Counts(0, 0, 0, 0)));
  }
}
