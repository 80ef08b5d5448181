/** The ask orchestrator: scores the pending inputs of a task, skips the ones not worth a
    question, asks about the best ones within the budget, and leaves the rest waiting. */
module Orchestrator {
  import opened Options
  import opened OrderedDict
  import opened EvalRecords
  import opened Asks

  datatype Config = Config(
    bucketOf: EvalRecord -> Option<string>,
    dailyBudget: int,
    coverageTarget: int,
    coverageWeight: real,
    disagreementWeight: real,
    minPriority: real,
    budgetWindow: int,
    replyWindow: int)

  datatype Scored = Scored(priority: real, record: EvalRecord)

  datatype Decision = Skip | Wait | AskNow(id: nat)

  datatype Counts = Counts(asked: nat, skipped: nat, waited: nat, belowThreshold: nat)

  // ----- scoring

  function LiveOutputs(ps: seq<Prediction>): (r: seq<string>)
    ensures |r| <= |ps|
  {
    if ps == [] then []
    else
      var r := LiveOutputs(ps[..|ps| - 1]);
      if ps[|ps| - 1].abstained then r else r + [ps[|ps| - 1].output]
  }

  function MinReal(a: real, b: real): real { if a <= b then a else b }

  function MaxInt(a: int, b: int): int { if a >= b then a else b }

  /** The share of the live tiers that added an output of their own. */
  function Disagreement(r: EvalRecord): real {
    var live := LiveOutputs(r.predictions);
    if live == [] then 0.0
    else MinReal(1.0, (|set o | o in live| - 1) as real / MaxInt(1, |live|) as real)
  }

  function Score(cfg: Config, coverage: nat, disagreement: real): real {
    var ratio := MinReal(1.0, coverage as real / MaxInt(1, cfg.coverageTarget) as real);
    cfg.coverageWeight * (1.0 - ratio) + cfg.disagreementWeight * disagreement
  }

  /** The number of ground-truth records in a bucket. */
  function Coverage(cfg: Config, rs: seq<EvalRecord>, bucket: string): nat {
    if rs == [] then 0
    else
      var r := rs[|rs| - 1];
      Coverage(cfg, rs[..|rs| - 1], bucket) + if r.isGroundTruth && cfg.bucketOf(r) == Some(bucket) then 1 else 0
  }

  function ScoreAll(cfg: Config, all: seq<EvalRecord>, rs: seq<EvalRecord>): seq<Scored> {
    if rs == [] then []
    else
      var r := rs[|rs| - 1];
      var done := ScoreAll(cfg, all, rs[..|rs| - 1]);
      match cfg.bucketOf(r)
      case None => done
      case Some(bucket) => done + [Scored(Score(cfg, Coverage(cfg, all, bucket), Disagreement(r)), r)]
  }

  function IsCandidate(r: EvalRecord): bool { r.Candidate() }

  function ScoredIn(cfg: Config, all: seq<EvalRecord>): seq<Scored> {
    ScoreAll(cfg, all, Filter(IsCandidate, all))
  }

  // ----- ranking: Python's stable sort, highest priority first

  function Insert(xs: seq<Scored>, x: Scored): seq<Scored> {
    if xs == [] || xs[|xs| - 1].priority >= x.priority then xs + [x]
    else Insert(xs[..|xs| - 1], x) + [xs[|xs| - 1]]
  }

  function SortByPriority(xs: seq<Scored>): seq<Scored> {
    if xs == [] then [] else Insert(SortByPriority(xs[..|xs| - 1]), xs[|xs| - 1])
  }

  function Ranked(cfg: Config, log: seq<EvalRecord>): seq<Scored> {
    SortByPriority(ScoredIn(cfg, Values(Latest(log))))
  }

  // ----- deciding

  function Decide(s: Scored, minPriority: real, remaining: int, id: nat): Decision {
    if s.priority < minPriority then Skip else if remaining <= 0 then Wait else AskNow(id)
  }

  function UpdateFor(r: EvalRecord, d: Decision): Option<EvalRecord> {
    match d
    case Skip => Some(r.MarkSkipped(Some(BelowPriorityThreshold)))
    case Wait => None
    case AskNow(id) => Some(r.LinkAsk(id))
  }

  function Records(ss: seq<Scored>): (rs: seq<EvalRecord>)
    ensures |rs| == |ss|
  {
    seq(|ss|, i requires 0 <= i < |ss| => ss[i].record)
  }

  function UpdatesFor(ss: seq<Scored>, plan: seq<Decision>): (us: seq<Option<EvalRecord>>)
    requires |ss| == |plan|
    ensures |us| == |ss|
  {
    seq(|ss|, i requires 0 <= i < |ss| => UpdateFor(ss[i].record, plan[i]))
  }

  function Posts(cfg: Config, nextAsk: nat, n: nat, postTimes: nat -> int): (asks: seq<Ask>)
    ensures |asks| == n
    ensures forall i :: 0 <= i < n ==> asks[i].askId == nextAsk + i
    ensures forall i :: 0 <= i < n ==> asks[i].postedAt == postTimes(i) && asks[i].recordIds == []
    ensures forall i :: 0 <= i < n ==> asks[i].status == AskStatus.Open && asks[i].expiresAt == Some(postTimes(i) + cfg.replyWindow)
  {
    if n == 0 then []
    else Posts(cfg, nextAsk, n - 1, postTimes) + [NewAsk(nextAsk + n - 1, [], postTimes(n - 1), cfg.replyWindow)]
  }

  function Count(c: Counts, d: Decision): Counts {
    match d
    case Skip => c.(skipped := c.skipped + 1, belowThreshold := c.belowThreshold + 1)
    case Wait => c.(waited := c.waited + 1)
    case AskNow(_) => c.(asked := c.asked + 1)
  }

  datatype Progress = Progress(plan: seq<Decision>, lines: seq<EvalRecord>, counts: Counts)

  /** The state of a run after its first `n` ranked candidates: the decisions so far,
      the log lines they append, and the counts. */
  function Walk(ss: seq<Scored>, n: nat, minPriority: real, budget: int, nextAsk: nat): (p: Progress)
    requires n <= |ss|
    ensures |p.plan| == n
  {
    if n == 0 then Progress([], [], Counts(0, 0, 0, 0))
    else
      var p := Walk(ss, n - 1, minPriority, budget, nextAsk);
      var d := Decide(ss[n - 1], minPriority, budget - p.counts.asked, nextAsk + p.counts.asked);
      var u := UpdateFor(ss[n - 1].record, d);
      Progress(p.plan + [d], if u.Some? then p.lines + [u.value] else p.lines, Count(p.counts, d))
  }

  /** The asks posted within the window that ends at `now`, whatever their status. */
  function Used(cfg: Config, asks: seq<Ask>, now: int): nat {
    CountSince(Values(State(asks)), now - cfg.budgetWindow)
  }

  function Review(cfg: Config, log: seq<EvalRecord>, asks: seq<Ask>, nextAsk: nat, now: int): (p: Progress)
    ensures |p.plan| == |Ranked(cfg, log)|
  {
    var ss := Ranked(cfg, log);
    Walk(ss, |ss|, cfg.minPriority, cfg.dailyBudget - Used(cfg, asks, now), nextAsk)
  }

  // ----- the run

  class AskOrchestrator {
    const cfg: Config
    const evalStore: EvalRecordStore
    const poster: AskPoster

    constructor (cfg: Config, evalStore: EvalRecordStore, poster: AskPoster)
      ensures this.cfg == cfg && this.evalStore == evalStore && this.poster == poster
    {
      this.cfg := cfg;
      this.evalStore := evalStore;
      this.poster := poster;
    }

    /** `postTimes(i)` is the poster's own clock reading for its `i`-th post. */
    method ReviewPending(now: int, postTimes: nat -> int) returns (counts: Counts)
      modifies evalStore, poster, poster.askStore
      ensures var p := Review(cfg, old(evalStore.log), old(poster.askStore.log), old(poster.next), now);
              && evalStore.log == old(evalStore.log) + p.lines
              && poster.askStore.log
                 == old(poster.askStore.log) + Posts(cfg, old(poster.next), p.counts.asked, postTimes)
              && poster.next == old(poster.next) + p.counts.asked
              && counts == p.counts
    {
      hide Walk, SortByPriority, ScoredIn, CountSince, LatestBy;
      var scored := RankCandidates();
      var used := AsksWithinBudgetWindow(now);
      counts := ReviewRanked(scored, cfg.dailyBudget - used, postTimes);
    }

    method RankCandidates() returns (ranked: seq<Scored>)
      ensures ranked == Ranked(cfg, evalStore.log)
    {
      var records := LatestRecordsPerInput(evalStore.log);
      var coverage := ComputeCoverage(records);
      var scored := ScoreCandidates(records, coverage);
      ranked := SortByPriority(scored);
    }

    /** The loop over the ranked candidates. */
    method ReviewRanked(scored: seq<Scored>, budget: int, postTimes: nat -> int) returns (counts: Counts)
      modifies evalStore, poster, poster.askStore
      ensures var p := Walk(scored, |scored|, cfg.minPriority, budget, old(poster.next));
              && evalStore.log == old(evalStore.log) + p.lines
              && poster.askStore.log
                 == old(poster.askStore.log) + Posts(cfg, old(poster.next), p.counts.asked, postTimes)
              && poster.next == old(poster.next) + p.counts.asked
              && counts == p.counts
    {
      hide Walk, Posts;
      counts := Counts(0, 0, 0, 0);
      var remaining := budget;
      ghost var next := poster.next;
      WalkStart(scored, cfg, budget, next, postTimes);
      for i := 0 to |scored|
        invariant counts == Walk(scored, i, cfg.minPriority, budget, next).counts
        invariant remaining == budget - counts.asked && poster.next == next + counts.asked
        invariant evalStore.log == old(evalStore.log) + Walk(scored, i, cfg.minPriority, budget, next).lines
        invariant poster.askStore.log == old(poster.askStore.log) + Posts(cfg, next, counts.asked, postTimes)
      {
        WalkOneMore(scored, i, cfg.minPriority, budget, next);
        PostOneMore(cfg, next, counts.asked, postTimes);
        var decision := ReviewOne(scored[i], remaining, postTimes(counts.asked));
        counts := Count(counts, decision);
        remaining := remaining - if decision.AskNow? then 1 else 0;
      }
    }

    /** The body of the loop over the ranked candidates; the ask names no record, the record names the ask. */
    method ReviewOne(s: Scored, remaining: int, at: int) returns (d: Decision)
      modifies evalStore, poster, poster.askStore
      ensures d == Decide(s, cfg.minPriority, remaining, old(poster.next))
      ensures var u := UpdateFor(s.record, d);
              evalStore.log == old(evalStore.log) + if u.Some? then [u.value] else []
      ensures poster.next == old(poster.next) + if d.AskNow? then 1 else 0
      ensures poster.askStore.log == old(poster.askStore.log)
                + if d.AskNow? then [NewAsk(old(poster.next), [], at, cfg.replyWindow)] else []
    {
      if s.priority < cfg.minPriority {
        MarkSkipped(s.record, Some(BelowPriorityThreshold));
        return Skip;
      }
      if remaining <= 0 {
        return Wait;
      }
      d := AskNow(poster.next);
      PostAskFor(s.record, at);
    }

    method MarkSkipped(record: EvalRecord, reason: Option<SkipReason>)
      modifies evalStore
      ensures evalStore.log == old(evalStore.log) + [record.MarkSkipped(reason)]
    {
      evalStore.Append(record.MarkSkipped(reason));
    }

    method PostAskFor(record: EvalRecord, at: int)
      modifies evalStore, poster, poster.askStore
      ensures evalStore.log == old(evalStore.log) + [record.LinkAsk(old(poster.next))]
      ensures poster.next == old(poster.next) + 1
      ensures poster.askStore.log == old(poster.askStore.log) + [NewAsk(old(poster.next), [], at, cfg.replyWindow)]
    {
      var id := poster.PostAsk([], at, cfg.replyWindow);
      evalStore.Append(record.LinkAsk(id));
    }

    method AsksWithinBudgetWindow(now: int) returns (n: nat)
      ensures n == Used(cfg, poster.askStore.log, now)
    {
      var latest := poster.askStore.LatestState();
      n := CountSince(Values(latest), now - cfg.budgetWindow);
    }

    method ComputeCoverage(records: seq<EvalRecord>) returns (counts: map<string, nat>)
      ensures forall b :: (if b in counts then counts[b] else 0) == Coverage(cfg, records, b)
    {
      counts := map[];
      for i := 0 to |records|
        invariant forall b :: (if b in counts then counts[b] else 0) == Coverage(cfg, records[..i], b)
      {
        assert records[..i + 1][..i] == records[..i];
        var bucket := cfg.bucketOf(records[i]);
        if records[i].isGroundTruth && bucket.Some? {
          var n := if bucket.value in counts then counts[bucket.value] else 0;
          counts := counts[bucket.value := n + 1];
        }
      }
      assert records[..|records|] == records;
    }

    method DisagreementScore(record: EvalRecord) returns (score: real)
      ensures score == Disagreement(record)
    {
      var live := [];
      var ps := record.predictions;
      for i := 0 to |ps|
        invariant live == LiveOutputs(ps[..i])
      {
        assert ps[..i + 1][..i] == ps[..i];
        if !ps[i].abstained {
          live := live + [ps[i].output];
        }
      }
      assert ps[..|ps|] == ps;
      if live == [] {
        return 0.0;
      }
      score := MinReal(1.0, (|set o | o in live| - 1) as real / MaxInt(1, |live|) as real);
    }

    method ScoreCandidates(records: seq<EvalRecord>, coverage: map<string, nat>) returns (scored: seq<Scored>)
      requires forall b :: (if b in coverage then coverage[b] else 0) == Coverage(cfg, records, b)
      ensures scored == ScoredIn(cfg, records)
    {
      var candidates := Filter(IsCandidate, records);
      scored := [];
      for i := 0 to |candidates|
        invariant scored == ScoreAll(cfg, records, candidates[..i])
      {
        assert candidates[..i + 1][..i] == candidates[..i];
        var bucket := cfg.bucketOf(candidates[i]);
        if bucket.Some? {
          var covered := if bucket.value in coverage then coverage[bucket.value] else 0;
          var disagreement := DisagreementScore(candidates[i]);
          scored := scored + [Scored(Score(cfg, covered, disagreement), candidates[i])];
        }
      }
      assert candidates[..|candidates|] == candidates;
    }
  }

  lemma WalkStart(ss: seq<Scored>, cfg: Config, budget: int, next: nat, postTimes: nat -> int)
    ensures Walk(ss, 0, cfg.minPriority, budget, next) == Progress([], [], Counts(0, 0, 0, 0))
    ensures Posts(cfg, next, 0, postTimes) == []
  {
  }

  lemma WalkOneMore(ss: seq<Scored>, i: nat, minPriority: real, budget: int, next: nat)
    requires i < |ss|
    ensures var p, p' := Walk(ss, i, minPriority, budget, next), Walk(ss, i + 1, minPriority, budget, next);
            var d := Decide(ss[i], minPriority, budget - p.counts.asked, next + p.counts.asked);
            var u := UpdateFor(ss[i].record, d);
            && p'.counts == Count(p.counts, d)
            && p'.lines == p.lines + if u.Some? then [u.value] else []
  {
  }

  lemma PostOneMore(cfg: Config, next: nat, n: nat, postTimes: nat -> int)
    ensures Posts(cfg, next, n + 1, postTimes)
         == Posts(cfg, next, n, postTimes) + [NewAsk(next + n, [], postTimes(n), cfg.replyWindow)]
  {
  }

  // ----- scores

  lemma {:induction false} SetNoLarger(xs: seq<string>)
    ensures |set x | x in xs| <= |xs|
    ensures xs != [] ==> |set x | x in xs| >= 1
  {
    if xs != [] {
      var xs' := xs[..|xs| - 1];
      SetNoLarger(xs');
      assert (set x | x in xs) == (set x | x in xs') + {xs[|xs| - 1]};
    }
  }

  lemma QuotientIsAShare(d: real, n: real)
    requires 0.0 <= d < n
    ensures 0.0 <= d / n < 1.0
  {
    assert d / n * n == d;
  }

  lemma DisagreementIsAShare(r: EvalRecord)
    ensures 0.0 <= Disagreement(r) < 1.0
  {
    var live := LiveOutputs(r.predictions);
    SetNoLarger(live);
    if live != [] {
      var d, n := (|set o | o in live| - 1) as real, |live| as real;
      QuotientIsAShare(d, n);
    }
  }

  /** The live outputs are those of the tiers that did not abstain, in order. */
  lemma {:induction false} LiveAreOutputs(ps: seq<Prediction>)
    ensures var live := Filter((p: Prediction) => !p.abstained, ps);
            |LiveOutputs(ps)| == |live| && forall i :: 0 <= i < |live| ==> LiveOutputs(ps)[i] == live[i].output
  {
    if ps != [] {
      LiveAreOutputs(ps[..|ps| - 1]);
    }
  }

  /** Of `n` live outputs the score counts those beyond one per distinct text. */
  lemma DisagreementExact(r: EvalRecord)
    ensures var live := LiveOutputs(r.predictions);
            if live == [] then Disagreement(r) == 0.0
            else Disagreement(r) * |live| as real == (|set o | o in live| - 1) as real
  {
    hide LiveOutputs;
    var live := LiveOutputs(r.predictions);
    SetNoLarger(live);
    if live != [] {
      var d, n := (|set o | o in live| - 1) as real, |live| as real;
      QuotientIsAShare(d, n);
      assert d / n * n == d;
    }
  }

  /** Tiers disagree, as the score sees it, exactly when two live outputs differ. */
  lemma DisagreementMeansDifference(r: EvalRecord)
    ensures var live := LiveOutputs(r.predictions);
            Disagreement(r) > 0.0 <==> exists i, j :: 0 <= i < j < |live| && live[i] != live[j]
  {
    hide LiveOutputs;
    var live := LiveOutputs(r.predictions);
    SetNoLarger(live);
    if live != [] {
      SeveralOutputs(live);
      ShareSign(|set o | o in live|, |live|);
    }
  }

  lemma ShareSign(outputs: nat, live: nat)
    requires 1 <= outputs <= live
    ensures (outputs - 1) as real / live as real > 0.0 <==> outputs > 1
  {
    var d, n := (outputs - 1) as real, live as real;
    if outputs > 1 {
      PositiveQuotient(d, n);
    }
  }

  lemma SeveralOutputs(live: seq<string>)
    requires live != []
    ensures |set o | o in live| > 1 <==> exists i, j :: 0 <= i < j < |live| && live[i] != live[j]
  {
    var outputs := set o | o in live;
    if exists i, j :: 0 <= i < j < |live| && live[i] != live[j] {
      var i, j :| 0 <= i < j < |live| && live[i] != live[j];
      assert {live[i], live[j]} <= outputs;
      assert outputs == {live[i], live[j]} + (outputs - {live[i], live[j]});
    } else {
      forall o | o in outputs ensures o == live[0] {
        var i :| 0 <= i < |live| && live[i] == o;
      }
      assert live[0] in outputs;
      assert outputs == {live[0]};
    }
  }

  lemma PositiveQuotient(d: real, n: real)
    requires 0.0 < d && 0.0 < n
    ensures d / n > 0.0
  {
  }

  /** Coverage counts the bucket's ground-truth records, and nothing else. */
  lemma {:induction false} CoverageCounts(cfg: Config, rs: seq<EvalRecord>, bucket: string)
    ensures Coverage(cfg, rs, bucket)
         == |Filter((r: EvalRecord) => r.isGroundTruth && cfg.bucketOf(r) == Some(bucket), rs)|
  {
    if rs != [] {
      CoverageCounts(cfg, rs[..|rs| - 1], bucket);
    }
  }

  lemma RatioIsAShare(covered: nat, target: int)
    ensures 0.0 <= MinReal(1.0, covered as real / MaxInt(1, target) as real) <= 1.0
  {
  }

  lemma MulBounds(w: real, x: real)
    requires w >= 0.0 && 0.0 <= x <= 1.0
    ensures 0.0 <= w * x <= w
  {
  }

  lemma WeightedSum(w: real, x: real, v: real, y: real)
    requires w >= 0.0 && v >= 0.0 && 0.0 <= x <= 1.0 && 0.0 <= y <= 1.0
    ensures 0.0 <= w * x + v * y <= w + v
  {
    var a, b := w * x, v * y;
    MulBounds(w, x);
    MulBounds(v, y);
    assert 0.0 <= a <= w && 0.0 <= b <= v;
  }

  /** With nonnegative weights a score lies between 0 and the sum of the weights, */
  lemma ScoreBounds(cfg: Config, covered: nat, r: EvalRecord)
    requires cfg.coverageWeight >= 0.0 && cfg.disagreementWeight >= 0.0
    ensures 0.0 <= Score(cfg, covered, Disagreement(r)) <= cfg.coverageWeight + cfg.disagreementWeight
  {
    hide Disagreement, MinReal;
    DisagreementIsAShare(r);
    RatioIsAShare(covered, cfg.coverageTarget);
    var ratio := MinReal(1.0, covered as real / MaxInt(1, cfg.coverageTarget) as real);
    WeightedSum(cfg.coverageWeight, 1.0 - ratio, cfg.disagreementWeight, Disagreement(r));
  }

  /** and never rises as its bucket fills up. */
  lemma ScoreFallsWithCoverage(cfg: Config, covered: nat, more: nat, disagreement: real)
    requires cfg.coverageWeight >= 0.0 && covered <= more
    ensures Score(cfg, more, disagreement) <= Score(cfg, covered, disagreement)
  {
    var n := MaxInt(1, cfg.coverageTarget) as real;
    assert covered as real / n <= more as real / n;
    var a, b := MinReal(1.0, covered as real / n), MinReal(1.0, more as real / n);
    MulMonotone(cfg.coverageWeight, 1.0 - b, 1.0 - a);
  }

  /** It rises with disagreement: that is what makes a question worth more, */
  lemma ScoreRisesWithDisagreement(cfg: Config, covered: nat, d: real, e: real)
    requires cfg.disagreementWeight >= 0.0 && d <= e
    ensures Score(cfg, covered, d) <= Score(cfg, covered, e)
  {
    ScoreGain(cfg, covered, d, e);
    MulBelow(cfg.disagreementWeight, e - d);
  }

  lemma MulBelow(w: real, x: real)
    requires w >= 0.0 && x >= 0.0
    ensures w * x >= 0.0
  {
  }

  /** by its weight for every unit. */
  lemma ScoreGain(cfg: Config, covered: nat, d: real, e: real)
    ensures Score(cfg, covered, e) - Score(cfg, covered, d) == cfg.disagreementWeight * (e - d)
  {
    hide MinReal;
    var w := cfg.disagreementWeight;
    assert w * e - w * d == w * (e - d);
  }

  /** An uncovered bucket without disagreement scores the coverage weight; every ground-truth record up to
      the target costs one share of it, and none beyond. */
  lemma ScoreCost(cfg: Config, covered: nat)
    requires cfg.coverageTarget >= 1
    ensures Score(cfg, 0, 0.0) == cfg.coverageWeight
    ensures Score(cfg, covered, 0.0) - Score(cfg, covered + 1, 0.0)
            == if covered < cfg.coverageTarget then cfg.coverageWeight / cfg.coverageTarget as real else 0.0
  {
    var n, c, w := cfg.coverageTarget as real, covered as real, cfg.coverageWeight;
    ShareOf(c, n);
    ShareOf(c + 1.0, n);
    assert 0.0 / n == 0.0;
    assert cfg.disagreementWeight * 0.0 == 0.0;
    if covered < cfg.coverageTarget {
      assert c + 1.0 <= n;
      ShareStep(w, c, n);
    }
  }

  lemma ShareOf(c: real, n: real)
    requires n >= 1.0 && c >= 0.0
    ensures c / n <= 1.0 <==> c <= n
    ensures c == n ==> c / n == 1.0
  {
    assert c / n * n == c;
  }

  lemma ShareStep(w: real, c: real, n: real)
    requires n >= 1.0
    ensures w * (1.0 - c / n) - w * (1.0 - (c + 1.0) / n) == w / n
  {
    assert (c + 1.0) / n == c / n + 1.0 / n;
    assert w * (1.0 / n) == w / n;
  }

  lemma MulMonotone(w: real, x: real, y: real)
    requires w >= 0.0 && x <= y
    ensures w * x <= w * y
  {
  }

  // ----- the ranking is a stable sort

  ghost predicate Descending(xs: seq<Scored>) {
    forall i, j :: 0 <= i < j < |xs| ==> xs[i].priority >= xs[j].priority
  }

  function WithPriority(p: real): Scored -> bool { (s: Scored) => s.priority == p }

  lemma {:induction false} InsertPosition(xs: seq<Scored>, x: Scored) returns (i: nat)
    ensures i <= |xs| && Insert(xs, x) == xs[..i] + [x] + xs[i..]
    ensures i > 0 ==> xs[i - 1].priority >= x.priority
    ensures forall j :: i <= j < |xs| ==> xs[j].priority < x.priority
  {
    if xs == [] || xs[|xs| - 1].priority >= x.priority {
      i := |xs|;
    } else {
      i := InsertPosition(xs[..|xs| - 1], x);
      assert xs[i..] == xs[..|xs| - 1][i..] + [xs[|xs| - 1]];
    }
  }

  /** Descending, the same entries, and ties stay in the order they came. */
  lemma RankingIsStableSort(xs: seq<Scored>)
    ensures Descending(SortByPriority(xs))
    ensures multiset(SortByPriority(xs)) == multiset(xs)
    ensures forall p :: Filter(WithPriority(p), SortByPriority(xs)) == Filter(WithPriority(p), xs)
  {
    hide Filter, Insert, SortByPriority;
    SortDescends(xs);
    SortPermutes(xs);
    forall p ensures Filter(WithPriority(p), SortByPriority(xs)) == Filter(WithPriority(p), xs) {
      SortIsStable(xs, p);
    }
  }

  lemma {:induction false} SortDescends(xs: seq<Scored>)
    ensures Descending(SortByPriority(xs))
  {
    hide Insert;
    if xs != [] {
      SortDescends(xs[..|xs| - 1]);
      var i := InsertPosition(SortByPriority(xs[..|xs| - 1]), xs[|xs| - 1]);
    }
  }

  lemma {:induction false} SortPermutes(xs: seq<Scored>)
    ensures multiset(SortByPriority(xs)) == multiset(xs)
  {
    hide Insert;
    if xs != [] {
      var xs', x := xs[..|xs| - 1], xs[|xs| - 1];
      SortPermutes(xs');
      var i := InsertPosition(SortByPriority(xs'), x);
      InsertedOne(SortByPriority(xs'), i, x);
      assert xs == xs' + [x];
    }
  }

  lemma InsertedOne(s: seq<Scored>, i: nat, x: Scored)
    requires i <= |s|
    ensures multiset(s[..i] + [x] + s[i..]) == multiset(s) + multiset{x}
  {
    assert s == s[..i] + s[i..];
  }

  lemma {:induction false} SortIsStable(xs: seq<Scored>, p: real)
    ensures Filter(WithPriority(p), SortByPriority(xs)) == Filter(WithPriority(p), xs)
  {
    hide Insert, Filter;
    if xs != [] {
      var xs', x := xs[..|xs| - 1], xs[|xs| - 1];
      SortIsStable(xs', p);
      var higher, lower := InsertSplits(SortByPriority(xs'), x);
      FilterSnoc(WithPriority(p), xs', x);
      assert xs == xs' + [x];
      FilterInserted(higher, lower, x, p);
    }
  }

  lemma InsertSplits(xs: seq<Scored>, x: Scored) returns (higher: seq<Scored>, lower: seq<Scored>)
    ensures xs == higher + lower && Insert(xs, x) == higher + [x] + lower
    ensures forall j :: 0 <= j < |lower| ==> lower[j].priority < x.priority
  {
    hide Insert;
    var i := InsertPosition(xs, x);
    higher, lower := xs[..i], xs[i..];
  }

  lemma FilterInserted(higher: seq<Scored>, lower: seq<Scored>, x: Scored, p: real)
    requires forall j :: 0 <= j < |lower| ==> lower[j].priority < x.priority
    ensures Filter(WithPriority(p), higher + [x] + lower)
         == if x.priority == p then Filter(WithPriority(p), higher + lower) + [x]
            else Filter(WithPriority(p), higher + lower)
  {
    hide Filter;
    var f := WithPriority(p);
    FilterConcat(f, higher + [x], lower);
    FilterSnoc(f, higher, x);
    FilterConcat(f, higher, lower);
    if x.priority == p {
      FilterNone(f, lower);
    }
  }

  // ----- who is ranked

  function Bucketed(cfg: Config): EvalRecord -> bool { (r: EvalRecord) => cfg.bucketOf(r).Some? }

  lemma {:induction false} ScoredRecords(cfg: Config, all: seq<EvalRecord>, rs: seq<EvalRecord>)
    ensures Records(ScoreAll(cfg, all, rs)) == Filter(Bucketed(cfg), rs)
  {
    if rs != [] {
      ScoredRecords(cfg, all, rs[..|rs| - 1]);
    }
  }

  function InputOfScored(s: Scored): string { s.record.inputId }

  lemma {:induction false} SortDistinct(xs: seq<Scored>)
    requires DistinctBy(InputOfScored, xs)
    ensures DistinctBy(InputOfScored, SortByPriority(xs))
  {
    hide Insert;
    if xs != [] {
      var xs', x := xs[..|xs| - 1], xs[|xs| - 1];
      SortDistinct(xs');
      SortPermutes(xs');
      var s := SortByPriority(xs');
      forall j | 0 <= j < |s| ensures InputOfScored(s[j]) != InputOfScored(x) {
        assert s[j] in multiset(s);
        assert s[j] in xs';
      }
      var i := InsertPosition(s, x);
    }
  }

  /** A run considers exactly the folded records that are candidates and have a bucket, each once. */
  lemma RankedRecords(cfg: Config, log: seq<EvalRecord>)
    ensures DistinctBy(InputOf, Records(Ranked(cfg, log)))
    ensures forall r :: r in Records(Ranked(cfg, log)) <==>
              r in Values(Latest(log)) && r.Candidate() && cfg.bucketOf(r).Some?
  {
    var all := Values(Latest(log));
    var scored := ScoredIn(cfg, all);
    var cands := Filter(IsCandidate, all);
    ValuesDistinct(InputOf, log);
    FilterDistinct(InputOf, IsCandidate, all);
    FilterDistinct(InputOf, Bucketed(cfg), cands);
    ScoredRecords(cfg, all, cands);
    forall i, j | 0 <= i < j < |scored| ensures InputOfScored(scored[i]) != InputOfScored(scored[j]) {
      assert Records(scored)[i] == scored[i].record && Records(scored)[j] == scored[j].record;
      assert InputOf(Records(scored)[i]) != InputOf(Records(scored)[j]);
    }
    SortDistinct(scored);
    RankingIsStableSort(scored);
    var ranked := SortByPriority(scored);
    forall i, j | 0 <= i < j < |ranked| ensures InputOf(Records(ranked)[i]) != InputOf(Records(ranked)[j]) {
      assert InputOfScored(ranked[i]) != InputOfScored(ranked[j]);
    }
    forall r ensures r in Records(ranked) <==> r in Records(scored) {
      SameRecords(scored, ranked, r);
      SameRecords(ranked, scored, r);
    }
  }

  /** In the record's own fields: pending, never asked about, nothing observed, and in a bucket. */
  lemma WhoIsRanked(cfg: Config, log: seq<EvalRecord>, r: EvalRecord)
    requires r in Values(Latest(log))
    ensures r in Records(Ranked(cfg, log)) <==>
              r.status == PENDING && r.askId == None && r.reality == None && cfg.bucketOf(r) != None
  {
    hide LatestBy, Ranked;
    RankedRecords(cfg, log);
  }

  lemma {:induction false} ScoredByOwn(cfg: Config, all: seq<EvalRecord>, rs: seq<EvalRecord>)
    ensures forall x :: x in ScoreAll(cfg, all, rs) ==>
              cfg.bucketOf(x.record).Some?
              && x.priority == Score(cfg, Coverage(cfg, all, cfg.bucketOf(x.record).value), Disagreement(x.record))
  {
    hide Score, Coverage, Disagreement;
    if rs != [] {
      ScoredByOwn(cfg, all, rs[..|rs| - 1]);
    }
  }

  /** A candidate's priority is the score of its own bucket's coverage and its own disagreement. */
  lemma RankedPriority(cfg: Config, log: seq<EvalRecord>, i: nat)
    requires i < |Ranked(cfg, log)|
    ensures var x := Ranked(cfg, log)[i];
            cfg.bucketOf(x.record).Some?
            && x.priority == Score(cfg, Coverage(cfg, Values(Latest(log)), cfg.bucketOf(x.record).value), Disagreement(x.record))
  {
    hide ScoreAll, LatestBy, SortByPriority, Score, Coverage, Disagreement;
    var all := Values(Latest(log));
    ScoredByOwn(cfg, all, Filter(IsCandidate, all));
    SortPermutes(ScoredIn(cfg, all));
    assert Ranked(cfg, log)[i] in multiset(ScoredIn(cfg, all));
  }

  lemma SameRecords(a: seq<Scored>, b: seq<Scored>, r: EvalRecord)
    requires multiset(a) == multiset(b)
    ensures r in Records(a) ==> r in Records(b)
  {
    if r in Records(a) {
      var i :| 0 <= i < |a| && a[i].record == r;
      assert a[i] in multiset(b);
      var j :| 0 <= j < |b| && b[j] == a[i];
      assert Records(b)[j] == r;
    }
  }

  // ----- what a run decides

  /** On a ranked list the decisions have a closed form: those below the threshold are skipped,
      the first `budget` others are asked with consecutive ids, the rest wait. */
  lemma {:induction false} DecisionsByRank(ss: seq<Scored>, n: nat, minPriority: real, budget: int, nextAsk: nat)
    requires n <= |ss| && Descending(ss)
    ensures var p := Walk(ss, n, minPriority, budget, nextAsk);
            && (forall i :: 0 <= i < n ==>
                  p.plan[i] == if ss[i].priority < minPriority then Skip
                               else if i < budget then AskNow(nextAsk + i) else Wait)
            && p.counts.asked + p.counts.skipped + p.counts.waited == n
            && p.counts.belowThreshold == p.counts.skipped
            && (n > 0 && ss[n - 1].priority >= minPriority ==> p.counts.asked == MinNat(n, budget))
  {
    DecisionsAddUp(ss, n, minPriority, budget, nextAsk);
    if n > 0 {
      DecisionsByRank(ss, n - 1, minPriority, budget, nextAsk);
    }
  }

  lemma {:induction false} DecisionsAddUp(ss: seq<Scored>, n: nat, minPriority: real, budget: int, nextAsk: nat)
    requires n <= |ss|
    ensures var p := Walk(ss, n, minPriority, budget, nextAsk);
            && p.counts.asked + p.counts.skipped + p.counts.waited == n
            && p.counts.belowThreshold == p.counts.skipped
  {
    if n > 0 {
      DecisionsAddUp(ss, n - 1, minPriority, budget, nextAsk);
    }
  }

  function MinNat(n: nat, budget: int): nat {
    if budget <= 0 then 0 else if n <= budget then n else budget
  }

  /** The number of ranked candidates worth a question. */
  function Above(ss: seq<Scored>, n: nat, minPriority: real): nat
    requires n <= |ss|
  {
    if n == 0 then 0 else Above(ss, n - 1, minPriority) + if ss[n - 1].priority >= minPriority then 1 else 0
  }

  lemma {:induction false} AskedCount(ss: seq<Scored>, n: nat, minPriority: real, budget: int, nextAsk: nat)
    requires n <= |ss| && Descending(ss)
    ensures Walk(ss, n, minPriority, budget, nextAsk).counts.asked == MinNat(Above(ss, n, minPriority), budget)
    ensures n > 0 && ss[n - 1].priority >= minPriority ==> Above(ss, n, minPriority) == n
  {
    if n > 0 {
      AskedCount(ss, n - 1, minPriority, budget, nextAsk);
    }
  }

  /** A run partitions its candidates; it skips exactly those below the threshold, spends the
      whole budget if enough others remain, and never asks about one candidate while one of
      higher priority waits. */
  lemma ReviewIsTopK(cfg: Config, log: seq<EvalRecord>, asks: seq<Ask>, nextAsk: nat, now: int)
    ensures var ss := Ranked(cfg, log);
            var p := Review(cfg, log, asks, nextAsk, now);
            && p.counts.asked + p.counts.skipped + p.counts.waited == |ss|
            && p.counts.belowThreshold == p.counts.skipped
            && p.counts.asked == MinNat(Above(ss, |ss|, cfg.minPriority), cfg.dailyBudget - Used(cfg, asks, now))
            && (forall i :: 0 <= i < |ss| ==> (p.plan[i].Skip? <==> ss[i].priority < cfg.minPriority))
            && (forall i, j :: 0 <= i < |ss| && 0 <= j < |ss| && p.plan[i].AskNow? && p.plan[j].Wait? ==>
                  i < j && ss[i].priority >= ss[j].priority)
  {
    var ss := Ranked(cfg, log);
    hide Walk, Used, ScoredIn;
    RankingIsStableSort(ScoredIn(cfg, Values(Latest(log))));
    DecisionsByRank(ss, |ss|, cfg.minPriority, cfg.dailyBudget - Used(cfg, asks, now), nextAsk);
    AskedCount(ss, |ss|, cfg.minPriority, cfg.dailyBudget - Used(cfg, asks, now), nextAsk);
  }

  /** Of two candidates of one bucket, the one its tiers disagree less about is never asked while the
      other waits, and is skipped if the other is. */
  lemma DisagreementGoesFirst(cfg: Config, log: seq<EvalRecord>, asks: seq<Ask>, nextAsk: nat, now: int, i: nat, j: nat)
    requires cfg.disagreementWeight > 0.0 && i < |Ranked(cfg, log)| && j < |Ranked(cfg, log)|
    requires var q, r := Ranked(cfg, log)[i].record, Ranked(cfg, log)[j].record;
             cfg.bucketOf(q) == cfg.bucketOf(r) && Disagreement(q) < Disagreement(r)
    ensures var p := Review(cfg, log, asks, nextAsk, now);
            && !(p.plan[i].AskNow? && p.plan[j].Wait?) && (p.plan[j].Skip? ==> p.plan[i].Skip?)
  {
    hide Score, Review, Coverage, Disagreement, Ranked, LatestBy;
    var q, r := Ranked(cfg, log)[i].record, Ranked(cfg, log)[j].record;
    RankedPriority(cfg, log, i);
    RankedPriority(cfg, log, j);
    ScoreRisesStrictly(cfg, Coverage(cfg, Values(Latest(log)), cfg.bucketOf(q).value), Disagreement(q), Disagreement(r));
    HigherGoesFirst(cfg, log, asks, nextAsk, now, i, j);
  }

  lemma HigherGoesFirst(cfg: Config, log: seq<EvalRecord>, asks: seq<Ask>, nextAsk: nat, now: int, i: nat, j: nat)
    requires i < |Ranked(cfg, log)| && j < |Ranked(cfg, log)| && Ranked(cfg, log)[i].priority < Ranked(cfg, log)[j].priority
    ensures var p := Review(cfg, log, asks, nextAsk, now);
            && !(p.plan[i].AskNow? && p.plan[j].Wait?) && (p.plan[j].Skip? ==> p.plan[i].Skip?)
  {
    hide Review, Ranked, LatestBy, Used, Above;
    ReviewIsTopK(cfg, log, asks, nextAsk, now);
  }

  lemma ScoreRisesStrictly(cfg: Config, covered: nat, d: real, e: real)
    requires cfg.disagreementWeight > 0.0 && d < e
    ensures Score(cfg, covered, d) < Score(cfg, covered, e)
  {
    ScoreGain(cfg, covered, d, e);
    hide Score;
    MulPositive(cfg.disagreementWeight, e - d);
  }

  lemma MulPositive(w: real, x: real)
    requires w > 0.0 && x > 0.0
    ensures w * x > 0.0
  {
  }

  lemma ScoreDropsStrictly(cfg: Config, less: nat, more: nat, disagreement: real)
    requires cfg.coverageWeight > 0.0 && less < cfg.coverageTarget && less < more
    ensures Score(cfg, more, disagreement) < Score(cfg, less, disagreement)
  {
    hide Score;
    ScoreCost(cfg, less);
    ScoreGain(cfg, less, 0.0, disagreement);
    ScoreGain(cfg, less + 1, 0.0, disagreement);
    ScoreFallsWithCoverage(cfg, less + 1, more, disagreement);
    PositiveQuotient(cfg.coverageWeight, cfg.coverageTarget as real);
  }

  /** Of two candidates with the same disagreement, the one whose bucket has more ground truth is never
      asked while the other waits, as long as the other's is below the target. */
  lemma UncoveredGoesFirst(cfg: Config, log: seq<EvalRecord>, asks: seq<Ask>, nextAsk: nat, now: int, i: nat, j: nat)
    requires cfg.coverageWeight > 0.0 && i < |Ranked(cfg, log)| && j < |Ranked(cfg, log)|
    requires var q, r, all := Ranked(cfg, log)[i].record, Ranked(cfg, log)[j].record, Values(Latest(log));
             && cfg.bucketOf(q).Some? && cfg.bucketOf(r).Some? && Disagreement(q) == Disagreement(r)
             && Coverage(cfg, all, cfg.bucketOf(r).value) < cfg.coverageTarget
             && Coverage(cfg, all, cfg.bucketOf(r).value) < Coverage(cfg, all, cfg.bucketOf(q).value)
    ensures var p := Review(cfg, log, asks, nextAsk, now);
            && !(p.plan[i].AskNow? && p.plan[j].Wait?) && (p.plan[j].Skip? ==> p.plan[i].Skip?)
  {
    hide Score, Review, Coverage, Disagreement, Ranked, LatestBy;
    var q, r, all := Ranked(cfg, log)[i].record, Ranked(cfg, log)[j].record, Values(Latest(log));
    var more, less := Coverage(cfg, all, cfg.bucketOf(q).value), Coverage(cfg, all, cfg.bucketOf(r).value);
    RankedPriority(cfg, log, i);
    RankedPriority(cfg, log, j);
    ScoreDropsStrictly(cfg, less, more, Disagreement(r));
    HigherGoesFirst(cfg, log, asks, nextAsk, now, i, j);
  }

  // ----- what a run does to the folded view

  lemma {:induction false} WalkLines(ss: seq<Scored>, n: nat, minPriority: real, budget: int, nextAsk: nat)
    requires n <= |ss|
    ensures var p := Walk(ss, n, minPriority, budget, nextAsk);
            p.lines == Somes(UpdatesFor(ss[..n], p.plan))
  {
    hide Decide, UpdateFor, Count, Somes;
    NoSomes();
    if n > 0 {
      WalkLines(ss, n - 1, minPriority, budget, nextAsk);
      var p, p' := Walk(ss, n, minPriority, budget, nextAsk), Walk(ss, n - 1, minPriority, budget, nextAsk);
      var us := UpdatesFor(ss[..n], p.plan);
      assert us[..n - 1] == UpdatesFor(ss[..n - 1], p'.plan);
      SomesOneMore(us);
    }
  }

  lemma NoSomes()
    ensures Somes<EvalRecord>([]) == []
  {
  }

  lemma SomesOneMore<T>(us: seq<Option<T>>)
    requires us != []
    ensures var n := |us| - 1;
            Somes(us) == if us[n].Some? then Somes(us[..n]) + [us[n].value] else Somes(us[..n])
  {
  }

  ghost predicate IdsWithin(plan: seq<Decision>, lo: nat, hi: nat) {
    forall i :: 0 <= i < |plan| && plan[i].AskNow? ==> lo <= plan[i].id < hi
  }

  lemma {:induction false} AskedIds(ss: seq<Scored>, n: nat, minPriority: real, budget: int, nextAsk: nat)
    requires n <= |ss|
    ensures var p := Walk(ss, n, minPriority, budget, nextAsk);
            IdsWithin(p.plan, nextAsk, nextAsk + p.counts.asked)
  {
    if n > 0 {
      AskedIds(ss, n - 1, minPriority, budget, nextAsk);
    }
  }

  function Reviewed(r: EvalRecord, d: Decision): EvalRecord {
    var u := UpdateFor(r, d);
    if u.Some? then u.value else r
  }

  /** Every ranked input's current version becomes what was decided; no other input changes. */
  lemma ReviewedView(cfg: Config, log: seq<EvalRecord>, asks: seq<Ask>, nextAsk: nat, now: int)
    ensures var ss := Ranked(cfg, log);
            var p := Review(cfg, log, asks, nextAsk, now);
            var d, d' := Latest(log), Latest(log + p.lines);
            && d'.keys == d.keys
            && (forall i :: 0 <= i < |ss| ==>
                  var x := ss[i].record.inputId;
                  x in d.vals && d.vals[x] == ss[i].record && x in d'.vals && d'.vals[x] == Reviewed(ss[i].record, p.plan[i]))
            && (forall x :: x in d.vals && (forall i :: 0 <= i < |ss| ==> ss[i].record.inputId != x) ==>
                  x in d'.vals && d'.vals[x] == d.vals[x])
  {
    var ss := Ranked(cfg, log);
    var p := Review(cfg, log, asks, nextAsk, now);
    hide Walk, SortByPriority, ScoredIn, Used, Values, LatestBy, Somes;
    WalkLines(ss, |ss|, cfg.minPriority, cfg.dailyBudget - Used(cfg, asks, now), nextAsk);
    assert ss[..|ss|] == ss;
    RankedRecords(cfg, log);
    AppliedPlan(log, ss, p.plan);
  }

  /** What a run makes of the `i`-th ranked input: below the threshold it is skipped with that reason; of
      the others the first within the budget are linked, in order, to the next ask ids; the rest stay. */
  lemma ReviewOutcome(cfg: Config, log: seq<EvalRecord>, asks: seq<Ask>, nextAsk: nat, now: int, i: nat)
    requires i < |Ranked(cfg, log)|
    ensures var p := Review(cfg, log, asks, nextAsk, now);
            var x, after := Ranked(cfg, log)[i], Latest(log + p.lines).vals;
            && x.record.inputId in after
            && after[x.record.inputId] ==
                 if x.priority < cfg.minPriority then
                   x.record.(status := SKIPPED, skipReason := Some(BelowPriorityThreshold))
                 else if i < cfg.dailyBudget - Used(cfg, asks, now) then
                   x.record.(status := ASKED, askId := Some(nextAsk + i))
                 else x.record
  {
    hide LatestBy, Ranked, Used, Review;
    ReviewedView(cfg, log, asks, nextAsk, now);
    PlannedByRank(cfg, log, asks, nextAsk, now, i);
  }

  lemma PlannedByRank(cfg: Config, log: seq<EvalRecord>, asks: seq<Ask>, nextAsk: nat, now: int, i: nat)
    requires i < |Ranked(cfg, log)|
    ensures Review(cfg, log, asks, nextAsk, now).plan[i] ==
              if Ranked(cfg, log)[i].priority < cfg.minPriority then Skip
              else if i < cfg.dailyBudget - Used(cfg, asks, now) then AskNow(nextAsk + i) else Wait
  {
    hide LatestBy, Ranked, Used, Walk;
    var ss := Ranked(cfg, log);
    RankedDescends(cfg, log);
    DecisionsByRank(ss, |ss|, cfg.minPriority, cfg.dailyBudget - Used(cfg, asks, now), nextAsk);
  }

  lemma RankedDescends(cfg: Config, log: seq<EvalRecord>)
    ensures Descending(Ranked(cfg, log))
  {
    hide SortByPriority, LatestBy, ScoredIn;
    SortDescends(ScoredIn(cfg, Values(Latest(log))));
  }

  lemma AppliedPlan(log: seq<EvalRecord>, ss: seq<Scored>, plan: seq<Decision>)
    requires |plan| == |ss| && DistinctBy(InputOf, Records(ss))
    requires forall r :: r in Records(ss) ==> r in Values(Latest(log))
    ensures var d, d' := Latest(log), Latest(log + Somes(UpdatesFor(ss, plan)));
            && d'.keys == d.keys
            && (forall i :: 0 <= i < |ss| ==>
                  var x := ss[i].record.inputId;
                  x in d.vals && d.vals[x] == ss[i].record && x in d'.vals && d'.vals[x] == Reviewed(ss[i].record, plan[i]))
            && (forall x :: x in d.vals && (forall i :: 0 <= i < |ss| ==> ss[i].record.inputId != x) ==>
                  x in d'.vals && d'.vals[x] == d.vals[x])
  {
    hide LatestBy, Somes;
    var rs, us := Records(ss), UpdatesFor(ss, plan);
    var d, d' := Latest(log), Latest(log + Somes(us));
    UpdatedFold(InputOf, log, rs, us);
    assert d'.vals.Keys == d.vals.Keys;
    forall i | 0 <= i < |ss|
      ensures var x := ss[i].record.inputId;
              x in d.vals && d.vals[x] == ss[i].record && x in d'.vals && d'.vals[x] == Reviewed(ss[i].record, plan[i])
    {
      assert rs[i] in rs;
      var j :| 0 <= j < |d.keys| && Values(d)[j] == rs[i];
      assert d.keys[j] in d.vals && InputOf(d.vals[d.keys[j]]) == d.keys[j];
    }
    forall x | x in d.vals && forall i :: 0 <= i < |ss| ==> ss[i].record.inputId != x
      ensures d'.vals[x] == d.vals[x]
    {
      forall i | 0 <= i < |rs| ensures InputOf(rs[i]) != x {
        assert rs[i] == ss[i].record;
      }
    }
  }
}
