/** A run of the loop that breaks the ask budget with one early stamp: inputs that fill the budget, a
    run that asks about all of them, one more input, and a run whose clock is past the window while its
    poster still stamps within it. */
module EarlyStamps {
  import opened Options
  import opened OrderedDict
  import opened EvalRecords
  import opened Asks
  import Replies = AskReplies
  import opened Orchestrator
  import opened EvalLoop
  import opened AskBudget

  /** A record as the task runner makes it, in a bucket, and worth a question while the bucket has no
      ground truth. */
  predicate Askable(cfg: Config, r: EvalRecord) {
    && r.status.PENDING? && r.reality.None? && r.askId.None? && !r.isGroundTruth
    && cfg.bucketOf(r).Some? && Score(cfg, 0, Disagreement(r)) >= cfg.minPriority
  }

  /** Records of different inputs, each under a record id of its own. */
  ghost predicate Batch(cfg: Config, rs: seq<EvalRecord>) {
    DistinctBy(InputOf, rs) && DistinctBy(Replies.RecordIdOf, rs) && forall r :: r in rs ==> Askable(cfg, r)
  }

  ghost predicate NoGroundTruth(rs: seq<EvalRecord>) { forall r :: r in rs ==> !r.isGroundTruth }

  // ----- how many a run asks about

  lemma {:induction false} NothingCovered(cfg: Config, rs: seq<EvalRecord>, bucket: string)
    requires NoGroundTruth(rs)
    ensures Coverage(cfg, rs, bucket) == 0
  {
    if rs != [] {
      NothingCovered(cfg, rs[..|rs| - 1], bucket);
    }
  }

  lemma {:induction false} ScoredWorth(cfg: Config, all: seq<EvalRecord>, rs: seq<EvalRecord>)
    requires NoGroundTruth(all)
    ensures forall x :: x in ScoreAll(cfg, all, rs) && Askable(cfg, x.record) ==> x.priority >= cfg.minPriority
  {
    hide Disagreement, Score, Coverage;
    if rs != [] {
      var n := |rs| - 1;
      ScoredWorth(cfg, all, rs[..n]);
      if cfg.bucketOf(rs[n]).Some? {
        NothingCovered(cfg, all, cfg.bucketOf(rs[n]).value);
      }
    }
  }

  lemma RankedWorth(cfg: Config, log: seq<EvalRecord>, i: nat)
    requires NoGroundTruth(Values(Latest(log))) && i < |Ranked(cfg, log)| && Askable(cfg, Ranked(cfg, log)[i].record)
    ensures Ranked(cfg, log)[i].priority >= cfg.minPriority
  {
    hide ScoreAll, LatestBy, Askable, SortByPriority;
    var all := Values(Latest(log));
    ScoredWorth(cfg, all, Filter(IsCandidate, all));
    SortPermutes(ScoredIn(cfg, all));
    assert Ranked(cfg, log)[i] in multiset(ScoredIn(cfg, all));
  }

  lemma {:induction false} AboveCounts(ss: seq<Scored>, n: nat, minPriority: real)
    requires n <= |ss|
    ensures (forall i :: 0 <= i < n ==> ss[i].priority >= minPriority) ==> Above(ss, n, minPriority) == n
    ensures (exists i :: 0 <= i < n && ss[i].priority >= minPriority) ==> Above(ss, n, minPriority) >= 1
  {
    if n > 0 {
      AboveCounts(ss, n - 1, minPriority);
    }
  }

  /** If every current version is askable, a run can ask about all of them. */
  lemma AllAskable(cfg: Config, log: seq<EvalRecord>)
    requires forall r :: r in Values(Latest(log)) ==> Askable(cfg, r)
    ensures Above(Ranked(cfg, log), |Ranked(cfg, log)|, cfg.minPriority) == |Values(Latest(log))|
  {
    hide LatestBy, Disagreement, Score, SortByPriority, ScoreAll;
    var all, ss := Values(Latest(log)), Ranked(cfg, log);
    FilterAll(IsCandidate, all);
    ScoredRecords(cfg, all, all);
    FilterAll(Bucketed(cfg), all);
    SortPermutes(ScoredIn(cfg, all));
    assert |multiset(ss)| == |multiset(ScoredIn(cfg, all))|;
    forall i | 0 <= i < |ss| ensures ss[i].priority >= cfg.minPriority {
      RankedRecords(cfg, log);
      assert Records(ss)[i] == ss[i].record && ss[i].record in Records(ss);
      RankedWorth(cfg, log, i);
    }
    AboveCounts(ss, |ss|, cfg.minPriority);
  }

  /** One askable current version is enough for a run to ask. */
  lemma OneAskable(cfg: Config, log: seq<EvalRecord>, r: EvalRecord)
    requires NoGroundTruth(Values(Latest(log))) && r in Values(Latest(log)) && Askable(cfg, r)
    ensures Above(Ranked(cfg, log), |Ranked(cfg, log)|, cfg.minPriority) >= 1
  {
    hide LatestBy, Disagreement, Score, Ranked;
    var ss := Ranked(cfg, log);
    RankedRecords(cfg, log);
    var i :| 0 <= i < |Records(ss)| && Records(ss)[i] == r;
    RankedWorth(cfg, log, i);
    AboveCounts(ss, |ss|, cfg.minPriority);
  }

  // ----- the four phases

  function Recordings(rs: seq<EvalRecord>): seq<Event> {
    if rs == [] then [] else Recordings(rs[..|rs| - 1]) + [Arrive(rs[|rs| - 1])]
  }

  lemma {:induction false} AfterRecordings(cfg: Config, rs: seq<EvalRecord>)
    requires Batch(cfg, rs)
    ensures Legal(cfg, Start, Recordings(rs)) && Run(cfg, Start, Recordings(rs)) == State(rs, [], 0, {})
  {
    hide Askable, LatestBy;
    if rs != [] {
      var n := |rs| - 1;
      var es, e := Recordings(rs[..n]), Arrive(rs[n]);
      assert rs == rs[..n] + [rs[n]];
      BatchPrefix(cfg, rs[..n], rs[n]);
      AfterRecordings(cfg, rs[..n]);
      var s := State(rs[..n], [], 0, {});
      RunInTwo(cfg, Start, es, [e]);
      assert [e][..0] == [];
      IsNewRecord(cfg, s, rs, n);
      assert Run(cfg, s, [e]) == Next(cfg, s, e) && (Legal(cfg, s, [e]) <==> Enabled(s, e));
    }
  }

  lemma IsNewRecord(cfg: Config, s: State, rs: seq<EvalRecord>, n: nat)
    requires n < |rs| && Batch(cfg, rs)
    requires forall q :: q in s.log ==> exists i :: 0 <= i < n && rs[i].recordId == q.recordId
    ensures NewRecord(s, rs[n])
  {
    hide LatestBy, Disagreement, Score;
    assert rs[n] in rs;
    forall j | 0 <= j < |s.log| ensures Replies.RecordIdOf(s.log[j]) != rs[n].recordId {
      assert s.log[j] in s.log;
      var i :| 0 <= i < n && rs[i].recordId == s.log[j].recordId;
      assert Replies.RecordIdOf(rs[i]) != Replies.RecordIdOf(rs[n]);
    }
    LatestDomain(Replies.RecordIdOf, s.log, rs[n].recordId);
  }

  /** The state after `rs[..n]` were recorded and a run at `c` asked about all of them. */
  function Filled(cfg: Config, rs: seq<EvalRecord>, c: int): State {
    Next(cfg, State(rs, [], 0, {}), ReviewPending(c, Always(c)))
  }

  lemma FoldOfDistinct(rs: seq<EvalRecord>)
    requires DistinctBy(InputOf, rs)
    ensures Values(Latest(rs)) == rs
  {
    assert Values(LatestBy(InputOf, [])) == [] && [] + rs == rs;
    LatestAppendFresh(InputOf, [], rs);
  }

  lemma FillsBudget(cfg: Config, rs: seq<EvalRecord>, c: int)
    requires Batch(cfg, rs) && |rs| == cfg.dailyBudget
    ensures var s := Filled(cfg, rs, c);
            && s.asks == Posts(cfg, 0, cfg.dailyBudget, Always(c)) && s.nextAsk == cfg.dailyBudget
            && s.own == IdsFrom(0, cfg.dailyBudget)
  {
    hide Next, Review, Batch, IdsFrom, Posts;
    AsksAboutAll(cfg, rs, c);
    ReviewPosts(cfg, State(rs, [], 0, {}), c, Always(c));
    var posts := Posts(cfg, 0, cfg.dailyBudget, Always(c));
    assert [] + posts == posts && {} + IdsFrom(0, cfg.dailyBudget) == IdsFrom(0, cfg.dailyBudget);
  }

  lemma AsksAboutAll(cfg: Config, rs: seq<EvalRecord>, c: int)
    requires Batch(cfg, rs) && |rs| == cfg.dailyBudget
    ensures Review(cfg, rs, [], 0, c).counts.asked == cfg.dailyBudget
  {
    hide LatestBy, Ranked, Review, Askable, Above;
    FoldOfDistinct(rs);
    AllAskable(cfg, rs);
    NothingUsed(cfg, c);
    ReviewIsTopK(cfg, rs, [], 0, c);
  }

  lemma NothingUsed(cfg: Config, c: int)
    ensures Used(cfg, [], c) == 0
  {
  }

  lemma FilledLog(cfg: Config, rs: seq<EvalRecord>, c: int)
    requires Batch(cfg, rs)
    ensures forall q :: q in Filled(cfg, rs, c).log ==> exists i :: 0 <= i < |rs| && rs[i].recordId == q.recordId
    ensures NoGroundTruth(Values(Latest(Filled(cfg, rs, c).log)))
  {
    hide LatestBy, Next, Disagreement, Score, Values;
    var s, e := State(rs, [], 0, {}), ReviewPending(c, Always(c));
    forall q | q in Filled(cfg, rs, c).log ensures exists i :: 0 <= i < |rs| && rs[i].recordId == q.recordId {
      var q0 := OldRecord(cfg, s, e, q);
      var i :| 0 <= i < |rs| && rs[i] == q0;
    }
    StepView(cfg, s, e);
    forall r | r in Values(Latest(Filled(cfg, rs, c).log)) ensures !r.isGroundTruth {
      var s' := Filled(cfg, rs, c);
      var k :| 0 <= k < |Values(Latest(s'.log))| && Values(Latest(s'.log))[k] == r;
      CurrentVersion(s', k);
      var x := r.inputId;
      var j := Replies.LastLine(rs, x);
      assert View(s)[x] in rs;
    }
  }

  /** One more input is recorded, and the next run has something to ask. */
  lemma OneMoreInput(cfg: Config, rs: seq<EvalRecord>, r: EvalRecord, c: int)
    requires Batch(cfg, rs + [r])
    ensures var s := Filled(cfg, rs, c);
            && NewRecord(s, r)
            && MostAsked(cfg, s.log + [r]) >= MinNat(1, cfg.dailyBudget)
  {
    hide LatestBy, Ranked, Above, Filled, Disagreement, Score, Values;
    var all, s := rs + [r], Filled(cfg, rs, c);
    BatchPrefix(cfg, rs, r);
    FilledLog(cfg, rs, c);
    assert forall i :: 0 <= i < |rs| ==> all[i] == rs[i];
    assert all[|rs|] == r && r in all;
    IsNewRecord(cfg, s, all, |rs|);
    WithOneMore(s.log, r);
    OneAskable(cfg, s.log + [r], r);
  }

  lemma BatchPrefix(cfg: Config, rs: seq<EvalRecord>, r: EvalRecord)
    requires Batch(cfg, rs + [r])
    ensures Batch(cfg, rs)
  {
    hide Askable;
    var all := rs + [r];
    assert forall i :: 0 <= i < |rs| ==> all[i] == rs[i];
    forall i, j | 0 <= i < j < |rs| ensures InputOf(rs[i]) != InputOf(rs[j]) && Replies.RecordIdOf(rs[i]) != Replies.RecordIdOf(rs[j]) {
      assert InputOf(all[i]) != InputOf(all[j]) && Replies.RecordIdOf(all[i]) != Replies.RecordIdOf(all[j]);
    }
  }

  lemma WithOneMore(log: seq<EvalRecord>, r: EvalRecord)
    requires NoGroundTruth(Values(Latest(log))) && !r.isGroundTruth
    ensures NoGroundTruth(Values(Latest(log + [r]))) && r in Values(Latest(log + [r]))
  {
    hide LatestBy;
    var d, d' := Latest(log), Latest(log + [r]);
    LatestAppend(InputOf, log, r);
    forall q | q in Values(d') ensures !q.isGroundTruth {
      var i :| 0 <= i < |d'.keys| && Values(d')[i] == q;
      assert d'.keys[i] in d'.vals;
      if q != r {
        var j :| 0 <= j < |d.keys| && d.keys[j] == d'.keys[i];
        assert Values(d)[j] in Values(d);
      }
    }
    var i :| 0 <= i < |d'.keys| && d'.keys[i] == r.inputId;
    assert Values(d')[i] == r;
  }

  /** The run of the first three phases. */
  function UpToLastRun(rs: seq<EvalRecord>, r: EvalRecord, c: int): seq<Event> {
    Recordings(rs) + [ReviewPending(c, Always(c)), Arrive(r)]
  }

  lemma LegalUpToLastRun(cfg: Config, rs: seq<EvalRecord>, r: EvalRecord, c: int)
    requires Batch(cfg, rs + [r])
    ensures Legal(cfg, Start, UpToLastRun(rs, r, c))
    ensures Run(cfg, Start, UpToLastRun(rs, r, c)) == Next(cfg, Filled(cfg, rs, c), Arrive(r))
  {
    hide Next, Batch, Recordings;
    BatchPrefix(cfg, rs, r);
    AfterRecordings(cfg, rs);
    OneMoreInput(cfg, rs, r, c);
    var e0, e1 := ReviewPending(c, Always(c)), Arrive(r);
    var s := State(rs, [], 0, {});
    RunInTwo(cfg, Start, Recordings(rs), [e0, e1]);
    assert [e0, e1][..1] == [e0] && [e0][..0] == [];
    assert Run(cfg, s, []) == s && Run(cfg, s, [e0]) == Filled(cfg, rs, c);
    assert Legal(cfg, s, [e0]);
  }

  /** With any budget of at least one: record as many askable inputs as the budget, ask about all of
      them at `c`, and record one more.  All of this is legal and within the budget.  A run whose clock
      is past the window while its first post is stamped within it then breaks the budget. */
  lemma EarlyStampBreaksRun(cfg: Config, rs: seq<EvalRecord>, r: EvalRecord, c: int, now: int, postTimes: nat -> int)
    requires cfg.dailyBudget >= 1 && cfg.budgetWindow >= 0 && |rs| == cfg.dailyBudget && Batch(cfg, rs + [r])
    requires now > c + cfg.budgetWindow && c <= postTimes(0) <= c + cfg.budgetWindow
    ensures var es := UpToLastRun(rs, r, c);
            && Legal(cfg, Start, es) && WithinBudget(cfg, Run(cfg, Start, es))
            && !WithinBudget(cfg, Next(cfg, Run(cfg, Start, es), ReviewPending(now, postTimes)))
  {
    hide Legal, Run, Tidy, UpToLastRun, WithinBudget, Batch, LatestBy, Ranked, Walk, Values, Above;
    var es := UpToLastRun(rs, r, c);
    var s := Run(cfg, Start, es);
    BatchPrefix(cfg, rs, r);
    LegalUpToLastRun(cfg, rs, r, c);
    StartIsTidy();
    StartWithinBudget(cfg);
    RunKeepsTidy(cfg, Start, es);
    BudgetHolds(cfg, Start, es);
    FillsBudget(cfg, rs, c);
    OneMoreInput(cfg, rs, r, c);
    LastRunBreaks(cfg, s, c, now, postTimes);
  }

  lemma StartWithinBudget(cfg: Config)
    ensures WithinBudget(cfg, Start)
  {
  }

  lemma AsksMost(cfg: Config, s: State, c: int, now: int)
    requires cfg.dailyBudget >= 1 && s.asks == Posts(cfg, 0, cfg.dailyBudget, Always(c)) && now > c + cfg.budgetWindow
    ensures Review(cfg, s.log, s.asks, s.nextAsk, now).counts.asked == MostAsked(cfg, s.log)
  {
    hide LatestBy, Values, Ranked, Review, Above, CountSince;
    FoldedPosts(cfg, cfg.dailyBudget, c);
    NoneSince(s.asks, now - cfg.budgetWindow);
    ReviewIsTopK(cfg, s.log, s.asks, s.nextAsk, now);
  }

  lemma LastRunBreaks(cfg: Config, s: State, c: int, now: int, postTimes: nat -> int)
    requires cfg.dailyBudget >= 1 && cfg.budgetWindow >= 0 && Tidy(s)
    requires s.asks == Posts(cfg, 0, cfg.dailyBudget, Always(c)) && s.nextAsk == cfg.dailyBudget
    requires s.own == IdsFrom(0, cfg.dailyBudget) && MostAsked(cfg, s.log) >= 1
    requires now > c + cfg.budgetWindow && c <= postTimes(0) <= c + cfg.budgetWindow
    ensures !WithinBudget(cfg, Next(cfg, s, ReviewPending(now, postTimes)))
  {
    hide LatestBy, Values, Ranked, Review, Tidy, Above, OwnIn, CountSince, Next, IdsFrom, WithinBudget, MostAsked;
    ReviewPosts(cfg, s, now, postTimes);
    FoldedPosts(cfg, cfg.dailyBudget, c);
    var n := MostAsked(cfg, s.log);
    AsksMost(cfg, s, c, now);
    var s' := Next(cfg, s, ReviewPending(now, postTimes));
    PostsAreNew(cfg, s, n, postTimes);
    Overfull(cfg, s.asks, Posts(cfg, s.nextAsk, n, postTimes), s'.own, c, 0);
    Exceeded(cfg, s', c);
  }
}
