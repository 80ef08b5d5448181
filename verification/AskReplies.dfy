/** Replies to open asks: the ask moves on, and a valid answer becomes the ground truth of the
    records linked to it.  Links go by record id, while the rest of the loop reads the log by
    input id. */
module AskReplies {
  import opened Options
  import opened OrderedDict
  import opened EvalRecords
  import opened Asks

  datatype Reply = NoReply | InvalidReply | ValidReply(answer: string)

  datatype Counts = Counts(answered: nat, stillOpen: nat, expired: nat, clarified: nat)

  function RecordIdOf(r: EvalRecord): string { r.recordId }

  /** The newest line of every record id. */
  function Versions(log: seq<EvalRecord>): Dict<string, EvalRecord> { LatestBy(RecordIdOf, log) }

  function LinkedTo(askId: nat): EvalRecord -> bool { (r: EvalRecord) => r.askId == Some(askId) }

  function Named(d: Dict<string, EvalRecord>, ids: seq<string>): seq<EvalRecord> {
    if ids == [] then []
    else
      var rest, id := Named(d, ids[..|ids| - 1]), ids[|ids| - 1];
      if id in d.vals then rest + [d.vals[id]] else rest
  }

  /** The records the two links collect: those the ask names and those that carry its id. */
  function Collected(log: seq<EvalRecord>, ask: Ask): seq<EvalRecord> {
    Named(Versions(log), ask.recordIds) + Filter(LinkedTo(ask.askId), Values(Versions(log)))
  }

  /** The records an answer is for: those collected, each once. */
  function Targets(log: seq<EvalRecord>, ask: Ask): seq<EvalRecord> {
    Values(LatestBy(RecordIdOf, Collected(log, ask)))
  }

  function Answer(ask: Ask, at: int): ObservedReality {
    ObservedReality(if ask.answer.Some? then ask.answer.value else "", SlackAsk,
                    if ask.answeredAt.Some? then ask.answeredAt.value else at)
  }

  function Settle(r: EvalRecord, reality: ObservedReality): Option<EvalRecord> {
    if r.isGroundTruth then None else Some(r.RecordReality(reality))
  }

  function Settled(rs: seq<EvalRecord>, reality: ObservedReality): seq<EvalRecord> {
    if rs == [] then []
    else
      var rest, u := Settled(rs[..|rs| - 1], reality), Settle(rs[|rs| - 1], reality);
      if u.Some? then rest + [u.value] else rest
  }

  /** The record log after an answered ask. */
  function Propagated(log: seq<EvalRecord>, ask: Ask, at: int): seq<EvalRecord> {
    if ask.answer.None? then log else log + Settled(Targets(log, ask), Answer(ask, at))
  }

  // ----- the poll

  datatype Progress = Progress(log: seq<EvalRecord>, asks: seq<Ask>, counts: Counts)

  function PollOne(p: Progress, ask: Ask, reply: Reply, now: int): Progress {
    if ask.expiresAt.Some? && now > ask.expiresAt.value then
      Progress(p.log, p.asks + [ask.(status := Expired, answeredAt := Some(now))],
               p.counts.(expired := p.counts.expired + 1))
    else
      match reply
      case NoReply => p.(counts := p.counts.(stillOpen := p.counts.stillOpen + 1))
      case InvalidReply =>
        p.(counts := p.counts.(clarified := p.counts.clarified + 1, stillOpen := p.counts.stillOpen + 1))
      case ValidReply(answer) =>
        var answered := ask.(status := Answered, answeredAt := Some(now), answer := Some(answer));
        Progress(Propagated(p.log, answered, now), p.asks + [answered],
                 p.counts.(answered := p.counts.answered + 1))
  }

  function Poll(p: Progress, open: seq<Ask>, n: nat, replies: Ask -> Reply, now: int): Progress
    requires n <= |open|
  {
    if n == 0 then p else PollOne(Poll(p, open, n - 1, replies, now), open[n - 1], replies(open[n - 1]), now)
  }

  class AskReplyReconciler {
    const askStore: AskStore
    const evalStore: EvalRecordStore

    constructor (askStore: AskStore, evalStore: EvalRecordStore)
      ensures this.askStore == askStore && this.evalStore == evalStore
    {
      this.askStore := askStore;
      this.evalStore := evalStore;
    }

    /** `replies` is what the first human reply in an ask's thread parses to. */
    method PollOpenAsks(replies: Ask -> Reply, now: int) returns (counts: Counts)
      modifies askStore, evalStore
      ensures var open := OpenIn(old(askStore.log));
              Progress(evalStore.log, askStore.log, counts)
              == Poll(Progress(old(evalStore.log), old(askStore.log), Counts(0, 0, 0, 0)), open, |open|, replies, now)
    {
      hide OpenIn, PollOne;
      var open := askStore.OpenAsks();
      counts := Counts(0, 0, 0, 0);
      ghost var start := Progress(evalStore.log, askStore.log, counts);
      for i := 0 to |open|
        invariant Progress(evalStore.log, askStore.log, counts) == Poll(start, open, i, replies, now)
      {
        counts := PollAsk(open[i], replies(open[i]), now, counts);
      }
    }

    /** The body of the loop over the open asks. */
    method PollAsk(ask: Ask, reply: Reply, now: int, before: Counts) returns (counts: Counts)
      modifies askStore, evalStore
      ensures Progress(evalStore.log, askStore.log, counts)
              == PollOne(Progress(old(evalStore.log), old(askStore.log), before), ask, reply, now)
    {
      hide Propagated;
      if ask.expiresAt.Some? && now > ask.expiresAt.value {
        askStore.Append(ask.(status := Expired, answeredAt := Some(now)));
        return before.(expired := before.expired + 1);
      }
      match reply
      case NoReply =>
        return before.(stillOpen := before.stillOpen + 1);
      case InvalidReply =>
        return before.(clarified := before.clarified + 1, stillOpen := before.stillOpen + 1);
      case ValidReply(answer) =>
        var answered := ask.(status := Answered, answeredAt := Some(now), answer := Some(answer));
        askStore.Append(answered);
        PropagateToRecords(answered, now);
        return before.(answered := before.answered + 1);
    }

    method PropagateToRecords(ask: Ask, at: int)
      modifies evalStore
      ensures evalStore.log == Propagated(old(evalStore.log), ask, at)
    {
      hide Targets;
      if ask.answer.None? {
        return;
      }
      var targets := Targets(evalStore.log, ask);
      for i := 0 to |targets|
        invariant evalStore.log == old(evalStore.log) + Settled(targets[..i], Answer(ask, at))
      {
        assert targets[..i + 1][..i] == targets[..i];
        if targets[i].isGroundTruth {
          continue;
        }
        evalStore.Append(targets[i].RecordReality(Answer(ask, at)));
      }
      assert targets[..|targets|] == targets;
    }
  }

  // ----- an answer and the ground truth already there

  lemma {:induction false} SettledOrigin(rs: seq<EvalRecord>, reality: ObservedReality, u: EvalRecord)
    ensures u in Settled(rs, reality) <==>
              exists i :: 0 <= i < |rs| && !rs[i].isGroundTruth && u == rs[i].RecordReality(reality)
  {
    if rs != [] {
      var n := |rs| - 1;
      SettledOrigin(rs[..n], reality, u);
      assert forall i :: 0 <= i < n ==> rs[..n][i] == rs[i];
      if u in Settled(rs[..n], reality) {
        var i :| 0 <= i < n && !rs[..n][i].isGroundTruth && u == rs[..n][i].RecordReality(reality);
        assert rs[i] == rs[..n][i];
      } else if exists i :: 0 <= i < |rs| && !rs[i].isGroundTruth && u == rs[i].RecordReality(reality) {
        var i :| 0 <= i < |rs| && !rs[i].isGroundTruth && u == rs[i].RecordReality(reality);
        assert rs[i] in rs;
      }
    }
  }

  lemma {:induction false} NamedAreVersions(d: Dict<string, EvalRecord>, ids: seq<string>, r: EvalRecord)
    requires Valid(d) && forall k :: k in d.vals ==> RecordIdOf(d.vals[k]) == k
    ensures r in Named(d, ids) <==> r.recordId in ids && r.recordId in d.vals && d.vals[r.recordId] == r
  {
    if ids != [] {
      NamedAreVersions(d, ids[..|ids| - 1], r);
      assert ids == ids[..|ids| - 1] + [ids[|ids| - 1]];
    }
  }

  lemma CollectedIff(log: seq<EvalRecord>, ask: Ask, r: EvalRecord)
    ensures r in Collected(log, ask) <==>
              && r.recordId in Versions(log).vals && Versions(log).vals[r.recordId] == r
              && (r.recordId in ask.recordIds || r.askId == Some(ask.askId))
  {
    hide Named, LatestBy;
    var d := Versions(log);
    forall k | k in d.vals ensures RecordIdOf(d.vals[k]) == k {
    }
    NamedAreVersions(d, ask.recordIds, r);
    if r in Values(d) {
      var i :| 0 <= i < |d.keys| && Values(d)[i] == r;
      assert d.keys[i] in d.vals;
    }
    if r.recordId in d.vals && d.vals[r.recordId] == r {
      var i :| 0 <= i < |d.keys| && d.keys[i] == r.recordId;
      assert Values(d)[i] == r;
    }
  }

  /** The targets of an answer are exactly the newest lines of those record ids that the ask names
      or whose newest line names the ask. */
  lemma TargetIff(log: seq<EvalRecord>, ask: Ask, r: EvalRecord)
    ensures r in Targets(log, ask) <==>
              && r.recordId in Versions(log).vals && Versions(log).vals[r.recordId] == r
              && (r.recordId in ask.recordIds || r.askId == Some(ask.askId))
  {
    hide Collected, Versions;
    var all := Collected(log, ask);
    CollectedIff(log, ask, r);
    var t := LatestBy(RecordIdOf, all);
    if r in Targets(log, ask) {
      var m :| 0 <= m < |t.keys| && Values(t)[m] == r;
      assert t.keys[m] in t.vals;
      LatestFromLog(all, t.keys[m]);
    }
    if r in all {
      var i :| 0 <= i < |all| && all[i] == r;
      LatestDomain(RecordIdOf, all, r.recordId);
      assert RecordIdOf(all[i]) == r.recordId;
      var u := t.vals[r.recordId];
      LatestFromLog(all, r.recordId);
      CollectedIff(log, ask, u);
      assert RecordIdOf(u) == r.recordId;
      var m :| 0 <= m < |t.keys| && t.keys[m] == r.recordId;
      assert Values(t)[m] == r;
    }
  }

  /** So an ask is answered for the records it was posted for and those that were linked to it since. */
  lemma PostedForRecords(log: seq<EvalRecord>, id: nat, recordIds: seq<string>, at: int, replyWindow: int, r: EvalRecord)
    ensures r in Targets(log, NewAsk(id, recordIds, at, replyWindow)) <==>
              && r.recordId in Versions(log).vals && Versions(log).vals[r.recordId] == r
              && (r.recordId in recordIds || r.askId == Some(id))
  {
    hide Versions, Targets;
    TargetIff(log, NewAsk(id, recordIds, at, replyWindow), r);
  }

  lemma {:induction false} LatestFromLog(log: seq<EvalRecord>, k: string)
    requires k in LatestBy(RecordIdOf, log).vals
    ensures LatestBy(RecordIdOf, log).vals[k] in log
  {
    var n := |log| - 1;
    if RecordIdOf(log[n]) != k {
      LatestFromLog(log[..n], k);
    }
  }

  /** The newest line of input `x` that has the record id of the newest line of `x` is that line. */
  lemma SameVersion(log: seq<EvalRecord>, x: string, r: EvalRecord)
    requires x in Latest(log).vals && r.inputId == x && r.recordId == Latest(log).vals[x].recordId
    requires r.recordId in Versions(log).vals && Versions(log).vals[r.recordId] == r
    ensures r == Latest(log).vals[x]
  {
    var i := LastLine(log, x);
    var j := LastVersion(log, r.recordId);
    assert InputOf(log[j]) == x && RecordIdOf(log[i]) == r.recordId;
  }

  lemma {:induction false} LastLine(log: seq<EvalRecord>, x: string) returns (i: nat)
    requires x in Latest(log).vals
    ensures i < |log| && log[i] == Latest(log).vals[x] && log[i].inputId == x
    ensures forall j :: i < j < |log| ==> InputOf(log[j]) != x
  {
    i := |log| - 1;
    if log[i].inputId != x {
      i := LastLine(log[..i], x);
    }
  }

  lemma {:induction false} LastVersion(log: seq<EvalRecord>, k: string) returns (i: nat)
    requires k in Versions(log).vals
    ensures i < |log| && log[i] == Versions(log).vals[k] && log[i].recordId == k
    ensures forall j :: i < j < |log| ==> RecordIdOf(log[j]) != k
  {
    i := |log| - 1;
    if log[i].recordId != k {
      i := LastVersion(log[..i], k);
    }
  }

  /** An input that already is ground truth keeps its record exactly when no target of the answer is
      an unsettled record of the same input, which can only be one under another record id. */
  lemma GroundTruthSurvivesReply(log: seq<EvalRecord>, ask: Ask, at: int, x: string)
    requires ask.answer.Some?
    requires x in Latest(log).vals && Latest(log).vals[x].isGroundTruth
    ensures x in Latest(Propagated(log, ask, at)).vals
    ensures Latest(Propagated(log, ask, at)).vals[x] == Latest(log).vals[x]
            <==> !exists t :: t in Targets(log, ask) && !t.isGroundTruth && t.inputId == x
  {
    hide Targets, Settled, Versions;
    var targets, reality := Targets(log, ask), Answer(ask, at);
    var lines := Settled(targets, reality);
    var log' := Propagated(log, ask, at);
    if exists t :: t in targets && !t.isGroundTruth && t.inputId == x {
      var t :| t in targets && !t.isGroundTruth && t.inputId == x;
      var m :| 0 <= m < |targets| && targets[m] == t;
      SettledOrigin(targets, reality, t.RecordReality(reality));
      var k :| 0 <= k < |lines| && lines[k] == t.RecordReality(reality);
      assert log'[|log| + k] == lines[k] && InputOf(lines[k]) == x;
      LatestDomain(InputOf, log', x);
      var i := LastLine(log', x);
      assert i >= |log|;
      var u := log'[i];
      assert u == lines[i - |log|] && u in lines;
      SettledOrigin(targets, reality, u);
      var s :| 0 <= s < |targets| && !targets[s].isGroundTruth && u == targets[s].RecordReality(reality);
      TargetIff(log, ask, targets[s]);
      if u.recordId == Latest(log).vals[x].recordId {
        SameVersion(log, x, targets[s]);
        assert false;
      }
    } else {
      forall k | 0 <= k < |lines| ensures InputOf(lines[k]) != x {
        SettledOrigin(targets, reality, lines[k]);
        assert lines[k] in lines;
        var s :| 0 <= s < |targets| && !targets[s].isGroundTruth && lines[k] == targets[s].RecordReality(reality);
        assert targets[s] in targets;
      }
      LatestAppendMiss(InputOf, log, lines, x);
    }
  }

  /** In general an answer replaces an input's current version by a settled target of that input, or
      leaves it alone, and it brings in no new input. */
  lemma PropagatedView(log: seq<EvalRecord>, ask: Ask, at: int, x: string)
    ensures x in Latest(Propagated(log, ask, at)).vals <==> x in Latest(log).vals
    ensures x in Latest(log).vals ==>
              var r' := Latest(Propagated(log, ask, at)).vals[x];
              r' == Latest(log).vals[x]
              || exists t :: t in Targets(log, ask) && !t.isGroundTruth && t.inputId == x
                             && r' == t.RecordReality(Answer(ask, at))
  {
    hide Targets, Settled, Versions;
    if ask.answer.Some? {
      var targets, reality := Targets(log, ask), Answer(ask, at);
      var lines := Settled(targets, reality);
      var log' := Propagated(log, ask, at);
      if forall k :: 0 <= k < |lines| ==> InputOf(lines[k]) != x {
        LatestAppendMiss(InputOf, log, lines, x);
      } else {
        var k :| 0 <= k < |lines| && InputOf(lines[k]) == x;
        assert log'[|log| + k] == lines[k];
        LatestDomain(InputOf, log', x);
        var i := LastLine(log', x);
        assert i >= |log|;
        var u := log'[i];
        assert u == lines[i - |log|] && u in lines;
        SettledOrigin(targets, reality, u);
        var s :| 0 <= s < |targets| && !targets[s].isGroundTruth && u == targets[s].RecordReality(reality);
        assert targets[s] in targets;
        TargetIff(log, ask, targets[s]);
        var j := LastVersion(log, targets[s].recordId);
        assert InputOf(log[j]) == x;
        LatestDomain(InputOf, log, x);
      }
    }
  }

  // ----- what an answer and a poll leave behind

  lemma {:induction false} SettledDistinct(rs: seq<EvalRecord>, reality: ObservedReality)
    requires DistinctBy(RecordIdOf, rs)
    ensures DistinctBy(RecordIdOf, Settled(rs, reality))
  {
    if rs != [] {
      var n := |rs| - 1;
      SettledDistinct(rs[..n], reality);
      forall j | 0 <= j < |Settled(rs[..n], reality)| ensures RecordIdOf(Settled(rs[..n], reality)[j]) != RecordIdOf(rs[n]) {
        var u := Settled(rs[..n], reality)[j];
        SettledOrigin(rs[..n], reality, u);
        var i :| 0 <= i < n && !rs[..n][i].isGroundTruth && u == rs[..n][i].RecordReality(reality);
        assert RecordIdOf(rs[i]) != RecordIdOf(rs[n]);
      }
    }
  }

  /** An answer makes exactly the linked records that were not settled into ground truth, with the answer as
      observed through the ask; every other record keeps its newest line. */
  lemma AnsweredVersions(log: seq<EvalRecord>, ask: Ask, at: int, k: string)
    requires ask.answer.Some? && k in Versions(log).vals
    ensures k in Versions(Propagated(log, ask, at)).vals
    ensures var t := Versions(log).vals[k];
            Versions(Propagated(log, ask, at)).vals[k] ==
              if (k in ask.recordIds || t.askId == Some(ask.askId)) && !t.isGroundTruth then
                t.(reality := Some(ObservedReality(ask.answer.value, SlackAsk,
                                                   if ask.answeredAt.Some? then ask.answeredAt.value else at)),
                   status := ANSWERED, isGroundTruth := true)
              else t
  {
    hide LatestBy, Collected, Settled;
    var t, targets, reality := Versions(log).vals[k], Targets(log, ask), Answer(ask, at);
    var lines := Settled(targets, reality);
    assert RecordIdOf(t) == k;
    TargetIff(log, ask, t);
    ValuesDistinct(RecordIdOf, Collected(log, ask));
    SettledDistinct(targets, reality);
    if t in targets && !t.isGroundTruth {
      var m :| 0 <= m < |targets| && targets[m] == t;
      SettledOrigin(targets, reality, t.RecordReality(reality));
      var j :| 0 <= j < |lines| && lines[j] == t.RecordReality(reality);
      LatestAppendHit(RecordIdOf, log, lines, j);
    } else {
      forall j | 0 <= j < |lines| ensures RecordIdOf(lines[j]) != k {
        SettledOrigin(targets, reality, lines[j]);
        assert lines[j] in lines;
        var m :| 0 <= m < |targets| && !targets[m].isGroundTruth && lines[j] == targets[m].RecordReality(reality);
        assert targets[m] in targets;
        TargetIff(log, ask, targets[m]);
      }
      LatestAppendMiss(RecordIdOf, log, lines, k);
    }
  }

  /** The asks are as the log has them. */
  ghost predicate Current(asks: seq<Ask>, open: seq<Ask>) {
    DistinctBy(AskIdOf, open)
    && forall j :: 0 <= j < |open| ==> open[j].askId in State(asks).vals && State(asks).vals[open[j].askId] == open[j]
  }

  /** An open ask after a poll. */
  function Polled(a: Ask, reply: Reply, now: int): Ask {
    if a.expiresAt.Some? && now > a.expiresAt.value then a.(status := Expired, answeredAt := Some(now))
    else if reply.ValidReply? then a.(status := Answered, answeredAt := Some(now), answer := Some(reply.answer))
    else a
  }

  lemma PollOneAsk(p: Progress, a: Ask, reply: Reply, now: int)
    requires a.askId in State(p.asks).vals && State(p.asks).vals[a.askId] == a
    ensures State(PollOne(p, a, reply, now).asks).vals == State(p.asks).vals[a.askId := Polled(a, reply, now)]
  {
    hide Propagated, LatestBy;
    LatestAppend(AskIdOf, p.asks, Polled(a, reply, now));
  }

  /** The first `n` open asks are as a poll leaves them, the others as they were. */
  ghost predicate PolledUpTo(before: map<nat, Ask>, after: map<nat, Ask>, open: seq<Ask>, n: nat,
                             replies: Ask -> Reply, now: int)
    requires n <= |open|
  {
    && before.Keys == after.Keys
    && (forall j :: 0 <= j < n ==> open[j].askId in after && after[open[j].askId] == Polled(open[j], replies(open[j]), now))
    && (forall id :: id in before && (forall j :: 0 <= j < n ==> open[j].askId != id) ==> after[id] == before[id])
  }

  lemma PolledOneMore(before: map<nat, Ask>, after: map<nat, Ask>, open: seq<Ask>, n: nat,
                      replies: Ask -> Reply, now: int)
    requires n < |open| && PolledUpTo(before, after, open, n, replies, now) && DistinctBy(AskIdOf, open)
    requires open[n].askId in before && before[open[n].askId] == open[n]
    ensures open[n].askId in after && after[open[n].askId] == open[n]
    ensures PolledUpTo(before, after[open[n].askId := Polled(open[n], replies(open[n]), now)], open, n + 1, replies, now)
  {
    hide Polled;
    forall j | 0 <= j < n ensures open[j].askId != open[n].askId {
      assert AskIdOf(open[j]) != AskIdOf(open[n]);
    }
  }

  lemma {:induction false} PollSoFar(p: Progress, open: seq<Ask>, n: nat, replies: Ask -> Reply, now: int)
    requires n <= |open| && Current(p.asks, open)
    ensures PolledUpTo(State(p.asks).vals, State(Poll(p, open, n, replies, now).asks).vals, open, n, replies, now)
  {
    hide PollOne, Polled, LatestBy, PolledUpTo, State;
    if n > 0 {
      PollSoFar(p, open, n - 1, replies, now);
      var q, a := Poll(p, open, n - 1, replies, now), open[n - 1];
      PolledOneMore(State(p.asks).vals, State(q.asks).vals, open, n - 1, replies, now);
      PollOneAsk(q, a, replies(a), now);
    } else {
      NonePolled(State(p.asks).vals, open, replies, now);
    }
  }

  lemma NonePolled(asks: map<nat, Ask>, open: seq<Ask>, replies: Ask -> Reply, now: int)
    ensures PolledUpTo(asks, asks, open, 0, replies, now)
  {
  }

  lemma OpenIsCurrent(asks: seq<Ask>)
    ensures Current(asks, OpenIn(asks))
    ensures forall id :: id in State(asks).vals ==>
              (State(asks).vals[id].status.Open? <==> State(asks).vals[id] in OpenIn(asks))
  {
    hide LatestBy, Filter;
    var d := State(asks);
    forall j | 0 <= j < |OpenIn(asks)|
      ensures OpenIn(asks)[j].askId in d.vals && d.vals[OpenIn(asks)[j].askId] == OpenIn(asks)[j]
    {
      assert OpenIn(asks)[j] in OpenIn(asks);
      OpenAreCurrent(asks, OpenIn(asks)[j]);
    }
    ValuesDistinct(AskIdOf, asks);
    FilterDistinct(AskIdOf, (a: Ask) => a.status.Open?, Values(d));
    forall id | id in d.vals ensures d.vals[id].status.Open? <==> d.vals[id] in OpenIn(asks) {
      assert id in d.keys;
      var i :| 0 <= i < |d.keys| && d.keys[i] == id;
      assert Values(d)[i] == d.vals[id];
    }
  }

  /** What a poll makes of an ask: one that is not open stays; an open one expires if its reply window is
      over, whatever was replied; otherwise a valid reply answers it, and nothing else changes it. */
  lemma PollOutcome(log: seq<EvalRecord>, asks: seq<Ask>, replies: Ask -> Reply, now: int, id: nat)
    requires id in State(asks).vals
    ensures var open := OpenIn(asks);
            var after := State(Poll(Progress(log, asks, Counts(0, 0, 0, 0)), open, |open|, replies, now).asks).vals;
            var a := State(asks).vals[id];
            && id in after
            && after[id] ==
                 if !a.status.Open? then a
                 else if a.expiresAt.Some? && a.expiresAt.value < now then a.(status := Expired, answeredAt := Some(now))
                 else if replies(a).ValidReply? then
                   a.(status := Answered, answeredAt := Some(now), answer := Some(replies(a).answer))
                 else a
  {
    hide LatestBy, OpenIn, Poll;
    var open, a := OpenIn(asks), State(asks).vals[id];
    OpenIsCurrent(asks);
    PollSoFar(Progress(log, asks, Counts(0, 0, 0, 0)), open, |open|, replies, now);
    assert AskIdOf(a) == id;
    if a.status.Open? {
      var j :| 0 <= j < |open| && open[j] == a;
    } else {
      forall j | 0 <= j < |open| ensures open[j].askId != id {
        assert open[j] in open;
      }
    }
  }

  /** So a posted ask that nobody answers validly is open through its reply window and expired by the first
      poll behind it. */
  lemma UnansweredExpires(log: seq<EvalRecord>, asks: seq<Ask>, replies: Ask -> Reply, now: int, id: nat,
                          recordIds: seq<string>, at: int, replyWindow: int)
    requires id in State(asks).vals && State(asks).vals[id] == NewAsk(id, recordIds, at, replyWindow)
    requires !replies(NewAsk(id, recordIds, at, replyWindow)).ValidReply?
    ensures var open := OpenIn(asks);
            var after := State(Poll(Progress(log, asks, Counts(0, 0, 0, 0)), open, |open|, replies, now).asks).vals;
            && id in after && after[id].postedAt == at && after[id].answer == None
            && after[id].status == if now <= at + replyWindow then Open else Expired
  {
    hide LatestBy, OpenIn, Poll;
    PollOutcome(log, asks, replies, now, id);
  }

  function Late(now: int): Ask -> bool { (a: Ask) => a.expiresAt.Some? && a.expiresAt.value < now }

  function RepliedInTime(now: int, replies: Ask -> Reply): Ask -> bool {
    (a: Ask) => !Late(now)(a) && replies(a).ValidReply?
  }

  function UnclearInTime(now: int, replies: Ask -> Reply): Ask -> bool {
    (a: Ask) => !Late(now)(a) && replies(a).InvalidReply?
  }

  function SilentInTime(now: int, replies: Ask -> Reply): Ask -> bool {
    (a: Ask) => !Late(now)(a) && replies(a).NoReply?
  }

  /** The report counts the open asks by what became of them; an invalid reply leaves its ask open and is
      counted twice. */
  lemma {:induction false} PollCounts(p: Progress, open: seq<Ask>, n: nat, replies: Ask -> Reply, now: int)
    requires n <= |open| && p.counts == Counts(0, 0, 0, 0)
    ensures var c := Poll(p, open, n, replies, now).counts;
            && c.expired == |Filter(Late(now), open[..n])|
            && c.answered == |Filter(RepliedInTime(now, replies), open[..n])|
            && c.clarified == |Filter(UnclearInTime(now, replies), open[..n])|
            && c.stillOpen == c.clarified + |Filter(SilentInTime(now, replies), open[..n])|
  {
    hide PollOne, Filter, Late, RepliedInTime, UnclearInTime, SilentInTime;
    if n > 0 {
      PollOneCounts(Poll(p, open, n - 1, replies, now), open[n - 1], replies, now);
      PollCounts(p, open, n - 1, replies, now);
      OneMoreKept(Late(now), open, n);
      OneMoreKept(RepliedInTime(now, replies), open, n);
      OneMoreKept(UnclearInTime(now, replies), open, n);
      OneMoreKept(SilentInTime(now, replies), open, n);
    } else {
      NothingPolled(p, open, replies, now);
    }
  }

  lemma OneMoreKept(f: Ask -> bool, open: seq<Ask>, n: nat)
    requires 0 < n <= |open|
    ensures |Filter(f, open[..n])| == |Filter(f, open[..n - 1])| + if f(open[n - 1]) then 1 else 0
  {
    assert open[..n] == open[..n - 1] + [open[n - 1]];
    FilterSnoc(f, open[..n - 1], open[n - 1]);
  }

  lemma PollOneCounts(p: Progress, a: Ask, replies: Ask -> Reply, now: int)
    ensures var c, c' := p.counts, PollOne(p, a, replies(a), now).counts;
            && c'.expired == c.expired + (if Late(now)(a) then 1 else 0)
            && c'.answered == c.answered + (if RepliedInTime(now, replies)(a) then 1 else 0)
            && c'.clarified == c.clarified + (if UnclearInTime(now, replies)(a) then 1 else 0)
            && c'.stillOpen == c.stillOpen + (if UnclearInTime(now, replies)(a) || SilentInTime(now, replies)(a) then 1 else 0)
            && !(UnclearInTime(now, replies)(a) && SilentInTime(now, replies)(a))
  {
    hide Propagated;
  }

  lemma NothingPolled(p: Progress, open: seq<Ask>, replies: Ask -> Reply, now: int)
    ensures forall f: Ask -> bool :: Filter(f, open[..0]) == []
    ensures Poll(p, open, 0, replies, now) == p
  {
  }

  // ----- the poll and the ask budget

  /** A poll changes no ask's posting time, so it moves no count of the budget. */
  lemma {:induction false} PollKeepsTimes(p: Progress, open: seq<Ask>, n: nat, replies: Ask -> Reply, now: int)
    requires n <= |open|
    requires forall a :: a in open ==> a.askId in State(p.asks).vals && State(p.asks).vals[a.askId].postedAt == a.postedAt
    ensures var before, after := State(p.asks), State(Poll(p, open, n, replies, now).asks);
            && after.keys == before.keys && after.vals.Keys == before.vals.Keys
            && forall id :: id in before.vals ==> after.vals[id].postedAt == before.vals[id].postedAt
  {
    hide Propagated, LatestBy;
    if n > 0 {
      PollKeepsTimes(p, open, n - 1, replies, now);
      var q, a := Poll(p, open, n - 1, replies, now), open[n - 1];
      assert a in open;
      var asks' := Poll(p, open, n, replies, now).asks;
      if asks' != q.asks {
        var b := asks'[|asks'| - 1];
        assert asks' == q.asks + [b] && b.askId == a.askId && b.postedAt == a.postedAt;
        LatestAppend(AskIdOf, q.asks, b);
      }
    }
  }

  /** The asks a poll walks over are the current versions of their ids. */
  lemma OpenAreCurrent(log: seq<Ask>, a: Ask)
    requires a in OpenIn(log)
    ensures a.askId in State(log).vals && State(log).vals[a.askId] == a
  {
    var d := State(log);
    var i :| 0 <= i < |d.keys| && Values(d)[i] == a;
    assert d.keys[i] in d.vals && AskIdOf(d.vals[d.keys[i]]) == d.keys[i];
  }

  /** Whatever the replies, a whole poll leaves every window count as it was. */
  lemma PollKeepsCounts(log: seq<EvalRecord>, asks: seq<Ask>, replies: Ask -> Reply, now: int, lo: int, hi: int)
    ensures var open := OpenIn(asks);
            var after := Poll(Progress(log, asks, Counts(0, 0, 0, 0)), open, |open|, replies, now);
            CountIn(Values(State(after.asks)), lo, hi) == CountIn(Values(State(asks)), lo, hi)
  {
    hide OpenIn, Poll, LatestBy, CountIn;
    var open := OpenIn(asks);
    var p := Progress(log, asks, Counts(0, 0, 0, 0));
    forall a | a in open ensures a.askId in State(asks).vals && State(asks).vals[a.askId].postedAt == a.postedAt {
      OpenAreCurrent(asks, a);
    }
    PollKeepsTimes(p, open, |open|, replies, now);
    var d, d' := State(asks), State(Poll(p, open, |open|, replies, now).asks);
    forall i | 0 <= i < |d.keys| ensures Values(d')[i].postedAt == Values(d)[i].postedAt {
      assert d.keys[i] in d.vals;
    }
    CountInSameTimes(Values(d'), Values(d), lo, hi);
  }
}
