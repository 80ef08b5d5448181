/** What the orchestrator's runs add up to over whole runs of the loop: how often an input is decided
    about, and how many asks any window of time holds. */
module AskBudget {
  import opened Options
  import opened OrderedDict
  import opened EvalRecords
  import opened Asks
  import opened Orchestrator
  import opened EvalLoop

  // ----- one decision for every time an input is recorded

  datatype Note = Note(input: string, asked: bool)

  function InputOfNote(n: Note): string { n.input }

  function NoteFor(r: EvalRecord, d: Decision): Option<Note> {
    if d.Wait? then None else Some(Note(r.inputId, d.AskNow?))
  }

  /** The inputs a step asks about or skips for low priority. */
  function Notes(cfg: Config, s: State, e: Event): seq<Note> {
    if !e.ReviewPending? then []
    else
      var ss, p := Ranked(cfg, s.log), Review(cfg, s.log, s.asks, s.nextAsk, e.at);
      Somes(seq(|ss|, i requires 0 <= i < |ss| => NoteFor(ss[i].record, p.plan[i])))
  }

  function NotesAlong(cfg: Config, s: State, es: seq<Event>): seq<Note> {
    if es == [] then []
    else NotesAlong(cfg, s, es[..|es| - 1]) + Notes(cfg, Run(cfg, s, es[..|es| - 1]), es[|es| - 1])
  }

  lemma NotesAreDistinct(cfg: Config, s: State, e: Event)
    ensures DistinctBy(InputOfNote, Notes(cfg, s, e))
  {
    if e.ReviewPending? {
      hide Review, LatestBy, Somes, Latest, SortByPriority, ScoredIn;
      var ss, p := Ranked(cfg, s.log), Review(cfg, s.log, s.asks, s.nextAsk, e.at);
      var notes := seq(|ss|, i requires 0 <= i < |ss| => NoteFor(ss[i].record, p.plan[i]));
      RankedRecords(cfg, s.log);
      var named := seq(|ss|, i requires 0 <= i < |ss| => Note(ss[i].record.inputId, p.plan[i].AskNow?));
      forall i, j | 0 <= i < j < |ss| ensures InputOfNote(named[i]) != InputOfNote(named[j]) {
        assert InputOf(Records(ss)[i]) != InputOf(Records(ss)[j]);
      }
      SomesDistinct(InputOfNote, named, notes);
    }
  }

  lemma DecidedRow(cfg: Config, s: State, e: Event, i: nat)
    requires e.ReviewPending? && i < |Ranked(cfg, s.log)|
    requires !Review(cfg, s.log, s.asks, s.nextAsk, e.at).plan[i].Wait?
    ensures var x := Ranked(cfg, s.log)[i].record.inputId;
            && x in View(s) && View(s)[x].Candidate()
            && x in View(Next(cfg, s, e)) && !View(Next(cfg, s, e))[x].Candidate()
            && (Review(cfg, s.log, s.asks, s.nextAsk, e.at).plan[i].AskNow? <==> View(Next(cfg, s, e))[x].askId.Some?)
  {
    hide Review, LatestBy, Latest, Ranked;
    var ss := Ranked(cfg, s.log);
    ReviewedView(cfg, s.log, s.asks, s.nextAsk, e.at);
    RankedRecords(cfg, s.log);
    assert Records(ss)[i] == ss[i].record;
    assert ss[i].record in Records(ss);
  }

  lemma NotesOfAStep(cfg: Config, s: State, e: Event)
    ensures DistinctBy(InputOfNote, Notes(cfg, s, e))
    ensures forall n :: n in Notes(cfg, s, e) ==>
              n.input in View(s) && View(s)[n.input].Candidate()
              && n.input in View(Next(cfg, s, e)) && !View(Next(cfg, s, e))[n.input].Candidate()
              && (n.asked <==> View(Next(cfg, s, e))[n.input].askId.Some?)
  {
    hide Review, Ranked, Somes, View, Next;
    NotesAreDistinct(cfg, s, e);
    if e.ReviewPending? {
      var ss, p := Ranked(cfg, s.log), Review(cfg, s.log, s.asks, s.nextAsk, e.at);
      var notes := seq(|ss|, i requires 0 <= i < |ss| => NoteFor(ss[i].record, p.plan[i]));
      forall n: Note | n in Somes(notes)
        ensures n.input in View(s) && View(s)[n.input].Candidate()
                && n.input in View(Next(cfg, s, e)) && !View(Next(cfg, s, e))[n.input].Candidate()
                && (n.asked <==> View(Next(cfg, s, e))[n.input].askId.Some?)
      {
        var j :| 0 <= j < |Somes(notes)| && Somes(notes)[j] == n;
        var i := SomesOrigin(notes, j);
        DecidedRow(cfg, s, e, i);
      }
    }
  }

  function About(x: string): Note -> bool { (n: Note) => n.input == x }

  /** How often a run decides about input `x`. */
  function Decisions(cfg: Config, s: State, es: seq<Event>, x: string): nat {
    |Filter(About(x), NotesAlong(cfg, s, es))|
  }

  /** 1 while input `x` still can be decided about. */
  function Open(s: State, x: string): (n: nat)
    ensures n <= 1
  {
    if x in View(s) && View(s)[x].Candidate() then 1 else 0
  }

  lemma {:induction false} AtMostOne(ns: seq<Note>, x: string)
    requires DistinctBy(InputOfNote, ns)
    ensures |Filter(About(x), ns)| <= 1
    ensures Filter(About(x), ns) != [] ==> exists n :: n in ns && n.input == x
  {
    if ns != [] {
      var k := |ns| - 1;
      AtMostOne(ns[..k], x);
      if Filter(About(x), ns[..k]) != [] {
        var n :| n in ns[..k] && n.input == x;
        var i :| 0 <= i < k && ns[..k][i] == n;
        assert InputOfNote(ns[i]) != InputOfNote(ns[k]);
      }
      assert ns[k] in ns;
    }
  }

  lemma StepDecides(cfg: Config, s: State, e: Event, x: string)
    requires Enabled(s, e)
    ensures |Filter(About(x), Notes(cfg, s, e))| + Open(Next(cfg, s, e), x) <= Open(s, x) + if Arrives(e, x) then 1 else 0
  {
    hide Notes, Next, View, Filter;
    NotesOfAStep(cfg, s, e);
    AtMostOne(Notes(cfg, s, e), x);
    NothingNoted(cfg, s, e, x);
    StepKeeps(cfg, s, e);
    if x !in View(s) && x in View(Next(cfg, s, e)) {
      NotThere(cfg, s, e, x);
    }
  }

  lemma NothingNoted(cfg: Config, s: State, e: Event, x: string)
    ensures !e.ReviewPending? ==> Filter(About(x), Notes(cfg, s, e)) == []
  {
  }

  lemma NotThere(cfg: Config, s: State, e: Event, x: string)
    requires Enabled(s, e) && x !in View(s) && x in View(Next(cfg, s, e))
    ensures Arrives(e, x)
  {
    hide Next, View, Enabled;
    StepView(cfg, s, e);
  }

  /** Every decision about an input uses up one recording of it: over any run an input is asked about
      or skipped at most as often as it was recorded, counting whether it was open at the start and
      is open at the end. */
  lemma {:induction false} DecidedOncePerRecording(cfg: Config, s: State, es: seq<Event>, x: string)
    requires Legal(cfg, s, es)
    ensures Decisions(cfg, s, es, x) + Open(Run(cfg, s, es), x) <= Open(s, x) + Arrivals(es, x)
  {
    hide Next, Enabled, Open, Notes, Filter, Arrives;
    if es == [] {
      NoNotes(x);
    } else {
      var n := |es| - 1;
      var s' := Run(cfg, s, es[..n]);
      DecidedOncePerRecording(cfg, s, es[..n], x);
      StepDecides(cfg, s', es[n], x);
      FilterConcat(About(x), NotesAlong(cfg, s, es[..n]), Notes(cfg, s', es[n]));
    }
  }

  lemma NoNotes(x: string)
    ensures Filter(About(x), []) == []
  {
  }

  /** So between two recordings an input is asked about or skipped at most once: one skipped for low
      priority is not asked later, and one that is not open is left alone. */
  lemma DecidedAtMostOnce(cfg: Config, s: State, es: seq<Event>, x: string, i: nat, j: nat)
    requires Legal(cfg, s, es) && Arrivals(es, x) == 0
    requires i < |NotesAlong(cfg, s, es)| && j < |NotesAlong(cfg, s, es)|
    requires NotesAlong(cfg, s, es)[i].input == x == NotesAlong(cfg, s, es)[j].input
    ensures i == j && Open(s, x) == 1 && Open(Run(cfg, s, es), x) == 0
  {
    hide Legal, Run, NotesAlong, Open, Filter;
    DecidedOncePerRecording(cfg, s, es, x);
    var ns := NotesAlong(cfg, s, es);
    AtLeast(ns, x, i);
    if i != j {
      var lo, hi := if i < j then i else j, if i < j then j else i;
      FilterConcat(About(x), ns[..hi], ns[hi..]);
      assert ns == ns[..hi] + ns[hi..];
      AtLeast(ns[..hi], x, lo);
      AtLeast(ns[hi..], x, 0);
    }
  }

  lemma AtLeast(ns: seq<Note>, x: string, i: nat)
    requires i < |ns| && ns[i].input == x
    ensures |Filter(About(x), ns)| >= 1
  {
    assert ns[i] in Filter(About(x), ns);
  }

  /** From the empty loop, an input is decided about at most as often as it was recorded. */
  lemma DecidedAtMostAsRecorded(cfg: Config, es: seq<Event>, x: string)
    requires Legal(cfg, Start, es)
    ensures Decisions(cfg, Start, es, x) <= Arrivals(es, x)
  {
    hide Legal, Run, Decisions, Arrivals;
    DecidedOncePerRecording(cfg, Start, es, x);
  }

  // ----- the ask budget

  /** How many of these asks the orchestrator posted within `lo..hi`, both ends included. */
  function OwnIn(asks: seq<Ask>, own: set<nat>, lo: int, hi: int): nat {
    if asks == [] then 0
    else
      var a := asks[|asks| - 1];
      OwnIn(asks[..|asks| - 1], own, lo, hi) + if a.askId in own && lo <= a.postedAt <= hi then 1 else 0
  }

  /** The orchestrator's asks posted in the window of the budget's length that starts at `t`. */
  function InWindow(cfg: Config, s: State, t: int): nat {
    OwnIn(Values(Asks.State(s.asks)), s.own, t, t + cfg.budgetWindow)
  }

  /** No window of the budget's length holds more of the orchestrator's asks than the budget. */
  ghost predicate WithinBudget(cfg: Config, s: State) {
    forall t :: InWindow(cfg, s, t) <= MaxInt(0, cfg.dailyBudget)
  }

  lemma {:induction false} OwnInConcat(a: seq<Ask>, b: seq<Ask>, own: set<nat>, lo: int, hi: int)
    ensures OwnIn(a + b, own, lo, hi) == OwnIn(a, own, lo, hi) + OwnIn(b, own, lo, hi)
    ensures OwnIn(b, own, lo, hi) <= |b|
  {
    if b == [] {
      assert a + b == a;
    } else {
      var n := |b| - 1;
      OwnInConcat(a, b[..n], own, lo, hi);
      assert (a + b)[..|a + b| - 1] == a + b[..n];
    }
  }

  lemma {:induction false} OwnInWithinSince(asks: seq<Ask>, own: set<nat>, lo: int, hi: int, start: int)
    requires start <= lo
    ensures OwnIn(asks, own, lo, hi) <= CountSince(asks, start)
  {
    if asks != [] {
      OwnInWithinSince(asks[..|asks| - 1], own, lo, hi, start);
    }
  }

  /** Counts depend on ids and posting times alone. */
  lemma {:induction false} OwnInSame(a: seq<Ask>, b: seq<Ask>, own: set<nat>, own': set<nat>, lo: int, hi: int)
    requires |a| == |b|
    requires forall i :: 0 <= i < |a| ==> a[i].postedAt == b[i].postedAt && (a[i].askId in own <==> b[i].askId in own')
    ensures OwnIn(a, own, lo, hi) == OwnIn(b, own', lo, hi)
  {
    if a != [] {
      OwnInSame(a[..|a| - 1], b[..|b| - 1], own, own', lo, hi);
    }
  }

  /** A counted ask exists, and an ask that exists is counted. */
  lemma {:induction false} OwnInWitness(asks: seq<Ask>, own: set<nat>, lo: int, hi: int)
    ensures OwnIn(asks, own, lo, hi) > 0
            <==> exists i :: 0 <= i < |asks| && asks[i].askId in own && lo <= asks[i].postedAt <= hi
  {
    if asks != [] {
      var n := |asks| - 1;
      OwnInWitness(asks[..n], own, lo, hi);
      assert forall i :: 0 <= i < n ==> asks[..n][i] == asks[i];
      if OwnIn(asks[..n], own, lo, hi) > 0 {
        var i :| 0 <= i < n && asks[..n][i].askId in own && lo <= asks[..n][i].postedAt <= hi;
        assert asks[i] == asks[..n][i];
      }
    }
  }

  /** The asks of a run come behind the others in the fold. */
  lemma PostsAreNew(cfg: Config, s: State, n: nat, postTimes: nat -> int)
    requires Tidy(s)
    ensures var posts := Posts(cfg, s.nextAsk, n, postTimes);
            Values(Asks.State(s.asks + posts)) == Values(Asks.State(s.asks)) + posts
  {
    hide LatestBy, Values;
    var posts := Posts(cfg, s.nextAsk, n, postTimes);
    forall i | 0 <= i < |posts|
      ensures AskIdOf(posts[i]) == s.nextAsk + i && AskIdOf(posts[i]) !in LatestBy(AskIdOf, s.asks).vals
    {
      assert posts[i].askId == s.nextAsk + i;
      assert s.nextAsk + i !in Asks.State(s.asks).vals;
    }
    LatestAppendFresh(AskIdOf, s.asks, posts);
  }

  lemma FoldedId(asks: seq<Ask>, i: nat)
    requires i < |Values(Asks.State(asks))|
    ensures Values(Asks.State(asks))[i].askId == Asks.State(asks).keys[i]
    ensures Values(Asks.State(asks))[i].askId in Asks.State(asks).vals
  {
    hide LatestBy;
    var d := Asks.State(asks);
    assert d.keys[i] in d.vals && AskIdOf(d.vals[d.keys[i]]) == d.keys[i];
  }

  /** The counting argument: if a window holds a new post, every older ask of that window was
      counted when the budget was computed, whoever posted it. */
  lemma WindowAfterPosts(cfg: Config, asks: seq<Ask>, posts: seq<Ask>, own: set<nat>, now: int, t: int)
    requires forall i :: 0 <= i < |posts| ==> posts[i].postedAt >= now
    requires |posts| <= MaxInt(0, cfg.dailyBudget - CountSince(asks, now - cfg.budgetWindow))
    requires OwnIn(asks, own, t, t + cfg.budgetWindow) <= MaxInt(0, cfg.dailyBudget)
    ensures OwnIn(asks + posts, own, t, t + cfg.budgetWindow) <= MaxInt(0, cfg.dailyBudget)
  {
    OwnInConcat(asks, posts, own, t, t + cfg.budgetWindow);
    OwnInWitness(posts, own, t, t + cfg.budgetWindow);
    if OwnIn(posts, own, t, t + cfg.budgetWindow) > 0 {
      OwnInWithinSince(asks, own, t, t + cfg.budgetWindow, now - cfg.budgetWindow);
    }
  }

  lemma ReviewKeepsBudget(cfg: Config, s: State, now: int, postTimes: nat -> int)
    requires Tidy(s) && WithinBudget(cfg, s)
    requires forall i :: 0 <= i < Review(cfg, s.log, s.asks, s.nextAsk, now).counts.asked ==> postTimes(i) >= now
    ensures WithinBudget(cfg, Next(cfg, s, ReviewPending(now, postTimes)))
  {
    hide LatestBy, OwnIn, CountSince, Ranked, Walk, Values, RecordsOfOneInput, IdsFrom;
    var p := Review(cfg, s.log, s.asks, s.nextAsk, now);
    var posts := Posts(cfg, s.nextAsk, p.counts.asked, postTimes);
    var s' := Next(cfg, s, ReviewPending(now, postTimes));
    ReviewIsTopK(cfg, s.log, s.asks, s.nextAsk, now);
    PostsAreNew(cfg, s, p.counts.asked, postTimes);
    var before := Values(Asks.State(s.asks));
    forall t ensures InWindow(cfg, s', t) <= MaxInt(0, cfg.dailyBudget) {
      assert InWindow(cfg, s, t) <= MaxInt(0, cfg.dailyBudget);
      OldAsksStay(s, p.counts.asked, t, t + cfg.budgetWindow);
      WindowAfterPosts(cfg, before, posts, s'.own, now, t);
    }
  }

  lemma OldAsksStay(s: State, n: nat, lo: int, hi: int)
    requires Tidy(s)
    ensures OwnIn(Values(Asks.State(s.asks)), s.own + IdsFrom(s.nextAsk, n), lo, hi)
         == OwnIn(Values(Asks.State(s.asks)), s.own, lo, hi)
  {
    hide LatestBy, OwnIn, IdsFrom;
    var before := Values(Asks.State(s.asks));
    forall i | 0 <= i < |before| ensures before[i].askId in s.own + IdsFrom(s.nextAsk, n) <==> before[i].askId in s.own {
      FoldedId(s.asks, i);
    }
    OwnInSame(before, before, s.own + IdsFrom(s.nextAsk, n), s.own, lo, hi);
  }

  lemma MoveKeepsCounts(s: State, a: Ask, lo: int, hi: int)
    requires Known(s, a)
    ensures OwnIn(Values(Asks.State(s.asks + [a])), s.own, lo, hi) == OwnIn(Values(Asks.State(s.asks)), s.own, lo, hi)
    ensures CountIn(Values(Asks.State(s.asks + [a])), lo, hi) == CountIn(Values(Asks.State(s.asks)), lo, hi)
  {
    hide LatestBy, CountIn, CountSince, OwnIn;
    LifecycleKeepsTimes(s.asks, a);
    var before, after := Values(Asks.State(s.asks)), Values(Asks.State(s.asks + [a]));
    forall i | 0 <= i < |before| ensures after[i].askId == before[i].askId {
      FoldedId(s.asks, i);
      FoldedId(s.asks + [a], i);
    }
    OwnInSame(after, before, s.own, s.own, lo, hi);
    CountInSameTimes(after, before, lo, hi);
  }

  lemma EscalationCounts(cfg: Config, s: State, r: EvalRecord, at: int, lo: int, hi: int)
    requires Tidy(s)
    ensures var s' := Next(cfg, s, Escalated(r, at));
            && OwnIn(Values(Asks.State(s'.asks)), s'.own, lo, hi) == OwnIn(Values(Asks.State(s.asks)), s.own, lo, hi)
            && CountIn(Values(Asks.State(s'.asks)), lo, hi)
               == CountIn(Values(Asks.State(s.asks)), lo, hi) + if lo <= at <= hi then 1 else 0
  {
    hide LatestBy, Values;
    var a := NewAsk(s.nextAsk, [], at, cfg.replyWindow);
    assert AskIdOf(a) !in Asks.State(s.asks).vals && a.askId !in s.own;
    AppendFreshOne(AskIdOf, s.asks, a);
    var before := Values(Asks.State(s.asks));
    OwnInConcat(before, [a], s.own, lo, hi);
    CountInConcat(before, [a], lo, hi);
    assert [a][..0] == [];
  }

  lemma StepKeepsBudget(cfg: Config, s: State, e: Event)
    requires Enabled(s, e) && Tidy(s) && WithinBudget(cfg, s)
    ensures WithinBudget(cfg, Next(cfg, s, e))
  {
    hide LatestBy, OwnIn, CountSince, Review, Values, Tidy, NewRecord, Known;
    var s' := Next(cfg, s, e);
    if e.ReviewPending? {
      ReviewKeepsBudget(cfg, s, e.at, e.postTimes);
    } else {
      forall t ensures InWindow(cfg, s', t) == InWindow(cfg, s, t) {
        match e
        case Arrive(_) =>
        case Reconcile(_, _) =>
        case Escalated(r, at) => EscalationCounts(cfg, s, r, at, t, t + cfg.budgetWindow);
        case AskMoves(a) => MoveKeepsCounts(s, a, t, t + cfg.budgetWindow);
        case Answered(a, _) => MoveKeepsCounts(s, a, t, t + cfg.budgetWindow);
      }
    }
  }

  /** The orchestrator's asks stay within the budget in every window of its length, whatever runs
      happen in whatever order and whatever the human tier posts. */
  lemma {:induction false} BudgetHolds(cfg: Config, s: State, es: seq<Event>)
    requires Tidy(s) && WithinBudget(cfg, s) && Legal(cfg, s, es)
    ensures WithinBudget(cfg, Run(cfg, s, es))
  {
    hide Next, Enabled, Tidy, WithinBudget;
    if es != [] {
      BudgetHolds(cfg, s, es[..|es| - 1]);
      RunKeepsTidy(cfg, s, es[..|es| - 1]);
      StepKeepsBudget(cfg, Run(cfg, s, es[..|es| - 1]), es[|es| - 1]);
    }
  }

  /** The escalations stamped within `lo..hi`. */
  function EscalatedIn(es: seq<Event>, lo: int, hi: int): nat {
    if es == [] then 0
    else
      var e := es[|es| - 1];
      EscalatedIn(es[..|es| - 1], lo, hi) + if e.Escalated? && lo <= e.postedAt <= hi then 1 else 0
  }

  /** Every ask is the orchestrator's or an escalation's. */
  lemma {:induction false} AsksAddUp(cfg: Config, s: State, es: seq<Event>, lo: int, hi: int)
    requires Tidy(s) && Legal(cfg, s, es)
    ensures var before, after := Values(Asks.State(s.asks)), Values(Asks.State(Run(cfg, s, es).asks));
            CountIn(after, lo, hi) + OwnIn(before, s.own, lo, hi)
            == CountIn(before, lo, hi) + OwnIn(after, Run(cfg, s, es).own, lo, hi) + EscalatedIn(es, lo, hi)
  {
    hide Next, Enabled, Tidy, CountIn, OwnIn, Values;
    if es != [] {
      var n := |es| - 1;
      AsksAddUp(cfg, s, es[..n], lo, hi);
      RunKeepsTidy(cfg, s, es[..n]);
      StepAddsUp(cfg, Run(cfg, s, es[..n]), es[n], lo, hi);
    }
  }

  lemma StepAddsUp(cfg: Config, s: State, e: Event, lo: int, hi: int)
    requires Enabled(s, e) && Tidy(s)
    ensures var s' := Next(cfg, s, e);
            CountIn(Values(Asks.State(s'.asks)), lo, hi) + OwnIn(Values(Asks.State(s.asks)), s.own, lo, hi)
            == CountIn(Values(Asks.State(s.asks)), lo, hi) + OwnIn(Values(Asks.State(s'.asks)), s'.own, lo, hi)
               + if e.Escalated? && lo <= e.postedAt <= hi then 1 else 0
  {
    hide LatestBy, OwnIn, CountIn, Review, Values, Tidy, NewRecord, Known, IdsFrom;
    match e
    case Arrive(_) =>
    case Reconcile(_, _) =>
    case Escalated(r, at) => EscalationCounts(cfg, s, r, at, lo, hi);
    case AskMoves(a) => MoveKeepsCounts(s, a, lo, hi);
    case Answered(a, _) => MoveKeepsCounts(s, a, lo, hi);
    case ReviewPending(now, postTimes) =>
      var n := Review(cfg, s.log, s.asks, s.nextAsk, now).counts.asked;
      var posts := Posts(cfg, s.nextAsk, n, postTimes);
      var before, own' := Values(Asks.State(s.asks)), s.own + IdsFrom(s.nextAsk, n);
      PostsAreNew(cfg, s, n, postTimes);
      OldAsksStay(s, n, lo, hi);
      OwnInConcat(before, posts, own', lo, hi);
      CountInConcat(before, posts, lo, hi);
      AllOwn(posts, own', lo, hi);
  }

  lemma {:induction false} AllOwn(asks: seq<Ask>, own: set<nat>, lo: int, hi: int)
    requires forall i :: 0 <= i < |asks| ==> asks[i].askId in own
    ensures OwnIn(asks, own, lo, hi) == CountIn(asks, lo, hi)
    ensures (forall i :: 0 <= i < |asks| ==> lo <= asks[i].postedAt <= hi) ==> OwnIn(asks, own, lo, hi) == |asks|
  {
    if asks != [] {
      AllOwn(asks[..|asks| - 1], own, lo, hi);
    }
  }

  /** From the empty loop: any window of the budget's length holds at most the budget and the
      escalations stamped in it. */
  lemma AllAsksInWindow(cfg: Config, es: seq<Event>, t: int)
    requires Legal(cfg, Start, es)
    ensures var s := Run(cfg, Start, es);
            CountIn(Values(Asks.State(s.asks)), t, t + cfg.budgetWindow)
            <= MaxInt(0, cfg.dailyBudget) + EscalatedIn(es, t, t + cfg.budgetWindow)
  {
    hide Legal, Run, Tidy, EscalatedIn;
    StartIsTidy();
    assert WithinBudget(cfg, Start);
    BudgetHolds(cfg, Start, es);
    AsksAddUp(cfg, Start, es, t, t + cfg.budgetWindow);
    assert InWindow(cfg, Run(cfg, Start, es), t) <= MaxInt(0, cfg.dailyBudget);
  }

  /** When no post lies in the future, what a run counts as used is what its last window holds. */
  lemma UsedIsTheLastWindow(cfg: Config, asks: seq<Ask>, now: int)
    requires forall id: nat :: id in Asks.State(asks).vals ==> Asks.State(asks).vals[id].postedAt <= now
    ensures Used(cfg, asks, now) == CountIn(Values(Asks.State(asks)), now - cfg.budgetWindow, now)
  {
    var d := Asks.State(asks);
    forall i | 0 <= i < |d.keys| ensures Values(d)[i].postedAt <= now {
      assert d.keys[i] in d.vals;
    }
    SinceIsIn(Values(d), now - cfg.budgetWindow, now);
  }

  lemma {:induction false} SinceIsIn(asks: seq<Ask>, lo: int, hi: int)
    requires forall i :: 0 <= i < |asks| ==> asks[i].postedAt <= hi
    ensures CountSince(asks, lo) == CountIn(asks, lo, hi)
  {
    if asks != [] {
      SinceIsIn(asks[..|asks| - 1], lo, hi);
    }
  }

  // ----- what the stamps must promise

  /** How many asks a run can post at most: as many as are worth asking, up to the budget. */
  function MostAsked(cfg: Config, log: seq<EvalRecord>): nat {
    MinNat(Above(Ranked(cfg, log), |Ranked(cfg, log)|, cfg.minPriority), cfg.dailyBudget)
  }

  /** A run keeps the budget in every tidy state with this record log exactly when none of the stamps
      it can use lies before its own clock reading. */
  lemma StampsMustNotPrecedeClock(cfg: Config, log: seq<EvalRecord>, now: int, postTimes: nat -> int)
    requires cfg.budgetWindow >= 0 && RecordsOfOneInput(log)
    ensures (forall s: State :: s.log == log && Tidy(s) && WithinBudget(cfg, s) ==>
               WithinBudget(cfg, Next(cfg, s, ReviewPending(now, postTimes))))
            <==> forall i :: 0 <= i < MostAsked(cfg, log) ==> postTimes(i) >= now
  {
    hide Tidy, WithinBudget, Next, RecordsOfOneInput, MostAsked;
    if forall i :: 0 <= i < MostAsked(cfg, log) ==> postTimes(i) >= now {
      forall s: State | s.log == log && Tidy(s) && WithinBudget(cfg, s)
        ensures WithinBudget(cfg, Next(cfg, s, ReviewPending(now, postTimes)))
      {
        AskedAtMost(cfg, s, now);
        ReviewKeepsBudget(cfg, s, now, postTimes);
      }
    } else {
      var i: nat :| 0 <= i < MostAsked(cfg, log) && postTimes(i) < now;
      var s := BudgetBreaker(cfg, log, now, postTimes, i);
    }
  }

  lemma AskedAtMost(cfg: Config, s: State, now: int)
    ensures Review(cfg, s.log, s.asks, s.nextAsk, now).counts.asked <= MostAsked(cfg, s.log)
  {
    hide Walk, Ranked, Used, Above;
    ReviewIsTopK(cfg, s.log, s.asks, s.nextAsk, now);
  }

  /** Every post is stamped `t`. */
  function Always(t: int): nat -> int { _ => t }

  /** A full budget's worth of the orchestrator's asks, all stamped `t`. */
  function FullBudget(cfg: Config, log: seq<EvalRecord>, t: int): State
    requires cfg.dailyBudget >= 0
  {
    State(log, Posts(cfg, 0, cfg.dailyBudget, Always(t)), cfg.dailyBudget + LinkBound(log), IdsFrom(0, cfg.dailyBudget))
  }

  lemma FullBudgetIsWithin(cfg: Config, log: seq<EvalRecord>, t: int)
    requires cfg.dailyBudget >= 0 && RecordsOfOneInput(log)
    ensures Tidy(FullBudget(cfg, log, t)) && WithinBudget(cfg, FullBudget(cfg, log, t))
  {
    hide LatestBy, Values, OwnIn, RecordsOfOneInput, IdsFrom;
    var s := FullBudget(cfg, log, t);
    FoldedPosts(cfg, cfg.dailyBudget, t);
    LinksBelow(log);
    forall id: nat | id in Asks.State(s.asks).vals ensures id < cfg.dailyBudget {
      PostedId(cfg, cfg.dailyBudget, t, id);
    }
    forall u ensures InWindow(cfg, s, u) <= MaxInt(0, cfg.dailyBudget) {
      OwnInConcat([], s.asks, s.own, u, u + cfg.budgetWindow);
    }
  }

  /** Asks one window before the early stamp are too old for the run to count, but within one window
      of the post. */
  lemma BudgetBreaker(cfg: Config, log: seq<EvalRecord>, now: int, postTimes: nat -> int, i: nat) returns (s: State)
    requires cfg.budgetWindow >= 0 && RecordsOfOneInput(log)
    requires i < MostAsked(cfg, log) && postTimes(i) < now
    ensures s.log == log && Tidy(s) && WithinBudget(cfg, s)
    ensures !WithinBudget(cfg, Next(cfg, s, ReviewPending(now, postTimes)))
  {
    hide LatestBy, Values, Ranked, Review, CountSince, OwnIn, IdsFrom, Above, Tidy, RecordsOfOneInput;
    assert cfg.dailyBudget > 0;
    hide MostAsked, FullBudget, Next, WithinBudget;
    var t := postTimes(i) - cfg.budgetWindow;
    s := FullBudget(cfg, log, t);
    FullBudgetIsWithin(cfg, log, t);
    FullBudgetAsksMost(cfg, log, now, t);
    var n := MostAsked(cfg, log);
    PostsAreNew(cfg, s, n, postTimes);
    ReviewPosts(cfg, s, now, postTimes);
    Overfull(cfg, s.asks, Posts(cfg, s.nextAsk, n, postTimes), s.own + IdsFrom(s.nextAsk, n), t, i);
    Exceeded(cfg, Next(cfg, s, ReviewPending(now, postTimes)), t);
  }

  lemma ReviewPosts(cfg: Config, s: State, now: int, postTimes: nat -> int)
    ensures var s', n := Next(cfg, s, ReviewPending(now, postTimes)), Review(cfg, s.log, s.asks, s.nextAsk, now).counts.asked;
            && s'.asks == s.asks + Posts(cfg, s.nextAsk, n, postTimes)
            && s'.nextAsk == s.nextAsk + n && s'.own == s.own + IdsFrom(s.nextAsk, n)
  {
    hide Review, IdsFrom, Posts;
  }

  lemma Exceeded(cfg: Config, s: State, t: int)
    requires OwnIn(Values(Asks.State(s.asks)), s.own, t, t + cfg.budgetWindow) > MaxInt(0, cfg.dailyBudget)
    ensures !WithinBudget(cfg, s)
  {
    assert InWindow(cfg, s, t) > MaxInt(0, cfg.dailyBudget);
  }

  lemma FullBudgetAsksMost(cfg: Config, log: seq<EvalRecord>, now: int, t: int)
    requires cfg.dailyBudget >= 0 && t < now - cfg.budgetWindow
    ensures var s := FullBudget(cfg, log, t);
            && s.log == log && |s.asks| == cfg.dailyBudget && Values(Asks.State(s.asks)) == s.asks
            && (forall j :: 0 <= j < |s.asks| ==> s.asks[j].askId in s.own && s.asks[j].postedAt == t)
            && Review(cfg, log, s.asks, s.nextAsk, now).counts.asked == MostAsked(cfg, log)
  {
    hide LatestBy, Values, Ranked, Review, CountSince, IdsFrom, Above;
    var s := FullBudget(cfg, log, t);
    FoldedPosts(cfg, cfg.dailyBudget, t);
    NoneSince(s.asks, now - cfg.budgetWindow);
    ReviewIsTopK(cfg, log, s.asks, s.nextAsk, now);
  }

  lemma Overfull(cfg: Config, asks: seq<Ask>, posts: seq<Ask>, own: set<nat>, t: int, i: nat)
    requires cfg.budgetWindow >= 0 && |asks| == cfg.dailyBudget && i < |posts|
    requires forall j :: 0 <= j < |asks| ==> asks[j].askId in own && asks[j].postedAt == t
    requires posts[i].askId in own && t <= posts[i].postedAt <= t + cfg.budgetWindow
    ensures OwnIn(asks + posts, own, t, t + cfg.budgetWindow) > MaxInt(0, cfg.dailyBudget)
  {
    OwnInConcat(asks, posts, own, t, t + cfg.budgetWindow);
    AllOwn(asks, own, t, t + cfg.budgetWindow);
    OwnInWitness(posts, own, t, t + cfg.budgetWindow);
  }

  /** More than every ask id a log links to. */
  function LinkBound(log: seq<EvalRecord>): nat {
    if log == [] then 0
    else
      var n, link := LinkBound(log[..|log| - 1]), log[|log| - 1].askId;
      if link.Some? && link.value >= n then link.value + 1 else n
  }

  lemma {:induction false} LinksBelow(log: seq<EvalRecord>)
    ensures forall r :: r in log && r.askId.Some? ==> r.askId.value < LinkBound(log)
  {
    if log != [] {
      LinksBelow(log[..|log| - 1]);
      assert log == log[..|log| - 1] + [log[|log| - 1]];
    }
  }

  lemma FoldedPosts(cfg: Config, n: nat, t: int)
    ensures Values(Asks.State(Posts(cfg, 0, n, Always(t)))) == Posts(cfg, 0, n, Always(t))
  {
    var posts := Posts(cfg, 0, n, Always(t));
    forall i | 0 <= i < |posts| ensures AskIdOf(posts[i]) == i && AskIdOf(posts[i]) !in LatestBy(AskIdOf, []).vals {
      assert posts[i].askId == i;
    }
    LatestAppendFresh(AskIdOf, [], posts);
    assert [] + posts == posts;
  }

  lemma PostedId(cfg: Config, n: nat, t: int, id: nat)
    requires id in Asks.State(Posts(cfg, 0, n, Always(t))).vals
    ensures id < n
  {
    hide LatestBy;
    var posts := Posts(cfg, 0, n, Always(t));
    LatestDomain(AskIdOf, posts, id);
    var i :| 0 <= i < |posts| && AskIdOf(posts[i]) == id;
    assert posts[i].askId == i;
  }

  lemma {:induction false} NoneSince(asks: seq<Ask>, start: int)
    requires forall i :: 0 <= i < |asks| ==> asks[i].postedAt < start
    ensures CountSince(asks, start) == 0
  {
    if asks != [] {
      NoneSince(asks[..|asks| - 1], start);
    }
  }
}
