/** Monthly rotation of the audit log: lines of other months move to per-month archives, lines of
    the current month go back behind whatever was written meanwhile, and old archives are pruned. */
module AuditRotation {
  import opened Options
  import opened OrderedDict
  import opened Text

  datatype Month = Month(year: nat, month: nat)

  /** A log line and the month its timestamp gives, if it has one. */
  datatype Line = Line(month: Option<Month>, text: string)

  datatype State = State(live: Option<seq<Line>>, archives: map<Month, seq<Line>>)

  datatype Report = NoFile | Empty | AllCurrent | WouldRotate(unparseable: nat) | Rotated(current: nat, unparseable: nat)

  function OfMonth(m: Month): Line -> bool { (l: Line) => l.month == Some(m) }

  function NoMonth(l: Line): bool { l.month.None? }

  function Archive(archives: map<Month, seq<Line>>, m: Month): seq<Line> {
    if m in archives then archives[m] else []
  }

  predicate HasOtherMonth(lines: seq<Line>, now: Month) {
    exists l :: l in lines && l.month.Some? && l.month.value != now
  }

  // ----- rotation

  /** The live file after a rotation: a file exists only if something was written to it. */
  function BackInLive(meanwhile: seq<Line>, current: seq<Line>): Option<seq<Line>> {
    if meanwhile == [] && current == [] then None else Some(meanwhile + current)
  }

  /** `b` is `a` after the rotation of `lines` at month `now`. */
  ghost predicate Split(a: map<Month, seq<Line>>, b: map<Month, seq<Line>>, lines: seq<Line>, now: Month) {
    forall m :: Archive(b, m) == if m == now then Archive(a, m) else Archive(a, m) + Filter(OfMonth(m), lines)
  }

  class AuditLog {
    var live: Option<seq<Line>>
    var archives: map<Month, seq<Line>>
    /** Older archives of several months, by first and last month; a rotation makes no new ones. */
    var spans: map<(Month, Month), seq<Line>>

    constructor (spans: map<(Month, Month), seq<Line>>)
      ensures live == None && archives == map[] && this.spans == spans
    {
      live, archives, this.spans := None, map[], spans;
    }

    /** The logger opens the file afresh for each line. */
    method Write(l: Line)
      modifies this`live
      ensures live == Some((if old(live).Some? then old(live).value else []) + [l])
    {
      live := Some((if live.Some? then live.value else []) + [l]);
    }

    /** `meanwhile` is what the logger writes between the renaming and the end. */
    method Rotate(dryRun: bool, now: Month, meanwhile: seq<Line>) returns (report: Report)
      modifies this
      ensures var lines := if old(live).Some? then old(live).value else [];
              var bad := |Filter(NoMonth, lines)|;
              && report == (if old(live).None? then NoFile
                            else if lines == [] then Empty
                            else if !HasOtherMonth(lines, now) then AllCurrent
                            else if dryRun then WouldRotate(bad)
                            else Rotated(|Filter(OfMonth(now), lines)|, bad))
              && (if report.Rotated?
                  then live == BackInLive(meanwhile, Filter(OfMonth(now), lines))
                       && Split(old(archives), archives, lines, now)
                  else live == old(live) && archives == old(archives))
      ensures spans == old(spans)
    {
      hide Filter;
      if live.None? {
        return NoFile;
      }
      var lines := live.value;
      if lines == [] {
        return Empty;
      }
      if !HasOtherMonth(lines, now) {
        return AllCurrent;
      }
      if dryRun {
        return WouldRotate(|Filter(NoMonth, lines)|);
      }
      live := if meanwhile == [] then None else Some(meanwhile);
      var current, unparseable := SplitLines(lines, now);
      if current != [] {
        live := Some((if live.Some? then live.value else []) + current);
      }
      assert meanwhile + [] == meanwhile && [] + current == current;
      return Rotated(|current|, |unparseable|);
    }

    method SplitLines(lines: seq<Line>, now: Month) returns (current: seq<Line>, unparseable: seq<Line>)
      modifies this`archives
      ensures current == Filter(OfMonth(now), lines) && unparseable == Filter(NoMonth, lines)
      ensures Split(old(archives), archives, lines, now)
    {
      hide Filter;
      current, unparseable := [], [];
      EmptyFilters();
      assert lines[..0] == [];
      for i := 0 to |lines|
        invariant current == Filter(OfMonth(now), lines[..i]) && unparseable == Filter(NoMonth, lines[..i])
        invariant Split(old(archives), archives, lines[..i], now)
      {
        var l := lines[i];
        assert lines[..i + 1] == lines[..i] + [l];
        FilterSnoc(NoMonth, lines[..i], l);
        FilterSnoc(OfMonth(now), lines[..i], l);
        SplitOne(old(archives), archives, lines[..i], now, l);
        if l.month.None? {
          unparseable := unparseable + [l];
        } else if l.month.value == now {
          current := current + [l];
        } else {
          archives := archives[l.month.value := Archive(archives, l.month.value) + [l]];
        }
      }
      assert lines[..|lines|] == lines;
    }

    /** Returns the archives that are too old, one of several months by its last; they stay if this is a
        dry run. */
    method Prune(retentionMonths: int, dryRun: bool, now: Month)
        returns (deleted: set<Month>, deletedSpans: set<(Month, Month)>)
      requires Ordinary(now) && (forall m :: m in archives ==> Ordinary(m)) && forall p :: p in spans ==> Ordinary(p.1)
      requires IndexOf(now) - retentionMonths >= 12000 && now.month - retentionMonths <= 12
      modifies this`archives, this`spans
      ensures deleted == set m | m in old(archives) && TooOld(m, now, retentionMonths)
      ensures deletedSpans == set p | p in old(spans) && TooOld(p.1, now, retentionMonths)
      ensures archives == if dryRun then old(archives) else old(archives) - deleted
      ensures spans == if dryRun then old(spans) else old(spans) - deletedSpans
    {
      var cutoff := SubtractMonths(now, retentionMonths);
      forall m | Ordinary(m)
        ensures Less(MonthText(m), MonthText(cutoff.value)) <==> TooOld(m, now, retentionMonths)
      {
        MonthTextOrder(m, cutoff.value);
      }
      deleted := set m | m in archives && Less(MonthText(m), MonthText(cutoff.value));
      deletedSpans := set p | p in spans && Less(MonthText(p.1), MonthText(cutoff.value));
      if !dryRun {
        archives, spans := archives - deleted, spans - deletedSpans;
      }
    }
  }

  lemma EmptyFilters()
    ensures Filter(NoMonth, []) == []
    ensures forall m :: Filter(OfMonth(m), []) == []
  {
  }

  lemma SplitOneMonth(a: map<Month, seq<Line>>, b: map<Month, seq<Line>>, lines: seq<Line>, now: Month, l: Line, m: Month)
    requires Archive(b, m) == if m == now then Archive(a, m) else Archive(a, m) + Filter(OfMonth(m), lines)
    ensures var b' := if l.month.Some? && l.month.value != now
                      then b[l.month.value := Archive(b, l.month.value) + [l]] else b;
            Archive(b', m) == if m == now then Archive(a, m) else Archive(a, m) + Filter(OfMonth(m), lines + [l])
  {
    hide Filter;
    FilterSnoc(OfMonth(m), lines, l);
  }

  lemma SplitOne(a: map<Month, seq<Line>>, b: map<Month, seq<Line>>, lines: seq<Line>, now: Month, l: Line)
    requires Split(a, b, lines, now)
    ensures l.month.None? || l.month.value == now ==> Split(a, b, lines + [l], now)
    ensures l.month.Some? && l.month.value != now ==>
              Split(a, b[l.month.value := Archive(b, l.month.value) + [l]], lines + [l], now)
  {
    hide Filter, OfMonth, Archive;
    var b' := if l.month.Some? && l.month.value != now then b[l.month.value := Archive(b, l.month.value) + [l]] else b;
    forall m
      ensures Archive(b', m) == if m == now then Archive(a, m) else Archive(a, m) + Filter(OfMonth(m), lines + [l])
    {
      SplitOneMonth(a, b, lines, now, l, m);
    }
  }

  // ----- month arithmetic

  /** Months counted from year zero. */
  function IndexOf(m: Month): int { 12 * m.year + m.month - 1 }

  /** A month of a year with four digits. */
  predicate Ordinary(m: Month) { 1000 <= m.year <= 9999 && 1 <= m.month <= 12 }

  predicate TooOld(m: Month, now: Month, retentionMonths: int) { IndexOf(m) < IndexOf(now) - retentionMonths }

  /** Moves back by whole months; nothing if the calendar has no such month. */
  method SubtractMonths(from: Month, months: int) returns (r: Option<Month>)
    requires 1 <= from.month <= 12
    ensures r.Some? <==> from.month - months <= 12 && IndexOf(from) - months >= 12
    ensures r.Some? ==> IndexOf(r.value) == IndexOf(from) - months && 1 <= r.value.month <= 12
  {
    var year, month := from.year as int, from.month as int - months;
    while month <= 0
      invariant 12 * year + month - 1 == IndexOf(from) - months
      invariant month <= 12 || month == from.month - months
      invariant from.month - months <= 12 ==> month <= 12
      decreases -month
    {
      month := month + 12;
      year := year - 1;
    }
    if year < 1 || month > 12 {
      return None;
    }
    return Some(Month(year, month));
  }

  lemma Powers()
    ensures Pow10(2) == 100 && Pow10(4) == 10000
  {
    assert Pow10(1) == 10 && Pow10(3) == 10 * Pow10(2);
  }

  /** `YYYY-MM` */
  function MonthText(m: Month): string
    requires Ordinary(m)
  {
    Powers();
    Pad(m.year, 4) + ['-'] + Pad(m.month, 2)
  }

  /** The names of two archives compare as their months do. */
  lemma MonthTextOrder(a: Month, b: Month)
    requires Ordinary(a) && Ordinary(b)
    ensures Less(MonthText(a), MonthText(b)) <==> IndexOf(a) < IndexOf(b)
  {
    Powers();
    PairOrder(a.year, b.year, 4, '-', a.month, b.month, 2);
  }

  // ----- nothing readable is lost over any history

  datatype Event =
    | Write(line: Line)
    | Rotate(now: Month, meanwhile: seq<Line>)
    | Prune(at: Month, retentionMonths: int)

  function Lines(s: State): seq<Line> { if s.live.Some? then s.live.value else [] }

  function NeedsRotation(s: State, now: Month): bool { HasOtherMonth(Lines(s), now) }

  /** The event is a rotation that does split the live file. */
  predicate Rotates(s: State, e: Event) { e.Rotate? && NeedsRotation(s, e.now) }

  ghost predicate Step(s: State, e: Event, s': State) {
    match e
    case Write(l) => s'.live == Some(Lines(s) + [l]) && s'.archives == s.archives
    case Rotate(now, meanwhile) =>
      if NeedsRotation(s, now) then
        s'.live == BackInLive(meanwhile, Filter(OfMonth(now), Lines(s))) && Split(s.archives, s'.archives, Lines(s), now)
      else Lines(s') == Lines(s) + meanwhile && s'.archives == s.archives
    case Prune(at, months) =>
      s'.live == s.live && s'.archives == map m | m in s.archives && !TooOld(m, at, months) :: s.archives[m]
  }

  /** A history: the state before each event and after the last. */
  ghost predicate History(es: seq<Event>, ss: seq<State>) {
    && |ss| == |es| + 1
    && ss[0] == State(None, map[])
    && forall i :: 0 <= i < |es| ==> Step(ss[i], es[i], ss[i + 1])
  }

  function News(e: Event): seq<Line> {
    match e
    case Write(l) => [l]
    case Rotate(_, meanwhile) => meanwhile
    case Prune(_, _) => []
  }

  function Written(es: seq<Event>): seq<Line> {
    if es == [] then [] else Written(es[..|es| - 1]) + News(es[|es| - 1])
  }

  /** The lines an event drops and reports as unparseable. */
  function DroppedBy(s: State, e: Event): seq<Line> { if Rotates(s, e) then Filter(NoMonth, Lines(s)) else [] }

  /** The lines of month `m` an event deletes with the month's archive. */
  function PrunedBy(s: State, e: Event, m: Month): seq<Line> {
    if e.Prune? && TooOld(m, e.at, e.retentionMonths) then Archive(s.archives, m) else []
  }

  function Dropped(es: seq<Event>, ss: seq<State>): seq<Line>
    requires |ss| == |es| + 1
  {
    if es == [] then [] else var n := |es| - 1; Dropped(es[..n], ss[..n + 1]) + DroppedBy(ss[n], es[n])
  }

  function Pruned(es: seq<Event>, ss: seq<State>, m: Month): seq<Line>
    requires |ss| == |es| + 1
  {
    if es == [] then [] else var n := |es| - 1; Pruned(es[..n], ss[..n + 1], m) + PrunedBy(ss[n], es[n], m)
  }

  /** How often a line is stored: in the live file, and in the archive of its own month. */
  function Stored(s: State, l: Line): nat {
    multiset(Lines(s))[l] + if l.month.Some? then multiset(Archive(s.archives, l.month.value))[l] else 0
  }

  /** How often a line went: dropped as unparseable, or pruned with its month. */
  function Gone(dropped: seq<Line>, pruned: seq<Line>, l: Line): nat {
    if l.month.Some? then multiset(pruned)[l] else multiset(dropped)[l]
  }

  function MonthOf(l: Line): Month { if l.month.Some? then l.month.value else Month(0, 0) }

  lemma StepConserves(s: State, e: Event, s': State, l: Line)
    requires Step(s, e, s')
    ensures Stored(s', l) + Gone(DroppedBy(s, e), PrunedBy(s, e, MonthOf(l)), l) == Stored(s, l) + multiset(News(e))[l]
  {
    hide Filter;
    if Rotates(s, e) {
      RotationConserves(s, e.now, e.meanwhile, s', l);
    }
  }

  lemma RotationConserves(s: State, now: Month, meanwhile: seq<Line>, s': State, l: Line)
    requires NeedsRotation(s, now) && Step(s, Rotate(now, meanwhile), s')
    ensures Stored(s', l) + (if l.month.None? then multiset(Filter(NoMonth, Lines(s)))[l] else 0)
         == Stored(s, l) + multiset(meanwhile)[l]
  {
    hide Filter, HasOtherMonth;
    var lines := Lines(s);
    FilterCounts(OfMonth(now), lines, l);
    FilterCounts(NoMonth, lines, l);
    assert Lines(s') == meanwhile + Filter(OfMonth(now), lines);
    if l.month.Some? {
      FilterCounts(OfMonth(l.month.value), lines, l);
    }
  }

  lemma PrefixHistory(es: seq<Event>, ss: seq<State>)
    requires History(es, ss) && es != []
    ensures History(es[..|es| - 1], ss[..|es|])
  {
    var n := |es| - 1;
    forall i | 0 <= i < n ensures Step(ss[..n + 1][i], es[..n][i], ss[..n + 1][i + 1]) {
      assert Step(ss[i], es[i], ss[i + 1]);
    }
  }

  /** Over every history each line written is stored as often as it was written, less the times a
      rotation dropped and reported it as unparseable or a pruning deleted it with its month. */
  lemma {:induction false} EveryLineIsAccountedFor(es: seq<Event>, ss: seq<State>, l: Line)
    requires History(es, ss)
    ensures Stored(ss[|es|], l) + Gone(Dropped(es, ss), Pruned(es, ss, MonthOf(l)), l) == multiset(Written(es))[l]
  {
    hide Step, Stored, Filter, DroppedBy, PrunedBy, News;
    if es != [] {
      var n := |es| - 1;
      PrefixHistory(es, ss);
      EveryLineIsAccountedFor(es[..n], ss[..n + 1], l);
      assert ss[..n + 1][n] == ss[n];
      assert Step(ss[n], es[n], ss[n + 1]);
      StepConserves(ss[n], es[n], ss[n + 1], l);
    } else {
      StartsEmpty(ss[0], l);
    }
  }

  lemma StartsEmpty(s: State, l: Line)
    requires s == State(None, map[])
    ensures Stored(s, l) == 0
  {
  }

  /** No pruning of the history is old enough to reach month `m`. */
  predicate NeverPruned(es: seq<Event>, m: Month) {
    forall i :: 0 <= i < |es| && es[i].Prune? ==> !TooOld(m, es[i].at, es[i].retentionMonths)
  }

  lemma {:induction false} NothingPruned(es: seq<Event>, ss: seq<State>, m: Month)
    requires |ss| == |es| + 1 && NeverPruned(es, m)
    ensures Pruned(es, ss, m) == []
  {
    if es != [] {
      var n := |es| - 1;
      assert forall i :: 0 <= i < n ==> es[..n][i] == es[i];
      NothingPruned(es[..n], ss[..n + 1], m);
    }
  }

  /** Hence a readable line is stored exactly as often as it was written, until its month is pruned. */
  lemma ReadableLinesSurvive(es: seq<Event>, ss: seq<State>, l: Line)
    requires History(es, ss) && l.month.Some?
    ensures Stored(ss[|es|], l) + multiset(Pruned(es, ss, l.month.value))[l] == multiset(Written(es))[l]
    ensures NeverPruned(es, l.month.value) ==> Stored(ss[|es|], l) == multiset(Written(es))[l]
  {
    EveryLineIsAccountedFor(es, ss, l);
    if NeverPruned(es, l.month.value) {
      NothingPruned(es, ss, l.month.value);
    }
  }

  /** After any rotation, needed or not, the file holds no line of another month but those written during
      it; so nothing of an earlier month waits for the next run. */
  lemma NoOldMonthLeft(s: State, now: Month, meanwhile: seq<Line>, s': State, l: Line)
    requires Step(s, Rotate(now, meanwhile), s') && l in Lines(s') && l !in meanwhile
    ensures l.month == None || l.month == Some(now)
    ensures l in Lines(s)
  {
    hide Filter;
    if NeedsRotation(s, now) {
      assert Lines(s') == meanwhile + Filter(OfMonth(now), Lines(s));
    }
  }

  /** ... and each readable line of another month that was in the file is in its month's archive. */
  lemma OldMonthsArchived(s: State, now: Month, meanwhile: seq<Line>, s': State, l: Line)
    requires Step(s, Rotate(now, meanwhile), s') && l in Lines(s) && l.month.Some? && l.month != Some(now)
    ensures l in Archive(s'.archives, l.month.value)
  {
    hide Filter;
    assert l in Filter(OfMonth(l.month.value), Lines(s));
  }

  // ----- order within a month

  /** The month's lines in storage order: its archive, then the live file. */
  function InStorage(s: State, m: Month): seq<Line> {
    Archive(s.archives, m) + Filter(OfMonth(m), Lines(s))
  }

  /** Where an event puts the new lines of month `m`: before the lines a rotation of that month
      brings back, and otherwise at the end. */
  function NewsAt(s: State, e: Event, m: Month): (k: nat)
    ensures k <= |InStorage(s, m)|
  {
    if Rotates(s, e) && e.now == m then |Archive(s.archives, m)| else |InStorage(s, m)|
  }

  /** An event inserts its new lines into a month's storage order and moves nothing. */
  lemma StepInserts(s: State, e: Event, s': State, m: Month)
    requires Step(s, e, s') && NeverPruned([e], m)
    ensures var x, k := InStorage(s, m), NewsAt(s, e, m);
            InStorage(s', m) == x[..k] + Filter(OfMonth(m), News(e)) + x[k..]
  {
    hide Filter, HasOtherMonth, Split;
    var f, a, b := OfMonth(m), Archive(s.archives, m), Filter(OfMonth(m), Lines(s));
    Between(a, b, Filter(f, News(e)));
    match e
    case Write(l) => FilterConcat(f, Lines(s), [l]);
    case Rotate(now, meanwhile) =>
      if NeedsRotation(s, now) {
        RotationInserts(s, now, meanwhile, s', m);
      } else {
        FilterConcat(f, Lines(s), meanwhile);
      }
    case Prune(at, months) => PruningSpares(s, e, s', m);
  }

  lemma Between(a: seq<Line>, b: seq<Line>, news: seq<Line>)
    ensures (a + b)[..|a|] + news + (a + b)[|a|..] == a + news + b
    ensures (a + b)[..|a + b|] + news + (a + b)[|a + b|..] == a + (b + news) == a + b + news
  {
  }

  lemma PruningSpares(s: State, e: Event, s': State, m: Month)
    requires e.Prune? && Step(s, e, s') && NeverPruned([e], m)
    ensures InStorage(s', m) == InStorage(s, m) && Filter(OfMonth(m), News(e)) == []
  {
    assert [e][0] == e && !TooOld(m, e.at, e.retentionMonths);
  }

  lemma RotationInserts(s: State, now: Month, meanwhile: seq<Line>, s': State, m: Month)
    requires NeedsRotation(s, now) && Step(s, Rotate(now, meanwhile), s')
    ensures var a, b, news := Archive(s.archives, m), Filter(OfMonth(m), Lines(s)), Filter(OfMonth(m), meanwhile);
            InStorage(s', m) == if m == now then a + news + b else a + b + news
  {
    hide Filter, HasOtherMonth;
    var f, kept := OfMonth(m), Filter(OfMonth(now), Lines(s));
    assert Lines(s') == meanwhile + kept;
    FilterConcat(f, meanwhile, kept);
    if m == now {
      FilterAll(f, kept);
    } else {
      FilterNone(f, kept);
    }
  }

  /** Inserting a word into the first part of a text of distinct lines leaves the whole as it would be
      with the word at its end exactly when there is nothing behind or nothing to insert. */
  lemma InsertedInOrder(x: seq<Line>, k: nat, news: seq<Line>, w: seq<Line>)
    requires k <= |x| && Distinct(w + news)
    ensures x[..k] + news + x[k..] == w + news <==> x == w && (news == [] || k == |x|)
  {
    var y := x[..k] + news + x[k..];
    if news == [] {
      assert y == x && w + news == w;
    } else {
      if x == w && k == |x| {
        assert y == w + news;
      }
      if y == w + news {
        assert y[k] == news[0] && (w + news)[|w|] == news[0];
        assert |x| == |w| && x[..k] == y[..k] && w == (w + news)[..k];
        assert x == x[..k];
      }
    }
  }

  /** A rotation of the current month keeps its order exactly when nothing of the month was written
      meanwhile or nothing of it was there before. */
  lemma RotationKeepsOrderIff(s: State, now: Month, meanwhile: seq<Line>, s': State)
    requires NeedsRotation(s, now) && Step(s, Rotate(now, meanwhile), s')
    requires forall l :: l in Filter(OfMonth(now), meanwhile) ==> l !in Filter(OfMonth(now), Lines(s))
    ensures InStorage(s', now) == InStorage(s, now) + Filter(OfMonth(now), meanwhile)
            <==> Filter(OfMonth(now), meanwhile) == [] || Filter(OfMonth(now), Lines(s)) == []
  {
    hide Filter, HasOtherMonth, Step, Archive;
    RotationInserts(s, now, meanwhile, s', now);
    SwappedIff(Archive(s.archives, now), Filter(OfMonth(now), Lines(s)), Filter(OfMonth(now), meanwhile));
  }

  lemma SwappedIff(a: seq<Line>, b: seq<Line>, news: seq<Line>)
    requires forall l :: l in news ==> l !in b
    ensures a + news + b == a + b + news <==> news == [] || b == []
  {
    if news != [] && b != [] {
      assert (a + news + b)[|a|] == news[0] && (a + b + news)[|a|] == b[0];
      assert news[0] in news && b[0] in b;
    } else {
      assert a + news + b == a + b + news;
    }
  }

  /** No rotation of month `m` finds both lines of the month in the file and new ones behind its back. */
  ghost predicate NoOvertaking(es: seq<Event>, ss: seq<State>, m: Month)
    requires |ss| == |es| + 1
  {
    forall i :: 0 <= i < |es| ==> InOrderAt(ss[i], es[i], m)
  }

  predicate InOrderAt(s: State, e: Event, m: Month) {
    Rotates(s, e) && e.now == m ==> Filter(OfMonth(m), e.meanwhile) == [] || Filter(OfMonth(m), Lines(s)) == []
  }

  lemma InOrderIffAtEnd(s: State, e: Event, m: Month)
    ensures InOrderAt(s, e, m) <==> Filter(OfMonth(m), News(e)) == [] || NewsAt(s, e, m) == |InStorage(s, m)|
  {
    hide Filter, HasOtherMonth;
  }

  lemma NoOvertakingPrefix(es: seq<Event>, ss: seq<State>, m: Month)
    requires |ss| == |es| + 1 && es != []
    ensures NoOvertaking(es, ss, m) <==>
              NoOvertaking(es[..|es| - 1], ss[..|es|], m) && InOrderAt(ss[|es| - 1], es[|es| - 1], m)
  {
    hide InOrderAt;
    var n := |es| - 1;
    assert forall i :: 0 <= i < n ==> es[..n][i] == es[i] && ss[..n + 1][i] == ss[i];
  }

  lemma NeverPrunedPrefix(es: seq<Event>, m: Month)
    requires es != [] && NeverPruned(es, m)
    ensures NeverPruned(es[..|es| - 1], m) && NeverPruned([es[|es| - 1]], m)
  {
    var n := |es| - 1;
    assert forall i :: 0 <= i < n ==> es[..n][i] == es[i];
  }

  /** Over any history whose lines of month `m` differ and that does not prune it, the month's lines are
      stored in the order they were written exactly when no rotation of the month is overtaken:
      order once lost is never regained. */
  lemma {:induction false} MonthInOrderIff(es: seq<Event>, ss: seq<State>, m: Month)
    requires History(es, ss) && NeverPruned(es, m)
    requires Distinct(Filter(OfMonth(m), Written(es)))
    ensures InStorage(ss[|es|], m) == Filter(OfMonth(m), Written(es)) <==> NoOvertaking(es, ss, m)
  {
    hide Step, Filter, InStorage, InOrderAt, NoOvertaking, NewsAt, News, NeverPruned;
    if es != [] {
      var n := |es| - 1;
      var s, e, w, news := ss[n], es[n], Filter(OfMonth(m), Written(es[..n])), Filter(OfMonth(m), News(es[n]));
      PrefixHistory(es, ss);
      FilterConcat(OfMonth(m), Written(es[..n]), News(e));
      DistinctPrefix(w, news);
      NeverPrunedPrefix(es, m);
      MonthInOrderIff(es[..n], ss[..n + 1], m);
      assert ss[..n + 1][n] == s;
      assert Step(ss[n], es[n], ss[n + 1]);
      StepInserts(s, e, ss[n + 1], m);
      InsertedInOrder(InStorage(s, m), NewsAt(s, e, m), news, w);
      InOrderIffAtEnd(s, e, m);
      NoOvertakingPrefix(es, ss, m);
    } else {
      NothingInStorage(ss[0], m);
      NothingOvertaken(ss, m);
    }
  }

  lemma DistinctPrefix(a: seq<Line>, b: seq<Line>)
    requires Distinct(a + b)
    ensures Distinct(a)
  {
    forall i, j | 0 <= i < j < |a| ensures a[i] != a[j] {
      assert (a + b)[i] == a[i] && (a + b)[j] == a[j];
    }
  }

  lemma NothingInStorage(s: State, m: Month)
    requires s == State(None, map[])
    ensures InStorage(s, m) == Filter(OfMonth(m), [])
  {
  }

  lemma NothingOvertaken(ss: seq<State>, m: Month)
    requires |ss| == 1
    ensures NoOvertaking([], ss, m)
  {
  }

  /** Without overtaking the order is kept even when lines repeat. */
  lemma {:induction false} MonthsStayInOrder(es: seq<Event>, ss: seq<State>, m: Month)
    requires History(es, ss) && NeverPruned(es, m) && NoOvertaking(es, ss, m)
    ensures InStorage(ss[|es|], m) == Filter(OfMonth(m), Written(es))
  {
    hide Step, Filter, InStorage, InOrderAt, NoOvertaking, NewsAt, News, NeverPruned;
    if es != [] {
      var n := |es| - 1;
      var s, e, news := ss[n], es[n], Filter(OfMonth(m), News(es[n]));
      PrefixHistory(es, ss);
      NeverPrunedPrefix(es, m);
      NoOvertakingPrefix(es, ss, m);
      MonthsStayInOrder(es[..n], ss[..n + 1], m);
      assert ss[..n + 1][n] == s;
      assert Step(ss[n], es[n], ss[n + 1]);
      StepInserts(s, e, ss[n + 1], m);
      InOrderIffAtEnd(s, e, m);
      FilterConcat(OfMonth(m), Written(es[..n]), News(e));
      var x, k := InStorage(s, m), NewsAt(s, e, m);
      assert x[..k] + news + x[k..] == x + news;
    } else {
      NothingInStorage(ss[0], m);
    }
  }
}
