/** Capped eval datasets: an append beyond the cap evicts the oldest case, which may be
    archived in the uncapped True-North dataset. */
module EvalDatasets {
  import opened Options

  datatype Case = Case(id: string, body: string)

  function Ids(cases: seq<Case>): set<string> { set c | c in cases :: c.id }

  ghost predicate UniqueIds(cases: seq<Case>) {
    forall i, j :: 0 <= i < j < |cases| ==> cases[i].id != cases[j].id
  }

  function WithoutId(cases: seq<Case>, id: string): seq<Case> {
    if cases == [] then []
    else
      var c := cases[|cases| - 1];
      if c.id == id then WithoutId(cases[..|cases| - 1], id) else WithoutId(cases[..|cases| - 1], id) + [c]
  }

  /** The case an append of `c` pushes out, by the default rule: the first in the file. */
  function Evicted(cases: seq<Case>, cap: Option<int>, c: Case): Option<Case> {
    if c.id !in Ids(cases) && cap.Some? && |cases| >= cap.value && cases != [] then Some(cases[0]) else None
  }

  function Appended(cases: seq<Case>, cap: Option<int>, c: Case): seq<Case> {
    if c.id in Ids(cases) then cases
    else
      var e := Evicted(cases, cap, c);
      (if e.Some? then WithoutId(cases, e.value.id) else cases) + [c]
  }

  class EvalDataset {
    const cap: Option<int>
    var cases: seq<Case>

    constructor (cap: Option<int>)
      ensures this.cap == cap && cases == []
    {
      this.cap := cap;
      cases := [];
    }

    /** `onEvict` is the dataset that archives evicted cases, if any; `archiveFails` says that
        its callback raises, which is logged and otherwise ignored. */
    method Append(c: Case, onEvict: EvalDataset?, archiveFails: bool)
      requires onEvict != this
      modifies this, onEvict
      ensures cases == Appended(old(cases), cap, c)
      ensures onEvict != null ==>
                var e := Evicted(old(cases), cap, c);
                onEvict.cases == if e.Some? && !archiveFails
                                 then Appended(old(onEvict.cases), onEvict.cap, e.value) else old(onEvict.cases)
      decreases if onEvict == null then 0 else 2
    {
      if c.id in Ids(cases) {
        return;
      }
      var kept := cases;
      if cap.Some? && |cases| >= cap.value {
        var evicted := EvictRedundant(cases);
        if evicted.Some? {
          kept := WithoutId(cases, evicted.value.id);
          if onEvict != null && !archiveFails {
            onEvict.AppendArchived(evicted.value);
          }
        }
      }
      cases := kept + [c];
    }

    method EvictRedundant(existing: seq<Case>) returns (e: Option<Case>)
      ensures e == if existing == [] then None else Some(existing[0])
    {
      e := if existing == [] then None else Some(existing[0]);
    }

    /** The callback with which a case moves from the working set to this archive. */
    method AppendArchived(evicted: Case)
      modifies this
      ensures cases == Appended(old(cases), cap, evicted)
      decreases 1
    {
      Append(evicted, null, false);
    }
  }

  // ----- a working set and its archive over many appends

  datatype Store = Store(working: seq<Case>, archive: seq<Case>)

  /** One append: the case, and whether the archive's callback fails. */
  datatype Event = Event(c: Case, archiveFails: bool)

  function Step(s: Store, cap: int, e: Event): Store {
    var out := Evicted(s.working, Some(cap), e.c);
    Store(Appended(s.working, Some(cap), e.c),
          if out.Some? && !e.archiveFails then Appended(s.archive, None, out.value) else s.archive)
  }

  function Run(s: Store, cap: int, es: seq<Event>): Store {
    if es == [] then s else Step(Run(s, cap, es[..|es| - 1]), cap, es[|es| - 1])
  }

  /** The cases that were not already in the working set when they came. */
  function Accepted(s: Store, cap: int, es: seq<Event>): seq<Case> {
    if es == [] then []
    else
      var e := es[|es| - 1];
      var before := Accepted(s, cap, es[..|es| - 1]);
      if e.c.id in Ids(Run(s, cap, es[..|es| - 1]).working) then before else before + [e.c]
  }

  /** The evicted cases whose archiving failed. */
  function Lost(s: Store, cap: int, es: seq<Event>): seq<Case> {
    if es == [] then []
    else
      var e := es[|es| - 1];
      var before := Lost(s, cap, es[..|es| - 1]);
      var out := Evicted(Run(s, cap, es[..|es| - 1]).working, Some(cap), e.c);
      if out.Some? && e.archiveFails then before + [out.value] else before
  }

  function Offered(es: seq<Event>): set<string> { set e | e in es :: e.c.id }

  function Max(a: int, b: int): int { if a >= b then a else b }

  function LastOf(cases: seq<Case>, n: int): seq<Case> {
    if n <= 0 then [] else if |cases| <= n then cases else cases[|cases| - n..]
  }

  lemma {:induction false} WithoutAbsent(cases: seq<Case>, id: string)
    requires id !in Ids(cases)
    ensures WithoutId(cases, id) == cases
  {
    if cases != [] {
      var n := |cases| - 1;
      assert cases[n] in cases;
      assert forall c :: c in cases[..n] ==> c in cases;
      WithoutAbsent(cases[..n], id);
      assert cases == cases[..n] + [cases[n]];
    }
  }

  lemma {:induction false} WithoutFirst(cases: seq<Case>)
    requires UniqueIds(cases) && cases != []
    ensures WithoutId(cases, cases[0].id) == cases[1..]
  {
    var n := |cases| - 1;
    if n > 0 {
      WithoutFirst(cases[..n]);
      assert cases[1..] == cases[..n][1..] + [cases[n]];
    }
  }

  /** One append to a set of unique ids, in terms of the whole history of accepted cases. */
  lemma AppendedTail(cases: seq<Case>, cap: int, c: Case)
    requires UniqueIds(cases)
    ensures UniqueIds(Appended(cases, Some(cap), c)) && UniqueIds(Appended(cases, None, c))
    ensures c.id !in Ids(cases) ==>
              Appended(cases, Some(cap), c) == if |cases| >= cap && cases != [] then cases[1..] + [c] else cases + [c]
  {
    if c.id !in Ids(cases) {
      forall i | 0 <= i < |cases| ensures cases[i].id != c.id {
        assert cases[i] in cases;
      }
      if cases != [] {
        WithoutFirst(cases);
      }
    }
  }

  /** The working set is always the newest accepted cases, in order: as many as the cap, where a
      cap below one acts as one, and never fewer than there were at the start. */
  lemma {:induction false} WorkingIsNewest(s: Store, cap: int, es: seq<Event>)
    requires UniqueIds(s.working)
    ensures var all := s.working + Accepted(s, cap, es);
            Run(s, cap, es).working == LastOf(all, Max(|s.working|, Max(cap, 1)))
    ensures UniqueIds(Run(s, cap, es).working)
  {
    if es != [] {
      var es', e := es[..|es| - 1], es[|es| - 1];
      WorkingIsNewest(s, cap, es');
      var w := Run(s, cap, es').working;
      AppendedTail(w, cap, e.c);
      NewestAfter(s.working, Accepted(s, cap, es'), cap, w, e.c);
    }
  }

  lemma NewestAfter(start: seq<Case>, accepted: seq<Case>, cap: int, w: seq<Case>, c: Case)
    requires w == LastOf(start + accepted, Max(|start|, Max(cap, 1)))
    ensures LastOf(start + (accepted + [c]), Max(|start|, Max(cap, 1)))
         == if |w| >= cap && w != [] then w[1..] + [c] else w + [c]
  {
    assert start + (accepted + [c]) == (start + accepted) + [c];
  }

  /** No id is lost except by a failed archiving: the ids in the working set, in the archive and
      among the lost are exactly those that were there or were offered. */
  lemma {:induction false} IdsAreConserved(s: Store, cap: int, es: seq<Event>)
    requires UniqueIds(s.working)
    ensures var t := Run(s, cap, es);
            Ids(t.working) + Ids(t.archive) + Ids(Lost(s, cap, es))
            == Ids(s.working) + Ids(s.archive) + Offered(es)
  {
    hide Appended, Ids, Accepted, UniqueIds;
    if es == [] {
      NothingOffered(es);
    } else {
      var es', e := es[..|es| - 1], es[|es| - 1];
      IdsAreConserved(s, cap, es');
      WorkingIsNewest(s, cap, es');
      var t := Run(s, cap, es');
      OfferOne(es);
      StepConserves(t, cap, e);
      var out := Evicted(t.working, Some(cap), e.c);
      if out.Some? && e.archiveFails {
        IdsOfAppend(Lost(s, cap, es'), out.value);
      }
    }
  }

  lemma NothingOffered(es: seq<Event>)
    requires es == []
    ensures Offered(es) == {} && Ids([]) == {}
  {
  }

  lemma OfferOne(es: seq<Event>)
    requires es != []
    ensures Offered(es) == Offered(es[..|es| - 1]) + {es[|es| - 1].c.id}
  {
    var n := |es| - 1;
    assert es == es[..n] + [es[n]];
    assert forall e :: e in es <==> e in es[..n] || e == es[n];
  }

  lemma IdsOfAppend(cases: seq<Case>, c: Case)
    ensures Ids(cases + [c]) == Ids(cases) + {c.id}
  {
    assert forall x :: x in cases + [c] <==> x in cases || x == c;
  }

  lemma IdsOfTail(cases: seq<Case>)
    requires cases != []
    ensures Ids(cases) == {cases[0].id} + Ids(cases[1..])
  {
    assert cases == [cases[0]] + cases[1..];
    assert forall x :: x in cases <==> x == cases[0] || x in cases[1..];
  }

  lemma StepConserves(t: Store, cap: int, e: Event)
    requires UniqueIds(t.working)
    ensures var out := Evicted(t.working, Some(cap), e.c);
            var t' := Step(t, cap, e);
            Ids(t'.working) + Ids(t'.archive) + (if out.Some? && e.archiveFails then {out.value.id} else {})
            == Ids(t.working) + Ids(t.archive) + {e.c.id}
  {
    hide Ids, WithoutId;
    AppendedTail(t.working, cap, e.c);
    var out := Evicted(t.working, Some(cap), e.c);
    if e.c.id !in Ids(t.working) {
      if out.Some? {
        IdsOfTail(t.working);
        IdsOfAppend(t.working[1..], e.c);
        IdsOfAppend(t.archive, out.value);
      } else {
        IdsOfAppend(t.working, e.c);
      }
    }
  }

  /** Starting empty with a working archive: the last cases, unique, and nothing ever lost. */
  lemma FromEmpty(cap: int, es: seq<Event>)
    ensures var s := Store([], []);
            var t := Run(s, cap, es);
            && t.working == LastOf(Accepted(s, cap, es), Max(cap, 1))
            && UniqueIds(t.working)
            && ((forall e :: e in es ==> !e.archiveFails) ==> Ids(t.working) + Ids(t.archive) == Offered(es))
  {
    hide Run, Accepted, Offered;
    var s := Store([], []);
    WorkingIsNewest(s, cap, es);
    IdsAreConserved(s, cap, es);
    assert [] + Accepted(s, cap, es) == Accepted(s, cap, es);
    if forall e :: e in es ==> !e.archiveFails {
      NothingLost(s, cap, es);
    }
  }

  /** With a working archive and no case taken twice, archive and working set together are all accepted cases,
      bodies included, in the order they came. */
  lemma {:induction false} SplitInOrder(cap: int, es: seq<Event>)
    requires forall e :: e in es ==> !e.archiveFails
    requires UniqueIds(Accepted(Store([], []), cap, es))
    ensures var t := Run(Store([], []), cap, es);
            t.archive + t.working == Accepted(Store([], []), cap, es)
  {
    hide Appended, Evicted, Ids;
    if es != [] {
      var n := |es| - 1;
      var s, e := Store([], []), es[n];
      var t, all := Run(s, cap, es[..n]), Accepted(s, cap, es);
      assert e in es && forall f :: f in es[..n] ==> f in es;
      assert Accepted(s, cap, es[..n]) <= all;
      forall i, j | 0 <= i < j < |Accepted(s, cap, es[..n])|
        ensures Accepted(s, cap, es[..n])[i].id != Accepted(s, cap, es[..n])[j].id
      {
        assert all[i] == Accepted(s, cap, es[..n])[i] && all[j] == Accepted(s, cap, es[..n])[j];
      }
      SplitInOrder(cap, es[..n]);
      StepSplits(t, cap, e, all);
    }
  }

  lemma StepSplits(t: Store, cap: int, e: Event, all: seq<Case>)
    requires UniqueIds(all) && !e.archiveFails
    requires all == if e.c.id in Ids(t.working) then t.archive + t.working else t.archive + t.working + [e.c]
    ensures var t' := Step(t, cap, e);
            t'.archive + t'.working == all
  {
    hide WithoutId;
    if e.c.id !in Ids(t.working) {
      forall i, j | 0 <= i < j < |t.working| ensures t.working[i].id != t.working[j].id {
        assert all[|t.archive| + i] == t.working[i] && all[|t.archive| + j] == t.working[j];
      }
      AppendedTail(t.working, cap, e.c);
      if |t.working| >= cap && t.working != [] {
        var out := t.working[0];
        forall c | c in t.archive ensures c.id != out.id {
          var i :| 0 <= i < |t.archive| && t.archive[i] == c;
          assert all[i] == c && all[|t.archive|] == out;
        }
        assert t.archive + t.working + [e.c] == (t.archive + [out]) + (t.working[1..] + [e.c]);
      }
    }
  }

  lemma {:induction false} NothingLost(s: Store, cap: int, es: seq<Event>)
    requires forall e :: e in es ==> !e.archiveFails
    ensures Lost(s, cap, es) == []
  {
    if es != [] {
      NothingLost(s, cap, es[..|es| - 1]);
    }
  }
}
