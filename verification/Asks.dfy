/** Questions put to the human, kept in an append-only log of their own. */
module Asks {
  import opened OrderedDict
  import opened Options

  datatype AskStatus = Open | Answered | Expired | Cancelled

  datatype Ask = Ask(
    askId: nat,
    status: AskStatus,
    recordIds: seq<string>,
    postedAt: int,
    expiresAt: Option<int>,
    answeredAt: Option<int>,
    answer: Option<string>)

  function AskIdOf(a: Ask): nat { a.askId }

  /** The newest version of every ask, oldest ask first. */
  function State(log: seq<Ask>): Dict<nat, Ask> {
    LatestBy(AskIdOf, log)
  }

  function OpenIn(log: seq<Ask>): seq<Ask> {
    Filter((a: Ask) => a.status.Open?, Values(State(log)))
  }

  /** How many of these asks were posted at `start` or later. */
  function CountSince(asks: seq<Ask>, start: int): nat {
    if asks == [] then 0
    else CountSince(asks[..|asks| - 1], start) + if asks[|asks| - 1].postedAt >= start then 1 else 0
  }

  /** How many of these asks were posted within `lo..hi`, both ends included. */
  function CountIn(asks: seq<Ask>, lo: int, hi: int): nat {
    if asks == [] then 0
    else CountIn(asks[..|asks| - 1], lo, hi) + if lo <= asks[|asks| - 1].postedAt <= hi then 1 else 0
  }

  class AskStore {
    var log: seq<Ask>

    constructor ()
      ensures log == []
    {
      log := [];
    }

    method Append(a: Ask)
      modifies this
      ensures log == old(log) + [a]
    {
      log := log + [a];
    }

    method LatestState() returns (latest: Dict<nat, Ask>)
      ensures latest == State(log)
    {
      latest := Empty();
      for i := 0 to |log|
        invariant latest == State(log[..i])
      {
        LatestAppend(AskIdOf, log[..i], log[i]);
        assert log[..i + 1] == log[..i] + [log[i]];
        latest := Put(latest, log[i].askId, log[i]);
      }
      assert log[..|log|] == log;
    }

    method OpenAsks() returns (asks: seq<Ask>)
      ensures asks == OpenIn(log)
    {
      var latest := LatestState();
      asks := Filter((a: Ask) => a.status.Open?, Values(latest));
    }
  }

  /** Posts a question: a new ask with an id no ask has had. */
  class AskPoster {
    const askStore: AskStore
    var next: nat

    constructor (askStore: AskStore)
      ensures this.askStore == askStore && next == 0
    {
      this.askStore := askStore;
      next := 0;
    }

    method PostAsk(recordIds: seq<string>, at: int, replyWindow: int) returns (id: nat)
      modifies this, askStore
      ensures id == old(next) && next == old(next) + 1
      ensures askStore.log == old(askStore.log) + [NewAsk(id, recordIds, at, replyWindow)]
      ensures var a := askStore.log[|old(askStore.log)|];
              && a.askId == id && a.status == Open && a.recordIds == recordIds && a.postedAt == at
              && a.expiresAt == Some(at + replyWindow) && a.answeredAt == None && a.answer == None
    {
      id := next;
      next := next + 1;
      askStore.Append(NewAsk(id, recordIds, at, replyWindow));
    }
  }

  function NewAsk(id: nat, recordIds: seq<string>, at: int, replyWindow: int): Ask {
    Ask(id, Open, recordIds, at, Some(at + replyWindow), None, None)
  }

  /** An ask is open exactly when its last line says so. */
  lemma OpenMeansLastLineOpen(log: seq<Ask>, i: nat)
    requires i < |log| && forall j :: i < j < |log| ==> log[j].askId != log[i].askId
    ensures (exists a :: a in OpenIn(log) && a.askId == log[i].askId) <==> log[i].status.Open?
  {
    forall j | i < j < |log| ensures AskIdOf(log[j]) != AskIdOf(log[i]) {
      assert log[j].askId != log[i].askId;
    }
    LatestIsLast(AskIdOf, log, i);
    var d := State(log);
    var m :| 0 <= m < |d.keys| && d.keys[m] == log[i].askId;
    assert Values(d)[m] == log[i];
    forall a | a in Values(d) && a.askId == log[i].askId ensures a == log[i] {
      var n :| 0 <= n < |d.keys| && Values(d)[n] == a;
      assert d.keys[n] in d.vals;
      assert AskIdOf(d.vals[d.keys[n]]) == d.keys[n];
    }
  }

  lemma {:induction false} CountInConcat(a: seq<Ask>, b: seq<Ask>, lo: int, hi: int)
    ensures CountIn(a + b, lo, hi) == CountIn(a, lo, hi) + CountIn(b, lo, hi)
    ensures CountIn(b, lo, hi) <= |b|
  {
    if b == [] {
      assert a + b == a;
    } else {
      var n := |b| - 1;
      CountInConcat(a, b[..n], lo, hi);
      assert (a + b)[..|a + b| - 1] == a + b[..n];
    }
  }

  lemma {:induction false} CountInWithinSince(asks: seq<Ask>, lo: int, hi: int, start: int)
    requires start <= lo
    ensures CountIn(asks, lo, hi) <= CountSince(asks, start)
  {
    if asks != [] {
      CountInWithinSince(asks[..|asks| - 1], lo, hi, start);
    }
  }

  /** Counts depend on posting times alone. */
  lemma {:induction false} CountInSameTimes(a: seq<Ask>, b: seq<Ask>, lo: int, hi: int)
    requires |a| == |b| && forall i :: 0 <= i < |a| ==> a[i].postedAt == b[i].postedAt
    ensures CountIn(a, lo, hi) == CountIn(b, lo, hi)
    ensures CountSince(a, lo) == CountSince(b, lo)
  {
    if a != [] {
      CountInSameTimes(a[..|a| - 1], b[..|b| - 1], lo, hi);
    }
  }

  /** A counted ask exists. */
  lemma {:induction false} CountInWitness(asks: seq<Ask>, lo: int, hi: int) returns (i: nat)
    requires CountIn(asks, lo, hi) > 0
    ensures i < |asks| && lo <= asks[i].postedAt <= hi
  {
    i := |asks| - 1;
    if !(lo <= asks[i].postedAt <= hi) {
      i := CountInWitness(asks[..i], lo, hi);
    }
  }

  /** A later line of the same ask with the same posting time moves no count. */
  lemma LifecycleKeepsTimes(log: seq<Ask>, a: Ask)
    requires a.askId in State(log).vals && State(log).vals[a.askId].postedAt == a.postedAt
    ensures State(log + [a]).keys == State(log).keys
    ensures forall i :: 0 <= i < |Values(State(log))| ==>
              Values(State(log + [a]))[i].postedAt == Values(State(log))[i].postedAt
  {
    LatestAppend(AskIdOf, log, a);
  }
}
