/** The newest message of every thread, and the ones not processed yet. */
module ThreadMessages {
  import opened Options
  import opened OrderedDict

  /** Times are counted from the earliest representable one. */
  datatype Message = Message(messageId: string, threadId: string, receivedAt: Option<nat>, body: string)

  function KeyOf(m: Message): string { if m.threadId != "" then m.threadId else m.messageId }

  function TimeOf(m: Message): nat { if m.receivedAt.Some? then m.receivedAt.value else 0 }

  type Threads = Dict<string, Message>

  function Note(d: Threads, m: Message): (r: Threads)
    requires Valid(d)
    ensures Valid(r)
  {
    if KeyOf(m) in d.vals && TimeOf(m) < TimeOf(d.vals[KeyOf(m)]) then d else Put(d, KeyOf(m), m)
  }

  function NoteAll(d: Threads, ms: seq<Message>): (r: Threads)
    requires Valid(d)
    ensures Valid(r)
  {
    if ms == [] then d else Note(NoteAll(d, ms[..|ms| - 1]), ms[|ms| - 1])
  }

  /** What `_latest_message_per_thread` returns. */
  function Latest(ms: seq<Message>): seq<Message> { Values(NoteAll(Empty(), ms)) }

  method LatestMessagePerThread(messages: seq<Message>) returns (latest: seq<Message>)
    ensures latest == Latest(messages)
  {
    var latestByThread: Threads := Empty();
    for i := 0 to |messages|
      invariant Valid(latestByThread) && latestByThread == NoteAll(Empty(), messages[..i])
    {
      var m := messages[i];
      assert messages[..i + 1][..i] == messages[..i];
      var key := KeyOf(m);
      if key !in latestByThread.vals {
        latestByThread := Put(latestByThread, key, m);
        continue;
      }
      if TimeOf(m) >= TimeOf(latestByThread.vals[key]) {
        latestByThread := Put(latestByThread, key, m);
      }
    }
    assert messages[..|messages|] == messages;
    latest := Values(latestByThread);
  }

  /** Position `i` holds the newest message of its thread: the last among those of maximal time. */
  ghost predicate NewestAt(ms: seq<Message>, i: nat)
    requires i < |ms|
  {
    forall j :: 0 <= j < |ms| && KeyOf(ms[j]) == KeyOf(ms[i]) ==>
      TimeOf(ms[j]) < TimeOf(ms[i]) || (TimeOf(ms[j]) == TimeOf(ms[i]) && j <= i)
  }

  /** `m` is the newest message of thread `k`. */
  ghost predicate IsNewest(ms: seq<Message>, k: string, m: Message) {
    exists i :: 0 <= i < |ms| && ms[i] == m && KeyOf(m) == k && NewestAt(ms, i)
  }

  /** The thread keys in the order they first occur. */
  function FirstSeen(ms: seq<Message>): seq<string> {
    if ms == [] then []
    else
      var keys, k := FirstSeen(ms[..|ms| - 1]), KeyOf(ms[|ms| - 1]);
      if k in keys then keys else keys + [k]
  }

  /** The fold has one entry per thread, in first-seen order, and each is the thread's newest. */
  lemma {:induction false} FoldIsNewest(ms: seq<Message>)
    ensures NoteAll(Empty(), ms).keys == FirstSeen(ms)
    ensures forall k :: k in NoteAll(Empty(), ms).vals ==> IsNewest(ms, k, NoteAll(Empty(), ms).vals[k])
  {
    if ms != [] {
      var n := |ms| - 1;
      FoldIsNewest(ms[..n]);
      var d, d' := NoteAll(Empty(), ms[..n]), NoteAll(Empty(), ms);
      forall k | k in d'.vals
        ensures IsNewest(ms, k, d'.vals[k])
      {
        if d'.vals[k] == ms[n] && KeyOf(ms[n]) == k && (k in d.vals ==> TimeOf(ms[n]) >= TimeOf(d.vals[k])) {
          LastIsNewest(ms, d, k);
        } else {
          var i :| 0 <= i < n && ms[..n][i] == d.vals[k] && KeyOf(ms[..n][i]) == k && NewestAt(ms[..n], i);
          StaysNewest(ms, i);
        }
      }
    }
  }

  lemma LastIsNewest(ms: seq<Message>, d: Threads, k: string)
    requires ms != [] && Valid(d) && d == NoteAll(Empty(), ms[..|ms| - 1]) && KeyOf(ms[|ms| - 1]) == k
    requires d.keys == FirstSeen(ms[..|ms| - 1])
    requires k in d.vals ==> TimeOf(ms[|ms| - 1]) >= TimeOf(d.vals[k])
    requires k in d.vals ==> IsNewest(ms[..|ms| - 1], k, d.vals[k])
    ensures NewestAt(ms, |ms| - 1)
  {
    var n := |ms| - 1;
    forall j | 0 <= j < n && KeyOf(ms[j]) == k ensures TimeOf(ms[j]) <= TimeOf(ms[n]) {
      SeenIsKeyed(ms[..n], j);
      var i :| 0 <= i < n && ms[..n][i] == d.vals[k] && KeyOf(ms[..n][i]) == k && NewestAt(ms[..n], i);
      assert KeyOf(ms[..n][j]) == KeyOf(ms[..n][i]);
    }
  }

  lemma {:induction false} SeenIsKeyed(ms: seq<Message>, j: nat)
    requires j < |ms|
    ensures KeyOf(ms[j]) in FirstSeen(ms)
  {
    if j < |ms| - 1 {
      SeenIsKeyed(ms[..|ms| - 1], j);
    }
  }

  lemma StaysNewest(ms: seq<Message>, i: nat)
    requires i + 1 < |ms| && NewestAt(ms[..|ms| - 1], i)
    requires KeyOf(ms[|ms| - 1]) == KeyOf(ms[i]) ==> TimeOf(ms[|ms| - 1]) < TimeOf(ms[i])
    ensures NewestAt(ms, i)
  {
    var n := |ms| - 1;
    forall j | 0 <= j < |ms| && KeyOf(ms[j]) == KeyOf(ms[i])
      ensures TimeOf(ms[j]) < TimeOf(ms[i]) || (TimeOf(ms[j]) == TimeOf(ms[i]) && j <= i)
    {
      if j < n {
        assert ms[..n][j] == ms[j] && ms[..n][i] == ms[i];
      }
    }
  }

  /** In the messages' own fields: every thread has one message in the result, none of the thread's is later,
      and one without a time never stands before one with a time. */
  lemma OneOfEachThread(ms: seq<Message>, m: Message) returns (n: Message)
    requires m in ms && m.threadId != ""
    ensures n in Latest(ms) && (n.threadId == m.threadId || (n.threadId == "" && n.messageId == m.threadId))
    ensures forall o :: o in Latest(ms) && o.threadId == m.threadId ==> o == n
    ensures m.receivedAt.Some? ==>
              (n.receivedAt.Some? && m.receivedAt.value <= n.receivedAt.value) || (n.receivedAt == None && m.receivedAt.value == 0)
  {
    hide NoteAll, IsNewest;
    var d, k := NoteAll(Empty(), ms), m.threadId;
    var i :| 0 <= i < |ms| && ms[i] == m;
    SeenIsKeyed(ms, i);
    FoldIsNewest(ms);
    FoldHasOwnKeys(ms);
    n := d.vals[k];
    var x :| 0 <= x < |d.keys| && d.keys[x] == k;
    assert Latest(ms)[x] == n;
    NewestBounds(ms, k, n, i);
    forall o | o in Latest(ms) && o.threadId == k ensures o == n {
      var y :| 0 <= y < |d.keys| && Latest(ms)[y] == o;
      assert d.keys[y] in d.vals;
    }
  }

  lemma NewestBounds(ms: seq<Message>, k: string, n: Message, i: nat)
    requires IsNewest(ms, k, n) && i < |ms| && KeyOf(ms[i]) == k
    ensures TimeOf(ms[i]) <= TimeOf(n)
  {
    var j :| 0 <= j < |ms| && ms[j] == n && KeyOf(ms[j]) == k && NewestAt(ms, j);
    assert KeyOf(ms[i]) == KeyOf(ms[j]);
  }

  // ----- the two-stage merge

  lemma {:induction false} NoteInTwoParts(d: Threads, a: seq<Message>, b: seq<Message>)
    requires Valid(d)
    ensures NoteAll(d, a + b) == NoteAll(NoteAll(d, a), b)
  {
    if b == [] {
      assert a + b == a;
    } else {
      var n := |b| - 1;
      NoteInTwoParts(d, a, b[..n]);
      assert (a + b)[..|a + b| - 1] == a + b[..n];
    }
  }

  ghost predicate OwnKeys(d: Threads) {
    Valid(d) && forall k :: k in d.vals ==> KeyOf(d.vals[k]) == k
  }

  lemma {:induction false} FoldHasOwnKeys(ms: seq<Message>)
    ensures OwnKeys(NoteAll(Empty(), ms))
  {
    if ms != [] {
      FoldHasOwnKeys(ms[..|ms| - 1]);
    }
  }

  lemma NotesNew(ms: seq<Message>, k: string)
    requires ms != [] && KeyOf(ms[|ms| - 1]) == k && k !in NoteAll(Empty(), ms[..|ms| - 1]).keys
    ensures NoteAll(Empty(), ms) == Put(NoteAll(Empty(), ms[..|ms| - 1]), k, ms[|ms| - 1])
  {
  }

  lemma NotesNone(ms: seq<Message>)
    requires ms == []
    ensures NoteAll(Empty(), ms) == Empty()
  {
  }

  lemma {:induction false} RefoldPrefix(d: Threads, i: nat)
    requires OwnKeys(d) && i <= |d.keys|
    ensures NoteAll(Empty(), Values(d)[..i]).keys == d.keys[..i]
    ensures forall k :: k in d.keys[..i] ==>
              k in NoteAll(Empty(), Values(d)[..i]).vals && NoteAll(Empty(), Values(d)[..i]).vals[k] == d.vals[k]
  {
    hide NoteAll, KeyOf;
    var vs := Values(d);
    if i == 0 {
      NotesNone(vs[..i]);
    } else {
      RefoldPrefix(d, i - 1);
      var k := d.keys[i - 1];
      assert k in d.vals && vs[i - 1] == d.vals[k];
      assert d.keys[..i] == d.keys[..i - 1] + [k];
      assert vs[..i][..i - 1] == vs[..i - 1];
      NotesNew(vs[..i], k);
    }
  }

  /** Folding what a fold returned changes nothing. */
  lemma Refold(d: Threads)
    requires OwnKeys(d)
    ensures NoteAll(Empty(), Values(d)) == d
  {
    RefoldPrefix(d, |d.keys|);
    assert Values(d)[..|d.keys|] == Values(d) && d.keys[..|d.keys|] == d.keys;
    var d' := NoteAll(Empty(), Values(d));
    assert d'.vals.Keys == d.vals.Keys;
    assert d'.vals == d.vals;
  }

  /** Reducing the inbox first and merging the refreshed threads afterwards is reducing it all at once. */
  lemma TwoStageMerge(a: seq<Message>, b: seq<Message>)
    ensures Latest(Latest(a) + b) == Latest(a + b)
  {
    hide NoteAll;
    FoldHasOwnKeys(a);
    Refold(NoteAll(Empty(), a));
    NoteInTwoParts(Empty(), Latest(a), b);
    NoteInTwoParts(Empty(), a, b);
  }

  // ----- what is still to be processed

  /** The last processed message of each item, where one is recorded. */
  type Processed = map<string, string>

  function Unprocessed(done: Processed): Message -> bool {
    (m: Message) => !(KeyOf(m) in done && done[KeyOf(m)] == m.messageId)
  }

  method FilterUnprocessedMessages(messages: seq<Message>, done: Processed) returns (filtered: seq<Message>)
    ensures filtered == Filter(Unprocessed(done), messages)
  {
    filtered := [];
    for i := 0 to |messages|
      invariant filtered == Filter(Unprocessed(done), messages[..i])
    {
      assert messages[..i + 1] == messages[..i] + [messages[i]];
      FilterSnoc(Unprocessed(done), messages[..i], messages[i]);
      var id := KeyOf(messages[i]);
      if id in done && done[id] == messages[i].messageId {
        continue;
      }
      filtered := filtered + [messages[i]];
    }
    assert messages[..|messages|] == messages;
  }

  function MarkAll(done: Processed, ms: seq<Message>): Processed {
    if ms == [] then done
    else MarkAll(done, ms[..|ms| - 1])[KeyOf(ms[|ms| - 1]) := ms[|ms| - 1].messageId]
  }

  lemma {:induction false} MarkedIsDone(done: Processed, ms: seq<Message>, i: nat)
    requires DistinctBy(KeyOf, ms) && i < |ms|
    ensures KeyOf(ms[i]) in MarkAll(done, ms) && MarkAll(done, ms)[KeyOf(ms[i])] == ms[i].messageId
  {
    var n := |ms| - 1;
    if i < n {
      MarkedIsDone(done, ms[..n], i);
      assert KeyOf(ms[i]) != KeyOf(ms[n]);
    }
  }

  /** A poll whose messages were all processed and recorded has nothing left to do, however the
      inbox repeats its threads. */
  lemma ProcessedOnce(done: Processed, inbox: seq<Message>)
    ensures Filter(Unprocessed(MarkAll(done, Latest(inbox))), Latest(inbox)) == []
  {
    hide MarkAll, NoteAll, Values;
    LatestDistinct(inbox);
    forall m | m in Latest(inbox) ensures !Unprocessed(MarkAll(done, Latest(inbox)))(m) {
      var i :| 0 <= i < |Latest(inbox)| && Latest(inbox)[i] == m;
      MarkedIsDone(done, Latest(inbox), i);
    }
    FilterNone(Unprocessed(MarkAll(done, Latest(inbox))), Latest(inbox));
  }

  lemma {:induction false} MarkLeavesOthers(done: Processed, ms: seq<Message>, k: string)
    requires forall i :: 0 <= i < |ms| ==> KeyOf(ms[i]) != k
    ensures k in MarkAll(done, ms) <==> k in done
    ensures k in done ==> MarkAll(done, ms)[k] == done[k]
  {
    if ms != [] {
      MarkLeavesOthers(done, ms[..|ms| - 1], k);
    }
  }

  lemma LatestDistinct(ms: seq<Message>)
    ensures DistinctBy(KeyOf, Latest(ms))
  {
    hide NoteAll, Values;
    var d := NoteAll(Empty(), ms);
    FoldHasOwnKeys(ms);
    forall i, j | 0 <= i < j < |d.keys| ensures KeyOf(Latest(ms)[i]) != KeyOf(Latest(ms)[j]) {
      assert d.keys[i] in d.vals && d.keys[j] in d.vals && d.keys[i] != d.keys[j];
    }
  }

  /** At a later poll a thread is offered exactly when its newest message is not the one processed. */
  lemma OfferedIffNew(done: Processed, inbox: seq<Message>, later: seq<Message>, m: Message)
    requires m in Latest(later)
    ensures m in Filter(Unprocessed(MarkAll(done, Latest(inbox))), Latest(later)) <==>
              if exists n :: n in Latest(inbox) && KeyOf(n) == KeyOf(m)
              then forall n :: n in Latest(inbox) && KeyOf(n) == KeyOf(m) ==> n.messageId != m.messageId
              else !(KeyOf(m) in done && done[KeyOf(m)] == m.messageId)
  {
    hide MarkAll, NoteAll, Values;
    LatestDistinct(inbox);
    var ms := Latest(inbox);
    if exists n :: n in ms && KeyOf(n) == KeyOf(m) {
      forall n | n in ms && KeyOf(n) == KeyOf(m)
        ensures KeyOf(m) in MarkAll(done, ms) && MarkAll(done, ms)[KeyOf(m)] == n.messageId
      {
        var i :| 0 <= i < |ms| && ms[i] == n;
        MarkedIsDone(done, ms, i);
      }
    } else {
      forall i | 0 <= i < |ms| ensures KeyOf(ms[i]) != KeyOf(m) {
        assert ms[i] in ms;
      }
      MarkLeavesOthers(done, ms, KeyOf(m));
    }
  }
}
