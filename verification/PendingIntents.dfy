/** Pending operator intents: a bounded history of what happened, one closure, and the sweep
    that expires the idle ones. */
module PendingIntents {
  import opened Options

  datatype Status = Open | Resolved | Dropped | Expired

  datatype Kind =
    | OperatorMessage | AgentProposal | OperatorRejection | OperatorApproval | OperatorComment | BotClarification
    | IntentResolved | IntentDropped | IntentExpired

  datatype Entry = Entry(at: int, kind: Kind, text: string)

  /** An intent as its file holds it. */
  datatype Intent = Intent(
    threadTs: string,
    originalText: string,
    status: Status,
    lastActivityAt: int,
    history: seq<Entry>,
    closureReason: Option<string>)

  const TEXT_LIMIT := 1000

  function Shorten(text: string): string { if |text| <= TEXT_LIMIT then text else text[..TEXT_LIMIT] }

  /** Python's `h[-n:]`: the last `n` for a positive `n`, everything for zero, and for a negative
      `n` what is left after dropping that many from the front. */
  function SliceFromEnd(h: seq<Entry>, n: int): seq<Entry> {
    if n > 0 then (if |h| <= n then h else h[|h| - n..])
    else if |h| <= -n then [] else h[-n..]
  }

  function Capped(h: seq<Entry>, bound: int): seq<Entry> {
    if |h| > bound then SliceFromEnd(h, bound) else h
  }

  function NewEntry(kind: Kind, text: string, now: int): Entry { Entry(now, kind, Shorten(text)) }

  function Appended(i: Intent, kind: Kind, text: string, now: int, bound: int): Intent {
    i.(history := Capped(i.history + [NewEntry(kind, text, now)], bound), lastActivityAt := now)
  }

  function ClosingKind(status: Status): Kind {
    match status
    case Resolved => IntentResolved
    case Dropped => IntentDropped
    case Expired => IntentExpired
    case Open => IntentExpired
  }

  function Closed(i: Intent, status: Status, reason: string, now: int, bound: int): Intent {
    if !i.status.Open? then i
    else Appended(i.(status := status, closureReason := if reason == "" then None else Some(reason)),
                  ClosingKind(status), reason, now, bound)
  }

  predicate IdlePast(i: Intent, now: int, maxAge: int) { i.lastActivityAt < now - maxAge }

  /** The object the store's operations load, change and save. */
  class PendingIntent {
    var threadTs: string
    var originalText: string
    var status: Status
    var lastActivityAt: int
    var history: seq<Entry>
    var closureReason: Option<string>

    function View(): Intent
      reads this
    {
      Intent(threadTs, originalText, status, lastActivityAt, history, closureReason)
    }

    constructor Load(i: Intent)
      ensures View() == i
    {
      threadTs, originalText, status := i.threadTs, i.originalText, i.status;
      lastActivityAt, history, closureReason := i.lastActivityAt, i.history, i.closureReason;
    }

    method Append(kind: Kind, text: string, now: int, bound: int)
      modifies this
      ensures View() == Appended(old(View()), kind, text, now, bound)
    {
      history := history + [Entry(now, kind, Shorten(text))];
      if |history| > bound {
        history := SliceFromEnd(history, bound);
      }
      lastActivityAt := now;
    }
  }

  class PendingIntentStore {
    const bound: int
    var files: map<string, Intent>

    constructor (bound: int)
      ensures this.bound == bound && files == map[]
    {
      this.bound := bound;
      files := map[];
    }

    method OpenIntent(id: string, threadTs: string, originalText: string, now: int)
      modifies this`files
      ensures files == old(files)[id := Opened(threadTs, originalText, now, bound)]
    {
      var intent := new PendingIntent.Load(Intent(threadTs, originalText, Open, now, [], None));
      intent.Append(OperatorMessage, originalText, now, bound);
      files := files[id := intent.View()];
    }

    /** Returns whether the intent exists. */
    method AppendEvent(id: string, kind: Kind, text: string, now: int) returns (found: bool)
      modifies this`files
      ensures found == (id in old(files))
      ensures files == if found then old(files)[id := Appended(old(files)[id], kind, text, now, bound)] else old(files)
    {
      if id !in files {
        return false;
      }
      var intent := new PendingIntent.Load(files[id]);
      intent.Append(kind, text, now, bound);
      files := files[id := intent.View()];
      return true;
    }

    method Close(id: string, status: Status, reason: string, now: int) returns (found: bool)
      requires !status.Open?
      modifies this`files
      ensures found == (id in old(files))
      ensures files == if found then old(files)[id := Closed(old(files)[id], status, reason, now, bound)] else old(files)
    {
      if id !in files {
        return false;
      }
      var intent := new PendingIntent.Load(files[id]);
      if !intent.status.Open? {
        return true;
      }
      intent.status := status;
      intent.closureReason := if reason == "" then None else Some(reason);
      intent.Append(ClosingKind(status), reason, now, bound);
      files := files[id := intent.View()];
      return true;
    }

    /** `reason` is the text the sweep gives every intent it expires. */
    method SweepIdle(maxAge: int, reason: string, now: int) returns (swept: set<string>)
      modifies this`files
      ensures files == Swept(old(files), maxAge, reason, now, bound)
      ensures swept == set id | id in old(files) && old(files)[id].status.Open? && IdlePast(old(files)[id], now, maxAge)
    {
      hide Closed;
      swept := {};
      var open := set id | id in files && files[id].status.Open?;
      var todo := open;
      while todo != {}
        invariant todo <= open && files.Keys == old(files).Keys
        invariant forall id :: id in files ==>
                    files[id] == if id in open - todo then SweepOne(old(files)[id], maxAge, reason, now, bound)
                                 else old(files)[id]
        invariant swept == set id | id in open - todo && IdlePast(old(files)[id], now, maxAge)
      {
        var id :| id in todo;
        if IdlePast(files[id], now, maxAge) {
          var found := Close(id, Expired, reason, now);
          swept := swept + {id};
        }
        todo := todo - {id};
      }
    }
  }

  function Opened(threadTs: string, originalText: string, now: int, bound: int): Intent {
    Appended(Intent(threadTs, originalText, Open, now, [], None), OperatorMessage, originalText, now, bound)
  }

  function SweepOne(i: Intent, maxAge: int, reason: string, now: int, bound: int): Intent {
    if i.status.Open? && IdlePast(i, now, maxAge) then Closed(i, Expired, reason, now, bound) else i
  }

  function Swept(files: map<string, Intent>, maxAge: int, reason: string, now: int, bound: int): map<string, Intent> {
    map id | id in files :: SweepOne(files[id], maxAge, reason, now, bound)
  }

  // ----- any history of the store

  datatype Op =
    | OpenOp(id: string, threadTs: string, text: string, now: int)
    | EventOp(id: string, kind: Kind, text: string, now: int)
    | CloseOp(id: string, status: Status, reason: string, now: int)
    | SweepOp(maxAge: int, reason: string, now: int)

  type Files = map<string, Intent>

  function Step(files: Files, op: Op, bound: int): Files {
    match op
    case OpenOp(id, threadTs, text, now) => files[id := Opened(threadTs, text, now, bound)]
    case EventOp(id, kind, text, now) =>
      if id in files then files[id := Appended(files[id], kind, text, now, bound)] else files
    case CloseOp(id, status, reason, now) =>
      if id in files then files[id := Closed(files[id], status, reason, now, bound)] else files
    case SweepOp(maxAge, reason, now) => Swept(files, maxAge, reason, now, bound)
  }

  function Run(ops: seq<Op>, bound: int): Files {
    if ops == [] then map[] else Step(Run(ops[..|ops| - 1], bound), ops[|ops| - 1], bound)
  }

  /** Ids are new when an intent opens, and nothing is closed to "open". */
  ghost predicate Legal(ops: seq<Op>, bound: int) {
    ops == [] ||
    (&& Legal(ops[..|ops| - 1], bound)
     && match ops[|ops| - 1]
        case OpenOp(id, _, _, _) => id !in Run(ops[..|ops| - 1], bound)
        case CloseOp(_, status, _, _) => !status.Open?
        case _ => true)
  }

  /** The entries an operation adds to intent `id`. */
  function News(files: Files, op: Op, id: string): seq<Entry> {
    match op
    case OpenOp(x, _, text, now) => if x == id then [NewEntry(OperatorMessage, text, now)] else []
    case EventOp(x, kind, text, now) => if x == id && id in files then [NewEntry(kind, text, now)] else []
    case CloseOp(x, status, reason, now) =>
      if x == id && id in files && files[id].status.Open? then [NewEntry(ClosingKind(status), reason, now)] else []
    case SweepOp(maxAge, reason, now) =>
      if id in files && files[id].status.Open? && IdlePast(files[id], now, maxAge)
      then [NewEntry(IntentExpired, reason, now)] else []
  }

  /** Everything that ever happened to intent `id`. */
  function Trace(ops: seq<Op>, bound: int, id: string): seq<Entry> {
    if ops == [] then []
    else
      var ops' := ops[..|ops| - 1];
      Trace(ops', bound, id) + News(Run(ops', bound), ops[|ops| - 1], id)
  }

  /** What a bound leaves of a trace. */
  function Window(trace: seq<Entry>, bound: int): seq<Entry> {
    if bound < 0 then [] else if bound == 0 || |trace| <= bound then trace else trace[|trace| - bound..]
  }

  lemma WindowGrows(trace: seq<Entry>, e: Entry, bound: int)
    ensures Capped(Window(trace, bound) + [e], bound) == Window(trace + [e], bound)
  {
  }

  /** A positive bound keeps the last entries of the full trace; a bound of zero keeps all of them,
      and a negative one keeps none. */
  lemma {:induction false} HistoryIsWindow(ops: seq<Op>, bound: int, id: string)
    requires Legal(ops, bound)
    ensures id in Run(ops, bound) ==> Run(ops, bound)[id].history == Window(Trace(ops, bound, id), bound)
    ensures id !in Run(ops, bound) ==> Trace(ops, bound, id) == []
  {
    hide Capped, Window;
    if ops != [] {
      var ops', op := ops[..|ops| - 1], ops[|ops| - 1];
      HistoryIsWindow(ops', bound, id);
      var files := Run(ops', bound);
      StepHistory(files, op, bound, id);
      var t, news := Trace(ops', bound, id), News(files, op, id);
      if news == [] {
        assert t + news == t;
      } else {
        assert news == [news[0]];
        WindowGrows(t, news[0], bound);
        WindowOfNothing(bound);
      }
    }
  }

  lemma WindowOfNothing(bound: int)
    ensures Window([], bound) == []
  {
  }

  /** One operation appends its news to a history and cuts it. */
  lemma StepHistory(files: Files, op: Op, bound: int, id: string)
    requires op.OpenOp? ==> op.id !in files
    ensures var files', news := Step(files, op, bound), News(files, op, id);
            && |news| <= 1
            && (id in files' <==> id in files || news != [])
            && (id in files' ==>
                  var before := if id in files then files[id].history else [];
                  files'[id].history == if news == [] then before else Capped(before + news, bound))
  {
  }

  /** So after any run a history has as many entries as the bound lets in: a bound of zero lets in
      everything that ever happened. */
  lemma HistoryIsBounded(ops: seq<Op>, bound: int, id: string)
    requires Legal(ops, bound) && id in Run(ops, bound)
    ensures var n := |Trace(ops, bound, id)|;
            |Run(ops, bound)[id].history| == if bound < 0 then 0 else if bound == 0 || n <= bound then n else bound
  {
    HistoryIsWindow(ops, bound, id);
  }

  // ----- activity and the sweep

  /** An intent's activity time is that of the last thing that happened to it, whatever the bound cuts. */
  lemma {:induction false} ActivityIsLastEntry(ops: seq<Op>, bound: int, id: string)
    requires Legal(ops, bound)
    ensures var trace := Trace(ops, bound, id);
            if id in Run(ops, bound) then trace != [] && Run(ops, bound)[id].lastActivityAt == trace[|trace| - 1].at
            else trace == []
  {
    hide Step, News;
    if ops != [] {
      var ops', op := ops[..|ops| - 1], ops[|ops| - 1];
      ActivityIsLastEntry(ops', bound, id);
      StepActivity(Run(ops', bound), op, bound, id);
      var t, news := Trace(ops', bound, id), News(Run(ops', bound), op, id);
      if news == [] {
        assert t + news == t;
      }
    }
  }

  /** What happens to an intent sets its activity time, and nothing else does. */
  lemma StepActivity(files: Files, op: Op, bound: int, id: string)
    requires op.OpenOp? ==> op.id !in files
    ensures var files', news := Step(files, op, bound), News(files, op, id);
            && |news| <= 1
            && (id in files' <==> id in files || news != [])
            && (id in files' ==> files'[id].lastActivityAt == if news == [] then files[id].lastActivityAt else news[0].at)
  {
    hide Capped, Shorten;
  }

  /** A sweep expires an open intent exactly when the last thing that happened to it is older than the
      maximal age; an intent with an event at or after that moment stays as it is. */
  lemma SweepSparesActive(ops: seq<Op>, bound: int, id: string, maxAge: int, reason: string, now: int)
    requires Legal(ops, bound) && id in Run(ops, bound) && Run(ops, bound)[id].status == Open
    ensures var trace, i := Trace(ops, bound, id), Run(ops, bound)[id];
            var i' := Run(ops + [SweepOp(maxAge, reason, now)], bound)[id];
            trace != []
            && if trace[|trace| - 1].at < now - maxAge then i'.status == Expired && i'.lastActivityAt == now else i' == i
  {
    hide Capped;
    var op := SweepOp(maxAge, reason, now);
    ActivityIsLastEntry(ops, bound, id);
    assert (ops + [op])[..|ops|] == ops;
  }

  /** What an event on a known intent leaves at the end of its history, and what closing it does, under any
      bound that keeps something. */
  lemma LastEntry(ops: seq<Op>, op: Op, bound: int, id: string)
    requires bound >= 0 && id in Run(ops, bound)
    requires (op.EventOp? || (op.CloseOp? && op.status != Open && Run(ops, bound)[id].status == Open)) && op.id == id
    ensures var h := Run(ops + [op], bound)[id].history;
            var text := if op.EventOp? then op.text else op.reason;
            && h != [] && h[|h| - 1].at == op.now
            && h[|h| - 1].text <= text && |h[|h| - 1].text| == (if |text| <= 1000 then |text| else 1000)
            && (op.EventOp? ==> h[|h| - 1].kind == op.kind)
            && (op.CloseOp? && op.status == Resolved ==> h[|h| - 1].kind == IntentResolved)
            && (op.CloseOp? && op.status == Dropped ==> h[|h| - 1].kind == IntentDropped)
            && (op.CloseOp? && op.status == Expired ==> h[|h| - 1].kind == IntentExpired)
  {
    hide Run, Capped;
    RunOneMore(ops, op, bound);
    var files, text := Run(ops, bound), if op.EventOp? then op.text else op.reason;
    var e := NewEntry(if op.EventOp? then op.kind else ClosingKind(op.status), text, op.now);
    NewestIsKept(files[id].history, e, bound);
    assert Run(ops + [op], bound)[id].history == Capped(files[id].history + [e], bound);
  }

  lemma NewestIsKept(h: seq<Entry>, e: Entry, bound: int)
    requires bound >= 0
    ensures var h' := Capped(h + [e], bound);
            h' != [] && h'[|h'| - 1] == e
  {
  }

  lemma RunOneMore(ops: seq<Op>, op: Op, bound: int)
    ensures Run(ops + [op], bound) == Step(Run(ops, bound), op, bound)
  {
    assert (ops + [op])[..|ops|] == ops;
  }

  /** A new intent is open, has the operator's words as its only entry and starts its activity. */
  lemma OpensWithMessage(ops: seq<Op>, id: string, threadTs: string, text: string, now: int, bound: int)
    requires bound >= 0
    ensures var i := Run(ops + [OpenOp(id, threadTs, text, now)], bound);
            && id in i && i[id].status == Open && i[id].threadTs == threadTs && i[id].originalText == text
            && i[id].closureReason == None && i[id].lastActivityAt == now
            && |i[id].history| == 1 && i[id].history[0].kind == OperatorMessage && i[id].history[0].at == now
  {
    hide Run;
    RunOneMore(ops, OpenOp(id, threadTs, text, now), bound);
  }

  // ----- closing is once and for all

  lemma StepKeepsClosure(files: Files, op: Op, bound: int, id: string)
    requires op.OpenOp? ==> op.id !in files
    requires id in files && !files[id].status.Open?
    ensures var files' := Step(files, op, bound);
            && id in files' && files'[id].status == files[id].status && files'[id].closureReason == files[id].closureReason
            && files'[id] == files[id].(history := files'[id].history, lastActivityAt := files'[id].lastActivityAt)
            && (!(op.EventOp? && op.id == id) ==> files'[id] == files[id])
  {
  }

  /** The first closure fixes status and reason for good: later closures and sweeps change nothing
      about the intent, and only its own later events do: they add to its history and move its
      activity time. */
  lemma {:induction false} FirstClosureStands(ops: seq<Op>, more: seq<Op>, bound: int, id: string)
    requires Legal(ops + more, bound)
    requires id in Run(ops, bound) && !Run(ops, bound)[id].status.Open?
    ensures var before, after := Run(ops, bound), Run(ops + more, bound);
            && id in after && after[id].status == before[id].status && after[id].closureReason == before[id].closureReason
            && after[id] == before[id].(history := after[id].history, lastActivityAt := after[id].lastActivityAt)
            && ((forall op :: op in more ==> !(op.EventOp? && op.id == id)) ==> after[id] == before[id])
  {
    hide Step;
    if more == [] {
      assert ops + more == ops;
    } else {
      var n := |more| - 1;
      assert (ops + more)[..|ops + more| - 1] == ops + more[..n];
      FirstClosureStands(ops, more[..n], bound, id);
      StepKeepsClosure(Run(ops + more[..n], bound), more[n], bound, id);
      assert more[n] in more && forall op :: op in more[..n] ==> op in more;
    }
  }

  /** The operation closes the open intent `id`: by a closure of its own, or by a sweep that finds it idle. */
  predicate Closes(files: Files, op: Op, id: string) {
    && id in files && files[id].status.Open?
    && ((op.CloseOp? && op.id == id) || (op.SweepOp? && IdlePast(files[id], op.now, op.maxAge)))
  }

  predicate ClosedBy(i: Intent, op: Op) {
    (op.CloseOp? || op.SweepOp?)
    && i.status == (if op.CloseOp? then op.status else Expired)
    && i.closureReason == if op.reason == "" then None else Some(op.reason)
  }

  lemma StepCloses(files: Files, op: Op, bound: int, id: string)
    requires op.OpenOp? ==> op.id !in files
    requires op.CloseOp? ==> !op.status.Open?
    ensures var files' := Step(files, op, bound);
            && (id in files ==> id in files')
            && (id in files && files[id].status.Open? ==> (!files'[id].status.Open? <==> Closes(files, op, id)))
            && (id !in files && id in files' ==> files'[id].status.Open?)
            && (Closes(files, op, id) ==> id in files && files[id].status.Open? && ClosedBy(files'[id], op))
  {
  }

  /** Operation `k` of the run closes intent `id`. */
  predicate ClosedAt(ops: seq<Op>, bound: int, id: string, k: int) {
    0 <= k < |ops| && Closes(Run(ops[..k], bound), ops[k], id)
  }

  lemma ClosedAtPrefix(ops: seq<Op>, bound: int, id: string, k: int)
    requires ops != []
    ensures var n := |ops| - 1;
            ClosedAt(ops, bound, id, k) <==>
              ClosedAt(ops[..n], bound, id, k) || (k == n && Closes(Run(ops[..n], bound), ops[n], id))
    ensures ClosedAt(ops[..|ops| - 1], bound, id, k) ==> 0 <= k < |ops| - 1 && ops[..|ops| - 1][k] == ops[k]
  {
    hide Closes, Run;
    var n := |ops| - 1;
    if 0 <= k < n {
      assert ops[..n][..k] == ops[..k];
    }
  }

  /** After any run an intent is closed exactly when an operation closed it; only one operation did, and
      the intent says how. */
  lemma {:induction false} ClosedIffClosing(ops: seq<Op>, bound: int, id: string)
    requires Legal(ops, bound)
    ensures (id in Run(ops, bound) && !Run(ops, bound)[id].status.Open?) <==> exists k :: ClosedAt(ops, bound, id, k)
    ensures forall k :: ClosedAt(ops, bound, id, k) ==>
              0 <= k < |ops| && id in Run(ops, bound) && ClosedBy(Run(ops, bound)[id], ops[k])
    ensures forall j, k :: ClosedAt(ops, bound, id, j) && ClosedAt(ops, bound, id, k) ==> j == k
  {
    hide Step, Closes, ClosedBy, ClosedAt;
    if ops == [] {
      NeverClosed(bound, id);
    } else {
      var n := |ops| - 1;
      var files, files' := Run(ops[..n], bound), Run(ops, bound);
      ClosedIffClosing(ops[..n], bound, id);
      StepCloses(files, ops[n], bound, id);
      forall k: int
        ensures ClosedAt(ops, bound, id, k) <==>
                  ClosedAt(ops[..n], bound, id, k) || (k == n && Closes(files, ops[n], id))
        ensures ClosedAt(ops[..n], bound, id, k) ==> 0 <= k < n && ops[..n][k] == ops[k]
      {
        ClosedAtPrefix(ops, bound, id, k);
      }
      if id in files && !files[id].status.Open? {
        StepKeepsClosure(files, ops[n], bound, id);
        forall op ensures ClosedBy(files[id], op) <==> ClosedBy(files'[id], op) {
          SameClosure(files[id], files'[id], op);
        }
        var k :| ClosedAt(ops[..n], bound, id, k);
        assert ClosedAt(ops, bound, id, k);
      } else if Closes(files, ops[n], id) {
        assert ClosedAt(ops, bound, id, n);
      }
    }
  }

  lemma NeverClosed(bound: int, id: string)
    ensures forall k: int :: !ClosedAt([], bound, id, k)
  {
  }

  lemma SameClosure(i: Intent, j: Intent, op: Op)
    requires i.status == j.status && i.closureReason == j.closureReason
    ensures ClosedBy(i, op) <==> ClosedBy(j, op)
  {
  }
}
