/** The hourly batch of disagreements put before the operator: at most two rows a sender,
    dealt round-robin over the predicted buckets, and never the same row twice. */
module BatchDisagreements {
  import opened Options
  import opened OrderedDict

  datatype Row = Row(id: string, fromEmail: string, listUnsubscribe: bool, bucket: string, batchId: Option<string>)

  // ----- eligibility

  function LowerChar(c: char): char {
    if 'A' <= c <= 'Z' then c - 'A' + 'a' else c
  }

  function Lower(s: string): string {
    if s == "" then "" else [LowerChar(s[0])] + Lower(s[1..])
  }

  /** The part after the last '@', or everything. */
  function Domain(s: string): string {
    if s == "" then ""
    else if s[|s| - 1] == '@' then ""
    else Domain(s[..|s| - 1]) + [s[|s| - 1]]
  }

  predicate ClassifierHandled(r: Row, internalDomains: set<string>) {
    var fe := Lower(r.fromEmail);
    || fe == ""
    || Domain(fe) in internalDomains
    || "no-reply@" <= fe || "noreply@" <= fe || "no-reply-" <= fe || "donotreply@" <= fe || "do-not-reply@" <= fe
    || r.listUnsubscribe
  }

  function Eligible(internalDomains: set<string>): Row -> bool {
    (r: Row) => !ClassifierHandled(r, internalDomains)
  }

  function SenderOf(r: Row): string { Lower(r.fromEmail) }

  function BucketOf(r: Row): string { r.bucket }

  function SenderIs(s: string): Row -> bool { (r: Row) => SenderOf(r) == s }

  function BucketIs(b: string): Row -> bool { (r: Row) => r.bucket == b }

  predicate StartsWith(s: string, prefix: string) { |prefix| <= |s| && s[..|prefix|] == prefix }

  /** In the row's own fields: a row is eligible exactly when it has an address, of no internal domain and of
      no automatic sender, and no list to unsubscribe from. */
  lemma EligibleIff(r: Row, internalDomains: set<string>)
    ensures Eligible(internalDomains)(r) <==>
              var fe := Lower(r.fromEmail);
              && r.fromEmail != "" && !r.listUnsubscribe && Domain(fe) !in internalDomains
              && !StartsWith(fe, "no-reply@") && !StartsWith(fe, "noreply@") && !StartsWith(fe, "no-reply-")
              && !StartsWith(fe, "donotreply@") && !StartsWith(fe, "do-not-reply@")
  {
    hide Domain;
    LowerOfNothing(r.fromEmail);
    PrefixIsStart("no-reply@", Lower(r.fromEmail));
    PrefixIsStart("noreply@", Lower(r.fromEmail));
    PrefixIsStart("no-reply-", Lower(r.fromEmail));
    PrefixIsStart("donotreply@", Lower(r.fromEmail));
    PrefixIsStart("do-not-reply@", Lower(r.fromEmail));
  }

  lemma LowerOfNothing(s: string)
    ensures Lower(s) == "" <==> s == ""
  {
  }

  lemma PrefixIsStart(a: string, b: string)
    ensures a <= b <==> StartsWith(b, a)
  {
  }

  // ----- groups

  /** All keys are present: what a dictionary's own keys are. */
  ghost predicate Keyed(keys: seq<string>, m: map<string, seq<Row>>) {
    Distinct(keys) && forall k :: k in keys ==> k in m
  }

  function Flat(keys: seq<string>, m: map<string, seq<Row>>): seq<Row>
    requires forall k :: k in keys ==> k in m
  {
    if keys == [] then [] else Flat(keys[..|keys| - 1], m) + m[keys[|keys| - 1]]
  }

  function FirstTwo(rows: seq<Row>): seq<Row> {
    if |rows| <= 2 then rows else rows[..2]
  }

  function Capped(keys: seq<string>, m: map<string, seq<Row>>): seq<Row>
    requires forall k :: k in keys ==> k in m
  {
    if keys == [] then [] else Capped(keys[..|keys| - 1], m) + FirstTwo(m[keys[|keys| - 1]])
  }

  function CapSenders(rows: seq<Row>): seq<Row> {
    var d := GroupBy(SenderOf, rows);
    Capped(d.keys, d.vals)
  }

  lemma AddToBoth(a: multiset<Row>, b: multiset<Row>, c: multiset<Row>, d: multiset<Row>, e: multiset<Row>)
    requires a + b == c + d
    ensures (a + e) + b == (c + e) + d
  {
    forall r: Row ensures ((a + e) + b)[r] == ((c + e) + d)[r] {
      assert (a + b)[r] == (c + d)[r];
    }
  }

  lemma CancelFromBoth(a: multiset<Row>, b: multiset<Row>, c: multiset<Row>, e: multiset<Row>)
    requires a + b == c + (b + e)
    ensures a == c + e
  {
    forall r: Row ensures a[r] == (c + e)[r] {
      assert (a + b)[r] == (c + (b + e))[r];
    }
  }

  lemma {:induction false} FlatIgnores(keys: seq<string>, m: map<string, seq<Row>>, k: string, v: seq<Row>)
    requires Keyed(keys, m) && k !in keys
    ensures Flat(keys, m[k := v]) == Flat(keys, m)
  {
    if keys != [] {
      FlatIgnores(keys[..|keys| - 1], m, k, v);
    }
  }

  lemma FlatNewKey(keys: seq<string>, m: map<string, seq<Row>>, k: string, v: seq<Row>)
    requires Keyed(keys, m) && k !in keys
    ensures Flat(keys + [k], m[k := v]) == Flat(keys, m) + v
  {
    FlatIgnores(keys, m, k, v);
    assert (keys + [k])[..|keys|] == keys;
  }

  lemma {:induction false} FlatUpdate(keys: seq<string>, m: map<string, seq<Row>>, k: string, v: seq<Row>)
    requires Keyed(keys, m) && k in keys
    ensures multiset(Flat(keys, m[k := v])) + multiset(m[k]) == multiset(Flat(keys, m)) + multiset(v)
  {
    var n := |keys| - 1;
    var m' := m[k := v];
    assert multiset(Flat(keys, m)) == multiset(Flat(keys[..n], m)) + multiset(m[keys[n]]);
    assert multiset(Flat(keys, m')) == multiset(Flat(keys[..n], m')) + multiset(m'[keys[n]]);
    if keys[n] == k {
      FlatIgnores(keys[..n], m, k, v);
    } else {
      FlatUpdate(keys[..n], m, k, v);
      AddToBoth(multiset(Flat(keys[..n], m')), multiset(m[k]), multiset(Flat(keys[..n], m)), multiset(v),
                multiset(m[keys[n]]));
    }
  }

  /** Grouping loses and duplicates nothing. */
  lemma {:induction false} GroupsKeepRows(key: Row -> string, xs: seq<Row>)
    ensures var d := GroupBy(key, xs);
            Keyed(d.keys, d.vals) && multiset(Flat(d.keys, d.vals)) == multiset(xs)
  {
    hide Flat;
    if xs == [] {
      FlatOfNothing([], map[]);
    } else {
      var n := |xs| - 1;
      var x := xs[n];
      GroupsKeepRows(key, xs[..n]);
      var d := GroupBy(key, xs[..n]);
      assert xs == xs[..n] + [x];
      if key(x) in d.vals {
        FlatUpdate(d.keys, d.vals, key(x), d.vals[key(x)] + [x]);
        assert multiset(d.vals[key(x)] + [x]) == multiset(d.vals[key(x)]) + multiset([x]);
        CancelFromBoth(multiset(Flat(d.keys, GroupBy(key, xs).vals)), multiset(d.vals[key(x)]),
                       multiset(xs[..n]), multiset([x]));
      } else {
        assert [] + [x] == [x];
        FlatNewKey(d.keys, d.vals, key(x), [x]);
      }
    }
  }

  /** Every row of a group has the group's key. */
  lemma GroupRows(key: Row -> string, xs: seq<Row>, k: string)
    requires k in GroupBy(key, xs).vals
    ensures forall r :: r in GroupBy(key, xs).vals[k] ==> key(r) == k
  {
    GroupIsFilter(key, xs, k);
  }

  // ----- the deal

  /** The rows dealt before position `pos` of round `round`: each round takes the next row of
      every bucket that still has one, in the order of the buckets. */
  function Dealt(keys: seq<string>, m: map<string, seq<Row>>, round: nat, pos: nat): seq<Row>
    requires pos <= |keys| && forall k :: k in keys ==> k in m
    decreases round, pos
  {
    if pos > 0 then
      var rows := m[keys[pos - 1]];
      if round < |rows| then Dealt(keys, m, round, pos - 1) + [rows[round]] else Dealt(keys, m, round, pos - 1)
    else if round > 0 then Dealt(keys, m, round - 1, |keys|)
    else []
  }

  function Min(a: int, b: int): int { if a <= b then a else b }

  /** How many rows of bucket `i` have been dealt by then. */
  function Taken(keys: seq<string>, m: map<string, seq<Row>>, i: nat, round: nat, pos: nat): int
    requires i < |keys| && keys[i] in m
  {
    Min(|m[keys[i]]|, if i < pos then round + 1 else round)
  }

  lemma {:induction false} DealtIsPrefix(keys: seq<string>, m: map<string, seq<Row>>, i: nat, round: nat, pos: nat)
    requires i < |keys| && pos <= |keys| && Keyed(keys, m)
    requires forall k, r :: k in keys && r in m[k] ==> BucketOf(r) == k
    ensures Filter(BucketIs(keys[i]), Dealt(keys, m, round, pos)) == m[keys[i]][..Taken(keys, m, i, round, pos)]
    decreases round, pos
  {
    hide Filter;
    if pos > 0 {
      DealtIsPrefix(keys, m, i, round, pos - 1);
      var k := keys[pos - 1];
      if round < |m[k]| {
        assert k in keys && m[k][round] in m[k];
        FilterSnoc(BucketIs(keys[i]), Dealt(keys, m, round, pos - 1), m[k][round]);
        assert BucketOf(m[k][round]) == k;
        assert BucketIs(keys[i])(m[k][round]) <==> i == pos - 1;
        assert m[k][..round + 1] == m[k][..round] + [m[k][round]];
      }
    } else if round > 0 {
      DealtIsPrefix(keys, m, i, round - 1, |keys|);
    } else {
      FilterNone(BucketIs(keys[i]), []);
    }
  }

  /** A batch dealt from buckets `m`: it is the deal at some point, stopped by the cap or by
      the buckets running out. */
  ghost predicate RoundRobin(keys: seq<string>, m: map<string, seq<Row>>, cap: int, selected: seq<Row>)
    requires Keyed(keys, m)
  {
    && |selected| == Min(if cap < 0 then 0 else cap, |Flat(keys, m)|)
    && multiset(selected) <= multiset(Flat(keys, m))
    && exists round: nat, pos: nat :: pos <= |keys| && selected == Dealt(keys, m, round, pos)
  }

  lemma {:induction false} FlatOfNothing(keys: seq<string>, m: map<string, seq<Row>>)
    requires forall k :: k in keys ==> k in m && m[k] == []
    ensures Flat(keys, m) == []
  {
    if keys != [] {
      FlatOfNothing(keys[..|keys| - 1], m);
    }
  }

  lemma {:induction false} FlatHas(keys: seq<string>, m: map<string, seq<Row>>, i: nat)
    requires i < |keys| && (forall k :: k in keys ==> k in m) && m[keys[i]] != []
    ensures Flat(keys, m) != []
  {
    var n := |keys| - 1;
    if i < n {
      assert keys[..n][i] == keys[i];
      FlatHas(keys[..n], m, i);
    }
  }

  predicate AnyLeft(keys: seq<string>, m: map<string, seq<Row>>)
    requires forall k :: k in keys ==> k in m
  {
    exists i :: 0 <= i < |keys| && m[keys[i]] != []
  }

  /** What the deal leaves in the buckets at a point. */
  ghost predicate Leftover(keys: seq<string>, m: map<string, seq<Row>>, rest: map<string, seq<Row>>,
                           round: nat, pos: nat)
    requires Keyed(keys, m) && pos <= |keys|
  {
    Keyed(keys, rest)
    && forall i :: 0 <= i < |keys| ==> rest[keys[i]] == m[keys[i]][Taken(keys, m, i, round, pos)..]
  }

  method Deal(d: Dict<string, seq<Row>>, cap: int) returns (selected: seq<Row>)
    requires Valid(d)
    ensures Keyed(d.keys, d.vals) && RoundRobin(d.keys, d.vals, cap, selected)
  {
    hide Dealing, Flat, AnyLeft;
    var rest := d.vals;
    selected := [];
    ghost var round, pos := 0, 0;
    DealStart(d);
    while |selected| < cap && AnyLeft(d.keys, rest)
      invariant Keyed(d.keys, d.vals) && Keyed(d.keys, rest)
      invariant Dealing(d.keys, d.vals, rest, round, pos, selected)
      invariant |selected| < cap ==> pos == 0
      invariant 0 < |selected| ==> |selected| <= cap
      decreases cap - |selected|
    {
      selected, rest, pos := DealRound(d.keys, d.vals, rest, selected, cap, round);
      InBuckets(d.keys, d.vals, rest, round, pos, selected);
      if pos == |d.keys| {
        NextRound(d.keys, d.vals, rest, round, selected);
        round, pos := round + 1, 0;
      }
    }
    Stopped(d.keys, d.vals, rest, round, pos, selected);
    if |selected| < cap {
      NothingLeft(d.keys, rest);
    }
  }

  lemma DealStart(d: Dict<string, seq<Row>>)
    requires Valid(d)
    ensures Dealing(d.keys, d.vals, d.vals, 0, 0, [])
  {
  }

  lemma NothingLeft(keys: seq<string>, m: map<string, seq<Row>>)
    requires Keyed(keys, m) && !AnyLeft(keys, m)
    ensures Flat(keys, m) == []
  {
    forall k | k in keys ensures m[k] == [] {
      var i :| 0 <= i < |keys| && keys[i] == k;
    }
    FlatOfNothing(keys, m);
  }

  /** The state of a deal: what was dealt, and that nothing is lost or dealt twice. */
  ghost predicate Dealing(keys: seq<string>, m: map<string, seq<Row>>, rest: map<string, seq<Row>>,
                          round: nat, pos: nat, selected: seq<Row>)
  {
    && Keyed(keys, m) && pos <= |keys| && Leftover(keys, m, rest, round, pos)
    && selected == Dealt(keys, m, round, pos)
    && multiset(selected) + multiset(Flat(keys, rest)) == multiset(Flat(keys, m))
  }

  /** The inner loop: one round over the buckets. */
  method DealRound(keys: seq<string>, ghost m: map<string, seq<Row>>, rest0: map<string, seq<Row>>,
                   selected0: seq<Row>, cap: int, ghost round: nat)
      returns (selected: seq<Row>, rest: map<string, seq<Row>>, ghost pos: nat)
    requires Dealing(keys, m, rest0, round, 0, selected0)
    requires |selected0| < cap && AnyLeft(keys, rest0)
    ensures Dealing(keys, m, rest, round, pos, selected)
    ensures |selected0| < |selected| <= cap
    ensures |selected| < cap ==> pos == |keys|
  {
    hide Dealing;
    selected, rest, pos := selected0, rest0, 0;
    var j := 0;
    InBuckets(keys, m, rest0, round, pos, selected0);
    while j < |keys|
      invariant j == pos <= |keys| && Dealing(keys, m, rest, round, pos, selected)
      invariant |selected0| <= |selected| <= cap
      invariant |selected| == |selected0| ==> rest == rest0 && forall i :: 0 <= i < j ==> rest[keys[i]] == []
    {
      if |selected| >= cap {
        break;
      }
      InBuckets(keys, m, rest, round, pos, selected);
      DealOne(keys, m, rest, round, pos, selected);
      var bucket := keys[j];
      if rest[bucket] != [] {
        selected := selected + [rest[bucket][0]];
        rest := rest[bucket := rest[bucket][1..]];
      }
      pos := pos + 1;
      j := j + 1;
    }
  }

  lemma InBuckets(keys: seq<string>, m: map<string, seq<Row>>, rest: map<string, seq<Row>>, round: nat, pos: nat,
                  selected: seq<Row>)
    requires Dealing(keys, m, rest, round, pos, selected)
    ensures Keyed(keys, m) && Keyed(keys, rest) && pos <= |keys|
  {
  }

  lemma NextRound(keys: seq<string>, m: map<string, seq<Row>>, rest: map<string, seq<Row>>, round: nat,
                  selected: seq<Row>)
    requires Dealing(keys, m, rest, round, |keys|, selected)
    ensures Dealing(keys, m, rest, round + 1, 0, selected)
  {
  }

  lemma DealOne(keys: seq<string>, m: map<string, seq<Row>>, rest: map<string, seq<Row>>, round: nat, pos: nat,
                selected: seq<Row>)
    requires Dealing(keys, m, rest, round, pos, selected) && pos < |keys|
    ensures var k := keys[pos];
            if rest[k] == [] then Dealing(keys, m, rest, round, pos + 1, selected)
            else Dealing(keys, m, rest[k := rest[k][1..]], round, pos + 1, selected + [rest[k][0]])
  {
    hide Flat;
    var k := keys[pos];
    if rest[k] != [] {
      var x, xs := rest[k][0], rest[k][1..];
      FlatUpdate(keys, rest, k, xs);
      assert rest[k] == [x] + xs;
      var before, after := multiset(Flat(keys, rest)), multiset(Flat(keys, rest[k := xs]));
      assert multiset(rest[k]) == multiset(xs) + multiset([x]);
      CancelFromBoth(before, multiset(xs), after, multiset([x]));
      assert multiset(selected + [x]) + after == multiset(selected) + before;
      LeftoverOne(keys, m, rest, round, pos);
    }
  }

  lemma LeftoverOne(keys: seq<string>, m: map<string, seq<Row>>, rest: map<string, seq<Row>>, round: nat, pos: nat)
    requires Keyed(keys, m) && pos < |keys| && Leftover(keys, m, rest, round, pos) && rest[keys[pos]] != []
    ensures Leftover(keys, m, rest[keys[pos] := rest[keys[pos]][1..]], round, pos + 1)
    ensures round < |m[keys[pos]]| && rest[keys[pos]][0] == m[keys[pos]][round]
  {
    var k := keys[pos];
    var rest' := rest[k := rest[k][1..]];
    forall i | 0 <= i < |keys| ensures rest'[keys[i]] == m[keys[i]][Taken(keys, m, i, round, pos + 1)..] {
      assert rest[keys[i]] == m[keys[i]][Taken(keys, m, i, round, pos)..];
      if i != pos {
        assert if i < pos then keys[i] != keys[pos] else keys[pos] != keys[i];
      }
    }
  }

  lemma Stopped(keys: seq<string>, m: map<string, seq<Row>>, rest: map<string, seq<Row>>, round: nat, pos: nat,
                selected: seq<Row>)
    requires Dealing(keys, m, rest, round, pos, selected)
    ensures Keyed(keys, m) && Keyed(keys, rest)
    ensures multiset(selected) <= multiset(Flat(keys, m))
    ensures |selected| <= |Flat(keys, m)|
    ensures Flat(keys, rest) == [] ==> |selected| == |Flat(keys, m)|
    ensures pos <= |keys| && selected == Dealt(keys, m, round, pos)
  {
    hide Flat, Dealt;
    assert |multiset(selected)| + |multiset(Flat(keys, rest))| == |multiset(Flat(keys, m))|;
  }

  // ----- the selection

  /** What `_select_batch` may return for the rows it is given. */
  ghost predicate BatchOf(rows: seq<Row>, internalDomains: set<string>, cap: int, selected: seq<Row>) {
    var d := GroupBy(BucketOf, CapSenders(Filter(Eligible(internalDomains), rows)));
    Keyed(d.keys, d.vals) && RoundRobin(d.keys, d.vals, cap, selected)
  }

  method GroupRowsBy(key: Row -> string, rows: seq<Row>) returns (d: Dict<string, seq<Row>>)
    ensures d == GroupBy(key, rows)
  {
    d := Empty();
    for i := 0 to |rows|
      invariant d == GroupBy(key, rows[..i])
    {
      assert rows[..i + 1][..i] == rows[..i];
      d := Put(d, key(rows[i]), GetOr(d, key(rows[i]), []) + [rows[i]]);
    }
    assert rows[..|rows|] == rows;
  }

  method SelectBatch(rows: seq<Row>, cap: int, internalDomains: set<string>) returns (selected: seq<Row>)
    ensures BatchOf(rows, internalDomains, cap, selected)
  {
    hide Filter, GroupBy, RoundRobin;
    var eligible := Filter(Eligible(internalDomains), rows);
    var bySender := GroupRowsBy(SenderOf, eligible);
    var capped := [];
    var keys := bySender.keys;
    for i := 0 to |keys|
      invariant capped == Capped(keys[..i], bySender.vals)
    {
      assert keys[..i + 1][..i] == keys[..i];
      capped := capped + FirstTwo(bySender.vals[keys[i]]);
    }
    assert keys[..|keys|] == keys;
    var byBucket := GroupRowsBy(BucketOf, capped);
    selected := Deal(byBucket, cap);
  }

  lemma {:induction false} CappedRows(keys: seq<string>, m: map<string, seq<Row>>, s: string)
    requires Keyed(keys, m)
    requires forall k, r :: k in keys && r in m[k] ==> SenderOf(r) == k
    ensures Filter(SenderIs(s), Capped(keys, m)) == if s in keys then FirstTwo(m[s]) else []
    ensures multiset(Capped(keys, m)) <= multiset(Flat(keys, m))
  {
    hide Filter;
    if keys == [] {
      FilterNone(SenderIs(s), []);
    } else {
      var n := |keys| - 1;
      var k := keys[n];
      CappedRows(keys[..n], m, s);
      FilterConcat(SenderIs(s), Capped(keys[..n], m), FirstTwo(m[k]));
      assert k in keys && forall r :: r in FirstTwo(m[k]) ==> r in m[k];
      assert m[k] == FirstTwo(m[k]) + m[k][|FirstTwo(m[k])|..];
      if k == s {
        FilterAll(SenderIs(s), FirstTwo(m[k]));
      } else {
        FilterNone(SenderIs(s), FirstTwo(m[k]));
      }
    }
  }

  /** Capping keeps exactly the first two rows of every sender, or the one there is. */
  lemma CapSendersKeepsFirstTwo(rows: seq<Row>, s: string)
    ensures var all := Filter(SenderIs(s), rows);
            Filter(SenderIs(s), CapSenders(rows)) == all[..Min(2, |all|)]
    ensures multiset(CapSenders(rows)) <= multiset(rows)
  {
    hide Filter, Flat, Capped, GroupBy;
    var d := GroupBy(SenderOf, rows);
    GroupsKeepRows(SenderOf, rows);
    forall k | k in d.keys ensures forall r :: r in d.vals[k] ==> SenderOf(r) == k {
      GroupRows(SenderOf, rows, k);
    }
    CappedRows(d.keys, d.vals, s);
    SenderGroup(rows, s);
  }

  /** The capped rows are grouped by sender, the sender of the first row before all others. */
  lemma CappedBySender(rows: seq<Row>)
    requires rows != []
    ensures var s := SenderOf(rows[0]);
            var all := Filter(SenderIs(s), rows);
            CapSenders(rows) == all[..Min(2, |all|)] + CapSenders(Filter(Unlike(SenderOf, s), rows))
  {
    hide Filter, GroupBy, Capped;
    var s := SenderOf(rows[0]);
    FirstGroup(SenderOf, rows);
    var d, d' := GroupBy(SenderOf, rows), GroupBy(SenderOf, Filter(Unlike(SenderOf, s), rows));
    SenderGroup(rows, s);
    CappedSplits(s, d'.keys, d.vals, d'.vals);
  }

  lemma {:induction false} CappedSplits(s: string, keys: seq<string>, m: map<string, seq<Row>>, m': map<string, seq<Row>>)
    requires s in m && forall k :: k in keys ==> k in m && k in m' && m[k] == m'[k]
    ensures Capped([s] + keys, m) == FirstTwo(m[s]) + Capped(keys, m')
  {
    hide FirstTwo;
    if keys == [] {
      assert [s] + keys == [s] && [s][..0] == [];
      assert Capped([s], m) == Capped([], m) + FirstTwo(m[s]);
    } else {
      var n := |keys| - 1;
      CappedSplits(s, keys[..n], m, m');
      assert ([s] + keys)[..n + 1] == [s] + keys[..n];
    }
  }

  lemma SenderGroup(rows: seq<Row>, s: string)
    ensures GetOr(GroupBy(SenderOf, rows), s, []) == Filter(SenderIs(s), rows)
  {
    GroupIsFilter(SenderOf, rows, s);
    SameFilter(r => SenderOf(r) == s, SenderIs(s), rows);
  }

  lemma BucketGroup(rows: seq<Row>, b: string)
    ensures GetOr(GroupBy(BucketOf, rows), b, []) == Filter(BucketIs(b), rows)
  {
    GroupIsFilter(BucketOf, rows, b);
    SameFilter(r => BucketOf(r) == b, BucketIs(b), rows);
  }

  lemma {:induction false} SameFilter(p: Row -> bool, q: Row -> bool, rows: seq<Row>)
    requires forall r :: p(r) == q(r)
    ensures Filter(p, rows) == Filter(q, rows)
  {
    if rows != [] {
      SameFilter(p, q, rows[..|rows| - 1]);
    }
  }

  lemma FilterNoLarger(p: Row -> bool, a: seq<Row>, b: seq<Row>)
    requires multiset(a) <= multiset(b)
    ensures |Filter(p, a)| <= |Filter(p, b)|
  {
    var fa, fb := multiset(Filter(p, a)), multiset(Filter(p, b));
    forall r: Row ensures fa[r] <= fb[r] {
      FilterCounts(p, a, r);
      FilterCounts(p, b, r);
    }
    assert fb == fa + (fb - fa);
  }

  /** A batch has as many rows as the cap and the capped senders allow, all of them eligible
      rows of the queue, each taken once, and at most two of one sender. */
  lemma BatchBounds(rows: seq<Row>, internalDomains: set<string>, cap: int, selected: seq<Row>, s: string)
    requires BatchOf(rows, internalDomains, cap, selected)
    ensures var capped := CapSenders(Filter(Eligible(internalDomains), rows));
            |selected| == Min(if cap < 0 then 0 else cap, |capped|)
    ensures multiset(selected) <= multiset(rows)
    ensures forall r :: r in selected ==> !ClassifierHandled(r, internalDomains)
    ensures |Filter(SenderIs(s), selected)| <= 2
  {
    hide Filter, GroupBy, Flat, ClassifierHandled;
    var eligible := Filter(Eligible(internalDomains), rows);
    var capped := CapSenders(eligible);
    GroupsKeepRows(BucketOf, capped);
    var d := GroupBy(BucketOf, capped);
    assert |multiset(Flat(d.keys, d.vals))| == |multiset(capped)|;
    CapSendersKeepsFirstTwo(eligible, s);
    FilterNoLarger(SenderIs(s), selected, capped);
    forall r: Row ensures multiset(eligible)[r] <= multiset(rows)[r] {
      FilterCounts(Eligible(internalDomains), rows, r);
    }
    forall r | r in selected ensures !ClassifierHandled(r, internalDomains) {
      assert multiset(selected)[r] > 0;
      assert multiset(eligible)[r] > 0;
      assert r in eligible;
    }
  }

  /** A selected row has at most one earlier eligible row of its sender. */
  lemma SelectedIsEarly(rows: seq<Row>, internalDomains: set<string>, cap: int, selected: seq<Row>, r: Row)
      returns (k: nat)
    requires BatchOf(rows, internalDomains, cap, selected) && r in selected
    ensures var eligible := Filter(Eligible(internalDomains), rows);
            k < |eligible| && eligible[k] == r && |Filter(SenderIs(SenderOf(r)), eligible[..k])| <= 1
  {
    hide Filter, GroupBy, Flat, ClassifierHandled, Capped;
    var eligible, s := Filter(Eligible(internalDomains), rows), SenderOf(r);
    var capped := CapSenders(eligible);
    GroupsKeepRows(BucketOf, capped);
    assert multiset(selected)[r] > 0 && multiset(capped)[r] > 0;
    CapSendersKeepsFirstTwo(eligible, s);
    assert r in capped && SenderIs(s)(r);
    var all := Filter(SenderIs(s), eligible);
    var j :| 0 <= j < Min(2, |all|) && all[..Min(2, |all|)][j] == r;
    k := FilterPosition(SenderIs(s), eligible, j);
  }

  /** The letters are the same, in capitals or not. */
  predicate SameLetter(a: char, b: char) {
    a == b || ('A' <= a <= 'Z' && b == a - 'A' + 'a') || ('A' <= b <= 'Z' && a == b - 'A' + 'a')
  }

  predicate SameAddress(a: string, b: string) {
    |a| == |b| && forall i :: 0 <= i < |a| ==> SameLetter(a[i], b[i])
  }

  /** The domain is what follows the last '@', or the whole text. */
  lemma {:induction false} DomainIsLastPart(s: string)
    ensures '@' !in Domain(s)
    ensures Domain(s) == s || exists i :: 0 <= i < |s| && s[i] == '@' && s[i + 1..] == Domain(s)
  {
    if s != "" && s[|s| - 1] != '@' {
      var n := |s| - 1;
      DomainIsLastPart(s[..n]);
      if Domain(s[..n]) == s[..n] {
        assert s == s[..n] + [s[n]];
      } else {
        var i :| 0 <= i < n && s[..n][i] == '@' && s[..n][i + 1..] == Domain(s[..n]);
        assert s[i] == '@' && s[i + 1..] == s[..n][i + 1..] + [s[n]];
      }
    } else if s != "" {
      assert s[|s| - 1] == '@' && s[|s|..] == "";
    }
  }

  lemma {:induction false} LowerIffSameAddress(a: string, b: string)
    ensures Lower(a) == Lower(b) <==> SameAddress(a, b)
  {
    if a != "" && b != "" {
      LowerIffSameAddress(a[1..], b[1..]);
      assert Lower(a)[0] == LowerChar(a[0]) && Lower(a)[1..] == Lower(a[1..]);
      assert Lower(b)[0] == LowerChar(b[0]) && Lower(b)[1..] == Lower(b[1..]);
      if SameAddress(a, b) {
        forall i | 0 <= i < |a| - 1 ensures SameLetter(a[1..][i], b[1..][i]) {
          assert a[1..][i] == a[i + 1] && b[1..][i] == b[i + 1];
        }
      } else if |a| == |b| && SameLetter(a[0], b[0]) {
        var i :| 0 <= i < |a| && !SameLetter(a[i], b[i]);
        assert a[1..][i - 1] == a[i] && b[1..][i - 1] == b[i];
      }
    }
  }

  function SameSenderAs(r: Row): Row -> bool { (q: Row) => SameAddress(q.fromEmail, r.fromEmail) }

  /** A batch has at most two rows whose addresses differ in nothing but capitals. */
  lemma TwoOfAnAddress(rows: seq<Row>, internalDomains: set<string>, cap: int, selected: seq<Row>, r: Row)
    requires BatchOf(rows, internalDomains, cap, selected)
    ensures |Filter(SameSenderAs(r), selected)| <= 2
  {
    hide Filter, BatchOf, Lower, SameAddress;
    BatchBounds(rows, internalDomains, cap, selected, SenderOf(r));
    forall q: Row ensures SameSenderAs(r)(q) == SenderIs(SenderOf(r))(q) {
      LowerIffSameAddress(q.fromEmail, r.fromEmail);
    }
    SameFilter(SameSenderAs(r), SenderIs(SenderOf(r)), selected);
  }

  /** Within every bucket a batch takes the first rows, and it is fair between buckets: one gets
      at least two rows fewer than another only when all its rows were taken. */
  lemma BatchIsFair(rows: seq<Row>, internalDomains: set<string>, cap: int, selected: seq<Row>, a: string, b: string)
    requires BatchOf(rows, internalDomains, cap, selected)
    ensures var capped := CapSenders(Filter(Eligible(internalDomains), rows));
            var inA, inB := Filter(BucketIs(a), selected), Filter(BucketIs(b), selected);
            && inA <= Filter(BucketIs(a), capped)
            && (|inA| + 1 < |inB| ==> inA == Filter(BucketIs(a), capped))
  {
    hide Filter, GroupBy, Flat, Dealt;
    var capped := CapSenders(Filter(Eligible(internalDomains), rows));
    var d := GroupBy(BucketOf, capped);
    var round: nat, pos: nat :| pos <= |d.keys| && selected == Dealt(d.keys, d.vals, round, pos);
    BucketDealt(capped, round, pos, a);
    BucketDealt(capped, round, pos, b);
  }

  /** Bucket `a` is seen before bucket `b`. */
  ghost predicate SeenBefore(rows: seq<Row>, a: string, b: string) {
    exists k :: 0 <= k < |rows| && BucketOf(rows[k]) == a && forall j :: 0 <= j <= k ==> BucketOf(rows[j]) != b
  }

  /** In every round the bucket seen first is served first: an earlier one trails a later one only when
      all its rows were taken. */
  lemma EarlierBucketFirst(rows: seq<Row>, internalDomains: set<string>, cap: int, selected: seq<Row>, a: string, b: string)
    requires BatchOf(rows, internalDomains, cap, selected)
    requires SeenBefore(CapSenders(Filter(Eligible(internalDomains), rows)), a, b)
    ensures var capped := CapSenders(Filter(Eligible(internalDomains), rows));
            var inA, inB := Filter(BucketIs(a), selected), Filter(BucketIs(b), selected);
            |inA| < |inB| ==> inA == Filter(BucketIs(a), capped)
  {
    hide Filter, GroupBy, Flat, Dealt, CapSenders;
    var capped := CapSenders(Filter(Eligible(internalDomains), rows));
    var d := GroupBy(BucketOf, capped);
    var round: nat, pos: nat :| pos <= |d.keys| && selected == Dealt(d.keys, d.vals, round, pos);
    forall k | k in d.keys ensures forall r :: r in d.vals[k] ==> BucketOf(r) == k {
      GroupRows(BucketOf, capped, k);
    }
    BucketGroup(capped, a);
    BucketGroup(capped, b);
    var i := SeenIndex(capped, a, b);
    DealtIsPrefix(d.keys, d.vals, i, round, pos);
    if b in d.keys {
      var j :| 0 <= j < |d.keys| && d.keys[j] == b;
      DealtIsPrefix(d.keys, d.vals, j, round, pos);
    } else {
      NotDealt(d.keys, d.vals, round, pos, b);
    }
  }

  lemma SeenIndex(rows: seq<Row>, a: string, b: string) returns (i: nat)
    requires SeenBefore(rows, a, b)
    ensures i < |GroupBy(BucketOf, rows).keys| && GroupBy(BucketOf, rows).keys[i] == a
    ensures forall j :: 0 <= j <= i ==> GroupBy(BucketOf, rows).keys[j] != b
  {
    hide GroupBy;
    var k :| 0 <= k < |rows| && BucketOf(rows[k]) == a && forall j :: 0 <= j <= k ==> BucketOf(rows[j]) != b;
    var early := rows[..k + 1];
    assert early[k] == rows[k] && early + rows[k + 1..] == rows;
    GroupHasKey(BucketOf, early, a);
    GroupHasKey(BucketOf, early, b);
    GroupKeysGrow(BucketOf, early, rows[k + 1..]);
    i :| 0 <= i < |GroupBy(BucketOf, early).keys| && GroupBy(BucketOf, early).keys[i] == a;
  }

  lemma BucketDealt(capped: seq<Row>, round: nat, pos: nat, b: string)
    requires pos <= |GroupBy(BucketOf, capped).keys|
    requires Keyed(GroupBy(BucketOf, capped).keys, GroupBy(BucketOf, capped).vals)
    ensures var d := GroupBy(BucketOf, capped);
            var all, dealt := Filter(BucketIs(b), capped), Filter(BucketIs(b), Dealt(d.keys, d.vals, round, pos));
            exists n: nat :: round <= n <= round + 1 && dealt == all[..Min(|all|, n)]
  {
    hide Filter, GroupBy, Flat, Dealt;
    var d := GroupBy(BucketOf, capped);
    BucketGroup(capped, b);
    forall k | k in d.keys ensures forall r :: r in d.vals[k] ==> BucketOf(r) == k {
      GroupRows(BucketOf, capped, k);
    }
    var all := Filter(BucketIs(b), capped);
    if b in d.keys {
      var i :| 0 <= i < |d.keys| && d.keys[i] == b;
      DealtIsPrefix(d.keys, d.vals, i, round, pos);
      var n := if i < pos then round + 1 else round;
      assert round <= n <= round + 1;
    } else {
      NotDealt(d.keys, d.vals, round, pos, b);
      assert all == [] && all[..Min(|all|, round)] == [];
    }
  }

  lemma {:induction false} NotDealt(keys: seq<string>, m: map<string, seq<Row>>, round: nat, pos: nat, b: string)
    requires pos <= |keys| && Keyed(keys, m) && b !in keys
    requires forall k, r :: k in keys && r in m[k] ==> BucketOf(r) == k
    ensures Filter(BucketIs(b), Dealt(keys, m, round, pos)) == []
    decreases round, pos
  {
    hide Filter;
    if pos > 0 {
      NotDealt(keys, m, round, pos - 1, b);
      var k := keys[pos - 1];
      if round < |m[k]| {
        assert k in keys && m[k][round] in m[k] && BucketOf(m[k][round]) == k;
        FilterSnoc(BucketIs(b), Dealt(keys, m, round, pos - 1), m[k][round]);
      }
    } else if round > 0 {
      NotDealt(keys, m, round - 1, |keys|, b);
    } else {
      FilterNone(BucketIs(b), []);
    }
  }

  // ----- the queue over many batches

  function IsUnsurfaced(r: Row): bool { r.batchId.None? }

  function Ids(rows: seq<Row>): set<string> { set r | r in rows :: r.id }

  function Surface(r: Row, ids: set<string>, batchId: string): Row {
    if r.id in ids && r.batchId.None? then r.(batchId := Some(batchId)) else r
  }

  function Surfaced(rows: seq<Row>, ids: set<string>, batchId: string): (r: seq<Row>)
    ensures |r| == |rows|
    ensures forall i :: 0 <= i < |rows| ==> r[i] == Surface(rows[i], ids, batchId)
  {
    seq(|rows|, i requires 0 <= i < |rows| => Surface(rows[i], ids, batchId))
  }

  class DisagreementQueue {
    var rows: seq<Row>

    constructor ()
      ensures rows == []
    {
      rows := [];
    }

    method MarkSurfaced(selectedIds: set<string>, batchId: string)
      modifies this
      ensures rows == Surfaced(old(rows), selectedIds, batchId)
      ensures forall i :: 0 <= i < |rows| ==>
                rows[i] == if old(rows)[i].id in selectedIds && old(rows)[i].batchId == None
                           then old(rows)[i].(batchId := Some(batchId)) else old(rows)[i]
    {
      var i := 0;
      while i < |rows|
        invariant 0 <= i <= |rows| == |old(rows)|
        invariant forall j :: 0 <= j < i ==> rows[j] == Surface(old(rows)[j], selectedIds, batchId)
        invariant forall j :: i <= j < |rows| ==> rows[j] == old(rows)[j]
      {
        if rows[i].id in selectedIds && rows[i].batchId.None? {
          rows := rows[i := rows[i].(batchId := Some(batchId))];
        }
        i := i + 1;
      }
    }

    /** One hourly run. */
    method RunBatch(threshold: int, force: bool, cap: int, internalDomains: set<string>, batchId: string, dryRun: bool)
        returns (selected: seq<Row>)
      modifies this
      ensures var unsurfaced := Filter(IsUnsurfaced, old(rows));
              if !force && |unsurfaced| < threshold then selected == []
              else BatchOf(unsurfaced, internalDomains, cap, selected)
      ensures rows == if selected == [] || dryRun then old(rows) else Surfaced(old(rows), Ids(selected), batchId)
    {
      hide Filter, BatchOf;
      var unsurfaced := Filter(IsUnsurfaced, rows);
      if !force && |unsurfaced| < threshold {
        return [];
      }
      selected := SelectBatch(unsurfaced, cap, internalDomains);
      if selected == [] {
        return;
      }
      if !dryRun {
        MarkSurfaced(set r | r in selected :: r.id, batchId);
      }
    }
  }

  datatype Event =
    | Enqueue(row: Row)
    | Batch(internalDomains: set<string>, cap: int, batchId: string, dryRun: bool, selected: seq<Row>)
    | Resolve(ids: set<string>)

  function Unresolved(ids: set<string>): Row -> bool { (r: Row) => r.id !in ids }

  /** Resolved rows leave the queue. */
  function QueueAfter(es: seq<Event>): seq<Row> {
    if es == [] then []
    else
      var rows := QueueAfter(es[..|es| - 1]);
      match es[|es| - 1]
      case Enqueue(r) => rows + [r]
      case Batch(_, _, batchId, dryRun, selected) => if dryRun then rows else Surfaced(rows, Ids(selected), batchId)
      case Resolve(ids) => Filter(Unresolved(ids), rows)
  }

  function Enqueued(es: seq<Event>): set<string> { set e | e in es && e.Enqueue? :: e.row.id }

  /** Rows enter the queue with an id no row has had and no batch; every batch is one the selection allows. */
  ghost predicate Legal(es: seq<Event>) {
    es == [] ||
    (var es' := es[..|es| - 1];
     && Legal(es')
     && match es[|es| - 1]
        case Enqueue(r) => r.batchId.None? && r.id !in Enqueued(es')
        case Batch(domains, cap, _, _, selected) => BatchOf(Filter(IsUnsurfaced, QueueAfter(es')), domains, cap, selected)
        case Resolve(_) => true)
  }

  lemma BatchFromQueue(rows: seq<Row>, internalDomains: set<string>, cap: int, selected: seq<Row>)
    requires BatchOf(Filter(IsUnsurfaced, rows), internalDomains, cap, selected)
    ensures forall r :: r in selected ==> r in rows && r.batchId.None?
  {
    hide BatchOf, Filter;
    var unsurfaced := Filter(IsUnsurfaced, rows);
    BatchBounds(unsurfaced, internalDomains, cap, selected, "");
    forall r | r in selected ensures r in unsurfaced {
      assert multiset(selected)[r] > 0;
      assert multiset(unsurfaced)[r] > 0;
    }
  }

  lemma EnqueuedGrows(es: seq<Event>)
    requires es != []
    ensures Enqueued(es) == Enqueued(es[..|es| - 1]) + if es[|es| - 1].Enqueue? then {es[|es| - 1].row.id} else {}
  {
    var n := |es| - 1;
    assert es == es[..n] + [es[n]];
    assert forall e :: e in es <==> e in es[..n] || e == es[n];
  }

  lemma SurfacedKeepsIds(rows: seq<Row>, ids: set<string>, batchId: string)
    ensures Ids(Surfaced(rows, ids, batchId)) == Ids(rows)
  {
    var rows' := Surfaced(rows, ids, batchId);
    forall x | x in Ids(rows) ensures x in Ids(rows') {
      var r :| r in rows && r.id == x;
      var j :| 0 <= j < |rows| && rows[j] == r;
      assert rows'[j].id == x && rows'[j] in rows';
    }
  }

  /** The queue holds only rows that were enqueued. */
  lemma {:induction false} QueuedWereEnqueued(es: seq<Event>)
    ensures Ids(QueueAfter(es)) <= Enqueued(es)
  {
    hide Filter, Surfaced, Enqueued;
    if es != [] {
      var n := |es| - 1;
      QueuedWereEnqueued(es[..n]);
      EnqueuedGrows(es);
      if es[n].Batch? {
        SurfacedKeepsIds(QueueAfter(es[..n]), Ids(es[n].selected), es[n].batchId);
      }
    }
  }

  /** Once an id was in a batch that was no dry run, every row with that id carries a batch from then on. */
  lemma {:induction false} StaysSurfaced(es: seq<Event>, i: nat, x: string)
    requires Legal(es) && i < |es| && es[i].Batch? && !es[i].dryRun && x in Ids(es[i].selected)
    ensures x in Enqueued(es)
    ensures forall r :: r in QueueAfter(es) && r.id == x ==> r.batchId.Some?
  {
    hide BatchOf, Filter, Enqueued;
    var n := |es| - 1;
    var rows := QueueAfter(es[..n]);
    EnqueuedGrows(es);
    if i == n {
      BatchFromQueue(rows, es[n].internalDomains, es[n].cap, es[n].selected);
      QueuedWereEnqueued(es[..n]);
      var r :| r in es[n].selected && r.id == x;
      assert r in rows && x in Ids(rows);
    } else {
      assert es[..n][i] == es[i];
      StaysSurfaced(es[..n], i, x);
    }
  }

  lemma {:induction false} LegalPrefix(es: seq<Event>, n: nat)
    requires Legal(es) && n <= |es|
    ensures Legal(es[..n])
  {
    if n < |es| {
      LegalPrefix(es[..|es| - 1], n);
      assert es[..|es| - 1][..n] == es[..n];
    } else {
      assert es[..n] == es;
    }
  }

  /** Over the queue's whole history, with rows that come, are surfaced and leave, no disagreement of a
      batch is in a later one, unless the batch was a dry run. */
  lemma NoRowInTwoBatches(es: seq<Event>, i: nat, j: nat)
    requires Legal(es) && i < j < |es| && es[i].Batch? && !es[i].dryRun && es[j].Batch?
    ensures Ids(es[i].selected) !! Ids(es[j].selected)
  {
    hide BatchOf, Filter, QueueAfter, Legal;
    LegalPrefix(es, j);
    LegalPrefix(es, j + 1);
    assert es[..j + 1] == es[..j] + [es[j]] && es[..j][i] == es[i];
    LegalBatch(es[..j], es[j]);
    BatchFromQueue(QueueAfter(es[..j]), es[j].internalDomains, es[j].cap, es[j].selected);
    forall x | x in Ids(es[i].selected) ensures x !in Ids(es[j].selected) {
      StaysSurfaced(es[..j], i, x);
    }
  }

  lemma LegalBatch(es: seq<Event>, e: Event)
    requires e.Batch?
    ensures Legal(es + [e]) <==> Legal(es) && BatchOf(Filter(IsUnsurfaced, QueueAfter(es)), e.internalDomains, e.cap, e.selected)
  {
    hide BatchOf, Filter;
    assert (es + [e])[..|es|] == es;
  }

  /** After a dry run the very same batch is allowed again, dry or not. */
  lemma DryRunsRepeat(es: seq<Event>, dry: Event, batchId: string, dryRun: bool)
    requires dry.Batch? && dry.dryRun && Legal(es + [dry])
    ensures Legal(es + [dry] + [Batch(dry.internalDomains, dry.cap, batchId, dryRun, dry.selected)])
  {
    hide BatchOf, Filter;
    LegalBatch(es, dry);
    assert (es + [dry])[..|es|] == es;
    LegalBatch(es + [dry], Batch(dry.internalDomains, dry.cap, batchId, dryRun, dry.selected));
  }
}
