/** Python's `dict`: a key keeps the position of its first insertion and a later
    write replaces its value.  The logs and groupings of the program are folded
    into such dictionaries, and their iteration order reaches the results. */
module OrderedDict {
  import opened Options

  datatype Dict<K, V> = Dict(keys: seq<K>, vals: map<K, V>)

  ghost predicate Distinct<K>(xs: seq<K>) {
    forall i, j :: 0 <= i < j < |xs| ==> xs[i] != xs[j]
  }

  ghost predicate Valid<K, V>(d: Dict<K, V>) {
    Distinct(d.keys) && d.vals.Keys == set k | k in d.keys
  }

  function Empty<K, V>(): (d: Dict<K, V>)
    ensures Valid(d)
  {
    Dict([], map[])
  }

  /** `d[k] = v` */
  function Put<K(==), V>(d: Dict<K, V>, k: K, v: V): (r: Dict<K, V>)
    requires Valid(d)
    ensures Valid(r)
  {
    Dict(if k in d.vals then d.keys else d.keys + [k], d.vals[k := v])
  }

  /** `d.get(k, default)` */
  function GetOr<K(==), V>(d: Dict<K, V>, k: K, default: V): V {
    if k in d.vals then d.vals[k] else default
  }

  /** `list(d.values())` */
  function Values<K, V>(d: Dict<K, V>): (vs: seq<V>)
    requires Valid(d)
    ensures |vs| == |d.keys|
    ensures forall i :: 0 <= i < |vs| ==> vs[i] == d.vals[d.keys[i]]
  {
    seq(|d.keys|, i requires 0 <= i < |d.keys| => d.vals[d.keys[i]])
  }

  /** Folds an append-only log: the last entry of each key wins. */
  function LatestBy<K(==), T>(key: T -> K, log: seq<T>): (d: Dict<K, T>)
    ensures Valid(d)
    ensures forall k :: k in d.vals ==> key(d.vals[k]) == k
  {
    if log == [] then Empty()
    else
      var x := log[|log| - 1];
      Put(LatestBy(key, log[..|log| - 1]), key(x), x)
  }

  /** Groups rows under their keys, `d[key(x)].append(x)`. */
  function GroupBy<K(==), T>(key: T -> K, xs: seq<T>): (d: Dict<K, seq<T>>)
    ensures Valid(d)
  {
    if xs == [] then Empty()
    else
      var x := xs[|xs| - 1];
      var d := GroupBy(key, xs[..|xs| - 1]);
      Put(d, key(x), GetOr(d, key(x), []) + [x])
  }

  function Filter<T>(p: T -> bool, xs: seq<T>): (r: seq<T>)
    ensures forall x :: x in r ==> x in xs && p(x)
    ensures forall x :: x in xs && p(x) ==> x in r
    ensures |r| <= |xs|
  {
    if xs == [] then []
    else
      var r := Filter(p, xs[..|xs| - 1]);
      if p(xs[|xs| - 1]) then r + [xs[|xs| - 1]] else r
  }

  lemma {:induction false} FilterConcat<T>(p: T -> bool, a: seq<T>, b: seq<T>)
    ensures Filter(p, a + b) == Filter(p, a) + Filter(p, b)
  {
    if b == [] {
      assert a + b == a;
    } else {
      var b' := b[..|b| - 1];
      assert (a + b)[..|a + b| - 1] == a + b';
      FilterConcat(p, a, b');
    }
  }

  /** The fold holds, for each key of the log, the entry after which the key never occurs again. */
  lemma {:induction false} LatestIsLast<K, T>(key: T -> K, log: seq<T>, i: nat)
    requires i < |log|
    requires forall j :: i < j < |log| ==> key(log[j]) != key(log[i])
    ensures key(log[i]) in LatestBy(key, log).vals
    ensures LatestBy(key, log).vals[key(log[i])] == log[i]
  {
    var log' := log[..|log| - 1];
    if i < |log| - 1 {
      LatestIsLast(key, log', i);
      assert key(log[|log| - 1]) != key(log[i]);
    }
  }

  /** Only keys of the log are in the fold, and each of them is. */
  lemma {:induction false} LatestDomain<K, T>(key: T -> K, log: seq<T>, k: K)
    ensures k in LatestBy(key, log).vals <==> exists i :: 0 <= i < |log| && key(log[i]) == k
  {
    if log != [] {
      var log' := log[..|log| - 1];
      LatestDomain(key, log', k);
      if k in LatestBy(key, log').vals {
        var i :| 0 <= i < |log'| && key(log'[i]) == k;
        assert key(log[i]) == k;
      } else if exists i :: 0 <= i < |log| && key(log[i]) == k {
        var i :| 0 <= i < |log| && key(log[i]) == k;
        assert i < |log'| ==> key(log'[i]) == k;
      }
    }
  }

  lemma LatestAppend<K, T>(key: T -> K, log: seq<T>, x: T)
    ensures LatestBy(key, log + [x]) == Put(LatestBy(key, log), key(x), x)
  {
    assert (log + [x])[..|log|] == log;
  }

  ghost predicate DistinctBy<K, T>(key: T -> K, xs: seq<T>) {
    forall i, j :: 0 <= i < j < |xs| ==> key(xs[i]) != key(xs[j])
  }

  /** Appending entries with pairwise distinct keys gives each of those keys its new entry ... */
  lemma LatestAppendHit<K, T>(key: T -> K, log: seq<T>, xs: seq<T>, i: nat)
    requires DistinctBy(key, xs) && i < |xs|
    ensures key(xs[i]) in LatestBy(key, log + xs).vals
    ensures LatestBy(key, log + xs).vals[key(xs[i])] == xs[i]
  {
    var all := log + xs;
    forall j | |log| + i < j < |all| ensures key(all[j]) != key(all[|log| + i]) {
      assert all[j] == xs[j - |log|];
    }
    LatestIsLast(key, all, |log| + i);
  }

  /** ... and leaves every other key as it was. */
  lemma {:induction false} LatestAppendMiss<K, T>(key: T -> K, log: seq<T>, xs: seq<T>, k: K)
    requires forall i :: 0 <= i < |xs| ==> key(xs[i]) != k
    ensures k in LatestBy(key, log + xs).vals <==> k in LatestBy(key, log).vals
    ensures k in LatestBy(key, log).vals ==> LatestBy(key, log + xs).vals[k] == LatestBy(key, log).vals[k]
  {
    if xs == [] {
      assert log + xs == log;
    } else {
      var n := |xs| - 1;
      LatestAppendMiss(key, log, xs[..n], k);
      assert log + xs == (log + xs[..n]) + [xs[n]];
      LatestAppend(key, log + xs[..n], xs[n]);
    }
  }

  /** Entries with new keys are appended to the folded view in order. */
  lemma {:induction false} LatestAppendFresh<K, T>(key: T -> K, log: seq<T>, xs: seq<T>)
    requires DistinctBy(key, xs)
    requires forall i :: 0 <= i < |xs| ==> key(xs[i]) !in LatestBy(key, log).vals
    ensures Values(LatestBy(key, log + xs)) == Values(LatestBy(key, log)) + xs
  {
    if xs == [] {
      assert log + xs == log;
    } else {
      var n := |xs| - 1;
      var x, log' := xs[n], log + xs[..n];
      assert log + xs == log' + [x];
      LatestAppendFresh(key, log, xs[..n]);
      LatestAppendMiss(key, log, xs[..n], key(x));
      AppendFreshOne(key, log', x);
      assert xs == xs[..n] + [x];
    }
  }

  lemma AppendFreshOne<K, T>(key: T -> K, log: seq<T>, x: T)
    requires key(x) !in LatestBy(key, log).vals
    ensures Values(LatestBy(key, log + [x])) == Values(LatestBy(key, log)) + [x]
  {
    LatestAppend(key, log, x);
  }

  lemma FilterSnoc<T>(p: T -> bool, xs: seq<T>, x: T)
    ensures Filter(p, xs + [x]) == if p(x) then Filter(p, xs) + [x] else Filter(p, xs)
  {
    assert (xs + [x])[..|xs|] == xs;
  }

  lemma {:induction false} FilterAll<T>(p: T -> bool, xs: seq<T>)
    requires forall x :: x in xs ==> p(x)
    ensures Filter(p, xs) == xs
  {
    if xs != [] {
      var n := |xs| - 1;
      FilterAll(p, xs[..n]);
      assert xs == xs[..n] + [xs[n]];
    }
  }

  lemma {:induction false} FilterNone<T>(p: T -> bool, xs: seq<T>)
    requires forall x :: x in xs ==> !p(x)
    ensures Filter(p, xs) == []
  {
    if xs != [] {
      FilterNone(p, xs[..|xs| - 1]);
    }
  }

  /** Filtering keeps the multiplicity of what it keeps. */
  lemma {:induction false} FilterCounts<T>(p: T -> bool, xs: seq<T>, x: T)
    ensures multiset(Filter(p, xs))[x] == if p(x) then multiset(xs)[x] else 0
  {
    if xs != [] {
      var n := |xs| - 1;
      FilterCounts(p, xs[..n], x);
      assert xs == xs[..n] + [xs[n]];
    }
  }

  lemma NothingToFilter<T>(p: T -> bool, xs: seq<T>)
    ensures xs == [] ==> Filter(p, xs) == []
  {
  }

  /** The `j`-th entry a filter keeps has `j` kept entries before it. */
  lemma {:induction false} FilterPosition<T>(p: T -> bool, xs: seq<T>, j: nat) returns (k: nat)
    requires j < |Filter(p, xs)|
    ensures k < |xs| && xs[k] == Filter(p, xs)[j] && |Filter(p, xs[..k])| == j
  {
    NothingToFilter(p, xs);
    hide Filter;
    var n := |xs| - 1;
    assert xs == xs[..n] + [xs[n]];
    FilterSnoc(p, xs[..n], xs[n]);
    if j < |Filter(p, xs[..n])| {
      k := FilterPosition(p, xs[..n], j);
      assert xs[..n][..k] == xs[..k];
    } else {
      k := n;
    }
  }

  /** Groups come in the order in which their keys are first seen: more rows only add keys behind. */
  lemma {:induction false} GroupKeysGrow<K, T>(key: T -> K, a: seq<T>, b: seq<T>)
    ensures GroupBy(key, a).keys <= GroupBy(key, a + b).keys
  {
    if b == [] {
      assert a + b == a;
    } else {
      GroupKeysGrow(key, a, b[..|b| - 1]);
      assert (a + b)[..|a + b| - 1] == a + b[..|b| - 1];
    }
  }

  lemma GroupHasKey<K, T>(key: T -> K, xs: seq<T>, k: K)
    ensures k in GroupBy(key, xs).keys <==> exists x :: x in xs && key(x) == k
  {
    var d := GroupBy(key, xs);
    assert k in d.keys <==> k in d.vals;
    GroupIsFilter(key, xs, k);
    if exists x :: x in xs && key(x) == k {
      var x :| x in xs && key(x) == k;
      assert x in Filter(y => key(y) == k, xs);
    } else if k in d.vals {
      assert d.vals[k][0] in Filter(y => key(y) == k, xs);
    }
  }

  function Unlike<K(==), T>(key: T -> K, k: K): T -> bool { x => key(x) != k }

  lemma GroupOneMore<K, T>(key: T -> K, xs: seq<T>, x: T)
    ensures var d := GroupBy(key, xs);
            GroupBy(key, xs + [x]) == Put(d, key(x), GetOr(d, key(x), []) + [x])
  {
    assert (xs + [x])[..|xs|] == xs;
  }

  /** `d` has key `k` before the entries of `d'`. */
  ghost predicate Precedes<K, V>(k: K, d: Dict<K, V>, d': Dict<K, V>) {
    && Valid(d) && Valid(d') && d.keys == [k] + d'.keys
    && forall j :: j in d'.keys ==> j in d.vals && j in d'.vals && d.vals[j] == d'.vals[j]
  }

  lemma PutInBoth<K, T>(k: K, d: Dict<K, seq<T>>, d': Dict<K, seq<T>>, y: K, x: T)
    requires Precedes(k, d, d') && y != k
    ensures Precedes(k, Put(d, y, GetOr(d, y, []) + [x]), Put(d', y, GetOr(d', y, []) + [x]))
  {
    assert y in d.keys <==> y in d'.keys;
    assert d.keys + [y] == [k] + (d'.keys + [y]);
  }

  lemma PutInFirst<K, T>(k: K, d: Dict<K, seq<T>>, d': Dict<K, seq<T>>, x: T)
    requires Precedes(k, d, d')
    ensures Precedes(k, Put(d, k, GetOr(d, k, []) + [x]), d')
  {
    assert d.keys[0] == k && k in d.keys;
    forall j | j in d'.keys ensures j != k {
      var i :| 0 <= i < |d'.keys| && d'.keys[i] == j;
      assert d.keys[i + 1] == j;
    }
  }

  /** The first row's group comes first, and the rest is the grouping of the other rows. */
  lemma {:induction false} FirstGroup<K, T>(key: T -> K, xs: seq<T>)
    requires xs != []
    ensures var k := key(xs[0]);
            Precedes(k, GroupBy(key, xs), GroupBy(key, Filter(Unlike(key, k), xs)))
  {
    var n := |xs| - 1;
    var k, x := key(xs[0]), xs[n];
    if n > 0 {
      hide GroupBy, Filter, Precedes;
      FirstGroup(key, xs[..n]);
      assert xs == xs[..n] + [x];
      var ys := Filter(Unlike(key, k), xs[..n]);
      FilterSnoc(Unlike(key, k), xs[..n], x);
      GroupOneMore(key, xs[..n], x);
      GroupOneMore(key, ys, x);
      if key(x) == k {
        PutInFirst(k, GroupBy(key, xs[..n]), GroupBy(key, ys), x);
      } else {
        PutInBoth(k, GroupBy(key, xs[..n]), GroupBy(key, ys), key(x), x);
      }
    } else {
      assert xs[..0] == [];
    }
  }

  lemma {:induction false} FilterDistinct<K, T>(key: T -> K, p: T -> bool, xs: seq<T>)
    requires DistinctBy(key, xs)
    ensures DistinctBy(key, Filter(p, xs))
  {
    if xs != [] {
      var n := |xs| - 1;
      FilterDistinct(key, p, xs[..n]);
      forall j | 0 <= j < |Filter(p, xs[..n])| ensures key(Filter(p, xs[..n])[j]) != key(xs[n]) {
        var x := Filter(p, xs[..n])[j];
        assert x in xs[..n];
      }
    }
  }

  /** Distinct keys make the folded values distinct by key. */
  lemma ValuesDistinct<K, T>(key: T -> K, log: seq<T>)
    ensures DistinctBy(key, Values(LatestBy(key, log)))
  {
    var d := LatestBy(key, log);
    forall i, j | 0 <= i < j < |d.keys| ensures key(Values(d)[i]) != key(Values(d)[j]) {
      assert d.keys[i] != d.keys[j];
      assert d.keys[i] in d.vals && d.keys[j] in d.vals;
    }
  }

  /** Entries whose keys are already known do not change the iteration order. */
  lemma {:induction false} LatestAppendKnown<K, T>(key: T -> K, log: seq<T>, xs: seq<T>)
    requires forall x :: x in xs ==> key(x) in LatestBy(key, log).vals
    ensures LatestBy(key, log + xs).keys == LatestBy(key, log).keys
  {
    if xs == [] {
      assert log + xs == log;
    } else {
      var n := |xs| - 1;
      var x, log' := xs[n], log + xs[..n];
      assert log + xs == log' + [x];
      LatestAppendKnown(key, log, xs[..n]);
      LatestAppend(key, log', x);
      assert key(x) in LatestBy(key, log).vals;
      var d, d' := LatestBy(key, log), LatestBy(key, log');
      assert d.vals.Keys == d'.vals.Keys;
    }
  }

  /** `us[i]` updates `rs[i]` at most, and never its key. */
  ghost predicate Updates<K, T>(key: T -> K, rs: seq<T>, us: seq<Option<T>>) {
    |us| == |rs| && forall i :: 0 <= i < |us| && us[i].Some? ==> key(us[i].value) == key(rs[i])
  }

  lemma {:induction false} SomesDistinct<K, T>(key: T -> K, rs: seq<T>, us: seq<Option<T>>)
    requires DistinctBy(key, rs) && Updates(key, rs, us)
    ensures DistinctBy(key, Somes(us))
  {
    if us != [] {
      var n := |us| - 1;
      SomesDistinct(key, rs[..n], us[..n]);
      if us[n].Some? {
        forall j | 0 <= j < |Somes(us[..n])| ensures key(Somes(us[..n])[j]) != key(us[n].value) {
          var i := SomesOrigin(us[..n], j);
          assert us[i] == Some(Somes(us[..n])[j]);
          assert key(rs[i]) != key(rs[n]);
        }
      }
    }
  }

  /** One run over an append-only log: it reads some folded entries `rs`, appends the
      updates, and the fold afterwards has exactly those entries replaced. */
  lemma UpdatedFold<K, T>(key: T -> K, log: seq<T>, rs: seq<T>, us: seq<Option<T>>)
    requires DistinctBy(key, rs) && Updates(key, rs, us)
    requires forall r :: r in rs ==> r in Values(LatestBy(key, log))
    ensures LatestBy(key, log + Somes(us)).keys == LatestBy(key, log).keys
    ensures forall i :: 0 <= i < |rs| ==>
              key(rs[i]) in LatestBy(key, log).vals
              && LatestBy(key, log + Somes(us)).vals[key(rs[i])] == if us[i].Some? then us[i].value else rs[i]
    ensures forall k :: k in LatestBy(key, log).vals && (forall i :: 0 <= i < |rs| ==> key(rs[i]) != k) ==>
              LatestBy(key, log + Somes(us)).vals[k] == LatestBy(key, log).vals[k]
  {
    var d := LatestBy(key, log);
    SomesDistinct(key, rs, us);
    forall r | r in rs ensures key(r) in d.vals && d.vals[key(r)] == r {
      var i :| 0 <= i < |d.keys| && Values(d)[i] == r;
      assert d.keys[i] in d.vals;
    }
    forall x | x in Somes(us) ensures key(x) in d.vals {
      var j :| 0 <= j < |Somes(us)| && Somes(us)[j] == x;
      var i := SomesOrigin(us, j);
      assert key(x) == key(rs[i]);
    }
    LatestAppendKnown(key, log, Somes(us));
    var d' := LatestBy(key, log + Somes(us));
    assert d'.vals.Keys == d.vals.Keys;
    forall i | 0 <= i < |rs|
      ensures d'.vals[key(rs[i])] == if us[i].Some? then us[i].value else rs[i]
    {
      UpdatedEntry(key, log, rs, us, i);
    }
    forall k | k in d.vals && forall i :: 0 <= i < |rs| ==> key(rs[i]) != k
      ensures d'.vals[k] == d.vals[k]
    {
      UntouchedEntry(key, log, rs, us, k);
    }
  }

  lemma UpdatedEntry<K, T>(key: T -> K, log: seq<T>, rs: seq<T>, us: seq<Option<T>>, i: nat)
    requires DistinctBy(key, rs) && Updates(key, rs, us) && i < |rs|
    requires key(rs[i]) in LatestBy(key, log).vals && LatestBy(key, log).vals[key(rs[i])] == rs[i]
    ensures key(rs[i]) in LatestBy(key, log + Somes(us)).vals
    ensures LatestBy(key, log + Somes(us)).vals[key(rs[i])] == if us[i].Some? then us[i].value else rs[i]
  {
    if us[i].Some? {
      SomesDistinct(key, rs, us);
      var j := SomesIndex(us, i);
      LatestAppendHit(key, log, Somes(us), j);
    } else {
      forall j | 0 <= j < |Somes(us)| ensures key(Somes(us)[j]) != key(rs[i]) {
        var m := SomesOrigin(us, j);
        assert key(Somes(us)[j]) == key(rs[m]);
        assert m != i;
        assert if m < i then key(rs[m]) != key(rs[i]) else key(rs[i]) != key(rs[m]);
      }
      LatestAppendMiss(key, log, Somes(us), key(rs[i]));
    }
  }

  lemma UntouchedEntry<K, T>(key: T -> K, log: seq<T>, rs: seq<T>, us: seq<Option<T>>, k: K)
    requires Updates(key, rs, us)
    requires k in LatestBy(key, log).vals
    requires forall i :: 0 <= i < |rs| ==> key(rs[i]) != k
    ensures k in LatestBy(key, log + Somes(us)).vals
    ensures LatestBy(key, log + Somes(us)).vals[k] == LatestBy(key, log).vals[k]
  {
    forall j | 0 <= j < |Somes(us)| ensures key(Somes(us)[j]) != k {
      var m := SomesOrigin(us, j);
      assert key(Somes(us)[j]) == key(rs[m]);
    }
    LatestAppendMiss(key, log, Somes(us), k);
  }

  /** A group holds exactly its key's rows, in order; keys without rows have no group. */
  lemma {:induction false} GroupIsFilter<K, T>(key: T -> K, xs: seq<T>, k: K)
    ensures GetOr(GroupBy(key, xs), k, []) == Filter(x => key(x) == k, xs)
    ensures k in GroupBy(key, xs).vals ==> GroupBy(key, xs).vals[k] != []
  {
    if xs != [] {
      GroupIsFilter(key, xs[..|xs| - 1], k);
    }
  }
}
