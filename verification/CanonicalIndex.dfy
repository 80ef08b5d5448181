/** The inverted index of the canonical registries: token to items, items told apart by identity. */
module CanonicalIndex {
  import opened OrderedDict

  /** `n` times the same item. */
  function Copies<T>(x: T, n: nat): (r: seq<T>)
    ensures |r| == n && forall i :: 0 <= i < n ==> r[i] == x
  {
    if n == 0 then [] else Copies(x, n - 1) + [x]
  }

  function CountOf(keys: seq<string>, k: string): nat {
    if keys == [] then 0
    else CountOf(keys[..|keys| - 1], k) + if keys[|keys| - 1] == k then 1 else 0
  }

  /** The items registered under `k`, in the order of the items: one entry for every time an item
      names the key. */
  function Postings<T>(items: seq<T>, keysFor: T -> seq<string>, k: string): seq<T> {
    if items == [] then []
    else
      var x := items[|items| - 1];
      Postings(items[..|items| - 1], keysFor, k) + Copies(x, CountOf(keysFor(x), k))
  }

  /** First occurrences only, in order. */
  function Dedup<T(==)>(xs: seq<T>): seq<T> {
    if xs == [] then []
    else
      var r, x := Dedup(xs[..|xs| - 1]), xs[|xs| - 1];
      if x in r then r else r + [x]
  }

  function Gather<T>(d: Dict<string, seq<T>>, keys: seq<string>): seq<T> {
    if keys == [] then [] else Gather(d, keys[..|keys| - 1]) + GetOr(d, keys[|keys| - 1], [])
  }

  /** The index built from `items`. */
  ghost predicate IndexOf<T>(d: Dict<string, seq<T>>, items: seq<T>, keysFor: T -> seq<string>) {
    Valid(d) && forall k :: GetOr(d, k, []) == Postings(items, keysFor, k)
  }

  /** `d` is `d0` with `x` registered under `keys`. */
  ghost predicate Added<T>(d0: Dict<string, seq<T>>, d: Dict<string, seq<T>>, x: T, keys: seq<string>) {
    Valid(d) && forall k :: GetOr(d, k, []) == GetOr(d0, k, []) + Copies(x, CountOf(keys, k))
  }

  lemma IndexOneMore<T>(d: Dict<string, seq<T>>, d': Dict<string, seq<T>>, items: seq<T>, i: nat,
                        keysFor: T -> seq<string>)
    requires i < |items| && IndexOf(d, items[..i], keysFor) && Added(d, d', items[i], keysFor(items[i]))
    ensures IndexOf(d', items[..i + 1], keysFor)
  {
    assert items[..i + 1][..i] == items[..i];
    forall k ensures GetOr(d', k, []) == Postings(items[..i + 1], keysFor, k) {
      assert GetOr(d', k, []) == GetOr(d, k, []) + Copies(items[i], CountOf(keysFor(items[i]), k));
    }
  }

  lemma DedupOneMore<T>(before: seq<T>, found: seq<T>, j: nat)
    requires j < |found|
    ensures var r := Dedup(before + found[..j]);
            Dedup(before + found[..j + 1]) == if found[j] in r then r else r + [found[j]]
  {
    var xs := before + found[..j + 1];
    assert xs[..|xs| - 1] == before + found[..j];
    assert xs[|xs| - 1] == found[j];
  }

  class KeyIndex<T(==)> {
    var byKey: Dict<string, seq<T>>

    constructor ()
      ensures byKey == Empty()
    {
      byKey := Empty();
    }

    constructor Build(items: seq<T>, keysFor: T -> seq<string>)
      ensures IndexOf(byKey, items, keysFor)
    {
      var d: Dict<string, seq<T>> := Empty();
      for i := 0 to |items|
        invariant IndexOf(d, items[..i], keysFor)
      {
        ghost var before := d;
        d := Register(d, items[i], keysFor(items[i]));
        IndexOneMore(before, d, items, i, keysFor);
      }
      assert items[..|items|] == items;
      byKey := d;
    }

    /** The inner loop: one item under all its keys. */
    static method Register(d0: Dict<string, seq<T>>, x: T, keys: seq<string>) returns (d: Dict<string, seq<T>>)
      requires Valid(d0)
      ensures Added(d0, d, x, keys)
    {
      d := d0;
      for j := 0 to |keys|
        invariant Added(d0, d, x, keys[..j])
      {
        assert keys[..j + 1][..j] == keys[..j];
        ghost var before := d;
        d := Put(d, keys[j], GetOr(d, keys[j], []) + [x]);
        forall k ensures GetOr(d, k, []) == GetOr(d0, k, []) + Copies(x, CountOf(keys[..j + 1], k)) {
          assert GetOr(before, k, []) == GetOr(d0, k, []) + Copies(x, CountOf(keys[..j], k));
        }
      }
      assert keys[..|keys|] == keys;
    }

    method Lookup(key: string) returns (found: seq<T>)
      ensures found == GetOr(byKey, key, [])
      ensures forall items: seq<T>, keysFor: T -> seq<string> :: IndexOf(byKey, items, keysFor) ==>
                forall x :: x in found <==> x in items && key in keysFor(x)
    {
      found := GetOr(byKey, key, []);
      forall items: seq<T>, keysFor: T -> seq<string>, x | IndexOf(byKey, items, keysFor)
        ensures x in found <==> x in items && key in keysFor(x)
      {
        FoundIffNamed(items, keysFor, key, x);
      }
    }

    /** The inner loop: one key's items, those already found left out. */
    static method AddUnseen(ghost before: seq<T>, out0: seq<T>, found: seq<T>) returns (out: seq<T>)
      requires out0 == Dedup(before)
      ensures out == Dedup(before + found)
    {
      out := out0;
      assert before + found[..0] == before;
      for j := 0 to |found|
        invariant out == Dedup(before + found[..j])
      {
        DedupOneMore(before, found, j);
        if found[j] !in out {
          out := out + [found[j]];
        }
      }
      assert found[..|found|] == found;
    }

    method LookupAny(keys: seq<string>) returns (out: seq<T>)
      ensures out == Dedup(Gather(byKey, keys))
    {
      out := [];
      for i := 0 to |keys|
        invariant out == Dedup(Gather(byKey, keys[..i]))
      {
        out := AddUnseen(Gather(byKey, keys[..i]), out, GetOr(byKey, keys[i], []));
        assert keys[..i + 1][..i] == keys[..i];
      }
      assert keys[..|keys|] == keys;
    }

    method Size() returns (n: nat)
      requires Valid(byKey)
      ensures n == |set k, x | k in byKey.vals && x in byKey.vals[k] :: x|
    {
      var seen: set<T> := {};
      var keys := byKey.keys;
      for i := 0 to |keys|
        invariant seen == set k, x | k in keys[..i] && k in byKey.vals && x in byKey.vals[k] :: x
      {
        assert keys[..i + 1] == keys[..i] + [keys[i]];
        seen := seen + set x | x in byKey.vals[keys[i]];
      }
      assert keys[..|keys|] == keys;
      assert seen == set k, x | k in byKey.vals && x in byKey.vals[k] :: x;
      n := |seen|;
    }
  }

  lemma {:induction false} CountedIsNamed(keys: seq<string>, k: string)
    ensures CountOf(keys, k) > 0 <==> k in keys
  {
    if keys != [] {
      CountedIsNamed(keys[..|keys| - 1], k);
      assert keys == keys[..|keys| - 1] + [keys[|keys| - 1]];
    }
  }

  /** An item is found under a key exactly when it names the key. */
  lemma {:induction false} FoundIffNamed<T>(items: seq<T>, keysFor: T -> seq<string>, k: string, x: T)
    ensures x in Postings(items, keysFor, k) <==> x in items && k in keysFor(x)
  {
    if items != [] {
      var n := |items| - 1;
      FoundIffNamed(items[..n], keysFor, k, x);
      CountedIsNamed(keysFor(items[n]), k);
      assert items == items[..n] + [items[n]];
      var c := Copies(items[n], CountOf(keysFor(items[n]), k));
      assert x in c <==> x == items[n] && |c| > 0;
    }
  }

  lemma {:induction false} DedupKeeps<T>(xs: seq<T>)
    ensures Distinct(Dedup(xs))
    ensures forall x :: x in Dedup(xs) ==> x in xs
    ensures forall x :: x in xs ==> x in Dedup(xs)
  {
    if xs != [] {
      var n := |xs| - 1;
      DedupKeeps(xs[..n]);
      assert xs == xs[..n] + [xs[n]];
    }
  }

  /** What comes first stays first: more input only adds behind. */
  lemma {:induction false} DedupInOrder<T>(a: seq<T>, b: seq<T>)
    ensures Dedup(a) <= Dedup(a + b)
  {
    if b == [] {
      assert a + b == a;
    } else {
      DedupInOrder(a, b[..|b| - 1]);
      assert (a + b)[..|a + b| - 1] == a + b[..|b| - 1];
    }
  }

  lemma {:induction false} Gathered<T>(d: Dict<string, seq<T>>, keys: seq<string>, x: T)
    ensures x in Gather(d, keys) <==> exists i :: 0 <= i < |keys| && x in GetOr(d, keys[i], [])
  {
    if keys != [] {
      var n := |keys| - 1;
      Gathered(d, keys[..n], x);
      assert forall i :: 0 <= i < n ==> keys[..n][i] == keys[i];
      if x in Gather(d, keys[..n]) {
        var i :| 0 <= i < n && x in GetOr(d, keys[..n][i], []);
        assert x in GetOr(d, keys[i], []);
      } else if exists i :: 0 <= i < |keys| && x in GetOr(d, keys[i], []) {
        var i :| 0 <= i < |keys| && x in GetOr(d, keys[i], []);
        assert x in GetOr(d, keys[i], []);
      }
    }
  }

  /** Looking up several keys finds each item that names one of them, once. */
  lemma AnyIsUnion<T>(d: Dict<string, seq<T>>, items: seq<T>, keysFor: T -> seq<string>, keys: seq<string>, x: T)
    requires IndexOf(d, items, keysFor)
    ensures Distinct(Dedup(Gather(d, keys)))
    ensures x in Dedup(Gather(d, keys)) <==> x in items && exists k :: k in keys && k in keysFor(x)
  {
    hide Dedup, Gather, Postings;
    DedupKeeps(Gather(d, keys));
    Gathered(d, keys, x);
    forall k ensures x in GetOr(d, k, []) <==> x in items && k in keysFor(x) {
      FoundIffNamed(items, keysFor, k, x);
    }
    if x in items && exists k :: k in keys && k in keysFor(x) {
      var k :| k in keys && k in keysFor(x);
      var i :| 0 <= i < |keys| && keys[i] == k;
      assert x in GetOr(d, keys[i], []);
    }
  }

  /** The size counts the items that name at least one key. */
  lemma SizeCountsItems<T>(d: Dict<string, seq<T>>, items: seq<T>, keysFor: T -> seq<string>)
    requires IndexOf(d, items, keysFor)
    ensures (set k, x | k in d.vals && x in d.vals[k] :: x) == set x | x in items && keysFor(x) != []
  {
    var found := set k, x | k in d.vals && x in d.vals[k] :: x;
    forall x | x in found ensures x in items && keysFor(x) != [] {
      var k :| k in d.vals && x in d.vals[k];
      assert GetOr(d, k, []) == d.vals[k];
      FoundIffNamed(items, keysFor, k, x);
    }
    forall x | x in items && keysFor(x) != [] ensures x in found {
      var k := keysFor(x)[0];
      FoundIffNamed(items, keysFor, k, x);
      assert x in GetOr(d, k, []);
    }
  }
}
