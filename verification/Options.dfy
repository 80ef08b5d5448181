/** The usual stand-in for Python's `None`. */
module Options {
  datatype Option<+T> = None | Some(value: T)

  /** The present values, in order. */
  function Somes<T>(us: seq<Option<T>>): (r: seq<T>)
    ensures |r| <= |us|
  {
    if us == [] then []
    else
      var r := Somes(us[..|us| - 1]);
      if us[|us| - 1].Some? then r + [us[|us| - 1].value] else r
  }

  lemma {:induction false} SomesOrigin<T>(us: seq<Option<T>>, j: nat) returns (i: nat)
    requires j < |Somes(us)|
    ensures i < |us| && us[i] == Some(Somes(us)[j])
  {
    var us' := us[..|us| - 1];
    if j < |Somes(us')| {
      i := SomesOrigin(us', j);
    } else {
      i := |us| - 1;
    }
  }

  lemma {:induction false} SomesIndex<T>(us: seq<Option<T>>, i: nat) returns (j: nat)
    requires i < |us| && us[i].Some?
    ensures j < |Somes(us)| && Somes(us)[j] == us[i].value
  {
    var us' := us[..|us| - 1];
    if i < |us'| {
      j := SomesIndex(us', i);
    } else {
      j := |Somes(us')|;
    }
  }
}
