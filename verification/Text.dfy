/** Python's `strip`, its order on strings, and why comparing zero-padded numbers as text is comparing
    the numbers. */
module Text {

  predicate Less(a: string, b: string) {
    b != "" && (a == "" || a[0] < b[0] || (a[0] == b[0] && Less(a[1..], b[1..])))
  }

  /** The ASCII characters that Python's `strip` removes. */
  predicate IsSpace(c: char) { c == ' ' || 9 <= c as int <= 13 || 28 <= c as int <= 31 }

  function StripLeft(s: string): string {
    if s != "" && IsSpace(s[0]) then StripLeft(s[1..]) else s
  }

  function StripRight(s: string): string {
    if s != "" && IsSpace(s[|s| - 1]) then StripRight(s[..|s| - 1]) else s
  }

  function Strip(s: string): string { StripRight(StripLeft(s)) }

  lemma AlreadyStripped(s: string)
    requires s != "" ==> !IsSpace(s[0]) && !IsSpace(s[|s| - 1])
    ensures StripRight(s) == s && Strip(s) == s
  {
  }

  lemma StripsBlanks(before: string, s: string, after: string)
    requires (forall i :: 0 <= i < |before| ==> before[i] in " \t\n\r") && forall i :: 0 <= i < |after| ==> after[i] in " \t\n\r"
    requires s != "" && !IsSpace(s[0]) && !IsSpace(s[|s| - 1])
    ensures Strip(before + s + after) == s
  {
    hide StripLeft, StripRight;
    assert before + s + after == before + (s + after);
    DropsLeft(before, s + after);
    DropsRight(s, after);
  }

  lemma {:induction false} DropsLeft(before: string, t: string)
    requires (forall i :: 0 <= i < |before| ==> before[i] in " \t\n\r") && t != "" && !IsSpace(t[0])
    ensures StripLeft(before + t) == t
  {
    if before == "" {
      assert before + t == t;
    } else {
      assert (before + t)[1..] == before[1..] + t && IsSpace(before[0]);
      DropsLeft(before[1..], t);
    }
  }

  lemma {:induction false} DropsRight(s: string, after: string)
    requires (forall i :: 0 <= i < |after| ==> after[i] in " \t\n\r") && s != "" && !IsSpace(s[|s| - 1])
    ensures StripRight(s + after) == s
  {
    if after == "" {
      assert s + after == s;
    } else {
      var n := |after| - 1;
      assert (s + after)[..|s + after| - 1] == s + after[..n] && IsSpace(after[n]);
      DropsRight(s, after[..n]);
    }
  }

  function Digit(d: nat): char
    requires d < 10
  {
    '0' + d as char
  }

  function Pow10(w: nat): nat { if w == 0 then 1 else 10 * Pow10(w - 1) }

  /** `n` in decimal, padded with zeros to `w` digits. */
  function Pad(n: nat, w: nat): (s: string)
    requires n < Pow10(w)
    ensures |s| == w
  {
    if w == 0 then "" else Pad(n / 10, w - 1) + [Digit(n % 10)]
  }

  /** Texts of equal length compare by their first parts, then by the rest. */
  lemma {:induction false} LessConcat(a: string, b: string, u: string, v: string)
    requires |a| == |b|
    ensures Less(a + u, b + v) <==> Less(a, b) || (a == b && Less(u, v))
  {
    if a == "" {
      assert a + u == u && b + v == v;
    } else {
      assert (a + u)[1..] == a[1..] + u && (b + v)[1..] == b[1..] + v;
      LessConcat(a[1..], b[1..], u, v);
      assert a == [a[0]] + a[1..] && b == [b[0]] + b[1..];
    }
  }

  lemma {:induction false} PadOrder(m: nat, n: nat, w: nat)
    requires m < Pow10(w) && n < Pow10(w)
    ensures Less(Pad(m, w), Pad(n, w)) <==> m < n
    ensures Pad(m, w) == Pad(n, w) <==> m == n
  {
    if w > 0 {
      PadOrder(m / 10, n / 10, w - 1);
      var a, b := Pad(m / 10, w - 1), Pad(n / 10, w - 1);
      LessConcat(a, b, [Digit(m % 10)], [Digit(n % 10)]);
      assert Pad(m, w)[..w - 1] == a && Pad(n, w)[..w - 1] == b;
      assert Pad(m, w)[w - 1] == Digit(m % 10) && Pad(n, w)[w - 1] == Digit(n % 10);
    }
  }

  /** Two padded numbers around a separator: the order of such texts is the order of the pairs. */
  lemma PairOrder(m: nat, n: nat, w: nat, sep: char, m': nat, n': nat, w': nat)
    requires m < Pow10(w) && n < Pow10(w) && m' < Pow10(w') && n' < Pow10(w')
    ensures Less(Pad(m, w) + [sep] + Pad(m', w'), Pad(n, w) + [sep] + Pad(n', w'))
            <==> m < n || (m == n && m' < n')
    ensures Pad(m, w) + [sep] + Pad(m', w') == Pad(n, w) + [sep] + Pad(n', w') <==> m == n && m' == n'
  {
    PadOrder(m, n, w);
    PadOrder(m', n', w');
    var a, b := Pad(m, w) + [sep], Pad(n, w) + [sep];
    LessConcat(a, b, Pad(m', w'), Pad(n', w'));
    LessConcat(Pad(m, w), Pad(n, w), [sep], [sep]);
    assert a[..w] == Pad(m, w) && b[..w] == Pad(n, w);
    assert (a + Pad(m', w'))[..w + 1] == a && (b + Pad(n', w'))[..w + 1] == b;
    assert (a + Pad(m', w'))[w + 1..] == Pad(m', w') && (b + Pad(n', w'))[w + 1..] == Pad(n', w');
  }

  lemma {:induction false} LessTransitive(a: string, b: string, c: string)
    requires Less(a, b) && Less(b, c)
    ensures Less(a, c)
  {
    if a != "" && a[0] == b[0] == c[0] {
      LessTransitive(a[1..], b[1..], c[1..]);
    }
  }

  lemma {:induction false} LessTotal(a: string, b: string)
    ensures Less(a, b) || a == b || Less(b, a)
    ensures !(Less(a, b) && Less(b, a)) && !Less(a, a)
  {
    if a != "" && b != "" && a[0] == b[0] {
      LessTotal(a[1..], b[1..]);
      assert a == [a[0]] + a[1..] && b == [b[0]] + b[1..];
    }
    if a != "" {
      LessTotal(a[1..], a[1..]);
    }
  }
}
