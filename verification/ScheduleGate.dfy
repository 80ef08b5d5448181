/** The once-per-slot gate of the pollers: the earliest local-time slot of today that is due and
    not yet completed, and a pruned record of the completed ones. */
module ScheduleGate {
  import opened Options
  import opened Text

  datatype Clock = Clock(day: int, hour: nat, minute: nat)

  /** A completed slot: `date@slot`, its date as a day number, or a text that has no date. */
  datatype Key = Dated(day: int, slot: string) | Undated(text: string)

  datatype Decision = NotDue | Due(slot: string, key: Key) | InvalidSlot

  datatype Time = Time(hour: nat, minute: nat)

  // ----- slots as text

  function DigitValue(c: char): Option<nat> {
    if '0' <= c <= '9' then Some((c - '0') as nat) else None
  }

  /** Digits, with single underscores allowed between them. */
  function Number(s: string): Option<nat> {
    if s == "" then None
    else
      var d := DigitValue(s[|s| - 1]);
      if d.None? then None
      else if |s| == 1 then d
      else
        var rest := Number(if s[|s| - 2] == '_' then s[..|s| - 2] else s[..|s| - 1]);
        if rest.None? then None else Some(10 * rest.value + d.value)
  }

  /** `int(text)`: surrounding spaces and one sign are allowed. */
  function IntOf(text: string): Option<int> {
    var s := Strip(text);
    if s != "" && (s[0] == '+' || s[0] == '-') then
      var n := Number(s[1..]);
      if n.None? then None else if s[0] == '-' then Some(0 - n.value) else Some(n.value)
    else
      var n := Number(s);
      if n.None? then None else Some(n.value)
  }

  /** The position of the first colon, or the length. */
  function Colon(s: string): (i: nat)
    ensures i <= |s|
  {
    if s == "" then 0 else if s[0] == ':' then 0 else 1 + Colon(s[1..])
  }

  function ParseSlot(text: string): (t: Option<Time>)
    ensures t.Some? ==> ValidTime(t.value)
  {
    var s := Strip(text);
    var i := Colon(s);
    if i == |s| then None
    else
      var hour, minute := IntOf(s[..i]), IntOf(s[i + 1..]);
      if hour.Some? && minute.Some? && 0 <= hour.value <= 23 && 0 <= minute.value <= 59
      then Some(Time(hour.value, minute.value)) else None
  }

  predicate ValidTime(t: Time) { t.hour <= 23 && t.minute <= 59 }

  function Minutes(t: Time): nat { 60 * t.hour + t.minute }

  lemma TwoDigits()
    ensures Pow10(2) == 100
  {
    assert Pow10(1) == 10;
  }

  /** `HH:MM` */
  function Normal(t: Time): string
    requires ValidTime(t)
  {
    TwoDigits();
    Pad(t.hour, 2) + [':'] + Pad(t.minute, 2)
  }

  lemma PadTwo(n: nat)
    requires n < 100
    ensures Pow10(2) == 100 && Pad(n, 2) == [Digit(n / 10), Digit(n % 10)]
  {
    TwoDigits();
    assert Pow10(1) == 10;
    assert n / 10 / 10 == 0 && n / 10 % 10 == n / 10;
    assert Pad(n / 10, 1) == Pad(0, 0) + [Digit(n / 10)];
  }

  lemma DigitIsPlain(d: nat)
    requires d < 10
    ensures !IsSpace(Digit(d)) && Digit(d) != '_' && Digit(d) != '+' && Digit(d) != '-' && Digit(d) != ':'
    ensures DigitValue(Digit(d)) == Some(d) && IsDigit(Digit(d))
  {
  }

  lemma NumberTwo(a: nat, b: nat)
    requires a < 10 && b < 10
    ensures IntOf([Digit(a), Digit(b)]) == Some(10 * a + b)
  {
    hide Strip, IsSpace, Digit, DigitValue;
    var s := [Digit(a), Digit(b)];
    DigitIsPlain(a);
    DigitIsPlain(b);
    AlreadyStripped(s);
    assert s[..1] == [Digit(a)];
    assert Number(s[..1]) == Some(a);
  }

  /** Normalizing and parsing again gives the same time. */
  lemma NormalParses(t: Time)
    requires ValidTime(t)
    ensures ParseSlot(Normal(t)) == Some(t)
    ensures StripRight(Normal(t)) == Normal(t)
  {
    hide IntOf, Pad, Digit, Strip, IsSpace, StripRight;
    PadTwo(t.hour);
    PadTwo(t.minute);
    NumberTwo(t.hour / 10, t.hour % 10);
    NumberTwo(t.minute / 10, t.minute % 10);
    var s := Normal(t);
    assert s == [Digit(t.hour / 10), Digit(t.hour % 10), ':', Digit(t.minute / 10), Digit(t.minute % 10)];
    DigitIsPlain(t.hour / 10);
    DigitIsPlain(t.hour % 10);
    DigitIsPlain(t.minute % 10);
    AlreadyStripped(s);
    assert s[1..][1..] == s[2..];
    assert Colon(s[2..]) == 0 && Colon(s[1..]) == 1 && Colon(s) == 2;
    assert s[..2] == [Digit(t.hour / 10), Digit(t.hour % 10)];
    assert s[3..] == [Digit(t.minute / 10), Digit(t.minute % 10)];
  }

  lemma {:induction false} NumberOfPad(n: nat, w: nat)
    requires 0 < w && n < Pow10(w)
    ensures Number(Pad(n, w)) == Some(n)
    ensures forall i :: 0 <= i < w ==> IsDigit(Pad(n, w)[i])
  {
    hide DigitValue, Digit;
    var d, s := n % 10, Pad(n, w);
    DigitIsPlain(d);
    assert s[w - 1] == Digit(d) && s[..w - 1] == Pad(n / 10, w - 1);
    if w > 1 {
      NumberOfPad(n / 10, w - 1);
      assert IsDigit(s[w - 1]);
      assert forall i :: 0 <= i < w - 1 ==> s[i] == Pad(n / 10, w - 1)[i];
      assert IsDigit(s[w - 2]);
    } else {
      assert Pow10(1) == 10;
    }
  }

  predicate IsDigit(c: char) { '0' <= c <= '9' }

  lemma IntOfPad(n: nat, w: nat)
    requires 0 < w && n < Pow10(w)
    ensures IntOf(Pad(n, w)) == Some(n)
  {
    hide Number, Pad, Strip;
    NumberOfPad(n, w);
    var s := Pad(n, w);
    assert IsDigit(s[0]) && IsDigit(s[w - 1]);
    AlreadyStripped(s);
  }

  /** One sign is read as such, and a single underscore between digits is not read at all. */
  lemma SignsAndUnderscores(n: nat, w: nat, a: string, b: string)
    requires 0 < w && n < Pow10(w) && a != "" && b != ""
    requires (forall i :: 0 <= i < |a| ==> IsDigit(a[i])) && forall i :: 0 <= i < |b| ==> IsDigit(b[i])
    ensures IntOf("+" + Pad(n, w)) == Some(n) && IntOf("-" + Pad(n, w)) == Some(0 - n)
    ensures Number(a + "_" + b) == Number(a + b)
  {
    NumberOfPad(n, w);
    SignedText("+", Pad(n, w));
    SignedText("-", Pad(n, w));
    UnderscoreIgnored(a, b);
  }

  lemma SignedText(sign: string, s: string)
    requires (sign == "+" || sign == "-") && s != "" && IsDigit(s[|s| - 1])
    ensures Strip(sign + s) == sign + s && (sign + s)[1..] == s && (sign + s)[0] == sign[0]
  {
    hide Strip;
    assert (sign + s)[|s|] == s[|s| - 1];
    AlreadyStripped(sign + s);
  }

  lemma {:induction false} UnderscoreIgnored(a: string, b: string)
    requires a != "" && b != ""
    requires (forall i :: 0 <= i < |a| ==> IsDigit(a[i])) && forall i :: 0 <= i < |b| ==> IsDigit(b[i])
    ensures Number(a + "_" + b) == Number(a + b)
  {
    var s, t, n := a + "_" + b, a + b, |b| - 1;
    assert t[..|t| - 1] == a + b[..n] && s[|s| - 1] == t[|t| - 1] == b[n];
    if n == 0 {
      assert s[|s| - 2] == '_' && s[..|s| - 2] == a;
      assert t[|t| - 2] == a[|a| - 1] && a + b[..0] == a;
    } else {
      UnderscoreIgnored(a, b[..n]);
      assert s[..|s| - 1] == a + "_" + b[..n];
      assert s[|s| - 2] == b[n - 1] && t[|t| - 2] == b[n - 1];
    }
  }

  /** Hours and minutes may be written with any number of digits: "7:30" is "07:30". */
  lemma AnyDigitsParse(hour: nat, w: nat, minute: nat, w': nat)
    requires 0 < w && hour < Pow10(w) && 0 < w' && minute < Pow10(w')
    ensures ParseSlot(Pad(hour, w) + ":" + Pad(minute, w'))
         == if hour <= 23 && minute <= 59 then Some(Time(hour, minute)) else None
  {
    hide IntOf, Pad, Strip, StripRight, StripLeft, Number;
    var a, b := Pad(hour, w), Pad(minute, w');
    NumberOfPad(hour, w);
    NumberOfPad(minute, w');
    IntOfPad(hour, w);
    IntOfPad(minute, w');
    SplitAtColon(a, b);
  }

  /** Blanks around a slot do not matter. */
  lemma BlanksIgnored(before: string, s: string, after: string)
    requires (forall i :: 0 <= i < |before| ==> before[i] in " \t\n\r") && forall i :: 0 <= i < |after| ==> after[i] in " \t\n\r"
    requires s != "" && !IsSpace(s[0]) && !IsSpace(s[|s| - 1])
    ensures ParseSlot(before + s + after) == ParseSlot(s)
  {
    hide IntOf, Strip;
    StripsBlanks(before, s, after);
    AlreadyStripped(s);
  }

  lemma SplitAtColon(a: string, b: string)
    requires a != "" && b != ""
    requires (forall i :: 0 <= i < |a| ==> IsDigit(a[i])) && forall i :: 0 <= i < |b| ==> IsDigit(b[i])
    ensures var s := a + ":" + b;
            Strip(s) == s && Colon(s) == |a| && s[..|a|] == a && s[|a| + 1..] == b
  {
    hide Strip, StripRight, StripLeft, Colon;
    var s := a + ":" + b;
    assert s[0] == a[0] && s[|s| - 1] == b[|b| - 1] && IsDigit(s[0]) && IsDigit(s[|s| - 1]);
    AlreadyStripped(s);
    ColonAfterDigits(a, b);
  }

  lemma {:induction false} ColonAfterDigits(a: string, b: string)
    requires forall i :: 0 <= i < |a| ==> IsDigit(a[i])
    ensures Colon(a + ":" + b) == |a|
  {
    var s := a + ":" + b;
    if a != "" {
      assert s[1..] == a[1..] + ":" + b;
      ColonAfterDigits(a[1..], b);
    }
  }

  /** A text without a colon is no slot. */
  lemma {:induction false} NoColonNoSlot(s: string)
    requires ':' !in s
    ensures Colon(s) == |s|
  {
    if s != "" {
      NoColonNoSlot(s[1..]);
    }
  }

  /** A list of slots is accepted exactly when each of them parses. */
  lemma {:induction false} AcceptedIffAllParse(slots: seq<string>)
    ensures NormalizedSlots(slots).Some? <==> forall i :: 0 <= i < |slots| ==> ParseSlot(slots[i]).Some?
  {
    hide ParseSlot, InsertSlot, Normal;
    if slots != [] {
      var n := |slots| - 1;
      AcceptedIffAllParse(slots[..n]);
      assert forall i :: 0 <= i < n ==> slots[..n][i] == slots[i];
    }
  }

  /** The order of normalized slots as text is their order in time. */
  lemma TextOrderIsTimeOrder(t: Time, u: Time)
    requires ValidTime(t) && ValidTime(u)
    ensures Less(Normal(t), Normal(u)) <==> Minutes(t) < Minutes(u)
    ensures Normal(t) == Normal(u) <==> t == u
  {
    TwoDigits();
    PairOrder(t.hour, u.hour, 2, ':', t.minute, u.minute, 2);
  }

  // ----- the sorted set of slots

  /** Sorts one more text into a strictly ascending list, unless it is there already. */
  function InsertSlot(xs: seq<string>, x: string): seq<string> {
    if xs == [] then [x]
    else if x == xs[|xs| - 1] then xs
    else if Less(xs[|xs| - 1], x) then xs + [x]
    else InsertSlot(xs[..|xs| - 1], x) + [xs[|xs| - 1]]
  }

  ghost predicate Ascending(xs: seq<string>) {
    forall i, j :: 0 <= i < j < |xs| ==> Less(xs[i], xs[j])
  }

  /** `sorted({normalize(slot) for slot in slots})`, or nothing if a slot is invalid. */
  function NormalizedSlots(slots: seq<string>): Option<seq<string>> {
    if slots == [] then Some([])
    else
      var rest, t := NormalizedSlots(slots[..|slots| - 1]), ParseSlot(slots[|slots| - 1]);
      if rest.None? || t.None? then None else Some(InsertSlot(rest.value, Normal(t.value)))
  }

  lemma {:induction false} InsertSlotSorts(xs: seq<string>, x: string)
    requires Ascending(xs)
    ensures Ascending(InsertSlot(xs, x))
    ensures forall y :: y in InsertSlot(xs, x) <==> y == x || y in xs
  {
    hide Less;
    if xs != [] {
      var n := |xs| - 1;
      assert xs == xs[..n] + [xs[n]];
      LessTotal(xs[n], x);
      if Less(xs[n], x) {
        forall i | 0 <= i < n ensures Less(xs[i], x) {
          LessTransitive(xs[i], xs[n], x);
        }
      } else if x != xs[n] {
        InsertSlotSorts(xs[..n], x);
        var ys := InsertSlot(xs[..n], x);
        forall i | 0 <= i < |ys| ensures Less(ys[i], xs[n]) {
          assert ys[i] in ys;
          if ys[i] != x {
            var j :| 0 <= j < n && xs[..n][j] == ys[i];
          }
        }
      }
    }
  }

  ghost predicate SlotList(ns: seq<string>) {
    Ascending(ns) && forall s :: s in ns ==> ParseSlot(s).Some? && s == Normal(ParseSlot(s).value)
  }

  lemma {:induction false} NormalizedIsSlotList(slots: seq<string>)
    requires NormalizedSlots(slots).Some?
    ensures SlotList(NormalizedSlots(slots).value)
    ensures forall i :: 0 <= i < |slots| ==>
              ParseSlot(slots[i]).Some? && Normal(ParseSlot(slots[i]).value) in NormalizedSlots(slots).value
  {
    hide ParseSlot, Less, Normal, InsertSlot;
    if slots != [] {
      var n := |slots| - 1;
      NormalizedIsSlotList(slots[..n]);
      var t := ParseSlot(slots[n]).value;
      InsertSlotSorts(NormalizedSlots(slots[..n]).value, Normal(t));
      NormalParses(t);
      forall i | 0 <= i < |slots|
        ensures ParseSlot(slots[i]).Some? && Normal(ParseSlot(slots[i]).value) in NormalizedSlots(slots).value
      {
        if i < n {
          assert slots[..n][i] == slots[i];
        }
      }
    }
  }

  // ----- selecting

  predicate Ready(slot: string, now: Clock, completed: set<Key>) {
    ParseSlot(slot).Some? && Minutes(ParseSlot(slot).value) <= 60 * now.hour + now.minute
    && Dated(now.day, slot) !in completed
  }

  function FirstReady(ns: seq<string>, now: Clock, completed: set<Key>): Decision {
    if ns == [] then NotDue
    else if Ready(ns[0], now, completed) then Due(ns[0], Dated(now.day, ns[0]))
    else FirstReady(ns[1..], now, completed)
  }

  function Select(slots: seq<string>, now: Clock, completed: set<Key>): Decision {
    var ns := NormalizedSlots(slots);
    if ns.None? then InvalidSlot else FirstReady(ns.value, now, completed)
  }

  function Pruned(completed: set<Key>, now: Clock): set<Key> {
    set k | k in completed && (k.Undated? || k.day >= now.day - 7)
  }

  /** A key without the spaces around it; those before a date are no part of the model's key. */
  function Clean(key: Key): Key {
    match key
    case Dated(day, slot) => Dated(day, StripRight(slot))
    case Undated(text) => Undated(Strip(text))
  }

  function Marked(completed: set<Key>, key: Key, now: Clock): set<Key> {
    Pruned(completed + {Clean(key)}, now)
  }

  class Gate {
    var completed: set<Key>

    constructor ()
      ensures completed == {}
    {
      completed := {};
    }

    method SelectDueSlot(slots: seq<string>, now: Clock) returns (d: Decision)
      ensures d == Select(slots, now, completed)
    {
      var normalized := NormalizedSlots(slots);
      if normalized.None? {
        return InvalidSlot;
      }
      NormalizedIsSlotList(slots);
      var ns := normalized.value;
      for i := 0 to |ns|
        invariant Select(slots, now, completed) == FirstReady(ns[i..], now, completed)
      {
        var t := ParseSlot(ns[i]).value;
        if 60 * now.hour + now.minute < 60 * t.hour + t.minute {
          continue;
        }
        var key := Dated(now.day, ns[i]);
        if key in completed {
          continue;
        }
        return Due(ns[i], key);
      }
      return NotDue;
    }

    method MarkSlotCompleted(key: Key, now: Clock)
      modifies this
      ensures completed == Marked(old(completed), key, now)
    {
      completed := completed + {Clean(key)};
      WriteCompletedSlots(now);
    }

    method WriteCompletedSlots(now: Clock)
      modifies this
      ensures completed == Pruned(old(completed), now)
    {
      var cutoff := now.day - 7;
      completed := set k | k in completed && (k.Undated? || k.day >= cutoff);
    }

    /** A poller at one instant: select, mark, and again until nothing is due. */
    method Drain(slots: seq<string>, now: Clock) returns (drained: seq<string>)
      requires NormalizedSlots(slots).Some?
      modifies this
      ensures Ascending(drained)
      ensures forall s :: s in drained <==> s in NormalizedSlots(slots).value && Ready(s, now, old(completed))
      ensures Select(slots, now, completed) == NotDue
    {
      hide ParseSlot, Less, NormalizedSlots, Ready;
      var ns := NormalizedSlots(slots).value;
      NormalizedIsSlotList(slots);
      drained := [];
      ghost var pending := set s | s in ns && Ready(s, now, completed);
      var d := SelectDueSlot(slots, now);
      while d.Due?
        invariant d == Select(slots, now, completed)
        invariant pending == set s | s in ns && Ready(s, now, completed)
        invariant forall s :: s in drained || s in pending <==> s in ns && Ready(s, now, old(completed))
        invariant Ascending(drained) && forall s, p :: s in drained && p in pending ==> Less(s, p)
        decreases pending
      {
        FirstReadyIsEarliest(ns, now, completed);
        NormalParses(ParseSlot(d.slot).value);
        MarkingOne(ns, now, completed, d.slot);
        Extends(drained, pending, d.slot);
        MarkSlotCompleted(d.key, now);
        drained := drained + [d.slot];
        pending := pending - {d.slot};
        d := SelectDueSlot(slots, now);
      }
      FirstReadyIsEarliest(ns, now, completed);
    }
  }

  /** The gate opens exactly when some slot is ready, and then for the earliest ready one. */
  lemma {:induction false} FirstReadyIsEarliest(ns: seq<string>, now: Clock, completed: set<Key>)
    requires Ascending(ns)
    ensures var d := FirstReady(ns, now, completed);
            && !d.InvalidSlot?
            && (d.Due? <==> exists s :: s in ns && Ready(s, now, completed))
            && (d.Due? ==> d.slot in ns && Ready(d.slot, now, completed) && d.key == Dated(now.day, d.slot)
                           && forall s :: s in ns && Ready(s, now, completed) && s != d.slot ==> Less(d.slot, s))
  {
    hide Ready, Less;
    if ns != [] {
      assert ns == [ns[0]] + ns[1..];
      forall s | s in ns[1..] ensures Less(ns[0], s) {
        var i :| 0 <= i < |ns[1..]| && ns[1..][i] == s;
        assert s == ns[i + 1];
      }
      FirstReadyIsEarliest(ns[1..], now, completed);
    }
  }

  /** ... which is the earliest in time, not only as text. */
  lemma SelectIsEarliestInTime(slots: seq<string>, now: Clock, completed: set<Key>, i: nat)
    requires NormalizedSlots(slots).Some? && i < |slots|
    ensures var t := ParseSlot(slots[i]);
            var d := Select(slots, now, completed);
            t.Some? && (Ready(Normal(t.value), now, completed) ==>
                          d.Due? && ParseSlot(d.slot).Some?
                          && Minutes(ParseSlot(d.slot).value) <= Minutes(t.value))
  {
    hide Less, ParseSlot, Ready, FirstReady;
    NormalizedIsSlotList(slots);
    var ns := NormalizedSlots(slots).value;
    FirstReadyIsEarliest(ns, now, completed);
    var t := ParseSlot(slots[i]).value;
    if Ready(Normal(t), now, completed) {
      var d := Select(slots, now, completed);
      var u := ParseSlot(d.slot).value;
      TextOrderIsTimeOrder(u, t);
    }
  }

  lemma MarkingOne(ns: seq<string>, now: Clock, completed: set<Key>, slot: string)
    requires StripRight(slot) == slot
    ensures forall s :: s in ns ==>
              (Ready(s, now, Marked(completed, Dated(now.day, slot), now)) <==> Ready(s, now, completed) && s != slot)
  {
  }

  lemma Extends(drained: seq<string>, pending: set<string>, slot: string)
    requires Ascending(drained) && slot in pending
    requires forall s, p :: s in drained && p in pending ==> Less(s, p)
    ensures Ascending(drained + [slot])
  {
    forall i | 0 <= i < |drained| ensures Less(drained[i], slot) {
      assert drained[i] in drained;
    }
  }

  // ----- over any history of marks

  datatype Event = Event(key: Key, now: Clock)

  function After(es: seq<Event>): set<Key> {
    if es == [] then {} else Marked(After(es[..|es| - 1]), es[|es| - 1].key, es[|es| - 1].now)
  }

  /** Mark `i` of a history is of key `k`, and no mark from then on pruned it. */
  ghost predicate Stands(es: seq<Event>, i: int, k: Key)
    requires 0 <= i < |es|
  {
    Clean(es[i].key) == k && (k.Undated? || forall j :: i <= j < |es| ==> k.day >= es[j].now.day - 7)
  }

  /** A key is remembered exactly when some mark of it stands: no mark from that one on was made
      more than seven days past the key's date. */
  lemma {:induction false} RememberedIff(es: seq<Event>, k: Key)
    ensures k in After(es) <==> exists i :: 0 <= i < |es| && Stands(es, i, k)
  {
    hide Clean;
    if es != [] {
      var n := |es| - 1;
      RememberedIff(es[..n], k);
      forall i | 0 <= i < n
        ensures Stands(es, i, k) <==> Stands(es[..n], i, k) && (k.Undated? || k.day >= es[n].now.day - 7)
      {
        StandsLonger(es, i, k);
      }
      if k in After(es) {
        if k in After(es[..n]) {
          var i :| 0 <= i < n && Stands(es[..n], i, k);
          assert Stands(es, i, k);
        } else {
          assert Stands(es, n, k);
        }
      }
    }
  }

  lemma StandsLonger(es: seq<Event>, i: nat, k: Key)
    requires i < |es| - 1
    ensures Stands(es, i, k) <==> Stands(es[..|es| - 1], i, k) && (k.Undated? || k.day >= es[|es| - 1].now.day - 7)
  {
    hide Clean;
    var n := |es| - 1;
    assert forall j :: 0 <= j < n ==> es[..n][j] == es[j];
    if k.Dated? && Stands(es[..n], i, k) && k.day >= es[n].now.day - 7 {
      forall j | i <= j < |es| ensures k.day >= es[j].now.day - 7 {
        if j < n {
          assert es[..n][j] == es[j];
        }
      }
    }
    if k.Dated? && Stands(es, i, k) {
      forall j | i <= j < n ensures k.day >= es[..n][j].now.day - 7 {
        assert es[..n][j] == es[j];
      }
    }
  }

  /** After the marks of a history a slot is open: its time has come, and every mark it got today was
      pruned by a mark made, then or later, on a day more than seven days ahead. */
  ghost predicate OpenSlot(es: seq<Event>, slot: string, now: Clock) {
    && ParseSlot(slot).Some? && Minutes(ParseSlot(slot).value) <= 60 * now.hour + now.minute
    && forall i :: 0 <= i < |es| && Clean(es[i].key) == Dated(now.day, slot) ==> PrunedSince(es, i, now.day)
  }

  ghost predicate PrunedSince(es: seq<Event>, i: int, day: int)
    requires 0 <= i < |es|
  {
    exists j :: i <= j < |es| && es[j].now.day > day + 7
  }

  lemma ReadyIffOpen(es: seq<Event>, slot: string, now: Clock)
    ensures Ready(slot, now, After(es)) <==> OpenSlot(es, slot, now)
  {
    hide ParseSlot, After, Clean;
    var k := Dated(now.day, slot);
    RememberedIff(es, k);
    forall i | 0 <= i < |es| && Clean(es[i].key) == k ensures Stands(es, i, k) <==> !PrunedSince(es, i, now.day) {
    }
    if k in After(es) {
      var i :| 0 <= i < |es| && Stands(es, i, k);
      assert !PrunedSince(es, i, now.day);
    }
  }

  /** After any history the gate offers a slot, marked before or not, exactly when the slot is on the
      list and open and no earlier slot of the list is. */
  lemma OfferedIff(es: seq<Event>, slots: seq<string>, now: Clock, slot: string)
    requires NormalizedSlots(slots).Some?
    ensures Select(slots, now, After(es)) == Due(slot, Dated(now.day, slot)) <==>
              && slot in NormalizedSlots(slots).value && OpenSlot(es, slot, now)
              && forall s :: s in NormalizedSlots(slots).value && Less(s, slot) ==> !OpenSlot(es, s, now)
  {
    hide ParseSlot, Less, OpenSlot, After, FirstReady, NormalizedSlots, Ready;
    var ns := NormalizedSlots(slots).value;
    NormalizedIsSlotList(slots);
    FirstReadyIsEarliest(ns, now, After(es));
    forall s ensures Ready(s, now, After(es)) <==> OpenSlot(es, s, now) {
      ReadyIffOpen(es, s, now);
    }
    var d := FirstReady(ns, now, After(es));
    if d.Due? {
      LessTotal(d.slot, slot);
      forall s | s in ns && Less(s, d.slot) ensures !OpenSlot(es, s, now) {
        LessTotal(s, d.slot);
      }
    }
  }

  /** So a marked slot is not offered again while no mark from then on is made more than seven days
      past its date, in particular while the day does not go back. */
  lemma NeverOfferedAgain(es: seq<Event>, i: nat, slots: seq<string>, now: Clock)
    requires i < |es| && forall j :: i <= j < |es| ==> es[j].now.day <= now.day + 7
    ensures var d := Select(slots, now, After(es));
            d.Due? ==> d.key != Clean(es[i].key)
  {
    hide ParseSlot, Less, After, Clean, NormalizedSlots, FirstReady;
    if NormalizedSlots(slots).Some? {
      var ns := NormalizedSlots(slots).value;
      NormalizedIsSlotList(slots);
      FirstReadyIsEarliest(ns, now, After(es));
      var d := FirstReady(ns, now, After(es));
      if d.Due? {
        ReadyIffOpen(es, d.slot, now);
      }
    }
  }

  /** And a day that goes back by more than a week opens it: after a mark made on a day more than
      seven days ahead, a slot whose time has come is open, however often it was marked before. */
  lemma GoingBackReopens(es: seq<Event>, later: Event, slot: string, now: Clock)
    requires later.now.day > now.day + 7
    ensures OpenSlot(es + [later], slot, now)
            <==> ParseSlot(slot).Some? && Minutes(ParseSlot(slot).value) <= 60 * now.hour + now.minute
  {
    hide ParseSlot, Clean;
    var all := es + [later];
    forall i | 0 <= i < |all| && Clean(all[i].key) == Dated(now.day, slot) ensures PrunedSince(all, i, now.day) {
      assert all[|es|] == later;
    }
  }
}
