/** Derived views of a cow: relative dates, the latest event, event labels, weight trend, distinct pens. */
module CowUtils {
  import opened Wrappers
  import opened Seqs
  import opened Text
  import opened Numerals
  import opened CowTypes

  // ---------------------------------------------------------------- formatDate

  /** What `formatDate` shows: a relative label, or an absolute date rendered by the locale. */
  datatype DateLabel = Relative(text: string) | Absolute(date: int)

  /** Whole days elapsed from `date` to `now`, rounded down; Dafny's `/` by a positive divisor rounds down like `Math.floor`. */
  function ElapsedDays(date: int, now: int): (d: int)
    ensures d * DayMs <= now - date < (d + 1) * DayMs
  {
    (now - date) / DayMs
  }

  /** `formatDate`, the clock reading `now` given as a parameter. */
  function FormatDate(date: int, now: int): (r: DateLabel)
    ensures r == Relative("Today") <==> 0 <= now - date < DayMs
    ensures r == Relative("Yesterday") <==> DayMs <= now - date < 2 * DayMs
    ensures r.Absolute? <==> now - date >= 7 * DayMs
    ensures r.Absolute? ==> r.date == date
  {
    var days := ElapsedDays(date, now);
    if days == 0 then Relative("Today")
    else if days == 1 then Relative("Yesterday")
    else if days < 7 then Relative(IntToString(days) + " days ago")
    else Absolute(date)
  }

  /** Any other whole number of days below seven, in the past or the future, is counted out in the label. */
  lemma FormatDateDaysAgo(date: int, now: int, n: int)
    requires n < 7 && n != 0 && n != 1 && n * DayMs <= now - date < (n + 1) * DayMs
    ensures FormatDate(date, now) == Relative(IntToString(n) + " days ago")
  {
    assert ElapsedDays(date, now) == n;
  }

  /** A date up to a day in the future is shown as "-1 days ago": the bucketing has no case for the future. */
  lemma FormatDateFuture(date: int, now: int)
    requires now < date <= now + DayMs
    ensures FormatDate(date, now) == Relative("-1 days ago")
  {
    assert ElapsedDays(date, now) == -1;
  }

  // ---------------------------------------------------------------- getLastEventDate

  /** The greatest event date, which is the date at the front of the events sorted newest first. */
  function LatestDate(events: seq<CowEvent>): (d: int)
    requires |events| > 0
    ensures exists i :: 0 <= i < |events| && events[i].date == d
    ensures forall i :: 0 <= i < |events| ==> events[i].date <= d
  {
    if |events| == 1 then events[0].date
    else
      var rest := LatestDate(events[1..]);
      if events[0].date >= rest then events[0].date else rest
  }

  /** `getLastEventDate`: the creation date of a cow with no events, else the date of its latest event. */
  function LastEventDate(cow: Cow): (d: int)
    ensures |cow.events| == 0 ==> d == cow.createdAt
    ensures |cow.events| > 0 ==> exists i :: 0 <= i < |cow.events| && cow.events[i].date == d
    ensures forall i :: 0 <= i < |cow.events| ==> cow.events[i].date <= d
  {
    if |cow.events| == 0 then cow.createdAt else LatestDate(cow.events)
  }

  // ---------------------------------------------------------------- getEventDescription

  /** A pen as a template literal renders it: an absent one reads "undefined". */
  function PenText(pen: Option<string>): (t: string)
  {
    match pen
    case None => "undefined"
    case Some(p) => p
  }

  /** `getEventDescription`: the label of an event in a cow's history. */
  function EventDescription(e: CowEvent): (r: string)
    ensures |r| > 0
    ensures e.kind == Created ==> r == "Cow added to catalog"
    ensures e.kind == WeightCheck && !IsTruthy(e.weight) ==> r == "Weight check"
    ensures e.kind == WeightCheck && IsTruthy(e.weight) ==> r != "Weight check"
    ensures e.kind == Treatment ==> r == if e.description != [] then e.description else "Treatment administered"
    ensures e.kind == Death ==> r == if e.description != [] then e.description else "Cow deceased"
  {
    match e.kind
    case Created => "Cow added to catalog"
    case WeightCheck =>
      if IsTruthy(e.weight) then "Weight recorded: " + IntToString(e.weight.value) + " kg" else "Weight check"
    case Treatment => if e.description != [] then e.description else "Treatment administered"
    case PenMove => "Moved from " + PenText(e.fromPen) + " to " + PenText(e.toPen)
    case Death => if e.description != [] then e.description else "Cow deceased"
  }

  /** The labels of `created` and `pen_move` events do not depend on the stored description. */
  lemma EventDescriptionIgnoresStoredText(e: CowEvent, d: string)
    requires e.kind == Created || e.kind == PenMove
    ensures EventDescription(e.(description := d)) == EventDescription(e)
    ensures e.kind == PenMove && e.fromPen.Some? && e.toPen.Some? ==>
      EventDescription(e) == "Moved from " + e.fromPen.value + " to " + e.toPen.value
    ensures e.kind == PenMove && e.fromPen.None? ==> EventDescription(e)[..20] == "Moved from undefined"
    ensures e.kind == PenMove && e.toPen.None? ==>
      EventDescription(e)[|EventDescription(e)| - 13..] == " to undefined"
  {
  }

  /** A weight check with a truthy weight shows that weight, and the weight can be read back from the label. */
  lemma WeightLabelCarriesWeight(e: CowEvent)
    requires e.kind == WeightCheck && IsTruthy(e.weight)
    ensures var r := EventDescription(e);
      && |r| > 20
      && r[..17] == "Weight recorded: " && r[|r| - 3..] == " kg"
      && ParseInt(r[17..|r| - 3]) == e.weight.value
  {
    var r := EventDescription(e);
    var n := IntToString(e.weight.value);
    assert r == "Weight recorded: " + n + " kg";
    assert r[17..|r| - 3] == n;
    IntToStringRoundTrip(e.weight.value);
  }

  // ---------------------------------------------------------------- calculateDailyWeightGain

  /** The filter callback of `calculateDailyWeightGain`: a weight check whose weight is truthy. */
  predicate IsWeighed(e: CowEvent)
  {
    e.kind == WeightCheck && IsTruthy(e.weight)
  }

  /** The weighed events, in their recorded order. */
  function WeightChecks(events: seq<CowEvent>): (r: seq<CowEvent>)
    ensures forall i :: 0 <= i < |r| ==> IsWeighed(r[i]) && r[i] in events
    ensures forall j :: 0 <= j < |events| && IsWeighed(events[j]) ==> events[j] in r
  {
    Filter(events, IsWeighed)
  }

  function WeightOf(e: CowEvent): (w: int)
  {
    match e.weight
    case Some(w) => w
    case None => 0
  }

  ghost predicate SortedByDate(s: seq<CowEvent>)
  {
    forall i, j :: 0 <= i < j < |s| ==> s[i].date <= s[j].date
  }

  /** `x` placed before the first event of `s` dated no earlier than it. */
  function InsertByDate(x: CowEvent, s: seq<CowEvent>): (r: seq<CowEvent>)
    requires SortedByDate(s)
    ensures SortedByDate(r)
    ensures |r| == |s| + 1 && multiset(r) == multiset(s) + multiset{x}
  {
    if s == [] || x.date <= s[0].date then [x] + s
    else
      var tail := InsertByDate(x, s[1..]);
      assert s == [s[0]] + s[1..];
      ConsSorted(s[0], x, s[1..], tail);
      [s[0]] + tail
  }

  /** Putting the head back in front of a sorted insertion into the rest keeps the list sorted. */
  lemma ConsSorted(h: CowEvent, x: CowEvent, rest: seq<CowEvent>, tail: seq<CowEvent>)
    requires SortedByDate([h] + rest) && h.date < x.date
    requires SortedByDate(tail) && multiset(tail) == multiset(rest) + multiset{x}
    ensures SortedByDate([h] + tail)
    ensures multiset([h] + tail) == multiset([h] + rest) + multiset{x}
  {
    forall k | 0 <= k < |tail| ensures h.date <= tail[k].date {
      assert tail[k] in multiset(rest) + multiset{x};
      if tail[k] != x {
        SortedLeast([h] + rest, tail[k]);
      }
    }
    var r := [h] + tail;
    assert forall i :: 0 < i < |r| ==> r[i] == tail[i - 1];
  }

  /** No event of a date-sorted list is earlier than its head. */
  lemma SortedLeast(s: seq<CowEvent>, e: CowEvent)
    requires SortedByDate(s) && e in s
    ensures s[0].date <= e.date
  {
    var m :| 0 <= m < |s| && s[m] == e;
  }

  /** The stable ascending date sort of `calculateDailyWeightGain` (a comparator `a.date - b.date`). */
  function SortByDate(s: seq<CowEvent>): (r: seq<CowEvent>)
    ensures SortedByDate(r)
    ensures |r| == |s| && multiset(r) == multiset(s)
  {
    if s == [] then []
    else
      assert s == [s[0]] + s[1..];
      InsertByDate(s[0], SortByDate(s[1..]))
  }

  /** Position `i` holds the earliest date, and no earlier position holds that date too. */
  ghost predicate IsEarliest(s: seq<CowEvent>, i: int)
  {
    && 0 <= i < |s|
    && (forall k :: 0 <= k < |s| ==> s[i].date <= s[k].date)
    && (forall k :: 0 <= k < i ==> s[i].date < s[k].date)
  }

  /** Position `j` holds the latest date, and no later position holds that date too. */
  ghost predicate IsLatest(s: seq<CowEvent>, j: int)
  {
    && 0 <= j < |s|
    && (forall k :: 0 <= k < |s| ==> s[k].date <= s[j].date)
    && (forall k :: j < k < |s| ==> s[k].date < s[j].date)
  }

  lemma {:induction false} EarliestIndex(s: seq<CowEvent>) returns (i: int)
    requires |s| > 0
    ensures IsEarliest(s, i)
  {
    if |s| == 1 {
      i := 0;
    } else {
      var k := EarliestIndex(s[1..]);
      if s[0].date <= s[k + 1].date { i := 0; } else { i := k + 1; }
    }
  }

  lemma {:induction false} LatestIndex(s: seq<CowEvent>) returns (j: int)
    requires |s| > 0
    ensures IsLatest(s, j)
  {
    if |s| == 1 {
      j := 0;
    } else {
      var k := LatestIndex(s[1..]);
      if s[0].date > s[k + 1].date { j := 0; } else { j := k + 1; }
    }
  }

  /** Every sorted event comes from the input. */
  lemma SortedFrom(s: seq<CowEvent>, k: int) returns (m: int)
    requires 0 <= k < |SortByDate(s)|
    ensures 0 <= m < |s| && s[m] == SortByDate(s)[k]
  {
    var r := SortByDate(s);
    assert r[k] in multiset(r);
    assert r[k] in multiset(s);
    m :| 0 <= m < |s| && s[m] == r[k];
  }

  lemma InsertHead(x: CowEvent, s: seq<CowEvent>)
    requires SortedByDate(s)
    ensures InsertByDate(x, s)[0] == if s == [] || x.date <= s[0].date then x else s[0]
  {
  }

  lemma SortUnfold(s: seq<CowEvent>)
    requires s != []
    ensures SortedByDate(SortByDate(s[1..]))
    ensures SortByDate(s) == InsertByDate(s[0], SortByDate(s[1..]))
  {
  }

  lemma EarliestTail(s: seq<CowEvent>, i: int)
    requires IsEarliest(s, i) && i > 0
    ensures IsEarliest(s[1..], i - 1) && s[i].date < s[0].date
  {
    assert forall k :: 0 <= k < |s[1..]| ==> s[1..][k] == s[k + 1];
  }

  lemma LatestTail(s: seq<CowEvent>, j: int)
    requires IsLatest(s, j) && j > 0
    ensures IsLatest(s[1..], j - 1) && s[0].date <= s[j].date
  {
    assert forall k :: 0 <= k < |s[1..]| ==> s[1..][k] == s[k + 1];
  }

  lemma EarliestBeforeAll(s: seq<CowEvent>, k: int)
    requires IsEarliest(s, 0) && 0 <= k < |s|
    ensures s[0].date <= s[k].date
  {
  }

  /** Sorting is stable at the front: the first sorted event is the first of the earliest-dated ones. */
  lemma {:induction false} SortHeadIsEarliest(s: seq<CowEvent>, i: int)
    requires IsEarliest(s, i)
    ensures SortByDate(s)[0] == s[i]
  {
    SortUnfold(s);
    var rest := SortByDate(s[1..]);
    InsertHead(s[0], rest);
    if i == 0 {
      if rest != [] {
        var m := SortedFrom(s[1..], 0);
        EarliestBeforeAll(s, m + 1);
      }
    } else {
      EarliestTail(s, i);
      SortHeadIsEarliest(s[1..], i - 1);
    }
  }

  /** Inserting `x` into sorted events changes the last one only when `x` is strictly later. */
  lemma {:induction false} InsertLast(x: CowEvent, s: seq<CowEvent>)
    requires SortedByDate(s) && s != []
    ensures var r := InsertByDate(x, s);
      r[|r| - 1] == if x.date > s[|s| - 1].date then x else s[|s| - 1]
  {
    var r := InsertByDate(x, s);
    if x.date <= s[0].date {
      assert r == [x] + s;
      assert s[0].date <= s[|s| - 1].date;
    } else {
      var tail := InsertByDate(x, s[1..]);
      assert r == [s[0]] + tail;
      assert r[|r| - 1] == tail[|tail| - 1];
      if |s| > 1 {
        InsertLast(x, s[1..]);
        assert s[1..][|s| - 2] == s[|s| - 1];
      } else {
        assert tail == [x];
      }
    }
  }

  /** Sorting is stable at the back: the last sorted event is the last of the latest-dated ones. */
  lemma {:induction false} SortLastIsLatest(s: seq<CowEvent>, j: int)
    requires IsLatest(s, j)
    ensures SortByDate(s)[|s| - 1] == s[j]
  {
    SortUnfold(s);
    var rest := SortByDate(s[1..]);
    if rest != [] {
      InsertLast(s[0], rest);
      var m := SortedFrom(s[1..], |rest| - 1);
      assert s[1..][m] == s[m + 1];
      if j > 0 {
        LatestTail(s, j);
        SortLastIsLatest(s[1..], j - 1);
      }
    }
  }

  /** `Math.max(1, Math.floor((last - first) / day))`: whole days between two dates, never below one. */
  function DaysBetween(first: int, last: int): (d: int)
    ensures d >= 1
    ensures last - first >= DayMs ==> d * DayMs <= last - first < (d + 1) * DayMs
    ensures last - first < 2 * DayMs ==> d == 1
  {
    var days := ElapsedDays(first, last);
    if days < 1 then 1 else days
  }

  /** Weight change per day between two weighed events. */
  function Gain(first: CowEvent, last: CowEvent): (g: real)
  {
    (WeightOf(last) - WeightOf(first)) as real / DaysBetween(first.date, last.date) as real
  }

  /** The first and the last weighed event once sorted by date, when there are at least two. */
  function WeighingEnds(events: seq<CowEvent>): (r: Option<(CowEvent, CowEvent)>)
    ensures r.None? <==> |WeightChecks(events)| < 2
  {
    var ws := SortByDate(WeightChecks(events));
    if |ws| < 2 then None else Some((ws[0], ws[|ws| - 1]))
  }

  /** `calculateDailyWeightGain`, before the rounding to two decimals. */
  function DailyWeightGain(cow: Cow): (r: Option<real>)
    ensures r.None? <==> |WeightChecks(cow.events)| < 2
  {
    match WeighingEnds(cow.events)
    case None => None
    case Some(ends) => Some(Gain(ends.0, ends.1))
  }

  /** The ends are the first of the earliest weighings and the last of the latest ones. */
  lemma WeighingEndsSpec(events: seq<CowEvent>, i: int, j: int)
    requires var ws := WeightChecks(events); |ws| >= 2 && IsEarliest(ws, i) && IsLatest(ws, j)
    ensures var ws := WeightChecks(events); WeighingEnds(events) == Some((ws[i], ws[j]))
  {
    var ws := WeightChecks(events);
    SortHeadIsEarliest(ws, i);
    SortLastIsLatest(ws, j);
  }

  /**
   * The gain is that from the first of the earliest weighings to the last of the latest ones;
   * every weighing in between is ignored.
   */
  lemma DailyWeightGainSpec(cow: Cow, i: int, j: int)
    requires var ws := WeightChecks(cow.events); |ws| >= 2 && IsEarliest(ws, i) && IsLatest(ws, j)
    ensures var ws := WeightChecks(cow.events); DailyWeightGain(cow) == Some(Gain(ws[i], ws[j]))
  {
    WeighingEndsSpec(cow.events, i, j);
  }

  lemma AppendKeepsEnds(ws: seq<CowEvent>, e: CowEvent, i: int, j: int)
    requires IsEarliest(ws, i) && IsLatest(ws, j) && ws[i].date < e.date < ws[j].date
    ensures IsEarliest(ws + [e], i) && IsLatest(ws + [e], j)
  {
    var ws' := ws + [e];
    assert forall k :: 0 <= k < |ws| ==> ws'[k] == ws[k];
    assert ws'[|ws|] == e;
  }

  /** One more weighing dated strictly between the earliest and the latest leaves the ends unchanged. */
  lemma WeighingEndsIgnoreMiddle(events: seq<CowEvent>, e: CowEvent)
    requires IsWeighed(e)
    requires var ws := WeightChecks(events);
      exists a, b :: 0 <= a < |ws| && 0 <= b < |ws| && ws[a].date < e.date < ws[b].date
    ensures WeighingEnds(events + [e]) == WeighingEnds(events)
  {
    var ws := WeightChecks(events);
    var a, b :| 0 <= a < |ws| && 0 <= b < |ws| && ws[a].date < e.date < ws[b].date;
    FilterAppend(events, [e], IsWeighed);
    FilterKeepsAll([e], IsWeighed);
    var ws' := WeightChecks(events + [e]);
    assert ws' == ws + [e];
    var i := EarliestIndex(ws);
    var j := LatestIndex(ws);
    assert ws[i].date <= ws[a].date && ws[b].date <= ws[j].date;
    assert a != b && |ws| >= 2;
    AppendKeepsEnds(ws, e, i, j);
    WeighingEndsSpec(events, i, j);
    assert |ws'| >= 2 && ws'[i] == ws[i] && ws'[j] == ws[j];
    WeighingEndsSpec(events + [e], i, j);
  }

  /** Recording one more weighing dated strictly between the earliest and the latest leaves the gain unchanged. */
  lemma DailyWeightGainIgnoresMiddle(cow: Cow, e: CowEvent)
    requires IsWeighed(e)
    requires var ws := WeightChecks(cow.events);
      exists a, b :: 0 <= a < |ws| && 0 <= b < |ws| && ws[a].date < e.date < ws[b].date
    ensures DailyWeightGain(cow.(events := cow.events + [e])) == DailyWeightGain(cow)
  {
    WeighingEndsIgnoreMiddle(cow.events, e);
  }

  /** Two weighings ten days apart, 300 kg and then 320 kg, give a gain of 2 kg a day. */
  lemma DailyWeightGainExample(cow: Cow, a: CowEvent, b: CowEvent)
    requires a.kind == WeightCheck && a.weight == Some(300)
    requires b.kind == WeightCheck && b.weight == Some(320) && b.date == a.date + 10 * DayMs
    requires cow.events == [a, b]
    ensures DailyWeightGain(cow) == Some(2.0)
  {
    var ws := WeightChecks(cow.events);
    assert IsWeighed(a) && IsWeighed(b);
    FilterKeepsAll(cow.events, IsWeighed);
    assert ws == [a, b];
    assert IsEarliest(ws, 0) && IsLatest(ws, 1);
    WeighingEndsSpec(cow.events, 0, 1);
    assert WeightOf(b) - WeightOf(a) == 20;
    assert DaysBetween(a.date, b.date) == 10;
    assert Gain(a, b) == 20.0 / 10.0;
  }

  // ---------------------------------------------------------------- getUniquePens

  ghost predicate StrictlySorted(s: seq<string>)
  {
    forall i, j :: 0 <= i < j < |s| ==> StringLess(s[i], s[j])
  }

  /** `p` placed in sorted position in `s`, unless `s` already holds it. */
  function InsertPen(p: string, s: seq<string>): (r: seq<string>)
    requires StrictlySorted(s)
    ensures StrictlySorted(r)
    ensures forall x :: x in r <==> x in s || x == p
  {
    if s == [] then [p]
    else if p == s[0] then s
    else if StringLess(p, s[0]) then
      assert forall k :: 0 < k < |s| ==> StringLess(p, s[k]) by {
        forall k | 0 < k < |s| ensures StringLess(p, s[k]) { StringLessTransitive(p, s[0], s[k]); }
      }
      [p] + s
    else
      StringLessTotal(p, s[0]);
      var tail := InsertPen(p, s[1..]);
      assert forall k :: 0 <= k < |tail| ==> StringLess(s[0], tail[k]) by {
        forall k | 0 <= k < |tail| ensures StringLess(s[0], tail[k]) {
          assert tail[k] in tail;
        }
      }
      [s[0]] + tail
  }

  /** The distinct strings of `ps`, sorted: `Array.from(new Set(ps)).sort()`. */
  function SortedDistinct(ps: seq<string>): (r: seq<string>)
    ensures StrictlySorted(r)
    ensures forall x :: x in r <==> x in ps
  {
    if ps == [] then []
    else
      assert ps == [ps[0]] + ps[1..];
      InsertPen(ps[0], SortedDistinct(ps[1..]))
  }

  /** `getUniquePens`: the pens of the cows, each once, in string order. */
  function UniquePens(cows: seq<Cow>): (r: seq<string>)
    ensures StrictlySorted(r)
    ensures forall j :: 0 <= j < |cows| ==> cows[j].pen in r
    ensures forall i :: 0 <= i < |r| ==> exists j :: 0 <= j < |cows| && cows[j].pen == r[i]
  {
    var ps := Map(cows, (c: Cow) => c.pen);
    var r := SortedDistinct(ps);
    assert forall j :: 0 <= j < |cows| ==> cows[j].pen == ps[j];
    assert forall i :: 0 <= i < |r| ==> exists j :: 0 <= j < |cows| && cows[j].pen == r[i] by {
      forall i | 0 <= i < |r| ensures exists j :: 0 <= j < |cows| && cows[j].pen == r[i] {
        assert r[i] in ps;
        var j :| 0 <= j < |ps| && ps[j] == r[i];
        assert cows[j].pen == r[i];
      }
    }
    r
  }

  /** The least element of a strictly sorted list is its head. */
  lemma SortedHeadLeast(a: seq<string>, x: string)
    requires StrictlySorted(a) && x in a && a != []
    ensures x == a[0] || StringLess(a[0], x)
  {
  }

  lemma SortedTailExcludesHead(a: seq<string>)
    requires StrictlySorted(a) && a != []
    ensures a[0] !in a[1..]
  {
    if a[0] in a[1..] {
      var m :| 0 <= m < |a[1..]| && a[1..][m] == a[0];
      assert StringLess(a[0], a[m + 1]);
      StringLessIrreflexive(a[0]);
    }
  }

  /** Two strictly sorted lists with the same elements are the same list, so the pens list is fully determined. */
  lemma {:induction false} StrictlySortedUnique(a: seq<string>, b: seq<string>)
    requires StrictlySorted(a) && StrictlySorted(b)
    requires forall x :: x in a <==> x in b
    ensures a == b
  {
    if a != [] { assert a[0] in b; }
    if b != [] { assert b[0] in a; }
    if a != [] && b != [] {
      SortedHeadLeast(a, b[0]);
      SortedHeadLeast(b, a[0]);
      if a[0] != b[0] {
        StringLessAsymmetric(a[0], b[0]);
      }
      SortedTailExcludesHead(a);
      SortedTailExcludesHead(b);
      assert a == [a[0]] + a[1..] && b == [b[0]] + b[1..];
      forall x ensures x in a[1..] <==> x in b[1..] {
        assert x in a <==> x == a[0] || x in a[1..];
        assert x in b <==> x == b[0] || x in b[1..];
      }
      StrictlySortedUnique(a[1..], b[1..]);
    }
  }

  /** Cows in pens B1, A1, A1 and C2 give the pens A1, B1 and C2. */
  lemma UniquePensExample(c1: Cow, c2: Cow, c3: Cow, c4: Cow)
    requires c1.pen == "B1" && c2.pen == "A1" && c3.pen == "A1" && c4.pen == "C2"
    ensures UniquePens([c1, c2, c3, c4]) == ["A1", "B1", "C2"]
  {
    var r := UniquePens([c1, c2, c3, c4]);
    var e := ["A1", "B1", "C2"];
    assert StringLess("A1", "B1") && StringLess("B1", "C2") && StringLess("A1", "C2");
    assert StrictlySorted(e);
    var ps := Map([c1, c2, c3, c4], (c: Cow) => c.pen);
    assert ps == ["B1", "A1", "A1", "C2"];
    assert r == SortedDistinct(ps);
    StrictlySortedUnique(r, e);
  }
}
