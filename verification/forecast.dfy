/** `groupForecastByDay`: the forecast grouper. The 3-hourly samples of a
    forecast are folded, in order, into one summary per calendar date; the
    summaries keep the order in which their dates first appear. */
module Forecast {

  datatype Option<T> = None | Some(value: T)

  /** One forecast entry, reduced to the fields the grouper reads: the
      timestamp in seconds, the entry's minimum and maximum temperature, and
      the condition name and icon code of its first weather element. */
  datatype Sample = Sample(dt: int, tempMin: real, tempMax: real, main: string, icon: string)

  /** What the grouper takes from the browser's locale: the offset of local
      time from UTC in seconds, and the weekday name printed for a timestamp. */
  datatype Locale = Locale(tzOffset: int, dayName: int -> string)

  /** One day of the forecast: its date key, weekday name, representative
      icon and condition, temperature range, and its member samples. */
  datatype Group = Group(
    date: int,
    day: string,
    icon: string,
    condition: string,
    minTemp: real,
    maxTemp: real,
    forecasts: seq<Sample>)

  const SecondsPerDay: int := 86400
  const SecondsPerHour: int := 3600

  /** The date key of a timestamp. The grouper keys by the UTC calendar date
      (`toISOString`), which is determined by, and determines, the number of
      whole UTC days since the epoch. */
  function DateKey(dt: int): int
  {
    dt / SecondsPerDay
  }

  /** The hour of a timestamp in local time (`getHours`), for a fixed offset. */
  function LocalHour(dt: int, tzOffset: int): int
  {
    ((dt + tzOffset) / SecondsPerHour) % 24
  }

  /** The grouper's "noon" window: local hours 11, 12 and 13. */
  predicate IsNoon(dt: int, tzOffset: int)
  {
    11 <= LocalHour(dt, tzOffset) <= 13
  }

  /** Timestamps are whole seconds in this model. A fractional timestamp
      (the source's numbers may have a fractional part) has the same date
      key and the same local hour as its whole-second floor. */
  lemma FractionalTimestamp(x: real, tzOffset: int)
    ensures (x / 86400.0).Floor == DateKey(x.Floor)
    ensures ((x + tzOffset as real) / 3600.0).Floor % 24 == LocalHour(x.Floor, tzOffset)
  {
    FloorDiv(x, SecondsPerDay);
    FloorDiv(x + tzOffset as real, SecondsPerHour);
    assert (x + tzOffset as real).Floor == x.Floor + tzOffset;
  }

  /** Flooring before a division by a positive whole number changes nothing. */
  lemma FloorDiv(x: real, d: int)
    requires d > 0
    ensures (x / d as real).Floor == x.Floor / d
  {
    var n := x.Floor;
    var q := n / d;
    var k := d as real;
    var r := x / k;
    assert r * k == x;
    assert q * d <= n < q * d + d;
    assert (q as real) * k <= x;
    assert x < (q as real + 1.0) * k;
    ScaleDown(q as real, r, k);
    ScaleDown(r, q as real + 1.0, k);
    assert q as real <= r < q as real + 1.0;
  }

  /** Dividing both sides of an inequality by a positive factor keeps it. */
  lemma ScaleDown(a: real, b: real, k: real)
    requires k > 0.0
    ensures a * k <= b * k ==> a <= b
    ensures a * k < b * k ==> a < b
  {
    if a > b {
      assert (a - b) * k > 0.0;
    }
    if a >= b {
      assert (a - b) * k >= 0.0;
    }
  }

  function Min(a: real, b: real): real
  {
    if a <= b then a else b
  }

  function Max(a: real, b: real): real
  {
    if a >= b then a else b
  }

  // ---------------------------------------------------------------------
  // The fold, as the source performs it.

  /** A fresh accumulator for the date of `s`. The source seeds the running
      minimum and maximum with plus and minus infinity; seeding with the
      first sample's own values gives the same result once it is absorbed. */
  function Seed(s: Sample, loc: Locale): Group
  {
    Group(DateKey(s.dt), loc.dayName(s.dt), "", "", s.tempMin, s.tempMax, [])
  }

  /** Folds one sample into its day's accumulator: append it, update the
      running minimum and maximum, and take its icon and condition when it
      falls in the noon window or no icon has been set yet. */
  function Absorb(g: Group, s: Sample, loc: Locale): Group
  {
    var take := IsNoon(s.dt, loc.tzOffset) || g.icon == "";
    g.(forecasts := g.forecasts + [s],
       minTemp := Min(g.minTemp, s.tempMin),
       maxTemp := Max(g.maxTemp, s.tempMax),
       icon := if take then s.icon else g.icon,
       condition := if take then s.main else g.condition)
  }

  /** The position of the accumulator for date `k`, if there is one. */
  function Find(gs: seq<Group>, k: int): (r: Option<nat>)
    ensures r.Some? ==> r.value < |gs| && gs[r.value].date == k
    ensures r.Some? ==> forall q :: 0 <= q < r.value ==> gs[q].date != k
    ensures r.None? ==> forall q :: 0 <= q < |gs| ==> gs[q].date != k
  {
    if |gs| == 0 then None
    else if gs[0].date == k then Some(0)
    else match Find(gs[1..], k)
      case None => None
      case Some(i) => Some(i + 1)
  }

  /** One iteration of the source's `forEach`: create the day's accumulator
      on its first sample, then absorb the sample into it. */
  function Step(gs: seq<Group>, s: Sample, loc: Locale): seq<Group>
  {
    match Find(gs, DateKey(s.dt))
    case Some(i) => gs[i := Absorb(gs[i], s, loc)]
    case None => gs + [Absorb(Seed(s, loc), s, loc)]
  }

  /** `groupForecastByDay`: the left fold of `Step` over the samples. */
  function GroupByDay(xs: seq<Sample>, loc: Locale): seq<Group>
  {
    if |xs| == 0 then []
    else Step(GroupByDay(xs[..|xs| - 1], loc), xs[|xs| - 1], loc)
  }

  /** The same fold written as the source's loop over the forecast list,
      with the accumulator looked up by a scan over the groups. */
  method GroupForecastByDay(list: seq<Sample>, loc: Locale) returns (groups: seq<Group>)
    ensures groups == GroupByDay(list, loc)
  {
    groups := [];
    var i := 0;
    while i < |list|
      invariant 0 <= i <= |list|
      invariant groups == GroupByDay(list[..i], loc)
    {
      var s := list[i];
      var k := DateKey(s.dt);
      var j := 0;
      while j < |groups| && groups[j].date != k
        invariant 0 <= j <= |groups|
        invariant forall q :: 0 <= q < j ==> groups[q].date != k
      {
        j := j + 1;
      }
      GroupByDayPrefix(list, i, loc);
      if j == |groups| {
        StepAppends(groups, s, loc);
        groups := groups + [Absorb(Seed(s, loc), s, loc)];
      } else {
        StepUpdates(groups, s, loc, j);
        groups := groups[j := Absorb(groups[j], s, loc)];
      }
      i := i + 1;
    }
    assert list[..|list|] == list;
  }

  /** A sample whose date has no group yet opens a new one at the end. */
  lemma StepAppends(gs: seq<Group>, s: Sample, loc: Locale)
    requires forall q :: 0 <= q < |gs| ==> gs[q].date != DateKey(s.dt)
    ensures Step(gs, s, loc) == gs + [Absorb(Seed(s, loc), s, loc)]
  {
  }

  /** A sample is absorbed into the first group with its date. */
  lemma StepUpdates(gs: seq<Group>, s: Sample, loc: Locale, j: nat)
    requires j < |gs| && gs[j].date == DateKey(s.dt)
    requires forall q :: 0 <= q < j ==> gs[q].date != DateKey(s.dt)
    ensures Step(gs, s, loc) == gs[j := Absorb(gs[j], s, loc)]
  {
    assert Find(gs, DateKey(s.dt)) == Some(j);
  }

  /** The fold over one more sample is one more step. */
  lemma GroupByDayPrefix(xs: seq<Sample>, i: nat, loc: Locale)
    requires i < |xs|
    ensures GroupByDay(xs[..i + 1], loc) == Step(GroupByDay(xs[..i], loc), xs[i], loc)
  {
    assert xs[..i + 1][..i] == xs[..i];
  }

  // ---------------------------------------------------------------------
  // The declarative description of the result.

  /** The samples of `xs` whose date key is `k`, in input order. */
  function OnDate(xs: seq<Sample>, k: int): (r: seq<Sample>)
    ensures |r| <= |xs|
  {
    if |xs| == 0 then []
    else
      var p := OnDate(xs[..|xs| - 1], k);
      if DateKey(xs[|xs| - 1].dt) == k then p + [xs[|xs| - 1]] else p
  }

  /** `OnDate` keeps exactly the samples on date `k`, each as often as it occurs. */
  lemma {:induction false} OnDateCount(xs: seq<Sample>, k: int)
    ensures forall s :: multiset(OnDate(xs, k))[s] == if DateKey(s.dt) == k then multiset(xs)[s] else 0
    ensures forall s :: s in OnDate(xs, k) <==> s in xs && DateKey(s.dt) == k
  {
    if |xs| > 0 {
      var n := |xs| - 1;
      OnDateCount(xs[..n], k);
      assert xs == xs[..n] + [xs[n]];
    }
  }

  /** The dates that occur in the input. */
  function KeySet(xs: seq<Sample>): set<int>
  {
    set s | s in xs :: DateKey(s.dt)
  }

  /** The dates of the groups. */
  function Dates(gs: seq<Group>): set<int>
  {
    set g | g in gs :: g.date
  }

  /** The position of the first sample on date `k`, or `|xs|` if there is none. */
  function FirstIndex(xs: seq<Sample>, k: int): (r: nat)
    ensures r <= |xs|
    ensures r < |xs| ==> DateKey(xs[r].dt) == k
    ensures forall q :: 0 <= q < r ==> DateKey(xs[q].dt) != k
  {
    if |xs| == 0 then 0
    else if DateKey(xs[0].dt) == k then 0
    else 1 + FirstIndex(xs[1..], k)
  }

  /** The number of samples held by all groups together. */
  function TotalMembers(gs: seq<Group>): nat
  {
    if |gs| == 0 then 0 else TotalMembers(gs[..|gs| - 1]) + |gs[|gs| - 1].forecasts|
  }

  /** The summary of one day's samples, folded on their own from the first. */
  function Summarize(ms: seq<Sample>, loc: Locale): (r: Group)
    requires |ms| > 0
    ensures r.date == DateKey(ms[0].dt) && r.day == loc.dayName(ms[0].dt)
    ensures r.forecasts == ms
  {
    if |ms| == 1 then Absorb(Seed(ms[0], loc), ms[0], loc)
    else Absorb(Summarize(ms[..|ms| - 1], loc), ms[|ms| - 1], loc)
  }

  predicate DistinctDates(gs: seq<Group>)
  {
    forall i, j :: 0 <= i < j < |gs| ==> gs[i].date != gs[j].date
  }

  /** Each group is the summary of exactly the (non-empty) samples on its date. */
  predicate Summaries(gs: seq<Group>, xs: seq<Sample>, loc: Locale)
  {
    forall i :: 0 <= i < |gs| ==>
      |OnDate(xs, gs[i].date)| > 0 && gs[i] == Summarize(OnDate(xs, gs[i].date), loc)
  }

  /** There is one group per date present in the input, and no other. */
  predicate Covers(gs: seq<Group>, xs: seq<Sample>)
  {
    Dates(gs) == KeySet(xs) && |gs| == |KeySet(xs)|
  }

  /** Groups are ordered by the first appearance of their dates. */
  predicate FirstSeenOrder(gs: seq<Group>, xs: seq<Sample>)
  {
    forall i, j :: 0 <= i < j < |gs| ==> FirstIndex(xs, gs[i].date) < FirstIndex(xs, gs[j].date)
  }

  /** What the grouping promises: one group per date present, with distinct
      dates, ordered by each date's first appearance; each group is the
      summary of exactly the samples on its date; the groups hold every
      sample once. */
  predicate Represents(gs: seq<Group>, xs: seq<Sample>, loc: Locale)
  {
    && DistinctDates(gs)
    && Summaries(gs, xs, loc)
    && Covers(gs, xs)
    && FirstSeenOrder(gs, xs)
    && TotalMembers(gs) == |xs|
  }

  // ---------------------------------------------------------------------
  // The fold meets the description.

  lemma OnDateSnoc(xs: seq<Sample>, s: Sample, k: int)
    ensures OnDate(xs + [s], k) == OnDate(xs, k) + (if DateKey(s.dt) == k then [s] else [])
  {
    assert (xs + [s])[..|xs|] == xs;
  }

  lemma KeySetSnoc(xs: seq<Sample>, s: Sample)
    ensures KeySet(xs + [s]) == KeySet(xs) + {DateKey(s.dt)}
  {
    forall x | x in xs + [s]
      ensures x in xs || x == s
    {
    }
  }

  /** A date has samples exactly when it occurs in the input. */
  lemma OnDateNonEmpty(xs: seq<Sample>, k: int)
    ensures |OnDate(xs, k)| > 0 <==> k in KeySet(xs)
  {
    var r := OnDate(xs, k);
    OnDateCount(xs, k);
    if |r| > 0 {
      assert r[0] in r;
    }
    if k in KeySet(xs) {
      var x :| x in xs && DateKey(x.dt) == k;
      assert x in r;
    }
  }

  lemma FirstIndexPresent(xs: seq<Sample>, k: int)
    ensures FirstIndex(xs, k) < |xs| <==> k in KeySet(xs)
  {
    var r := FirstIndex(xs, k);
    if r < |xs| {
      assert xs[r] in xs;
    }
    if k in KeySet(xs) {
      var x :| x in xs && DateKey(x.dt) == k;
      var q :| 0 <= q < |xs| && xs[q] == x;
    }
  }

  lemma {:induction false} FirstIndexSnoc(xs: seq<Sample>, s: Sample, k: int)
    ensures FirstIndex(xs, k) < |xs| ==> FirstIndex(xs + [s], k) == FirstIndex(xs, k)
    ensures FirstIndex(xs, k) == |xs| && DateKey(s.dt) == k ==> FirstIndex(xs + [s], k) == |xs|
  {
    if |xs| > 0 && DateKey(xs[0].dt) != k {
      assert (xs + [s])[1..] == xs[1..] + [s];
      FirstIndexSnoc(xs[1..], s, k);
    }
  }

  lemma TotalMembersSnoc(gs: seq<Group>, g: Group)
    ensures TotalMembers(gs + [g]) == TotalMembers(gs) + |g.forecasts|
  {
    assert (gs + [g])[..|gs|] == gs;
  }

  lemma {:induction false} TotalMembersUpdate(gs: seq<Group>, i: nat, g: Group)
    requires i < |gs|
    ensures TotalMembers(gs[i := g]) == TotalMembers(gs) - |gs[i].forecasts| + |g.forecasts|
    decreases |gs|
  {
    var n := |gs| - 1;
    var hs := gs[i := g];
    if i == n {
      assert hs[..n] == gs[..n];
    } else {
      assert hs[..n] == gs[..n][i := g];
      TotalMembersUpdate(gs[..n], i, g);
    }
  }

  lemma DatesUpdate(gs: seq<Group>, i: nat, g: Group)
    requires i < |gs| && g.date == gs[i].date
    ensures Dates(gs[i := g]) == Dates(gs)
  {
    var hs := gs[i := g];
    forall d | d in Dates(gs)
      ensures d in Dates(hs)
    {
      var q :| 0 <= q < |gs| && gs[q].date == d;
      assert hs[q].date == d;
    }
    forall d | d in Dates(hs)
      ensures d in Dates(gs)
    {
      var q :| 0 <= q < |hs| && hs[q].date == d;
      assert gs[q].date == d;
    }
  }

  lemma DatesSnoc(gs: seq<Group>, g: Group)
    ensures Dates(gs + [g]) == Dates(gs) + {g.date}
  {
    forall x | x in gs + [g]
      ensures x in gs || x == g
    {
    }
  }

  /** A non-empty sequence is its prefix followed by its last element. */
  lemma LastSplit<T>(ys: seq<T>)
    requires |ys| > 0
    ensures ys == ys[..|ys| - 1] + [ys[|ys| - 1]]
  {
  }

  lemma StepDistinct(gs: seq<Group>, s: Sample, loc: Locale)
    requires DistinctDates(gs)
    ensures DistinctDates(Step(gs, s, loc))
  {
  }

  lemma StepCovers(gs: seq<Group>, xs: seq<Sample>, s: Sample, ys: seq<Sample>, loc: Locale)
    requires Covers(gs, xs)
    requires |ys| > 0 && xs == ys[..|ys| - 1] && s == ys[|ys| - 1]
    ensures Covers(Step(gs, s, loc), ys)
  {
    LastSplit(ys);
    var k := DateKey(s.dt);
    KeySetSnoc(xs, s);
    match Find(gs, k)
    case Some(i) =>
      DatesUpdate(gs, i, Absorb(gs[i], s, loc));
      assert k in Dates(gs);
    case None =>
      assert k !in Dates(gs);
      DatesSnoc(gs, Absorb(Seed(s, loc), s, loc));
  }

  lemma StepSummaries(gs: seq<Group>, xs: seq<Sample>, s: Sample, ys: seq<Sample>, loc: Locale)
    requires Summaries(gs, xs, loc) && Covers(gs, xs) && DistinctDates(gs)
    requires |ys| > 0 && xs == ys[..|ys| - 1] && s == ys[|ys| - 1]
    ensures Summaries(Step(gs, s, loc), ys, loc)
  {
    LastSplit(ys);
    var k := DateKey(s.dt);
    var hs := Step(gs, s, loc);
    var ms := OnDate(xs, k);
    OnDateSnoc(xs, s, k);
    match Find(gs, k)
    case Some(i) =>
      SummarizeSnoc(ms, s, loc);
      forall q | 0 <= q < |hs|
        ensures |OnDate(ys, hs[q].date)| > 0 && hs[q] == Summarize(OnDate(ys, hs[q].date), loc)
      {
        if q != i {
          assert hs[q] == gs[q];
          OnDateSnoc(xs, s, gs[q].date);
        }
      }
    case None =>
      assert k !in Dates(gs);
      OnDateNonEmpty(xs, k);
      forall q | 0 <= q < |hs|
        ensures |OnDate(ys, hs[q].date)| > 0 && hs[q] == Summarize(OnDate(ys, hs[q].date), loc)
      {
        if q < |gs| {
          assert hs[q] == gs[q];
          OnDateSnoc(xs, s, gs[q].date);
        }
      }
  }

  lemma SummarizeSnoc(ms: seq<Sample>, s: Sample, loc: Locale)
    requires |ms| > 0
    ensures Summarize(ms + [s], loc) == Absorb(Summarize(ms, loc), s, loc)
  {
    assert (ms + [s])[..|ms|] == ms;
  }

  /** Appending a sample does not move the first appearance of a date
      already present. */
  lemma FirstIndexStable(gs: seq<Group>, xs: seq<Sample>, s: Sample, ys: seq<Sample>)
    requires Covers(gs, xs) && ys == xs + [s]
    ensures forall q :: 0 <= q < |gs| ==>
      FirstIndex(ys, gs[q].date) == FirstIndex(xs, gs[q].date) < |xs|
  {
    forall q | 0 <= q < |gs|
      ensures FirstIndex(ys, gs[q].date) == FirstIndex(xs, gs[q].date) < |xs|
    {
      assert gs[q].date in Dates(gs);
      FirstIndexPresent(xs, gs[q].date);
      FirstIndexSnoc(xs, s, gs[q].date);
    }
  }

  lemma StepOrder(gs: seq<Group>, xs: seq<Sample>, s: Sample, ys: seq<Sample>, loc: Locale)
    requires FirstSeenOrder(gs, xs) && Covers(gs, xs)
    requires |ys| > 0 && xs == ys[..|ys| - 1] && s == ys[|ys| - 1]
    ensures FirstSeenOrder(Step(gs, s, loc), ys)
  {
    LastSplit(ys);
    var k := DateKey(s.dt);
    FirstIndexStable(gs, xs, s, ys);
    assert FirstSeenOrder(gs, ys);
    match Find(gs, k)
    case Some(i) =>
      OrderSameDates(gs, Step(gs, s, loc), ys);
    case None =>
      assert k !in Dates(gs);
      FirstIndexPresent(xs, k);
      FirstIndexSnoc(xs, s, k);
      OrderAppend(gs, Absorb(Seed(s, loc), s, loc), ys, |xs|);
  }

  lemma OrderSameDates(gs: seq<Group>, hs: seq<Group>, ys: seq<Sample>)
    requires FirstSeenOrder(gs, ys)
    requires |hs| == |gs| && forall q :: 0 <= q < |gs| ==> hs[q].date == gs[q].date
    ensures FirstSeenOrder(hs, ys)
  {
  }

  lemma OrderAppend(gs: seq<Group>, g: Group, ys: seq<Sample>, n: int)
    requires FirstSeenOrder(gs, ys)
    requires forall q :: 0 <= q < |gs| ==> FirstIndex(ys, gs[q].date) < n
    requires FirstIndex(ys, g.date) == n
    ensures FirstSeenOrder(gs + [g], ys)
  {
  }

  lemma StepTotal(gs: seq<Group>, xs: seq<Sample>, s: Sample, ys: seq<Sample>, loc: Locale)
    requires TotalMembers(gs) == |xs|
    requires |ys| > 0 && xs == ys[..|ys| - 1] && s == ys[|ys| - 1]
    ensures TotalMembers(Step(gs, s, loc)) == |ys|
  {
    match Find(gs, DateKey(s.dt))
    case Some(i) => TotalMembersUpdate(gs, i, Absorb(gs[i], s, loc));
    case None => TotalMembersSnoc(gs, Absorb(Seed(s, loc), s, loc));
  }

  /** One step of the fold keeps the description true of the longer input. */
  lemma StepPreserves(xs: seq<Sample>, loc: Locale)
    requires |xs| > 0
    requires Represents(GroupByDay(xs[..|xs| - 1], loc), xs[..|xs| - 1], loc)
    ensures Represents(GroupByDay(xs, loc), xs, loc)
  {
    var p := xs[..|xs| - 1];
    var s := xs[|xs| - 1];
    var gs := GroupByDay(p, loc);
    StepDistinct(gs, s, loc);
    StepCovers(gs, p, s, xs, loc);
    StepSummaries(gs, p, s, xs, loc);
    StepOrder(gs, p, s, xs, loc);
    StepTotal(gs, p, s, xs, loc);
  }

  lemma RepresentsEmpty(xs: seq<Sample>, loc: Locale)
    requires |xs| == 0
    ensures Represents(GroupByDay(xs, loc), xs, loc)
  {
    assert KeySet(xs) == {};
  }

  /** The fold computes what the description says, for every input. */
  lemma {:induction false} GroupByDayRepresents(xs: seq<Sample>, loc: Locale)
    ensures Represents(GroupByDay(xs, loc), xs, loc)
  {
    if |xs| == 0 {
      RepresentsEmpty(xs, loc);
    } else {
      GroupByDayRepresents(xs[..|xs| - 1], loc);
      StepPreserves(xs, loc);
    }
  }

  // ---------------------------------------------------------------------
  // One day's summary.

  /** The running minimum and maximum are the minimum of the members'
      `temp_min` and the maximum of their `temp_max`. */
  lemma {:induction false} SummarizeTemperatures(ms: seq<Sample>, loc: Locale)
    requires |ms| > 0
    ensures forall j :: 0 <= j < |ms| ==> Summarize(ms, loc).minTemp <= ms[j].tempMin
    ensures exists j :: 0 <= j < |ms| && Summarize(ms, loc).minTemp == ms[j].tempMin
    ensures forall j :: 0 <= j < |ms| ==> ms[j].tempMax <= Summarize(ms, loc).maxTemp
    ensures exists j :: 0 <= j < |ms| && Summarize(ms, loc).maxTemp == ms[j].tempMax
  {
    var r := Summarize(ms, loc);
    if |ms| == 1 {
      assert r.minTemp == ms[0].tempMin && r.maxTemp == ms[0].tempMax;
    } else {
      var n := |ms| - 1;
      var p := ms[..n];
      SummarizeTemperatures(p, loc);
      var jMin :| 0 <= jMin < |p| && Summarize(p, loc).minTemp == p[jMin].tempMin;
      var jMax :| 0 <= jMax < |p| && Summarize(p, loc).maxTemp == p[jMax].tempMax;
      if Summarize(p, loc).minTemp <= ms[n].tempMin {
        assert r.minTemp == ms[jMin].tempMin;
      } else {
        assert r.minTemp == ms[n].tempMin;
      }
      if Summarize(p, loc).maxTemp >= ms[n].tempMax {
        assert r.maxTemp == ms[jMax].tempMax;
      } else {
        assert r.maxTemp == ms[n].tempMax;
      }
      forall j | 0 <= j < |ms|
        ensures r.minTemp <= ms[j].tempMin && ms[j].tempMax <= r.maxTemp
      {
        if j < n {
          assert ms[j] == p[j];
        }
      }
    }
  }

  /** The icon and condition shown for a day always come together from one
      of its samples. */
  lemma {:induction false} SummarizeConditionFromMember(ms: seq<Sample>, loc: Locale)
    requires |ms| > 0
    ensures exists j :: (0 <= j < |ms|
      && Summarize(ms, loc).icon == ms[j].icon && Summarize(ms, loc).condition == ms[j].main)
  {
    if |ms| == 1 {
      assert Summarize(ms, loc).icon == ms[0].icon;
    } else {
      var n := |ms| - 1;
      var p := ms[..n];
      SummarizeConditionFromMember(p, loc);
      var j :| 0 <= j < |p| && Summarize(p, loc).icon == p[j].icon && Summarize(p, loc).condition == p[j].main;
      if Summarize(ms, loc).icon == ms[n].icon && Summarize(ms, loc).condition == ms[n].main {
      } else {
        assert ms[j] == p[j];
      }
    }
  }

  /** Sample `j` is in the noon window and no later sample is. */
  predicate IsLastNoon(ms: seq<Sample>, j: int, tzOffset: int)
  {
    && 0 <= j < |ms|
    && IsNoon(ms[j].dt, tzOffset)
    && forall q :: j < q < |ms| ==> !IsNoon(ms[q].dt, tzOffset)
  }

  /** The noon preference: with non-empty icon codes, a day shows the icon
      and condition of its last sample in the local noon window, or of its
      first sample when none falls in that window. */
  lemma {:induction false} SummarizeCondition(ms: seq<Sample>, loc: Locale)
    requires |ms| > 0
    requires forall j :: 0 <= j < |ms| ==> ms[j].icon != ""
    ensures (forall j :: 0 <= j < |ms| ==> !IsNoon(ms[j].dt, loc.tzOffset))
            ==> Summarize(ms, loc).icon == ms[0].icon && Summarize(ms, loc).condition == ms[0].main
    ensures forall j :: (IsLastNoon(ms, j, loc.tzOffset)
            ==> Summarize(ms, loc).icon == ms[j].icon && Summarize(ms, loc).condition == ms[j].main)
  {
    var tz := loc.tzOffset;
    var r := Summarize(ms, loc);
    if |ms| > 1 {
      var n := |ms| - 1;
      var p := ms[..n];
      SummarizeCondition(p, loc);
      SummarizeConditionFromMember(p, loc);
      var pr := Summarize(p, loc);
      var w :| 0 <= w < |p| && pr.icon == p[w].icon && pr.condition == p[w].main;
      assert pr.icon != "";
      if IsNoon(ms[n].dt, tz) {
        assert r.icon == ms[n].icon && r.condition == ms[n].main;
        forall j | IsLastNoon(ms, j, tz)
          ensures j == n
        {
        }
      } else {
        assert r.icon == pr.icon && r.condition == pr.condition;
        forall j | IsLastNoon(ms, j, tz)
          ensures IsLastNoon(p, j, tz) && p[j] == ms[j]
        {
        }
        if forall j :: 0 <= j < |ms| ==> !IsNoon(ms[j].dt, tz) {
          assert forall j :: 0 <= j < |p| ==> p[j] == ms[j];
        }
      }
    }
  }

  // ---------------------------------------------------------------------
  // What `groupForecastByDay` returns.

  /** No input, no days. */
  lemma GroupByDayEmpty(loc: Locale)
    ensures GroupByDay([], loc) == []
  {
  }

  /** The groups partition the input by date: one group per date present,
      no date twice, groups in order of each date's first sample, each
      group's samples exactly the input's samples on its date in input
      order, and the group sizes adding up to the input length. */
  lemma GroupByDayPartition(xs: seq<Sample>, loc: Locale)
    ensures var gs := GroupByDay(xs, loc);
      && (forall i, j :: 0 <= i < j < |gs| ==> gs[i].date != gs[j].date)
      && Dates(gs) == KeySet(xs)
      && |gs| == |KeySet(xs)|
      && (forall i, j :: 0 <= i < j < |gs| ==> FirstIndex(xs, gs[i].date) < FirstIndex(xs, gs[j].date))
      && (forall i :: 0 <= i < |gs| ==> gs[i].forecasts == OnDate(xs, gs[i].date) && |gs[i].forecasts| > 0)
      && TotalMembers(gs) == |xs|
  {
    GroupByDayRepresents(xs, loc);
  }

  /** The day at position `i` summarises the input's samples on its date. */
  lemma GroupAt(xs: seq<Sample>, loc: Locale, i: int)
    requires 0 <= i < |GroupByDay(xs, loc)|
    ensures var g := GroupByDay(xs, loc)[i];
      && |OnDate(xs, g.date)| > 0
      && g == Summarize(OnDate(xs, g.date), loc)
  {
    GroupByDayRepresents(xs, loc);
  }

  /** Every date present in the input has a day. */
  lemma DateHasGroup(xs: seq<Sample>, loc: Locale, k: int)
    requires k in KeySet(xs)
    ensures exists i :: 0 <= i < |GroupByDay(xs, loc)| && GroupByDay(xs, loc)[i].date == k
  {
    var gs := GroupByDay(xs, loc);
    GroupByDayRepresents(xs, loc);
    assert k in Dates(gs);
  }

  /** Every sample lands in the group of its own date. */
  lemma SampleHasGroup(xs: seq<Sample>, loc: Locale, s: Sample)
    requires s in xs
    ensures var gs := GroupByDay(xs, loc);
      exists i :: 0 <= i < |gs| && gs[i].date == DateKey(s.dt) && s in gs[i].forecasts
  {
    var gs := GroupByDay(xs, loc);
    var k := DateKey(s.dt);
    assert k in KeySet(xs);
    DateHasGroup(xs, loc, k);
    var i :| 0 <= i < |gs| && gs[i].date == k;
    GroupAt(xs, loc, i);
    OnDateCount(xs, k);
    assert s in gs[i].forecasts;
  }

  /** A day's samples are exactly the input's samples on its date, the
      first of them is the input's first sample on that date, and the
      weekday name is printed from that first sample. */
  lemma GroupMembers(xs: seq<Sample>, loc: Locale, i: int)
    requires 0 <= i < |GroupByDay(xs, loc)|
    ensures var g := GroupByDay(xs, loc)[i];
      && (forall s :: s in g.forecasts <==> s in xs && DateKey(s.dt) == g.date)
      && |g.forecasts| > 0
      && FirstIndex(xs, g.date) < |xs|
      && g.forecasts[0] == xs[FirstIndex(xs, g.date)]
      && g.day == loc.dayName(g.forecasts[0].dt)
  {
    var g := GroupByDay(xs, loc)[i];
    GroupByDayRepresents(xs, loc);
    OnDateCount(xs, g.date);
    OnDateFirst(xs, g.date);
  }

  /** The first sample on date `k` heads the samples on date `k`. */
  lemma {:induction false} OnDateFirst(xs: seq<Sample>, k: int)
    requires |OnDate(xs, k)| > 0
    ensures FirstIndex(xs, k) < |xs| && OnDate(xs, k)[0] == xs[FirstIndex(xs, k)]
  {
    var n := |xs| - 1;
    var p := xs[..n];
    assert xs == p + [xs[n]];
    OnDateSnoc(p, xs[n], k);
    FirstIndexSnoc(p, xs[n], k);
    OnDateNonEmpty(p, k);
    FirstIndexPresent(p, k);
    if |OnDate(p, k)| > 0 {
      OnDateFirst(p, k);
    }
  }

  /** A day's range is the minimum of its samples' `temp_min` and the
      maximum of their `temp_max`. */
  lemma GroupTemperatures(xs: seq<Sample>, loc: Locale, i: int)
    requires 0 <= i < |GroupByDay(xs, loc)|
    ensures var g := GroupByDay(xs, loc)[i];
      && (forall s :: s in g.forecasts ==> g.minTemp <= s.tempMin && s.tempMax <= g.maxTemp)
      && (exists s :: s in g.forecasts && g.minTemp == s.tempMin)
      && (exists s :: s in g.forecasts && g.maxTemp == s.tempMax)
  {
    var g := GroupByDay(xs, loc)[i];
    GroupByDayRepresents(xs, loc);
    var ms := g.forecasts;
    SummarizeTemperatures(ms, loc);
    var a :| 0 <= a < |ms| && g.minTemp == ms[a].tempMin;
    var b :| 0 <= b < |ms| && g.maxTemp == ms[b].tempMax;
    assert ms[a] in ms && ms[b] in ms;
  }

  /** When every sample has `temp_min` at most `temp_max`, so does every day. */
  lemma GroupRangeOrdered(xs: seq<Sample>, loc: Locale, i: int)
    requires 0 <= i < |GroupByDay(xs, loc)|
    requires forall s :: s in xs ==> s.tempMin <= s.tempMax
    ensures GroupByDay(xs, loc)[i].minTemp <= GroupByDay(xs, loc)[i].maxTemp
  {
    var g := GroupByDay(xs, loc)[i];
    GroupTemperatures(xs, loc, i);
    GroupMembers(xs, loc, i);
    assert g.forecasts[0] in g.forecasts;
  }

  /** The noon preference, day by day: with non-empty icon codes, a day
      shows the icon and condition of its last sample in the local noon
      window, or of its first sample if none is. */
  lemma GroupConditions(xs: seq<Sample>, loc: Locale, i: int)
    requires 0 <= i < |GroupByDay(xs, loc)|
    requires forall s :: s in xs ==> s.icon != ""
    ensures var g := GroupByDay(xs, loc)[i];
      && |g.forecasts| > 0
      && ((forall j :: 0 <= j < |g.forecasts| ==> !IsNoon(g.forecasts[j].dt, loc.tzOffset))
          ==> g.icon == g.forecasts[0].icon && g.condition == g.forecasts[0].main)
      && (forall j :: (IsLastNoon(g.forecasts, j, loc.tzOffset)
          ==> g.icon == g.forecasts[j].icon && g.condition == g.forecasts[j].main))
  {
    var g := GroupByDay(xs, loc)[i];
    GroupMembers(xs, loc, i);
    GroupByDayRepresents(xs, loc);
    var ms := g.forecasts;
    forall j | 0 <= j < |ms|
      ensures ms[j].icon != ""
    {
      assert ms[j] in ms;
    }
    SummarizeCondition(ms, loc);
  }
}
