/** The analytics page of src/pages/Analytics.tsx: the five filters over
    the event log, the year and type option lists, and the per-type counts
    of the bar chart. The month and the year of a timestamp depend on the
    local time zone and are given as two functions. */
module AnalyticsPage {
  import opened Prelude
  import opened Slug
  import opened Analytics

  /** `new Date(t).getMonth()` and `new Date(t).getFullYear()` in the local time zone. */
  datatype Calendar = Calendar(month: int -> int, year: int -> int)

  /** `n.toString()` for an integer. */
  function IntString(n: int): string {
    if n < 0 then "-" + DecimalString(-n) else DecimalString(n)
  }

  /** No month or year string is the word "all": it starts with a digit or a minus sign. */
  lemma IntStringNotAll(n: int)
    ensures IntString(n) != "all"
  {
    var s := IntString(n);
    if n >= 0 {
      assert IsDigit(s[0]);
    } else {
      assert s[0] == '-';
    }
    assert "all"[0] == 'a';
  }

  const All := "all"

  /** The five selected values: "all", or the one value to keep. */
  datatype Filters = Filters(month: string, year: string, companyId: string, applicantId: string, eventType: string)

  const NoFilters := Filters(All, All, All, All, All)

  /** The predicate `filtered` keeps an event by: each filter is "all" or
      equal to the event's field; an event without a company (applicant)
      never equals a selected company (applicant). */
  predicate Keep(f: Filters, cal: Calendar, e: Event) {
    && (f.month == All || IntString(cal.month(e.timestamp)) == f.month)
    && (f.year == All || IntString(cal.year(e.timestamp)) == f.year)
    && (f.companyId == All || e.companyId == Some(f.companyId))
    && (f.applicantId == All || e.applicantId == Some(f.applicantId))
    && (f.eventType == All || TypeName(e.eventType) == f.eventType)
  }

  /** `filtered`: the kept events, in log order, so newest first. */
  function Filtered(events: seq<Event>, f: Filters, cal: Calendar): (r: seq<Event>)
    ensures IsSubsequence(r, events)
    ensures forall e :: e in r <==> e in events && Keep(f, cal, e)
    ensures forall e :: Count(r, e) == (if Keep(f, cal, e) then Count(events, e) else 0)
  {
    Filter(events, e => Keep(f, cal, e))
  }

  /** Filtering by a predicate every element satisfies keeps everything. */
  lemma {:induction false} FilterAll<T(!new)>(xs: seq<T>, p: T -> bool)
    requires forall x :: x in xs ==> p(x)
    ensures Filter(xs, p) == xs
  {
    if xs != [] {
      assert xs[0] in xs;
      forall x | x in xs[1..] ensures p(x) {
        assert x in xs;
      }
      FilterAll(xs[1..], p);
    }
  }

  /** With all five filters at "all", `filtered` is the whole log. */
  lemma NoFiltersKeepAll(events: seq<Event>, cal: Calendar)
    ensures Filtered(events, NoFilters, cal) == events
  {
    FilterAll(events, e => Keep(NoFilters, cal, e));
  }

  /** Once a company is selected, events without a company are filtered out,
      and every kept event has that company. */
  lemma CompanyFilterExact(events: seq<Event>, f: Filters, cal: Calendar)
    requires f.companyId != All
    ensures forall e :: e in Filtered(events, f, cal) ==> e.companyId == Some(f.companyId)
  {
  }

  // ---------------------------------------------------------------------
  // Option lists
  // ---------------------------------------------------------------------

  /** `events.map(e => e.type)` */
  function TypeNames(events: seq<Event>): (r: seq<string>)
    ensures |r| == |events|
    ensures forall k :: 0 <= k < |events| ==> r[k] == TypeName(events[k].eventType)
  {
    if events == [] then [] else [TypeName(events[0].eventType)] + TypeNames(events[1..])
  }

  /** `["all", ...Array.from(new Set(events.map(e => e.type)))]` */
  function TypeOptions(events: seq<Event>): seq<string> {
    [All] + Distinct(TypeNames(events))
  }

  /** No event type is stored as the word "all". */
  lemma TypeNameNotAll(t: EventType)
    ensures TypeName(t) != All
  {
    assert "all"[0] == 'a';
    match t
    case LoginSuccess => assert TypeName(t)[0] == 'l';
    case CompanyCreated => assert TypeName(t)[0] == 'c';
    case ApplicantCreated => assert TypeName(t)[1] == 'p';
    case Proforma1Saved => assert TypeName(t)[0] == 'p';
    case Proforma1Submitted => assert TypeName(t)[0] == 'p';
    case Proforma2Saved => assert TypeName(t)[0] == 'p';
    case ApplicantApproved => assert TypeName(t)[1] == 'p';
    case KitCreated => assert TypeName(t)[0] == 'k';
  }

  /** The type options are "all" followed by each type that occurs in the
      log, each exactly once, with no other entry. */
  lemma TypeOptionsSpec(events: seq<Event>)
    ensures var r := TypeOptions(events);
      && r[0] == All && NoDup(r)
      && forall t :: t in r[1..] <==> t in TypeNames(events)
  {
    var names := TypeNames(events);
    var d := Distinct(names);
    var r := TypeOptions(events);
    assert r[1..] == d;
    forall k | 0 <= k < |d| ensures d[k] != All {
      assert d[k] in names;
      var i :| 0 <= i < |names| && names[i] == d[k];
      TypeNameNotAll(events[i].eventType);
    }
    forall i, j | 0 <= i < j < |r| ensures r[i] != r[j] {
      if i > 0 {
        assert r[i] == d[i - 1] && r[j] == d[j - 1];
      } else {
        assert r[j] == d[j - 1];
      }
    }
  }

  /** String order of JavaScript's default `sort`: code unit by code unit,
      a proper prefix first. */
  predicate Before(a: string, b: string) {
    if b == [] then false
    else if a == [] then true
    else if a[0] != b[0] then a[0] < b[0]
    else Before(a[1..], b[1..])
  }

  predicate AtMost(a: string, b: string) {
    a == b || Before(a, b)
  }

  /** Two different strings are ordered one way or the other. */
  lemma {:induction false} BeforeTotal(a: string, b: string)
    ensures a == b || Before(a, b) || Before(b, a)
  {
    if a != [] && b != [] && a[0] == b[0] {
      BeforeTotal(a[1..], b[1..]);
      if a[1..] == b[1..] {
        assert a == [a[0]] + a[1..] && b == [b[0]] + b[1..];
      }
    }
  }

  /** Each entry is at most the next one. */
  predicate Sorted(xs: seq<string>) {
    forall k :: 0 <= k < |xs| - 1 ==> AtMost(xs[k], xs[k + 1])
  }

  /** Puts `x` in front of the first entry it is at most. */
  function Insert(x: string, xs: seq<string>): (r: seq<string>)
    requires Sorted(xs)
    ensures Sorted(r) && multiset(r) == multiset(xs) + multiset{x}
    ensures r != [] && (r[0] == x || (xs != [] && r[0] == xs[0]))
  {
    if xs == [] then [x]
    else if AtMost(x, xs[0]) then
      SortedCons(x, xs);
      [x] + xs
    else
      BeforeTotal(x, xs[0]);
      assert Sorted(xs[1..]);
      var rest := Insert(x, xs[1..]);
      assert xs == [xs[0]] + xs[1..];
      assert multiset(xs) == multiset{xs[0]} + multiset(xs[1..]);
      assert multiset([xs[0]] + rest) == multiset{xs[0]} + multiset(rest);
      assert AtMost(xs[0], rest[0]);
      SortedCons(xs[0], rest);
      [xs[0]] + rest
  }

  /** A sorted list stays sorted with an element no later than its head in front. */
  lemma SortedCons(y: string, ys: seq<string>)
    requires Sorted(ys) && (ys != [] ==> AtMost(y, ys[0]))
    ensures Sorted([y] + ys)
  {
    var r := [y] + ys;
    forall k | 0 <= k < |r| - 1
      ensures AtMost(r[k], r[k + 1])
    {
      if k > 0 {
        assert r[k] == ys[k - 1] && r[k + 1] == ys[k];
      }
    }
  }

  /** `.sort()` on strings, as insertion sort: sorted, and the same entries. */
  function Sort(xs: seq<string>): (r: seq<string>)
    ensures Sorted(r) && multiset(r) == multiset(xs)
  {
    if xs == [] then []
    else
      assert xs == [xs[0]] + xs[1..];
      Insert(xs[0], Sort(xs[1..]))
  }

  /** A duplicate-free sequence holds each value at most once. */
  lemma {:induction false} NoDupMultiplicity(xs: seq<string>, v: string)
    requires NoDup(xs)
    ensures multiset(xs)[v] <= 1
  {
    if xs != [] {
      assert NoDup(xs[1..]);
      NoDupMultiplicity(xs[1..], v);
      assert xs == [xs[0]] + xs[1..];
      if xs[0] == v {
        assert v !in xs[1..];
      }
    }
  }

  /** A rearrangement of a duplicate-free sequence is duplicate-free. */
  lemma PermutationNoDup(xs: seq<string>, ys: seq<string>)
    requires NoDup(xs) && multiset(ys) == multiset(xs)
    ensures NoDup(ys)
  {
    forall i, j | 0 <= i < j < |ys| ensures ys[i] != ys[j] {
      if ys[i] == ys[j] {
        var v := ys[i];
        var ys' := ys[..j] + ys[j + 1..];
        assert ys == ys' [..j] + [v] + ys[j + 1..] by {
          assert ys'[..j] == ys[..j];
        }
        assert multiset(ys) == multiset(ys') + multiset{v} by {
          assert ys == ys[..j] + [v] + ys[j + 1..];
        }
        assert ys'[i] == v;
        assert multiset(ys')[v] >= 1;
        NoDupMultiplicity(xs, v);
        assert false;
      }
    }
  }

  /** `new Date(e.timestamp).getFullYear().toString()` for every event. */
  function YearStrings(events: seq<Event>, cal: Calendar): (r: seq<string>)
    ensures |r| == |events|
    ensures forall k :: 0 <= k < |events| ==> r[k] == IntString(cal.year(events[k].timestamp))
  {
    if events == [] then [] else [IntString(cal.year(events[0].timestamp))] + YearStrings(events[1..], cal)
  }

  /** `["all", ...Array.from(s).sort()]` where `s` is the set of year strings. */
  function YearOptions(events: seq<Event>, cal: Calendar): seq<string> {
    [All] + Sort(Distinct(YearStrings(events, cal)))
  }

  /** The year options are "all" followed by the years of the log's events,
      each exactly once, in sorted order. */
  lemma YearOptionsSpec(events: seq<Event>, cal: Calendar)
    ensures var r := YearOptions(events, cal);
      && r[0] == All && Sorted(r[1..]) && NoDup(r[1..])
      && forall y :: y in r[1..] <==> y in YearStrings(events, cal)
  {
    var d := Distinct(YearStrings(events, cal));
    var r := YearOptions(events, cal);
    assert r[1..] == Sort(d);
    PermutationNoDup(d, Sort(d));
    forall y ensures y in Sort(d) <==> y in d {
      assert y in Sort(d) <==> y in multiset(Sort(d));
      assert y in d <==> y in multiset(d);
    }
  }

  // ---------------------------------------------------------------------
  // The bar chart
  // ---------------------------------------------------------------------

  /** One bar: a type name and how many filtered events have it. */
  datatype Bar = Bar(eventType: string, count: nat)

  /** `map[t] = (map[t] ?? 0) + 1` on the entries in insertion order. */
  function Bump(bars: seq<Bar>, t: string): seq<Bar> {
    if bars == [] then [Bar(t, 1)]
    else if bars[0].eventType == t then [bars[0].(count := bars[0].count + 1)] + bars[1..]
    else [bars[0]] + Bump(bars[1..], t)
  }

  /** The `forEach` over the type names, then `Object.entries`. */
  function Tally(names: seq<string>): seq<Bar> {
    if names == [] then [] else Bump(Tally(names[..|names| - 1]), names[|names| - 1])
  }

  /** `barData` */
  function BarData(events: seq<Event>, f: Filters, cal: Calendar): seq<Bar> {
    Tally(TypeNames(Filtered(events, f, cal)))
  }

  function BarTypes(bars: seq<Bar>): (r: seq<string>)
    ensures |r| == |bars|
    ensures forall k :: 0 <= k < |bars| ==> r[k] == bars[k].eventType
  {
    if bars == [] then [] else [bars[0].eventType] + BarTypes(bars[1..])
  }

  /** The count of the first bar of type `t`, 0 when there is none. */
  function BarCount(bars: seq<Bar>, t: string): nat {
    if bars == [] then 0 else if bars[0].eventType == t then bars[0].count else BarCount(bars[1..], t)
  }

  function Total(bars: seq<Bar>): nat {
    if bars == [] then 0 else bars[0].count + Total(bars[1..])
  }

  /** Bumping a type adds one to its bar, appending a bar for a new type. */
  lemma {:induction false} BumpSpec(bars: seq<Bar>, t: string)
    ensures BarTypes(Bump(bars, t)) == if t in BarTypes(bars) then BarTypes(bars) else BarTypes(bars) + [t]
    ensures forall u :: BarCount(Bump(bars, t), u) == BarCount(bars, u) + (if u == t then 1 else 0)
    ensures Total(Bump(bars, t)) == Total(bars) + 1
  {
    if bars != [] && bars[0].eventType != t {
      BumpSpec(bars[1..], t);
      assert BarTypes(bars) == [bars[0].eventType] + BarTypes(bars[1..]);
      assert t in BarTypes(bars) <==> t in BarTypes(bars[1..]);
    }
  }

  /** The bars name the distinct types in order of first occurrence. */
  lemma {:induction false} TallyTypes(names: seq<string>)
    ensures BarTypes(Tally(names)) == Distinct(names)
    decreases |names|
  {
    if names != [] {
      var init := names[..|names| - 1];
      TallyTypes(init);
      BumpSpec(Tally(init), names[|names| - 1]);
    }
  }

  /** The bar of a type counts that type's occurrences. */
  lemma {:induction false} TallyCounts(names: seq<string>, t: string)
    ensures BarCount(Tally(names), t) == Count(names, t)
    decreases |names|
  {
    if names != [] {
      var init := names[..|names| - 1];
      var last := names[|names| - 1];
      var bars := Tally(init);
      TallyCounts(init, t);
      BumpSpec(bars, last);
      assert Tally(names) == Bump(bars, last);
      assert BarCount(Tally(names), t) == BarCount(bars, t) + (if t == last then 1 else 0);
      assert names == init + [last];
      CountAppend(init, [last], t);
      assert Count([last], t) == (if last == t then 1 else 0) by {
        assert [last][1..] == [];
      }
    }
  }

  /** The counts add up to the number of names. */
  lemma {:induction false} TallyTotal(names: seq<string>)
    ensures Total(Tally(names)) == |names|
    decreases |names|
  {
    if names != [] {
      var init := names[..|names| - 1];
      TallyTotal(init);
      BumpSpec(Tally(init), names[|names| - 1]);
    }
  }

  /** With the types of the bars all different, a bar's count is the count
      of its type. */
  lemma {:induction false} BarCountAt(bars: seq<Bar>, k: nat)
    requires NoDup(BarTypes(bars)) && k < |bars|
    ensures BarCount(bars, bars[k].eventType) == bars[k].count
  {
    if k > 0 {
      assert BarTypes(bars)[0] != BarTypes(bars)[k];
      assert NoDup(BarTypes(bars[1..])) by {
        assert forall i :: 0 <= i < |bars| - 1 ==> BarTypes(bars[1..])[i] == BarTypes(bars)[i + 1];
      }
      BarCountAt(bars[1..], k - 1);
    }
  }

  /** `barData` has one bar per type present among the filtered events, in
      the order the types first occur, each counting that type's events;
      the counts sum to the number of filtered events. */
  lemma BarDataSpec(events: seq<Event>, f: Filters, cal: Calendar)
    ensures var kept := Filtered(events, f, cal);
      var bars := BarData(events, f, cal);
      && BarTypes(bars) == Distinct(TypeNames(kept))
      && (forall k :: 0 <= k < |bars| ==> bars[k].count == Count(TypeNames(kept), bars[k].eventType) && bars[k].count > 0)
      && Total(bars) == |kept|
  {
    var names := TypeNames(Filtered(events, f, cal));
    var bars := Tally(names);
    TallyTypes(names);
    TallyTotal(names);
    forall k | 0 <= k < |bars| ensures bars[k].count == Count(names, bars[k].eventType) && bars[k].count > 0 {
      BarCountAt(bars, k);
      TallyCounts(names, bars[k].eventType);
      assert bars[k].eventType == BarTypes(bars)[k];
    }
  }
}
