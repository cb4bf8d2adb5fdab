/**
 * The start-up derivation of app.py (lines 137-216): one project record per
 * input row, with its padded span, its ordered `trs_delay` entries and its
 * vertical slot, and the global date range over all projects.
 */
module Timeline {
  import opened Wrappers
  import opened Schema
  import opened Delays
  import opened Span
  import opened OrderedMaps
  import opened Columns

  /** `y_step`: vertical distance between two projects. */
  const YStep: int := 30
  /** Days on either side of `now` for the global range when there is no project. */
  const EmptyRangeDays: int := 30

  /**
   * The loaded data (`excel_data`): the project column and one column of
   * day numbers per slot, `None` for a missing or unparseable date.
   */
  datatype Table = Table(names: seq<string>, columns: map<Slot, seq<Option<int>>>)

  /** Every slot has a column, as long as the project column. */
  ghost predicate WellFormed(t: Table) {
    forall s: Slot :: s in t.columns && |t.columns[s]| == |t.names|
  }

  /** `excel_data[s][i]` */
  function DateAt(t: Table, s: Slot, i: nat): Option<int>
    requires WellFormed(t) && i < |t.names|
  {
    t.columns[s][i]
  }

  /** The dates of row `i`, listed in the slot order `order`. */
  function RowDates(t: Table, i: nat, order: seq<Slot>): seq<Option<int>>
    requires WellFormed(t) && i < |t.names|
  {
    seq(|order|, k requires 0 <= k < |order| => DateAt(t, order[k], i))
  }

  /** A `trs_delay` entry: `{"date": ..., "delay": ...}`. */
  datatype TrInfo = TrInfo(date: int, delay: int)

  /** One element of `projects`. */
  datatype Project = Project(
    name: string,
    startDate: int,
    endDate: int,
    yPos: int,
    trsDelay: OrderedMap<Slot, TrInfo>)

  /**
   * `valid_trs_delay` after the loop over the first `|keys|` keys: each key
   * whose date is present is stored with its date and the delay computed
   * against `excel_data[key][i]` (the same column, as line 190 reads it).
   */
  function CollectTrs(t: Table, i: nat, keys: seq<Slot>): (r: OrderedMap<Slot, TrInfo>)
    requires WellFormed(t) && i < |t.names|
    ensures r.Valid()
  {
    if keys == [] then Empty()
    else
      var m := CollectTrs(t, i, keys[..|keys| - 1]);
      var trKey := keys[|keys| - 1];
      var trDate := DateAt(t, trKey, i);
      var delayDate := DateAt(t, trKey, i);
      if trDate.Some? then m.Put(trKey, TrInfo(trDate.value, Delay(trDate.value, delayDate))) else m
  }

  /** The keys of `keys` whose date is present in row `i`, in order. */
  function PresentSlots(t: Table, i: nat, keys: seq<Slot>): (r: seq<Slot>)
    requires WellFormed(t) && i < |t.names|
    ensures forall s :: s in r <==> s in keys && DateAt(t, s, i).Some?
  {
    if keys == [] then []
    else
      var init := PresentSlots(t, i, keys[..|keys| - 1]);
      var last := keys[|keys| - 1];
      assert keys == keys[..|keys| - 1] + [last];
      if DateAt(t, last, i).Some? then init + [last] else init
  }

  /** The project derived from row `i`. */
  function ProjectOf(t: Table, i: nat, now: int): Project
    requires WellFormed(t) && i < |t.names|
  {
    var ds := RowDates(t, i, TrOrder);
    Project(Strip(t.names[i]), StartDate(ds, now), EndDate(ds, now), YStep * i, CollectTrs(t, i, TrKeys))
  }

  /** The projects of all rows, in row order. */
  function AllProjects(t: Table, now: int): seq<Project>
    requires WellFormed(t)
  {
    seq(|t.names|, k requires 0 <= k < |t.names| => ProjectOf(t, k, now))
  }

  /** The `for tr in order: ... break` scan for the first present date of row `i`. */
  method ScanFirst(t: Table, i: nat, order: seq<Slot>) returns (found: Option<int>)
    requires WellFormed(t) && i < |t.names|
    ensures found == FirstDate(RowDates(t, i, order))
  {
    ghost var ds := RowDates(t, i, order);
    found := None;
    for j := 0 to |order|
      invariant found.None?
      invariant forall k :: 0 <= k < j ==> ds[k].None?
    {
      var trDate := DateAt(t, order[j], i);
      if trDate.Some? {
        assert ds[j] == trDate;
        assert FirstPresent(ds) == Some(j);
        found := trDate;
        break;
      }
    }
  }

  /** The loop over `tr_keys` that fills `valid_trs_delay` for row `i`. */
  method BuildTrsDelay(t: Table, i: nat) returns (trs: OrderedMap<Slot, TrInfo>)
    requires WellFormed(t) && i < |t.names|
    ensures trs == CollectTrs(t, i, TrKeys)
  {
    trs := Empty();
    for j := 0 to |TrKeys|
      invariant trs == CollectTrs(t, i, TrKeys[..j])
    {
      var trKey := TrKeys[j];
      var trDate := DateAt(t, trKey, i);
      var delayDate := DateAt(t, trKey, i);
      assert TrKeys[..j + 1][..j] == TrKeys[..j];
      if trDate.Some? {
        var delayDays := Delay(trDate.value, delayDate);
        trs := trs.Put(trKey, TrInfo(trDate.value, delayDays));
      }
    }
    assert TrKeys[..|TrKeys|] == TrKeys;
  }

  /** One iteration of the derivation loop: the record for row `i` at vertical slot `yPos`. */
  method DeriveProject(t: Table, i: nat, now: int, yPos: int) returns (p: Project)
    requires WellFormed(t) && i < |t.names|
    requires yPos == YStep * i
    ensures p == ProjectOf(t, i, now)
  {
    var startBase := ScanFirst(t, i, TrOrder);
    var startDate := (if startBase.Some? then startBase.value else now) - Pad;
    var endBase := ScanFirst(t, i, Reverse(TrOrder));
    var endDate := (if endBase.Some? then endBase.value else now + EmptyDays) + Pad;
    var trs := BuildTrsDelay(t, i);
    ReversedRowDates(t, i, TrOrder);
    p := Project(Strip(t.names[i]), startDate, endDate, yPos, trs);
  }

  /**
   * The derivation loop: one project per row, in row order, the `k`-th at
   * vertical slot `30 * k`.
   */
  method DeriveProjects(t: Table, now: int) returns (projects: seq<Project>)
    requires WellFormed(t)
    ensures |projects| == |t.names|
    ensures projects == AllProjects(t, now)
  {
    projects := [];
    var yPos := 0;
    var i := 0;
    while i < |t.names|
      invariant 0 <= i <= |t.names|
      invariant yPos == YStep * i
      invariant projects == AllProjects(t, now)[..i]
    {
      var p := DeriveProject(t, i, now, yPos);
      assert AllProjects(t, now)[..i + 1] == AllProjects(t, now)[..i] + [p];
      projects := projects + [p];
      yPos := yPos + YStep;
      i := i + 1;
    }
    assert AllProjects(t, now)[..i] == AllProjects(t, now);
  }

  /** Scanning the reversed order reads the row's dates in reverse. */
  lemma ReversedRowDates(t: Table, i: nat, order: seq<Slot>)
    requires WellFormed(t) && i < |t.names|
    ensures RowDates(t, i, Reverse(order)) == Reverse(RowDates(t, i, order))
  {
  }

  /**
   * `trs_delay` holds exactly the slots of `keys` whose date is present, each
   * with that date, and every delay in it is 0.
   */
  lemma {:induction false} CollectTrsEntries(t: Table, i: nat, keys: seq<Slot>)
    requires WellFormed(t) && i < |t.names|
    ensures var r := CollectTrs(t, i, keys);
      forall s :: s in r.values <==> s in keys && DateAt(t, s, i).Some?
    ensures var r := CollectTrs(t, i, keys);
      forall s :: s in r.values ==> r.values[s] == TrInfo(DateAt(t, s, i).value, 0)
  {
    if keys != [] {
      var init := keys[..|keys| - 1];
      CollectTrsEntries(t, i, init);
      assert keys == init + [keys[|keys| - 1]];
    }
  }

  /** With distinct keys, the entries of `trs_delay` are in key order. */
  lemma {:induction false} CollectTrsOrder(t: Table, i: nat, keys: seq<Slot>)
    requires WellFormed(t) && i < |t.names|
    requires Distinct(keys)
    ensures CollectTrs(t, i, keys).keys == PresentSlots(t, i, keys)
  {
    if keys != [] {
      var init := keys[..|keys| - 1];
      var last := keys[|keys| - 1];
      CollectTrsOrder(t, i, init);
      CollectTrsEntries(t, i, init);
      assert last !in init;
    }
  }

  /**
   * A project's `trs_delay` lists exactly the slots of `tr_keys` whose date
   * is present, in `tr_keys` order, each with its own date; a reschedule slot
   * whose date is present is an entry of its own.
   */
  lemma TrsDelayEntries(t: Table, now: int, k: nat)
    requires WellFormed(t) && k < |t.names|
    ensures var trs := ProjectOf(t, k, now).trsDelay;
      && trs.Valid()
      && trs.keys == PresentSlots(t, k, TrKeys)
      && (forall s :: s in trs.values <==> DateAt(t, s, k).Some?)
      && (forall s :: s in trs.values ==> trs.values[s].date == DateAt(t, s, k).value)
  {
    CollectTrsEntries(t, k, TrKeys);
    forall s: Slot ensures s in TrKeys { SlotOrdersComplete(s); }
    SlotOrdersComplete(Nominal(TR1));
    CollectTrsOrder(t, k, TrKeys);
  }

  /**
   * Every delay the loop stores is 0: `delay_date` is read from the same
   * column as `tr_date`, so it is never later.
   */
  lemma AllDelaysZero(t: Table, now: int, k: nat, s: Slot)
    requires WellFormed(t) && k < |t.names|
    requires s in ProjectOf(t, k, now).trsDelay.values
    ensures ProjectOf(t, k, now).trsDelay.values[s].delay == 0
  {
    CollectTrsEntries(t, k, TrKeys);
  }

  /** The project of row `k` carries the row's trimmed name and sits at vertical slot `30 * k`. */
  lemma ProjectRow(t: Table, now: int, k: nat)
    requires WellFormed(t) && k < |t.names|
    ensures ProjectOf(t, k, now).name == Strip(t.names[k])
    ensures ProjectOf(t, k, now).yPos == 30 * k
  {
  }

  /** Vertical slots increase strictly with the row, so no two projects share one. */
  lemma SlotsIncrease(t: Table, now: int, j: nat, k: nat)
    requires WellFormed(t) && j < k < |t.names|
    ensures ProjectOf(t, j, now).yPos < ProjectOf(t, k, now).yPos
  {
  }

  /** The project's span is that of its row's dates read in `tr_order`. */
  lemma ProjectSpan(t: Table, now: int, k: nat)
    requires WellFormed(t) && k < |t.names|
    ensures (forall s :: DateAt(t, s, k).None?) ==>
              ProjectOf(t, k, now).startDate == now - 15 && ProjectOf(t, k, now).endDate == now + 105
    ensures (exists s :: DateAt(t, s, k).Some?) ==>
              var ds := RowDates(t, k, TrOrder);
              exists a, b :: && 0 <= a <= b < |TrOrder| && ds[a].Some? && ds[b].Some?
                             && (forall j :: 0 <= j < a ==> ds[j].None?)
                             && (forall j :: b < j < |ds| ==> ds[j].None?)
                             && ProjectOf(t, k, now).startDate == ds[a].value - 15
                             && ProjectOf(t, k, now).endDate == ds[b].value + 15
  {
    var ds := RowDates(t, k, TrOrder);
    if forall s :: DateAt(t, s, k).None? {
      SpanAllAbsent(ds, now);
    } else {
      var s :| DateAt(t, s, k).Some?;
      TrOrderPositions(s);
      assert ds[OrderIndex(s)].Some?;
      SpanEndpoints(ds, now);
    }
  }

  /** The global range `(min_date, max_date)`. */
  datatype DateRange = DateRange(minDate: int, maxDate: int)

  function Min(a: int, b: int): int { if a <= b then a else b }

  /** `min(p["start_date"] for p in projects)` */
  function MinStart(ps: seq<Project>): (r: int)
    requires |ps| > 0
    ensures exists k :: 0 <= k < |ps| && r == ps[k].startDate
    ensures forall k :: 0 <= k < |ps| ==> r <= ps[k].startDate
  {
    if |ps| == 1 then ps[0].startDate
    else
      var rest := MinStart(ps[1..]);
      assert forall k :: 1 <= k < |ps| ==> ps[k] == ps[1..][k - 1];
      Min(ps[0].startDate, rest)
  }

  /** `max(p["end_date"] for p in projects)` */
  function MaxEnd(ps: seq<Project>): (r: int)
    requires |ps| > 0
    ensures exists k :: 0 <= k < |ps| && r == ps[k].endDate
    ensures forall k :: 0 <= k < |ps| ==> ps[k].endDate <= r
  {
    if |ps| == 1 then ps[0].endDate
    else
      var rest := MaxEnd(ps[1..]);
      assert forall k :: 1 <= k < |ps| ==> ps[k] == ps[1..][k - 1];
      Max(ps[0].endDate, rest)
  }

  /**
   * The global range: the earliest start and the latest end over the
   * projects, or `now - 30` to `now + 30` when there is none.
   */
  function GlobalRange(ps: seq<Project>, now: int): (r: DateRange)
    ensures |ps| == 0 ==> r == DateRange(now - 30, now + 30)
    ensures |ps| > 0 ==> exists k :: 0 <= k < |ps| && r.minDate == ps[k].startDate
    ensures |ps| > 0 ==> exists k :: 0 <= k < |ps| && r.maxDate == ps[k].endDate
    ensures forall k :: 0 <= k < |ps| ==> r.minDate <= ps[k].startDate && ps[k].endDate <= r.maxDate
  {
    if |ps| > 0 then DateRange(MinStart(ps), MaxEnd(ps))
    else DateRange(now - EmptyRangeDays, now + EmptyRangeDays)
  }
}
