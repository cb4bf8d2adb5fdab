/**
 * The padded span of one project (app.py, lines 158-181): the first present
 * date of `tr_order` minus 15 days and the first present date of the reversed
 * order plus 15 days, with `now` and `now + 90` standing in when no date is
 * present.
 */
module Span {
  import opened Wrappers

  /** Days of margin on either side of a project's span. */
  const Pad: int := 15
  /** Days after `now` used as the end base when a project has no date. */
  const EmptyDays: int := 90

  /** The sequence in reverse order, as Python's `s[::-1]`. */
  function Reverse<T>(s: seq<T>): seq<T> {
    seq(|s|, k requires 0 <= k < |s| => s[|s| - 1 - k])
  }

  /** Index of the first present date: the `for ... break` scan. */
  function FirstPresent(ds: seq<Option<int>>): (r: Option<nat>)
    ensures r.None? <==> forall k :: 0 <= k < |ds| ==> ds[k].None?
    ensures r.Some? ==> r.value < |ds| && ds[r.value].Some?
    ensures r.Some? ==> forall k :: 0 <= k < r.value ==> ds[k].None?
  {
    if ds == [] then None
    else if ds[0].Some? then Some(0)
    else match FirstPresent(ds[1..])
      case None => None
      case Some(k) => Some(k + 1)
  }

  /** The first present date, if any. */
  function FirstDate(ds: seq<Option<int>>): Option<int> {
    match FirstPresent(ds)
    case None => None
    case Some(k) => ds[k]
  }

  /** `start_date` of a project whose dates, in `tr_order`, are `ds`. */
  function StartDate(ds: seq<Option<int>>, now: int): int {
    (match FirstDate(ds) case Some(d) => d case None => now) - Pad
  }

  /** `end_date` of a project whose dates, in `tr_order`, are `ds`: the scan runs over the reversed order. */
  function EndDate(ds: seq<Option<int>>, now: int): int {
    (match FirstDate(Reverse(ds)) case Some(d) => d case None => now + EmptyDays) + Pad
  }

  /** The reverse scan finds the last present date of the original order. */
  lemma {:induction false} ReverseScanFindsLast(ds: seq<Option<int>>)
    ensures FirstPresent(Reverse(ds)).None? <==> FirstPresent(ds).None?
    ensures FirstPresent(Reverse(ds)).Some? ==>
      var b := |ds| - 1 - FirstPresent(Reverse(ds)).value;
      0 <= b < |ds| && ds[b].Some? && FirstDate(Reverse(ds)) == ds[b] &&
      forall k :: b < k < |ds| ==> ds[k].None?
  {
    var rs := Reverse(ds);
    if FirstPresent(rs).Some? {
      var j := FirstPresent(rs).value;
      var b := |ds| - 1 - j;
      forall k | b < k < |ds| ensures ds[k].None? {
        assert ds[k] == rs[|ds| - 1 - k];
      }
    } else {
      forall k | 0 <= k < |ds| ensures ds[k].None? {
        assert ds[k] == rs[|ds| - 1 - k];
      }
    }
  }

  /**
   * With some date present, the start is padded from the first present slot
   * `a` and the end from the last present slot `b`, and `a <= b`: the scans
   * never cross, though the dates themselves need not be in order.
   */
  lemma SpanEndpoints(ds: seq<Option<int>>, now: int)
    requires exists k :: 0 <= k < |ds| && ds[k].Some?
    ensures exists a, b ::
              && 0 <= a <= b < |ds| && ds[a].Some? && ds[b].Some?
              && (forall k :: 0 <= k < a ==> ds[k].None?)
              && (forall k :: b < k < |ds| ==> ds[k].None?)
              && StartDate(ds, now) == ds[a].value - Pad
              && EndDate(ds, now) == ds[b].value + Pad
  {
    ReverseScanFindsLast(ds);
    var a := FirstPresent(ds).value;
    var b := |ds| - 1 - FirstPresent(Reverse(ds)).value;
    assert a <= b;
  }

  /** With exactly one present date the span is thirty days wide, centred on it. */
  lemma SpanSinglePresent(ds: seq<Option<int>>, now: int, k: nat)
    requires k < |ds| && ds[k].Some?
    requires forall j :: 0 <= j < |ds| && j != k ==> ds[j].None?
    ensures StartDate(ds, now) == ds[k].value - 15
    ensures EndDate(ds, now) == ds[k].value + 15
    ensures EndDate(ds, now) - StartDate(ds, now) == 30
  {
    ReverseScanFindsLast(ds);
  }

  /** With no present date the span runs from `now - 15` to `now + 105`. */
  lemma SpanAllAbsent(ds: seq<Option<int>>, now: int)
    requires forall j :: 0 <= j < |ds| ==> ds[j].None?
    ensures StartDate(ds, now) == now - 15
    ensures EndDate(ds, now) == now + 105
  {
    ReverseScanFindsLast(ds);
  }

  /** Out-of-order dates give an inverted span, which is passed on uncorrected. */
  lemma SpanMayInvert()
    ensures exists ds: seq<Option<int>>, now: int :: |ds| == 16 && StartDate(ds, now) > EndDate(ds, now)
  {
    var ds := [Some(100)] + seq(14, _ => None) + [Some(50)];
    SpanSinglePresentEnds(ds, 0);
    assert StartDate(ds, 0) == 85 && EndDate(ds, 0) == 65;
  }

  /** Helper for the witness above: first and last slot present. */
  lemma SpanSinglePresentEnds(ds: seq<Option<int>>, now: int)
    requires |ds| >= 2 && ds[0].Some? && ds[|ds| - 1].Some?
    ensures StartDate(ds, now) == ds[0].value - Pad
    ensures EndDate(ds, now) == ds[|ds| - 1].value + Pad
  {
    assert Reverse(ds)[0] == ds[|ds| - 1];
  }
}
