/**
 * The fixed milestone ("TR" gate) schema of app.py: eight milestones, each
 * with a nominal column and a reschedule ("延期") column, and the two
 * orders in which the derivation loop walks the sixteen slots.
 */
module Schema {

  datatype Milestone = TR1 | TR2 | TR3 | TR3A | TR4 | TR4A | TR5 | TR6

  /** A date slot: the nominal date of a milestone or its reschedule date. */
  datatype Slot = Nominal(milestone: Milestone) | Resched(milestone: Milestone)

  function MilestoneName(m: Milestone): string {
    match m
    case TR1 => "TR1"
    case TR2 => "TR2"
    case TR3 => "TR3"
    case TR3A => "TR3A"
    case TR4 => "TR4"
    case TR4A => "TR4A"
    case TR5 => "TR5"
    case TR6 => "TR6"
  }

  /** The column name the source uses for a slot. */
  function SlotName(s: Slot): string {
    match s
    case Nominal(m) => MilestoneName(m)
    case Resched(m) => MilestoneName(m) + "延期"
  }

  /** Position of a milestone in chronological order. */
  function MilestoneIndex(m: Milestone): (k: nat)
    ensures k < 8
  {
    match m
    case TR1 => 0 case TR2 => 1 case TR3 => 2 case TR3A => 3
    case TR4 => 4 case TR4A => 5 case TR5 => 6 case TR6 => 7
  }

  /** `tr_order`: earliest first, each nominal slot followed by its reschedule slot. */
  const TrOrder: seq<Slot> := [
    Nominal(TR1), Resched(TR1), Nominal(TR2), Resched(TR2),
    Nominal(TR3), Resched(TR3), Nominal(TR3A), Resched(TR3A),
    Nominal(TR4), Resched(TR4), Nominal(TR4A), Resched(TR4A),
    Nominal(TR5), Resched(TR5), Nominal(TR6), Resched(TR6)]

  /** `tr_keys`: all eight nominal slots, then all eight reschedule slots. */
  const TrKeys: seq<Slot> := [
    Nominal(TR1), Nominal(TR2), Nominal(TR3), Nominal(TR3A),
    Nominal(TR4), Nominal(TR4A), Nominal(TR5), Nominal(TR6),
    Resched(TR1), Resched(TR2), Resched(TR3), Resched(TR3A),
    Resched(TR4), Resched(TR4A), Resched(TR5), Resched(TR6)]

  predicate Distinct<T(==)>(s: seq<T>) {
    forall a, b :: 0 <= a < b < |s| ==> s[a] != s[b]
  }

  /** Position of a slot in `tr_order`. */
  function OrderIndex(s: Slot): nat {
    match s
    case Nominal(m) => 2 * MilestoneIndex(m)
    case Resched(m) => 2 * MilestoneIndex(m) + 1
  }

  /** Position of a slot in `tr_keys`. */
  function KeyIndex(s: Slot): nat {
    match s
    case Nominal(m) => MilestoneIndex(m)
    case Resched(m) => 8 + MilestoneIndex(m)
  }

  /** Each slot stands in `tr_order` at its chronological position, and only there. */
  lemma TrOrderPositions(s: Slot)
    ensures |TrOrder| == 16 && OrderIndex(s) < 16 && TrOrder[OrderIndex(s)] == s
    ensures forall k :: 0 <= k < |TrOrder| ==> OrderIndex(TrOrder[k]) == k
  {
  }

  /** Each slot stands in `tr_keys` at its position, and only there. */
  lemma TrKeysPositions(s: Slot)
    ensures |TrKeys| == 16 && KeyIndex(s) < 16 && TrKeys[KeyIndex(s)] == s
    ensures forall k :: 0 <= k < |TrKeys| ==> KeyIndex(TrKeys[k]) == k
  {
  }

  /** Both orders list each of the sixteen slots exactly once. */
  lemma SlotOrdersComplete(s: Slot)
    ensures s in TrOrder && s in TrKeys
    ensures Distinct(TrOrder) && Distinct(TrKeys)
  {
    TrOrderPositions(s);
    TrKeysPositions(s);
  }
}
