/**
 * The admin dashboard's figures over the listed disputes (active count,
 * value at risk, critical count, resolved count) and the fixed update its
 * "resolve" button sends.
 */
module Dashboard {
  import opened Wrappers
  import opened Values
  import opened DisputeModel
  import opened Triage
  import opened Store
  import Text

  const ResolvedStatus := "Resolved"

  /** A dispute counts as active unless its status is exactly "Resolved". */
  predicate IsActive(d: Dispute) {
    d.status != ResolvedStatus
  }

  predicate IsResolved(d: Dispute) {
    d.status == ResolvedStatus
  }

  predicate IsCritical(d: Dispute) {
    PriorityName(d.priority) == "L0"
  }

  /** `disputes.filter(d => d.status !== 'Resolved')`. */
  function Active(ds: seq<Dispute>): seq<Dispute> {
    Select(ds, IsActive)
  }

  /** `reduce((sum, d) => sum + d.amount, acc)`: a left fold over the amounts. */
  function SumFrom(acc: int, ds: seq<Dispute>): int
    decreases |ds|
  {
    if ds == [] then acc else SumFrom(acc + ds[0].amount, ds[1..])
  }

  /** The value at risk: the amounts of the active disputes, added up. */
  function ValueAtRisk(ds: seq<Dispute>): int {
    SumFrom(0, Active(ds))
  }

  /** The dashboard's critical count: active disputes at tier L0. */
  function CriticalCount(ds: seq<Dispute>): nat {
    |Select(Active(ds), IsCritical)|
  }

  /** The resolved count: disputes whose status is exactly "Resolved". */
  function ResolvedCount(ds: seq<Dispute>): nat {
    |Select(ds, IsResolved)|
  }

  // Reference definitions, one record at a time.

  /** The sum of the amounts, right to left. */
  function Total(ds: seq<Dispute>): int {
    if ds == [] then 0 else ds[0].amount + Total(ds[1..])
  }

  /** What one dispute puts at risk: its amount while active, nothing once resolved. */
  function Risk(d: Dispute): int {
    if IsActive(d) then d.amount else 0
  }

  function RiskOf(ds: seq<Dispute>): int {
    if ds == [] then 0 else Risk(ds[0]) + RiskOf(ds[1..])
  }

  function ActiveCount(ds: seq<Dispute>): nat {
    if ds == [] then 0 else (if IsActive(ds[0]) then 1 else 0) + ActiveCount(ds[1..])
  }

  lemma {:induction false} SumFromIsTotal(acc: int, ds: seq<Dispute>)
    ensures SumFrom(acc, ds) == acc + Total(ds)
    decreases |ds|
  {
    if ds != [] {
      SumFromIsTotal(acc + ds[0].amount, ds[1..]);
    }
  }

  lemma {:induction false} TotalAppend(a: seq<Dispute>, b: seq<Dispute>)
    ensures Total(a + b) == Total(a) + Total(b)
  {
    if a != [] {
      assert (a + b)[1..] == a[1..] + b;
      TotalAppend(a[1..], b);
    } else {
      assert a + b == b;
    }
  }

  /** The value at risk is the sum, over every dispute, of what it puts at risk. */
  lemma {:induction false} ValueAtRiskIsRisk(ds: seq<Dispute>)
    ensures ValueAtRisk(ds) == RiskOf(ds)
  {
    SumFromIsTotal(0, Active(ds));
    TotalOfActive(ds);
  }

  lemma {:induction false} TotalOfActive(ds: seq<Dispute>)
    ensures Total(Active(ds)) == RiskOf(ds)
  {
    if ds != [] {
      TotalOfActive(ds[1..]);
      var head := if IsActive(ds[0]) then [ds[0]] else [];
      assert Active(ds) == head + Active(ds[1..]);
      TotalAppend(head, Active(ds[1..]));
    }
  }

  /** Active disputes and resolved disputes together are all of them. */
  lemma {:induction false} ActivePlusResolved(ds: seq<Dispute>)
    ensures |Active(ds)| == ActiveCount(ds)
    ensures ActiveCount(ds) + ResolvedCount(ds) == |ds|
  {
    if ds != [] {
      ActivePlusResolved(ds[1..]);
    }
  }

  /** Critical disputes are active disputes, so there are never more of them. */
  lemma CriticalAtMostActive(ds: seq<Dispute>)
    ensures CriticalCount(ds) <= |Active(ds)|
    ensures forall d :: d in Select(Active(ds), IsCritical) ==> d in ds && IsActive(d) && d.priority == L0
  {
  }

  // ---------------------------------------------------------------------
  // The resolve button
  // ---------------------------------------------------------------------

  const ClosedStage := "Closed - Resolved"
  const ClosedAction := "None - Case Closed"

  /** The body the resolve button sends: four fixed values, the action included. */
  const ResolvePatch := Patch(Some(Str(ResolvedStatus)), Some(Str(ClosedStage)), Some(Str(ClosedAction)),
                              Some(Str(ResolvedStatus)))

  /**
   * Resolving always saves and sets the four fixed values, whatever the
   * dispute was; the stored action is the fixed text, not the rule table's
   * answer for the closed stage, which would be the standard review.
   */
  lemma ResolveSetsFixedValues(d: Dispute, now: int)
    ensures var r := ApplyPatch(d, ResolvePatch, now);
      && r.Some?
      && r.value.status == ResolvedStatus && r.value.stage == ClosedStage
      && r.value.priority == Resolved && r.value.recommendedAction == ClosedAction
      && r.value.ticketId == d.ticketId && r.value.amount == d.amount
      && !IsActive(r.value)
  {
  }

  /** The rule table would give the closed stage the standard review, not the closing text the button stores. */
  lemma ClosedStageRuleAction()
    ensures DetermineAction(ClosedStage, PriorityName(Resolved)) == StandardAction
    ensures StandardAction != ClosedAction
  {
    PlainStageAction(ClosedStage, Resolved);
  }

  lemma {:induction false} RiskOfUpdate(ds: seq<Dispute>, i: nat, e: Dispute)
    requires i < |ds|
    ensures RiskOf(ds[i := e]) == RiskOf(ds) - Risk(ds[i]) + Risk(e)
    ensures ActiveCount(ds[i := e]) == ActiveCount(ds) - (if IsActive(ds[i]) then 1 else 0) + (if IsActive(e) then 1 else 0)
  {
    if i > 0 {
      assert ds[i := e][1..] == ds[1..][i - 1 := e];
      RiskOfUpdate(ds[1..], i - 1, e);
    }
  }

  /**
   * Resolving an active dispute takes it off the dashboard's active figures:
   * one active dispute fewer, one resolved more, and its amount no longer at risk.
   */
  lemma ResolvingLeavesActive(ds: seq<Dispute>, i: nat, now: int)
    requires i < |ds| && IsActive(ds[i])
    ensures var after := ds[i := ApplyPatch(ds[i], ResolvePatch, now).value];
      && |Active(after)| + 1 == |Active(ds)|
      && ResolvedCount(after) == ResolvedCount(ds) + 1
      && ValueAtRisk(after) == ValueAtRisk(ds) - ds[i].amount
  {
    ResolveSetsFixedValues(ds[i], now);
    var after := ds[i := ApplyPatch(ds[i], ResolvePatch, now).value];
    RiskOfUpdate(ds, i, after[i]);
    ActivePlusResolved(ds);
    ActivePlusResolved(after);
    ValueAtRiskIsRisk(ds);
    ValueAtRiskIsRisk(after);
  }
}
