/**
 * The triage rules: an urgency tier from the age of a dispute and its
 * amount, and a recommended next action from its stage and tier.
 */
module Triage {
  import opened Values
  import opened DisputeModel
  import Text

  /** Rank of a tier; a lower rank is more urgent. */
  function Rank(p: Priority): nat {
    match p
    case L0 => 0
    case L1 => 1
    case L2 => 2
    case L3 => 3
    case Resolved => 4
  }

  /** The tier of a rank 0..3 (the source's `priorityMap`). */
  function TierAt(k: nat): (p: Priority)
    requires k <= 3
    ensures Rank(p) == k
  {
    if k == 0 then L0 else if k == 1 then L1 else if k == 2 then L2 else L3
  }

  const BoostThreshold := 50000

  /**
   * `calculatePriority(daysOpen, amount)`: a base tier from age thresholds
   * (more than 25 days L0, 12 or more L1, 4 or more L2, otherwise L3),
   * raised one level when the amount exceeds 50000 and the base is not L0.
   * Comparisons with NaN are false, as in JavaScript.
   */
  function CalculatePriority(daysOpen: Num, amount: Num): (p: Priority)
    ensures p != Resolved
    ensures Gt(daysOpen, 25) ==> p == L0
    ensures Ge(daysOpen, 12) && !Gt(daysOpen, 25) ==> p == (if Gt(amount, BoostThreshold) then L0 else L1)
    ensures Ge(daysOpen, 4) && !Ge(daysOpen, 12) ==> p == (if Gt(amount, BoostThreshold) then L1 else L2)
    ensures !Ge(daysOpen, 4) ==> p == (if Gt(amount, BoostThreshold) then L2 else L3)
  {
    var base: nat := if Gt(daysOpen, 25) then 0 else if Ge(daysOpen, 12) then 1 else if Ge(daysOpen, 4) then 2 else 3;
    var boosted: nat := if Gt(amount, BoostThreshold) && base > 0 then base - 1 else base;
    TierAt(boosted)
  }

  /** A NaN age or amount is classified like 0: every threshold test fails. */
  lemma NaNClassifiedAsZero(daysOpen: Num, amount: Num)
    ensures CalculatePriority(NaN, amount) == CalculatePriority(Finite(0), amount)
    ensures CalculatePriority(daysOpen, NaN) == CalculatePriority(daysOpen, Finite(0))
  {
  }

  /** Older disputes and larger amounts are never less urgent. */
  lemma CalculatePriorityMonotone(d1: int, d2: int, a1: int, a2: int)
    requires d1 <= d2 && a1 <= a2
    ensures Rank(CalculatePriority(Finite(d2), Finite(a2))) <= Rank(CalculatePriority(Finite(d1), Finite(a1)))
  {
  }

  /** The amount boost moves a tier by at most one level, and never past L0. */
  lemma BoostAtMostOneLevel(d: int, a: int)
    ensures var base := CalculatePriority(Finite(d), Finite(0));
      var p := CalculatePriority(Finite(d), Finite(a));
      Rank(p) <= Rank(base) <= Rank(p) + 1 && (a > BoostThreshold && base != L0 ==> Rank(p) + 1 == Rank(base))
  {
  }

  const UrgentAction := "URGENT: Manual Intervention Required (SLA Breach Risk)"
  const ReconciliationAction := "Reconciliation Check: Verify with Beneficiary Bank"
  const ReminderAction := "Customer Action: Send SMS/Email Reminder for Info"
  const MonitorAction := "Monitor: Verify Reversal Status"
  const StandardAction := "Standard Review"

  /**
   * The stage rules of `determineAction`, tried in order: the labels
   * "Stage 5", "Stage 3" and "Stage 4" are looked for as case-sensitive
   * substrings, and a stage naming none of them gets the standard review.
   */
  function StageAction(stage: string): (action: string)
    ensures action in {ReconciliationAction, ReminderAction, MonitorAction, StandardAction}
    ensures action == ReconciliationAction <==> Text.Contains(stage, "Stage 5")
    ensures action == ReminderAction <==> !Text.Contains(stage, "Stage 5") && Text.Contains(stage, "Stage 3")
    ensures action == MonitorAction <==>
      !Text.Contains(stage, "Stage 5") && !Text.Contains(stage, "Stage 3") && Text.Contains(stage, "Stage 4")
    ensures action == StandardAction <==>
      !Text.Contains(stage, "Stage 5") && !Text.Contains(stage, "Stage 3") && !Text.Contains(stage, "Stage 4")
  {
    if Text.Contains(stage, "Stage 5") then ReconciliationAction
    else if Text.Contains(stage, "Stage 3") then ReminderAction
    else if Text.Contains(stage, "Stage 4") then MonitorAction
    else StandardAction
  }

  /**
   * `determineAction(stage, priority)`: a first-match rule table in which
   * priority "L0" wins over every stage rule.
   */
  function DetermineAction(stage: string, priority: string): (action: string)
    ensures action in {UrgentAction, ReconciliationAction, ReminderAction, MonitorAction, StandardAction}
    ensures action == UrgentAction <==> priority == "L0"
    ensures priority != "L0" ==> action == StageAction(stage)
  {
    if priority == "L0" then UrgentAction else StageAction(stage)
  }

  /** The action of a stage that names no stage 3, 4 or 5 depends only on whether the tier is L0. */
  lemma PlainStageAction(stage: string, priority: Priority)
    requires forall i :: 0 <= i < |stage| ==> stage[i] != '3' && stage[i] != '4' && stage[i] != '5'
    ensures DetermineAction(stage, PriorityName(priority)) == if priority == L0 then UrgentAction else StandardAction
  {
    Text.MissingCharNotContained(stage, "Stage 3", 6);
    Text.MissingCharNotContained(stage, "Stage 4", 6);
    Text.MissingCharNotContained(stage, "Stage 5", 6);
  }

  /** The first stage names no stage 3, 4 or 5, so a new dispute's action depends only on its tier. */
  lemma NewStageAction(priority: Priority)
    ensures DetermineAction(NewStage, PriorityName(priority)) == if priority == L0 then UrgentAction else StandardAction
  {
    PlainStageAction(NewStage, priority);
  }

  /** The worked scenarios: 30 days and 75000 is L0 and urgent; 2 days and 120000 is boosted to L2, a standard review. */
  lemma Scenarios()
    ensures CalculatePriority(Finite(30), Finite(75000)) == L0
    ensures DetermineAction(NewStage, PriorityName(L0)) == UrgentAction
    ensures CalculatePriority(Finite(2), Finite(120000)) == L2
    ensures DetermineAction(NewStage, PriorityName(L2)) == StandardAction
  {
    NewStageAction(L2);
  }

  const InfoNeededStage := "Stage 3 - Customer Info Needed"
  const InvestigatingStage := "Stage 2 - Investigating"
  const ReversalStage := "Stage 4 - Reversal Pending"

  /** The stored actions of the seed records at stages 1 and 2 agree with the rule table. */
  lemma SeedPlainStageActions()
    ensures DetermineAction(NewStage, "L2") == StandardAction
    ensures DetermineAction(NewStage, "L0") == UrgentAction
    ensures DetermineAction(InvestigatingStage, "L0") == UrgentAction
  {
    NewStageAction(L2);
  }

  /** The seed record at stage 3 gets the customer reminder. */
  lemma SeedInfoNeededAction()
    ensures DetermineAction(InfoNeededStage, "L3") == ReminderAction
  {
    assert Text.OccursAt(InfoNeededStage, "Stage 3", 0);
    StageThreeReminder(InfoNeededStage, "L3");
  }

  /** Below L0, a stage that names stage 3 and has no digit 5 gets the reminder. */
  lemma StageThreeReminder(stage: string, priority: string)
    requires priority != "L0"
    requires forall i :: 0 <= i < |stage| ==> stage[i] != '5'
    requires Text.OccursAt(stage, "Stage 3", 0)
    ensures DetermineAction(stage, priority) == ReminderAction
  {
    Text.MissingCharNotContained(stage, "Stage 5", 6);
  }

  /** Below L0, a stage that names stage 4 and has neither digit 3 nor 5 gets the reversal monitoring. */
  lemma StageFourMonitor(stage: string, priority: string)
    requires priority != "L0"
    requires forall i :: 0 <= i < |stage| ==> stage[i] != '3' && stage[i] != '5'
    requires Text.OccursAt(stage, "Stage 4", 0)
    ensures DetermineAction(stage, priority) == MonitorAction
  {
    Text.MissingCharNotContained(stage, "Stage 5", 6);
    Text.MissingCharNotContained(stage, "Stage 3", 6);
  }

  /** The seed record at stage 4 gets the reversal monitoring. */
  lemma SeedReversalAction()
    ensures DetermineAction(ReversalStage, "L3") == MonitorAction
  {
    assert Text.OccursAt(ReversalStage, "Stage 4", 0);
    StageFourMonitor(ReversalStage, "L3");
  }
}
