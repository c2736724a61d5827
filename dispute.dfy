/**
 * The dispute record and its schema: the required fields, the priority
 * enumeration, the defaults, and the conversion the document store applies
 * to a plain object before it stores it.
 */
module DisputeModel {
  import opened Wrappers
  import opened Values

  /** The priority enumeration: four urgency tiers (L0 most urgent) and the terminal Resolved. */
  datatype Priority = L0 | L1 | L2 | L3 | Resolved

  function PriorityName(p: Priority): (s: string)
    ensures ParsePriority(s) == Some(p)
  {
    match p
    case L0 => "L0"
    case L1 => "L1"
    case L2 => "L2"
    case L3 => "L3"
    case Resolved => "Resolved"
  }

  /** The enumeration check: only the five listed names are accepted. */
  function ParsePriority(s: string): (r: Option<Priority>)
    ensures r.Some? <==> s == "L0" || s == "L1" || s == "L2" || s == "L3" || s == "Resolved"
  {
    if s == "L0" then Some(L0)
    else if s == "L1" then Some(L1)
    else if s == "L2" then Some(L2)
    else if s == "L3" then Some(L3)
    else if s == "Resolved" then Some(Resolved)
    else None
  }

  /** Parsing and naming are inverse on the accepted names. */
  lemma ParsePriorityInverse(s: string)
    ensures ParsePriority(s).Some? ==> PriorityName(ParsePriority(s).value) == s
  {
  }

  const OpenStatus := "Open"
  const NewStage := "Stage 1 - New"
  const DefaultAction := "Investigate"

  /** A stored dispute. */
  datatype Dispute = Dispute(
    ticketId: string,
    userId: string,
    amount: int,
    issueCategory: string,
    channel: string,
    status: string,
    priority: Priority,
    stage: string,
    presentStage: Option<string>,
    daysOpen: int,
    daysInPresentStage: int,
    recommendedAction: string,
    createdAt: int,
    updatedAt: int)

  /** The schema's required string fields are present and non-empty. */
  predicate WellFormed(d: Dispute) {
    d.ticketId != "" && d.userId != "" && d.issueCategory != "" && d.channel != ""
  }

  /**
   * The plain object a caller hands to the store, before the schema converts
   * it; `None` is a field the object does not have.
   */
  datatype Draft = Draft(
    ticketId: Option<Value>,
    userId: Option<Value>,
    amount: Option<Num>,
    issueCategory: Option<Value>,
    channel: Option<Value>,
    status: Option<Value>,
    priority: Option<Value>,
    stage: Option<Value>,
    presentStage: Option<Value>,
    daysOpen: Option<Num>,
    daysInPresentStage: Option<Num>,
    recommendedAction: Option<Value>)

  /** A required string field: converted with `String`, and the empty string fails the check. */
  function RequiredText(v: Option<Value>): (r: Option<string>)
    ensures r.Some? <==> v.Some? && ToText(v.value) != ""
    ensures r.Some? ==> r.value == ToText(v.value)
  {
    match v
    case None => None
    case Some(x) => if ToText(x) == "" then None else Some(ToText(x))
  }

  /** An optional string field with a default. */
  function TextOr(v: Option<Value>, default: string): string {
    match v
    case None => default
    case Some(x) => ToText(x)
  }

  /** A number field: absent takes the default, NaN fails the conversion. */
  function NumberOr(v: Option<Num>, default: int): Option<int> {
    match v
    case None => Some(default)
    case Some(NaN) => None
    case Some(Finite(i)) => Some(i)
  }

  /** What the schema accepts: required fields present, numbers convertible, priority in the enumeration. */
  predicate Admissible(d: Draft) {
    && d.ticketId.Some? && ToText(d.ticketId.value) != ""
    && d.userId.Some? && ToText(d.userId.value) != ""
    && d.amount.Some? && d.amount.value.Finite?
    && d.issueCategory.Some? && ToText(d.issueCategory.value) != ""
    && d.channel.Some? && ToText(d.channel.value) != ""
    && d.priority.Some? && ParsePriority(ToText(d.priority.value)).Some?
    && (d.daysOpen.Some? ==> d.daysOpen.value.Finite?)
    && (d.daysInPresentStage.Some? ==> d.daysInPresentStage.value.Finite?)
  }

  /**
   * The record the store keeps for a draft written at time `now`, or `None`
   * when the schema rejects it. Absent fields take the schema defaults.
   */
  function Materialise(d: Draft, now: int): (r: Option<Dispute>)
    ensures r.Some? <==> Admissible(d)
    ensures r.Some? ==> WellFormed(r.value)
    ensures r.Some? ==> r.value.ticketId == ToText(d.ticketId.value) && r.value.amount == d.amount.value.value
    ensures r.Some? ==> PriorityName(r.value.priority) == ToText(d.priority.value)
    ensures r.Some? ==> r.value.userId == ToText(d.userId.value) && r.value.issueCategory == ToText(d.issueCategory.value)
    ensures r.Some? ==> r.value.channel == ToText(d.channel.value)
    ensures r.Some? && d.status.Some? ==> r.value.status == ToText(d.status.value)
    ensures r.Some? && d.stage.Some? ==> r.value.stage == ToText(d.stage.value)
    ensures r.Some? && d.presentStage.Some? ==> r.value.presentStage == Some(ToText(d.presentStage.value))
    ensures r.Some? && d.daysOpen.Some? ==> r.value.daysOpen == d.daysOpen.value.value
    ensures r.Some? && d.daysInPresentStage.Some? ==> r.value.daysInPresentStage == d.daysInPresentStage.value.value
    ensures r.Some? && d.recommendedAction.Some? ==> r.value.recommendedAction == ToText(d.recommendedAction.value)
    ensures r.Some? ==> r.value.createdAt == now && r.value.updatedAt == now
  {
    var ticketId := RequiredText(d.ticketId);
    var userId := RequiredText(d.userId);
    var issueCategory := RequiredText(d.issueCategory);
    var channel := RequiredText(d.channel);
    var priority := if d.priority.Some? then ParsePriority(ToText(d.priority.value)) else None;
    var daysOpen := NumberOr(d.daysOpen, 0);
    var daysInStage := NumberOr(d.daysInPresentStage, 0);
    if ticketId.None? || userId.None? || issueCategory.None? || channel.None? || priority.None?
       || d.amount.None? || d.amount.value.NaN? || daysOpen.None? || daysInStage.None?
    then None
    else
      Some(Dispute(
        ticketId.value, userId.value, d.amount.value.value, issueCategory.value, channel.value,
        TextOr(d.status, OpenStatus), priority.value, TextOr(d.stage, NewStage),
        if d.presentStage.Some? then Some(ToText(d.presentStage.value)) else None,
        daysOpen.value, daysInStage.value, TextOr(d.recommendedAction, DefaultAction), now, now))
  }

  /** Fields a caller leaves out take the schema defaults. */
  lemma MaterialiseDefaults(d: Draft, now: int)
    requires Admissible(d)
    ensures var r := Materialise(d, now).value;
      && (d.status.None? ==> r.status == OpenStatus)
      && (d.stage.None? ==> r.stage == NewStage)
      && (d.daysOpen.None? ==> r.daysOpen == 0)
      && (d.daysInPresentStage.None? ==> r.daysInPresentStage == 0)
      && (d.recommendedAction.None? ==> r.recommendedAction == DefaultAction)
      && (d.presentStage.None? <==> r.presentStage.None?)
  {
  }

  /** A partial update of a stored dispute: a field is taken only when it is truthy. */
  datatype Patch = Patch(status: Option<Value>, stage: Option<Value>, recommendedAction: Option<Value>, priority: Option<Value>)

  /** The four fields a patch may assign: a save changes the record exactly when one of them differs. */
  predicate Modified(before: Dispute, after: Dispute) {
    after.status != before.status || after.stage != before.stage
    || after.recommendedAction != before.recommendedAction || after.priority != before.priority
  }

  /**
   * Apply `p` and save at time `now`; `None` when the new priority fails the
   * enumeration. The update timestamp moves only when a field changed.
   */
  function ApplyPatch(d: Dispute, p: Patch, now: int): (r: Option<Dispute>)
    ensures r.Some? <==> !Truthy(p.priority) || ParsePriority(ToText(p.priority.value)).Some?
    ensures r.Some? ==> r.value.ticketId == d.ticketId && r.value.userId == d.userId && r.value.amount == d.amount
    ensures r.Some? ==> r.value.issueCategory == d.issueCategory && r.value.channel == d.channel
    ensures r.Some? ==> r.value.presentStage == d.presentStage
    ensures r.Some? ==> r.value.daysOpen == d.daysOpen && r.value.daysInPresentStage == d.daysInPresentStage
    ensures r.Some? ==> r.value.status == (if Truthy(p.status) then ToText(p.status.value) else d.status)
    ensures r.Some? ==> r.value.stage == (if Truthy(p.stage) then ToText(p.stage.value) else d.stage)
    ensures r.Some? ==>
      r.value.recommendedAction == (if Truthy(p.recommendedAction) then ToText(p.recommendedAction.value) else d.recommendedAction)
    ensures r.Some? ==>
      r.value.priority == (if Truthy(p.priority) then ParsePriority(ToText(p.priority.value)).value else d.priority)
    ensures r.Some? ==> r.value.createdAt == d.createdAt
    ensures r.Some? ==> r.value.updatedAt == if Modified(d, r.value) then now else d.updatedAt
  {
    var priority := if Truthy(p.priority) then ParsePriority(ToText(p.priority.value)) else Some(d.priority);
    if priority.None? then None
    else
      var changed := d.(
        status := if Truthy(p.status) then ToText(p.status.value) else d.status,
        stage := if Truthy(p.stage) then ToText(p.stage.value) else d.stage,
        recommendedAction := if Truthy(p.recommendedAction) then ToText(p.recommendedAction.value) else d.recommendedAction,
        priority := priority.value);
      Some(changed.(updatedAt := if Modified(d, changed) then now else d.updatedAt))
  }

  /** Saving a patch that assigns nothing, or only the values already stored, gives back the record unchanged. */
  lemma UnmodifiedSaveKeepsRecord(d: Dispute, p: Patch, now: int)
    requires ApplyPatch(d, p, now).Some? && !Modified(d, ApplyPatch(d, p, now).value)
    ensures ApplyPatch(d, p, now) == Some(d)
  {
  }
}
