/**
 * The dispute routes: `POST /api/disputes` files a new dispute from a
 * customer form, `GET /api/disputes` lists the disputes matching optional
 * filters newest first, and `GET`/`PATCH /api/disputes/<ticketId>` read and
 * update one dispute.
 */
module DisputesApi {
  import opened Wrappers
  import opened Values
  import opened DisputeModel
  import opened Triage
  import opened Store
  import Text

  // ---------------------------------------------------------------------
  // Filing a dispute
  // ---------------------------------------------------------------------

  /** The JSON body of a new dispute; `None` is a field the body lacks. */
  datatype PostBody = PostBody(userId: Option<Value>, amount: Option<Value>, issueCategory: Option<Value>,
                               channel: Option<Value>)

  /** The required-field check: all four fields are truthy, so `0` and `""` count as missing. */
  predicate HasRequiredFields(body: PostBody) {
    Truthy(body.userId) && Truthy(body.amount) && Truthy(body.issueCategory) && Truthy(body.channel)
  }

  const WebPrefix := "WEB-"
  const MissingFieldsError := "Missing required fields"

  /** `WEB-<time>`, the ticket id of a filed dispute. */
  function FiledTicketId(now: nat): string {
    WebPrefix + Text.NatToString(now)
  }

  /**
   * The object handed to the store for a new dispute filed at `now`: no days
   * open, so the tier depends on the amount alone; the first stage, status
   * Open, and the rule-table action for them, which is always the standard
   * review.
   */
  function NewDisputeDraft(body: PostBody, now: nat, parse: string -> Num): (d: Draft)
    requires HasRequiredFields(body)
    ensures d.ticketId == Some(Str(FiledTicketId(now)))
    ensures d.userId == body.userId && d.issueCategory == body.issueCategory && d.channel == body.channel
    ensures d.amount == Some(ToNumber(body.amount.value, parse))
    ensures d.priority == Some(Str(PriorityName(if Gt(ToNumber(body.amount.value, parse), BoostThreshold) then L2 else L3)))
    ensures d.recommendedAction == Some(Str(StandardAction))
    ensures d.stage == Some(Str(NewStage)) && d.status == Some(Str(OpenStatus))
    ensures d.presentStage.None? && d.daysOpen.None? && d.daysInPresentStage.None?
    ensures Admissible(d) <==> ToNumber(body.amount.value, parse).Finite?
  {
    var priority := CalculatePriority(Finite(0), ToNumber(body.amount.value, parse));
    NewStageAction(priority);
    TruthyTextNonEmpty(body.userId.value);
    TruthyTextNonEmpty(body.issueCategory.value);
    TruthyTextNonEmpty(body.channel.value);
    var d := Draft(Some(Str(FiledTicketId(now))), body.userId, Some(ToNumber(body.amount.value, parse)),
      body.issueCategory, body.channel, Some(Str(OpenStatus)), Some(Str(PriorityName(priority))), Some(Str(NewStage)),
      None, None, None, Some(Str(DetermineAction(NewStage, PriorityName(priority)))));
    assert ToText(d.ticketId.value) != "" by { assert FiledTicketId(now)[0] == 'W'; }
    d
  }

  datatype CreateResponse = Created(dispute: Dispute) | CreateRejected(error: string) | CreateFailed

  /**
   * `POST /api/disputes`: 400 when a required field is falsy; otherwise the
   * store creates the dispute (201), or refuses it (500) because the amount is
   * not a number or the ticket id is taken. `now` is the clock read for the
   * ticket id, `savedAt` the store's clock.
   */
  method CreateDispute(store: DisputeStore, body: PostBody, now: nat, parse: string -> Num, savedAt: int)
    returns (resp: CreateResponse)
    requires store.Valid()
    modifies store
    ensures store.Valid()
    ensures !HasRequiredFields(body) ==> resp == CreateRejected(MissingFieldsError) && store.records == old(store.records)
    ensures HasRequiredFields(body) ==> resp.Created? || resp.CreateFailed?
    ensures resp.CreateFailed? ==> store.records == old(store.records)
    ensures HasRequiredFields(body) ==>
      (resp.Created? <==> ToNumber(body.amount.value, parse).Finite? && FiledTicketId(now) !in IdsOf(old(store.records)))
    ensures resp.Created? ==> store.records == old(store.records) + [resp.dispute]
    ensures resp.Created? ==> Materialise(NewDisputeDraft(body, now, parse), savedAt) == Some(resp.dispute)
  {
    if !HasRequiredFields(body) {
      return CreateRejected(MissingFieldsError);
    }
    var draft := NewDisputeDraft(body, now, parse);
    var created := store.Create(draft, savedAt);
    if created.Some? {
      resp := Created(created.value);
    } else {
      resp := CreateFailed;
    }
  }

  /** What the store keeps for a filed dispute: the tier from the amount alone, and the standard review. */
  lemma FiledDisputeTriage(body: PostBody, now: nat, parse: string -> Num, savedAt: int)
    requires HasRequiredFields(body) && ToNumber(body.amount.value, parse).Finite?
    ensures var r := Materialise(NewDisputeDraft(body, now, parse), savedAt);
      && r.Some?
      && r.value.priority == (if ToNumber(body.amount.value, parse).value > BoostThreshold then L2 else L3)
      && r.value.amount == ToNumber(body.amount.value, parse).value
      && r.value.priority == CalculatePriority(Finite(0), Finite(r.value.amount))
      && r.value.recommendedAction == StandardAction
      && r.value.ticketId == FiledTicketId(now) && r.value.stage == NewStage && r.value.status == OpenStatus
      && r.value.daysOpen == 0 && r.value.presentStage.None?
  {
    var d := NewDisputeDraft(body, now, parse);
    var p := ParsePriority(ToText(d.priority.value));
    assert p == Some(L2) || p == Some(L3);
  }

  // ---------------------------------------------------------------------
  // Listing disputes
  // ---------------------------------------------------------------------

  /** The search parameters of a listing; `None` is a parameter the URL lacks. */
  datatype SearchParams = SearchParams(userId: Option<string>, status: Option<string>, priority: Option<string>,
                                       search: Option<string>)

  /** The store query: the filters that are set. */
  datatype Query = Query(userId: Option<string>, status: Option<string>, priority: Option<string>,
                         search: Option<string>)

  /** A parameter is used when it is present and non-empty. */
  predicate Supplied(p: Option<string>) {
    p.Some? && p.value != ""
  }

  /** A filter for each supplied parameter. */
  function BuildQuery(params: SearchParams): (q: Query)
    ensures q.userId.Some? <==> Supplied(params.userId)
    ensures q.status.Some? <==> Supplied(params.status)
    ensures q.priority.Some? <==> Supplied(params.priority)
    ensures q.search.Some? <==> Supplied(params.search)
    ensures q.userId.Some? ==> q.userId == params.userId
    ensures q.status.Some? ==> q.status == params.status
    ensures q.priority.Some? ==> q.priority == params.priority
    ensures q.search.Some? ==> q.search == params.search
  {
    Query(
      if Supplied(params.userId) then params.userId else None,
      if Supplied(params.status) then params.status else None,
      if Supplied(params.priority) then params.priority else None,
      if Supplied(params.search) then params.search else None)
  }

  /** Case-insensitive search within a field, reading the pattern as literal text. */
  predicate MatchesText(field: string, search: string) {
    Text.Contains(Text.Lower(field), Text.Lower(search))
  }

  /** Whether a record satisfies a query: equality filters, and the search on the ticket id or the category. */
  predicate Matches(q: Query, d: Dispute) {
    && (q.userId.Some? ==> d.userId == q.userId.value)
    && (q.status.Some? ==> d.status == q.status.value)
    && (q.priority.Some? ==> PriorityName(d.priority) == q.priority.value)
    && (q.search.Some? ==> MatchesText(d.ticketId, q.search.value) || MatchesText(d.issueCategory, q.search.value))
  }

  /**
   * A listing keeps a record exactly when every supplied filter holds for it;
   * a parameter that is absent or empty imposes nothing.
   */
  lemma ListingFilters(params: SearchParams, d: Dispute)
    ensures Matches(BuildQuery(params), d) <==>
      && (Supplied(params.userId) ==> d.userId == params.userId.value)
      && (Supplied(params.status) ==> d.status == params.status.value)
      && (Supplied(params.priority) ==> PriorityName(d.priority) == params.priority.value)
      && (Supplied(params.search) ==>
            MatchesText(d.ticketId, params.search.value) || MatchesText(d.issueCategory, params.search.value))
  {
  }

  /** The search ignores the case of its pattern. */
  lemma {:induction false} SearchIgnoresCase(field: string, search: string)
    ensures MatchesText(field, Text.Lower(search)) == MatchesText(field, search)
  {
    Text.LowerIdempotent(search);
  }

  /** A search that occurs in a field, in any case, finds it. */
  lemma {:induction false} SearchFindsOccurrence(before: string, search: string, after: string)
    ensures MatchesText(before + search + after, search)
  {
    Text.LowerAppend(before + search, after);
    Text.LowerAppend(before, search);
    var l := Text.Lower(search);
    assert Text.OccursAt(l, l, 0);
    Text.ContainsExtend(Text.Lower(before), l, Text.Lower(after), l);
  }

  /** `GET /api/disputes`: the matching records, newest first. */
  method ListDisputes(store: DisputeStore, params: SearchParams) returns (r: seq<Dispute>)
    ensures SortedNewestFirst(r)
    ensures forall x :: x in r <==> x in store.records && Matches(BuildQuery(params), x)
    ensures multiset(r) == multiset(Select(store.records, x => Matches(BuildQuery(params), x)))
  {
    var q := BuildQuery(params);
    r := store.Find(x => Matches(q, x));
  }

  // ---------------------------------------------------------------------
  // One dispute
  // ---------------------------------------------------------------------

  datatype DisputeResponse = Found(dispute: Dispute) | Missing | Failed

  /** `GET /api/disputes/<ticketId>`: the record with that id, or 404. */
  method GetDispute(store: DisputeStore, ticketId: string) returns (resp: DisputeResponse)
    requires store.Valid()
    ensures resp.Found? || resp.Missing?
    ensures resp.Missing? <==> ticketId !in IdsOf(store.records)
    ensures resp.Found? ==> resp.dispute in store.records && resp.dispute.ticketId == ticketId
  {
    var d := store.FindOne(ticketId);
    resp := if d.Some? then Found(d.value) else Missing;
  }

  /**
   * `PATCH /api/disputes/<ticketId>`: 404 for an unknown id; otherwise the
   * truthy fields of the body are assigned and the record saved, or, when the
   * new priority fails the enumeration, the save fails with a 500 and nothing
   * changes. No other record changes.
   */
  method PatchDispute(store: DisputeStore, ticketId: string, body: Patch, savedAt: int) returns (resp: DisputeResponse)
    requires store.Valid()
    modifies store
    ensures store.Valid()
    ensures |store.records| == |old(store.records)|
    ensures resp.Missing? <==> ticketId !in IdsOf(old(store.records))
    ensures !resp.Found? ==> store.records == old(store.records)
    ensures ticketId in IdsOf(old(store.records)) ==>
      (resp.Failed? <==> ApplyPatch(old(store.records)[IndexOf(old(store.records), ticketId)], body, savedAt).None?)
    ensures resp.Found? ==> exists i :: (0 <= i < |store.records| && old(store.records)[i].ticketId == ticketId
      && ApplyPatch(old(store.records)[i], body, savedAt) == Some(resp.dispute)
      && store.records == old(store.records)[i := resp.dispute])
  {
    var outcome := store.Update(ticketId, body, savedAt);
    match outcome
    case NotFound => resp := Missing;
    case Rejected => resp := Failed;
    case Saved(d) => resp := Found(d);
  }
}
