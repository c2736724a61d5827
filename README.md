# Dispute triage, modelled in Dafny

This project models the core of a bank dispute-triage web application. The application is built with Next.js, stores disputes in MongoDB through Mongoose, and uses a language model with a vector index for its support chatbot. The model covers:

- **Triage rules** (`triage.dfy`, module `Triage`). An urgency tier (L0 most urgent … L3) comes from the age of a dispute and its amount. A recommended next action comes from its stage and tier.
- **The dispute schema** (`dispute.dfy`, module `DisputeModel`). It covers the stored record, the plain object handed to the store, and how the schema casts a draft, fills in defaults, checks required fields and checks the priority enumeration. It also covers a partial update.
- **The document store** (`store.dfy`, module `Store`). This is a class holding the records. Its invariant is unique ticket ids plus records that passed the schema. It models:
  - lookup by ticket id;
  - ordered bulk insertion (validate everything first, then insert until the first duplicate key);
  - single creation;
  - update;
  - the filtered listing, newest first.
- **The spreadsheet upload** (`upload.dfy`, module `Upload`). It models:
  - the header-row scan;
  - the forgiving column-name lookup;
  - per-row normalisation with defaults and the triage rules;
  - the filter against stored ticket ids;
  - the whole `POST /api/upload` route.
- **The dispute routes** (`disputes_api.dfy`, module `DisputesApi`): filing a dispute, listing with filters and search, reading one dispute and updating one dispute.
- **The admin dashboard** (`dashboard.dfy`, module `Dashboard`): the active count, the value at risk, the critical count, the resolved count, and the fixed update sent by the "resolve" button.
- **Knowledge-base ingestion** (`rag_ingest.dfy`, module `RagIngest`):
  - the file-type dispatch;
  - chunking the text into slices of 1000 characters;
  - one vector record per chunk;
  - writing the records in batches of 50.
- **The support chat** (`chat.dfy`, module `Chat`):
  - the escalation keyword test;
  - the chat-history role mapping and filter;
  - the choice between retrieved passages and the fixed policy text.
- **Dispute-detail extraction** (`extract_details.dfy`, module `ExtractDetails`): the transcript formatting, the code-fence stripping, and the route's error cases.
- **Helpers**: `text.dfy` (`Text`: lower-casing, trimming, substring search, number-to-text, join, literal replace) and `values.dfy` (`Values`: loosely typed JavaScript values, truthiness, `||`, `Number()`, `String()`).

**Inputs for foreign code.** The model does not call out to anything. The database connection is left out, and the spreadsheet reader, the PDF reader, the language model, the embedding model, the vector index and the JSON parser are inputs or function parameters. The wall clock and `Math.random` are also parameters.

**Numbers.** They are integers plus NaN (`Values.Num`).

**Timestamps.** The schema's `timestamps` option sets both times when a record is created. On a later save the update time moves only when the save modifies a field. A field counts as modified when its new value, converted to text, differs from the stored one.

**Where the code and its description disagree, the model follows the code:**
- The status is free text in the schema, not an enumeration of Open and Resolved.
- The tier computation accepts any number, NaN included, not just non-negative ones; every comparison with NaN is false.
- The resolve button stores the fixed action "None - Case Closed" rather than the action the rule table derives (`Dashboard.ClosedStageRuleAction`).

## Model

The per-ticket route `src/app/api/disputes/[ticketId]/route.ts` is modelled by `DisputesApi.GetDispute` (its lines 5-27) and `DisputesApi.PatchDispute` (lines 29-60): a lookup by ticket id, then the assignment of the truthy body fields and a save. Its path cannot be written in the table below. The rows for those members and for the store operations they use cite the schema lines those operations enforce (the unique ticket id, the priority enumeration, the timestamps) and the dashboard's call of the update.

| member | source | states |
|---|---|---|
| Values.Or | src/app/api/upload/route.ts:108-131 | `v \|\| fallback` is `v` when `v` is truthy and the fallback otherwise; a truthy fallback gives a truthy result |
| Values.NumberOrZero | src/app/api/upload/route.ts:92-96 | `Number(v \|\| 0)` is 0 for every falsy cell and the conversion of the cell otherwise |
| DisputeModel.PriorityName | src/models/Dispute.ts:31-35 | every tier's name passes the enumeration and parses back to that tier |
| DisputeModel.ParsePriority | src/models/Dispute.ts:31-35 | exactly the five names L0, L1, L2, L3 and Resolved are accepted |
| DisputeModel.ParsePriorityInverse | src/models/Dispute.ts:31-35 | an accepted name is the name of the tier it parses to |
| DisputeModel.RequiredText | src/models/Dispute.ts:22-26 | a required string field is accepted exactly when present with non-empty text, and stores that text |
| DisputeModel.Materialise | src/models/Dispute.ts:20-43 | the schema accepts a draft exactly when it is admissible; the stored record is well formed, keeps the ticket id, amount and priority, stores the text of the supplied user, category and channel, stores every supplied status, stage, present stage, day count and action, and is stamped with the save time |
| DisputeModel.MaterialiseDefaults | src/models/Dispute.ts:27-40 | absent fields take the defaults: status Open, stage "Stage 1 - New", days 0 and action Investigate; the present stage stays absent |
| DisputeModel.ApplyPatch | src/models/Dispute.ts:20-43 | each truthy field of the body (status, stage, action, priority) is assigned as text and every other field is kept; the save fails exactly when a new priority is outside the enumeration; the update time moves to the save time only when a field changed |
| DisputeModel.UnmodifiedSaveKeepsRecord | src/models/Dispute.ts:42 | a save that changes no field gives back the stored record, update time included |
| Triage.TierAt | src/lib/triage.ts:40-47 | the priority map sends rank k to the tier of rank k |
| Triage.CalculatePriority | src/lib/triage.ts:21-48 | the tier for each age band (over 25 days L0, 12 or more L1, 4 or more L2, else L3) with the one-level boost above 50000, never Resolved; NaN fails every comparison |
| Triage.NaNClassifiedAsZero | src/lib/triage.ts:24-38 | a NaN age or amount is classified like 0 |
| Triage.CalculatePriorityMonotone | src/lib/triage.ts:21-48 | an older dispute or a larger amount is never less urgent |
| Triage.BoostAtMostOneLevel | src/lib/triage.ts:34-38 | the boost raises the tier by exactly one level when the amount exceeds 50000 and the base is not L0, and otherwise leaves it |
| Triage.StageAction | src/lib/triage.ts:58-64 | the stage rules in order: "Stage 5" reconciliation, else "Stage 3" reminder, else "Stage 4" monitoring, else standard review, each as an if-and-only-if |
| Triage.DetermineAction | src/lib/triage.ts:53-67 | one of the five actions; urgent exactly when the priority is "L0"; otherwise the stage rule decides |
| Triage.PlainStageAction | src/lib/triage.ts:53-67 | a stage naming no stage 3, 4 or 5 gets the urgent action at L0 and the standard review otherwise |
| Triage.NewStageAction | src/lib/triage.ts:53-67 | the first stage, "Stage 1 - New", gets the urgent action at L0 and the standard review at every other tier |
| Triage.Scenarios | src/lib/triage.ts:21-67 | 30 days and 75000 is L0 and urgent; 2 days and 120000 is boosted to L2 and reviewed normally |
| Triage.SeedPlainStageActions | src/app/api/seed/route.ts:19-54 | the stored actions of the seed records at stages 1 and 2 agree with the rule table |
| Triage.SeedInfoNeededAction | src/app/api/seed/route.ts:41-43 | the stage-3 seed record's reminder action agrees with the rule table |
| Triage.StageThreeReminder | src/lib/triage.ts:56-61 | below L0, a stage that begins with "Stage 3" and holds no digit 5 gets the customer reminder |
| Triage.StageFourMonitor | src/lib/triage.ts:56-63 | below L0, a stage that begins with "Stage 4" and holds neither digit 3 nor 5 gets the reversal monitoring |
| Triage.SeedReversalAction | src/app/api/seed/route.ts:63-65 | the stage-4 seed record's monitoring action agrees with the rule table |
| Store.MaterialiseAll | src/app/api/upload/route.ts:175 | a batch passes validation exactly when every draft is admissible, and converts draft by draft |
| Store.AppendFresh | src/models/Dispute.ts:22 | appending a record with a fresh ticket id keeps the ids unique and adds exactly that id |
| Store.InsertByCreated | src/app/api/disputes/route.ts:70 | insertion into a newest-first list keeps it newest first and adds exactly one record |
| Store.SortNewestFirst | src/app/api/disputes/route.ts:70 | `sort({ createdAt: -1 })` yields the same records (as a multiset), newest first |
| Store.Select | src/app/api/disputes/route.ts:70 | the query keeps exactly the records that match, with no record added |
| Store.ValidateBatch | src/app/api/upload/route.ts:175 | the validation loop yields the converted batch, or nothing when some draft is refused |
| Store.AppendUntilTaken | src/app/api/upload/route.ts:175 | the ordered insertion appends the batch up to its first record whose ticket id is already stored or taken by an earlier record of the batch (`StopsAt`), and keeps ids unique |
| Store.StopsAtUnique | src/app/api/upload/route.ts:175 | that stopping point is unique: the records and the batch determine how much of an ordered insertion goes in |
| Store.IndexOf | src/models/Dispute.ts:22 | the position of the record with the ticket id, or the length when no record has it |
| Store.DisputeStore.constructor | src/models/Dispute.ts:20-47 | an empty store satisfies the invariant |
| Store.DisputeStore.ExistingIds | src/app/api/upload/route.ts:169-170 | `find({ ticketId: { $in } })` returns exactly the asked-for ids that some record holds |
| Store.DisputeStore.FindOne | src/models/Dispute.ts:22 | a record with that ticket id is found exactly when one is stored |
| Store.DisputeStore.Find | src/app/api/disputes/route.ts:70 | the matching records as a multiset, newest first |
| Store.DisputeStore.InsertMany | src/app/api/upload/route.ts:175 | a schema failure inserts nothing; otherwise the batch goes in up to its first taken ticket id (`StopsAt`), success exactly when all of it does; the invariant is kept |
| Store.DisputeStore.Create | src/app/api/disputes/route.ts:27-37 | the record is appended exactly when the schema accepts it and its ticket id is free; otherwise nothing changes |
| Store.DisputeStore.Update | src/models/Dispute.ts:20-43 | unknown id: not found and no change; for a stored id the save is rejected exactly when the patch fails the schema, with no change; otherwise only that record is replaced by the patched one |
| Upload.HeaderIndex | src/app/api/upload/route.ts:44-58 | the header row is the first of the first twenty rows whose lower-cased text mentions "ticket id" and "amount" or "days open" |
| Upload.FindHeaderRow | src/app/api/upload/route.ts:44-62 | the scan loop finds that first header row, or reports none and falls back to row 0 |
| Upload.Lookup | src/app/api/upload/route.ts:74 | the exact-key lookup finds a value exactly when some cell has that header |
| Upload.FirstIndex | src/app/api/upload/route.ts:77 | `find` returns the first matching position, or none when nothing matches |
| Upload.FirstTrimmed | src/app/api/upload/route.ts:77 | the first header equal to the name once trimmed, or none when no header is |
| Upload.FirstLowered | src/app/api/upload/route.ts:81 | the first header equal to the lower-cased name once lower-cased and trimmed, or none |
| Upload.Resolve | src/app/api/upload/route.ts:72-83 | the exact header wins; failing that, the first header equal to the name once trimmed, if non-empty; failing that, the first equal once lower-cased and trimmed, if non-empty; a non-empty name resolves exactly when such a cell exists |
| Upload.GetValueFirstAlias | src/app/api/upload/route.ts:70-85 | column names are tried in order and the first that resolves wins; nothing is found exactly when no name resolves |
| Upload.ExactHeaderWins | src/app/api/upload/route.ts:72-74 | a cell under the first column name always wins |
| Upload.HeaderFoundIgnoringCase | src/app/api/upload/route.ts:81-82 | a header that differs only in case and surrounding blanks is still found |
| Upload.SyntheticId | src/app/api/upload/route.ts:125 | a made-up ticket id starts with "WEB-" |
| Upload.SyntheticIdsDistinct | src/app/api/upload/route.ts:125 | made-up ids of different rows differ whatever the clock and the random draws, because the row index ends the id |
| Upload.ActionFor | src/app/api/upload/route.ts:119 | the action of a row: the priority text "L0" (strictly) gives the urgent action whatever the stage; otherwise a text stage gets its stage rule; a non-text stage below L0 throws, so the row is dropped |
| Upload.BuildDraft | src/app/api/upload/route.ts:92-146 | each field of a row's object: numbers `Number(cell \|\| 0)`, priority the cell or the computed tier, the defaults for stage, status, category and channel, a made-up id, user UNKNOWN, the rule-table action; no object exactly when the action throws |
| Upload.NormaliseRow | src/app/api/upload/route.ts:88-150 | an empty row is skipped and any other is built from its cells |
| Upload.UploadedRowAdmissible | src/app/api/upload/route.ts:133-146 | an uploaded row can be refused by the schema only for its priority text or a NaN number |
| Upload.ComputedPriorityAccepted | src/app/api/upload/route.ts:107-108 | a row without a priority cell stores the computed tier, which always passes the enumeration |
| Upload.FilterMapInOrder | src/app/api/upload/route.ts:87-151 | `map` then `filter(Boolean)` keeps exactly the rows that produced an object, in row order, each with its own index |
| Upload.FilterMapMembers | src/app/api/upload/route.ts:87-151 | every kept object was produced by some row |
| Upload.QueryIds | src/app/api/upload/route.ts:169 | the `$in` query asks for the text of every ticket id in the batch |
| Upload.DropExisting | src/app/api/upload/route.ts:172 | the corrected filter keeps exactly the drafts whose ticket id, as text, is not already stored |
| Upload.DropExistingAppend | src/app/api/upload/route.ts:172 | the filter works draft by draft: filtering a concatenation concatenates the filtered parts, so the kept drafts stay in order |
| Upload.DropExistingSingle | src/app/api/upload/route.ts:172 | a single draft is kept exactly when its id is new |
| Upload.DropExistingCopies | src/app/api/upload/route.ts:172 | every copy of a new draft is kept and no copy of another |
| Upload.QueryIdsSuffice | src/app/api/upload/route.ts:169-172 | filtering against the ids returned by the query is filtering against everything stored |
| Upload.DropExistingAsWritten | src/app/api/upload/route.ts:172 | the filter as written drops a draft only when its ticket id is text that is already stored |
| Upload.NumericTicketIdSlipsThrough | src/app/api/upload/route.ts:169-172 | a ticket id read as the number 7 is stored as "7", kept by the filter as written, but dropped by the corrected filter |
| Upload.KeptIdsFresh | src/app/api/upload/route.ts:169-175 | every record that survives the corrected filter has a ticket id not in the store |
| Upload.FreshBatchNeverCollides | src/app/api/upload/route.ts:174-175 | a batch of fresh, distinct ids never meets a duplicate during the ordered insertion |
| Upload.StoreNewDrafts | src/app/api/upload/route.ts:169-182 | nothing left after filtering: "Added 0" and no write; a schema failure: 500 and no write; otherwise the kept records go in up to the first taken ticket id (`StopsAt`), "Added n" exactly when all n do, and fresh distinct ids always all go in |
| Upload.UploadDisputes | src/app/api/upload/route.ts:7-190 | the 400 answers for no file, an unreadable workbook, no sheet and no valid row, with no write; otherwise the drafts read from the header row are stored as above |
| DisputesApi.NewDisputeDraft | src/app/api/disputes/route.ts:19-37 | a filed dispute gets the ticket id `WEB-<time>`, the body's fields, tier L2 above 50000 and L3 otherwise, the standard review, stage 1 and status Open; the schema accepts it exactly when the amount is a number |
| DisputesApi.CreateDispute | src/app/api/disputes/route.ts:6-47 | 400 when a required field is falsy; otherwise created (appended) exactly when the amount is a number and the id is free, and 500 with no change otherwise |
| DisputesApi.FiledDisputeTriage | src/app/api/disputes/route.ts:19-37 | the stored record of a filed dispute has the tier the triage rules give for 0 days and its amount, and the standard review |
| DisputesApi.BuildQuery | src/app/api/disputes/route.ts:58-68 | a filter is set exactly for each parameter present with a non-empty value, with that value |
| DisputesApi.ListingFilters | src/app/api/disputes/route.ts:58-70 | a record is listed exactly when every supplied filter holds for it |
| DisputesApi.SearchIgnoresCase | src/app/api/disputes/route.ts:65-66 | the search ignores the case of its pattern |
| DisputesApi.SearchFindsOccurrence | src/app/api/disputes/route.ts:65-66 | a pattern occurring in a field is found |
| DisputesApi.ListDisputes | src/app/api/disputes/route.ts:49-80 | the listing holds exactly the matching records, newest first |
| DisputesApi.GetDispute | src/models/Dispute.ts:22 | 404 exactly when no record has the ticket id; otherwise that record |
| DisputesApi.PatchDispute | src/app/dashboard/page.tsx:82-92 | 404 exactly for an unknown id; for a stored id a 500 exactly when the patch fails the schema, with no change; otherwise only that record is replaced by the patched one |
| Dashboard.SumFromIsTotal | src/app/dashboard/page.tsx:100 | the `reduce` from an initial sum is that sum plus the total of the amounts |
| Dashboard.ValueAtRiskIsRisk | src/app/dashboard/page.tsx:99-100 | the value at risk is the sum, over all disputes, of each active dispute's amount |
| Dashboard.TotalOfActive | src/app/dashboard/page.tsx:99-100 | the total of the active disputes' amounts equals the per-dispute risk summed |
| Dashboard.ActivePlusResolved | src/app/dashboard/page.tsx:99-137 | active and resolved disputes together are all of them |
| Dashboard.CriticalAtMostActive | src/app/dashboard/page.tsx:101 | critical cases are active L0 disputes, so there are never more of them than active ones |
| Dashboard.ResolveSetsFixedValues | src/app/dashboard/page.tsx:85-90 | resolving always saves, sets the four fixed values, keeps the identity and the amount, and leaves the dispute inactive |
| Dashboard.ClosedStageRuleAction | src/app/dashboard/page.tsx:85-90 | the rule table would give the closed stage the standard review, not the closing text the button stores |
| Dashboard.RiskOfUpdate | src/app/dashboard/page.tsx:99-100 | replacing one dispute changes the risk and the active count by exactly its own contribution |
| Dashboard.ResolvingLeavesActive | src/app/dashboard/page.tsx:85-101 | resolving an active dispute gives one active fewer, one resolved more, and its amount off the value at risk |
| RagIngest.Slices | src/app/api/rag-ingest/route.ts:54-58 | the slices of a text are none exactly for the empty text, each non-empty and at most the size, all but the last exactly the size, and as many as the length divided by the size, rounded up |
| RagIngest.SlicesFlatten | src/app/api/rag-ingest/route.ts:54-58 | the slices put back together are the original sequence |
| RagIngest.SliceEvery | src/app/api/rag-ingest/route.ts:54-58 | the slicing loop produces exactly those slices |
| RagIngest.VectorIdsDistinct | src/app/api/rag-ingest/route.ts:70 | different chunks of a file get different vector ids |
| RagIngest.BuildVectors | src/app/api/rag-ingest/route.ts:65-80 | the loop builds one record per chunk, in order, with id `<file>-<i>`, the chunk's embedding and text, the file name and the position |
| RagIngest.IngestionPlan | src/app/api/rag-ingest/route.ts:54-87 | the chunks rebuild the text; the batches rebuild the records; there is one record per chunk with distinct ids; no batch holds more than 50 |
| RagIngest.FileText | src/app/api/rag-ingest/route.ts:35-51 | PDF files use the PDF reader's text, plain-text files their decoded bytes, and other types have none |
| RagIngest.Ingest | src/app/api/rag-ingest/route.ts:10-101 | 500 for a missing setting or an unreadable PDF; 400 for no file or another type; otherwise the batches written are the 50-record slices of the records built from the 1000-character chunks, and the answer counts the chunks |
| Chat.EscalationByKeyword | src/app/api/chat/route.ts:117-122 | a message is escalated exactly when its lower-case form contains "fraud", "scam", "urgent" or "unsatisfied" |
| Chat.EscalationIgnoresCase | src/app/api/chat/route.ts:117 | a message and its lower-case form are escalated alike |
| Chat.KeywordEscalates | src/app/api/chat/route.ts:117-122 | a keyword written in any case anywhere in the message escalates it |
| Chat.MapRole | src/app/api/chat/route.ts:98 | exactly the role "assistant" becomes "model"; every other role becomes "user" |
| Chat.DropLeadingModel | src/app/api/chat/route.ts:101-104 | the filter drops exactly the first message when it is the model's, and keeps the rest in order |
| Chat.ModelHistoryKeepsOrder | src/app/api/chat/route.ts:95-104 | the model's history is the chat history in order with roles mapped and contents kept, one message shorter exactly when the first is the assistant's |
| Chat.ModelHistoryOpening | src/app/api/chat/route.ts:101-104 | the model's history opens with a model message exactly when the chat history opens with two assistant messages |
| Chat.SelectContext | src/app/api/chat/route.ts:57-93 | retrieval is used exactly when it is configured and returns a match, with the passages joined by blank lines; otherwise the fixed policy text |
| Chat.RetrievedPassagesInContext | src/app/api/chat/route.ts:75-88 | every retrieved passage appears in the context it produces |
| Chat.Chat | src/app/api/chat/route.ts:38-137 | 500 without the model key; 400 for a falsy message; a reply exactly when the history is a list (or absent), the message is text and the model answers; the reply carries the escalation flag and the retrieval flag |
| ExtractDetails.Lines | src/app/api/extract-dispute-details/route.ts:27-28 | one `role: content` line per message, in order |
| ExtractDetails.TranscriptAppend | src/app/api/extract-dispute-details/route.ts:27-29 | appending a message appends a newline and its line to the transcript |
| ExtractDetails.TranscriptHasEveryLine | src/app/api/extract-dispute-details/route.ts:27-29 | every message's line appears in the transcript |
| ExtractDetails.CleanHasNoFence | src/app/api/extract-dispute-details/route.ts:52 | the cleaned answer contains no "```" and has no blank at either end |
| ExtractDetails.CleanWithoutBackticks | src/app/api/extract-dispute-details/route.ts:52 | an answer without backticks is only trimmed |
| ExtractDetails.Extract | src/app/api/extract-dispute-details/route.ts:8-65 | 500 without the model key; 400 for a missing or non-list history; details exactly when the model answers and the cleaned answer parses, and they are the parse |
| Text.Contains | src/lib/triage.ts:58-62 | `includes` holds exactly when the pattern occurs at some position |
| Text.Trim | src/app/api/extract-dispute-details/route.ts:52 | `trim` returns a contiguous part of the text with no blank at either end, and leaves blank-free text unchanged |
| Text.RemoveFenceComplete | src/app/api/extract-dispute-details/route.ts:52 | removing every "```" from left to right leaves none behind |
| Text.JoinSnoc | src/app/api/extract-dispute-details/route.ts:29 | joining one more part adds the separator and that part |

## Left out

- Database connection, request parsing (`req.json()`, `formData()`) and logging are left out. A failure of any of them ends in the routes' 500 answers, which only the failures named in the model produce.
- The spreadsheet library is not modelled. Reading a workbook and serialising a raw row to JSON are inputs (`Upload.Workbook`): the JSON text of each raw row, and the data rows read from a given header row.
- `Upload.NormaliseRows`: its contract states only that there are no more drafts than rows. Order and membership come from the generic `Upload.FilterMapInOrder` and `Upload.FilterMapMembers`, applied to it.
- `Upload.GetValue` has no contract of its own. What it returns is stated by `Upload.GetValueFirstAlias`.
- A property lookup on a row object is keyed by exact header. `Lookup` finds the first cell with an equal header, which is the same as long as a row's headers are distinct.
- Numbers are integers plus NaN. Fractions, infinities and `toLocaleString` formatting are not modelled. `Number()` on text is the parameter `parse`.
- `Text.Lower` and `Text.Trim` cover ASCII letters and the ASCII blanks, plus the no-break space and the byte-order mark. The full Unicode case mapping and white-space set of JavaScript are not modelled. String lengths count characters, whereas JavaScript counts UTF-16 code units, so chunk boundaries differ for text outside the Basic Multilingual Plane.
- `DisputesApi.MatchesText`: the search parameter is used as a regular expression with the `i` flag. The model reads it as literal text, matched case-insensitively. Regular-expression syntax is not modelled.
- The PDF reader, the embedding model, the vector index and the language model are foreign services:
  - the PDF text is an input;
  - the embedding is a function parameter;
  - the batches are returned instead of sent;
  - retrieval is an input (`Chat.Retrieval`);
  - the model's answer is a function parameter.
  A failure of the embedding or the upsert calls (a 500) is not modelled. The instruction text around the transcript in the extraction prompt belongs to the model parameter.
- JSON parsing of the extracted details is the parameter `parse`. The parsed object is returned as it is.
- Chat history entries that are not objects (so that reading `role` throws) are not modelled. A history entry's `null` fields are treated like missing ones, and `String(null)` is shown as "undefined".
- The dashboard's rendering, React state, fetch calls and refresh are not modelled. The button's request is modelled by the patch it sends, and its effect by `Store.DisputeStore.Update`.
- Concurrent requests are not modelled: each route runs alone against the store. In particular, the time between the duplicate query and the insertion is not modelled.
- Timestamps come from parameters: `savedAt` is the store's clock and `clock`/`rand` are the upload's per-row clock and random draws.

## Findings

| source | as written | input that shows it | evidently intended | confidence | as-written member | corrected member |
|---|---|---|---|---|---|---|
| src/app/api/upload/route.ts:169-172 | The stored ids come back as text, and `Set.has` compares them with the raw cell values. A ticket id cell read as a number is therefore never recognised as already stored. | Upload the same sheet twice, with ticket id cell `7`. The second upload keeps the row, `insertMany` hits the duplicate key, and the route answers 500. | Skip rows whose ticket id, converted to text as the store converts it, is already stored. | not executed | Upload.DropExistingAsWritten (shown by Upload.NumericTicketIdSlipsThrough) | Upload.DropExisting (with Upload.QueryIdsSuffice, Upload.KeptIdsFresh, used by Upload.StoreNewDrafts) |
