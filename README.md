# Nexify ticket triage, modelled in Dafny

Nexify is a multi-tenant support-ticket service. Organisations own tickets.
Users belong to organisations through memberships that carry a role (admin,
agent or viewer). This project models the parts of the service that decide
what is stored and what is answered:

- **Tenancy and permissions.** Which organisations a user is in, with which
  role, and who may read or change a ticket.
- **Ticket endpoints.** Ingestion of a ticket, `PATCH` with the actor
  header, and the triage trigger. The trigger is made idempotent by the
  `Idempotency-Key` header: one job run per (ticket, key).
- **The save hooks.** They record a creation event, or one event per
  changed status, priority or team.
- **The background triage job.** A keyword classifier fills in a
  suggestion. The job runs it once per job run inside one transaction,
  records two events and updates the job's lifecycle fields.
- **Suggestion endpoints.** The role-restricted edit with its audit diff,
  and the idempotent rejection.
- **The knowledge base.** Text normalisation, sliding-window chunking with
  character offsets, document upload, padding of vectors and the
  organisation-scoped nearest-chunk search.
- **Rule-based triage and the two LLM clients.** Prompt assembly, locating
  the JSON object in a model reply, and the normalisation of the answer with
  its defaults.
- **Supporting pieces.** The deterministic stand-in embedder, the
  list filters, and the data migration that backfills idempotency keys.

The database is one object (`Db.Database`) with one field per table. Its
`Valid` predicate holds the schema's uniqueness constraints:
- one job run per (ticket, key);
- one event per (ticket, type, job run) when the job run is set;
- one suggestion per job run;
- one chunk per (document, index).

It also holds the foreign keys the handlers follow and the freshness of ids.
`JobRun` is a class whose `mark_*` methods assign its fields. Every handler
is a method that either changes nothing and returns the error response, or
states its whole new database state.

The clock, the embedding model, the vector distance, the JSON decoder, the
LLM backend and the database driver's error text are parameters.

## Model

| member | source | states |
|---|---|---|
| Tenancy.UserOrgIdsIffMember | core/api/tenancy.py:4-8 | an organisation is among the user's organisation ids exactly when a membership row for that user and organisation exists |
| Tenancy.UserRoleInOrg | core/api/tenancy.py:11-18 | a role that is found is the role of a membership row of that user in that organisation |
| Tenancy.RoleIffMember | core/api/tenancy.py:11-18 | the role is missing exactly when the organisation is not among the user's organisation ids |
| Tenancy.RoleOfUniqueMembership | core/api/tenancy.py:11-18 | with one membership per (user, organisation), the role found is the role of that one row |
| Permissions.HasObjectPermission | core/api/permissions.py:14-27 | a non-member is refused; a member is allowed every safe method (GET, HEAD, OPTIONS); any other method is allowed exactly for an admin or an agent |
| Permissions.NonMemberDenied | core/api/permissions.py:21-22 | a user outside the ticket's organisation is refused whatever the method |
| Permissions.MemberMayRead | core/api/permissions.py:24-25 | every member may read, whatever their role |
| Permissions.WriteIffAdminOrAgent | core/api/permissions.py:27 | with unique memberships, a write is allowed exactly when the member's role is admin or agent, so a viewer is refused |
| Permissions.DecidedByRoleAndMethod | core/api/permissions.py:14-27 | the decision depends only on the role found and the method |
| Backfill.BackfillRow | core/migrations/0011_backfill_jobrun_idempotency_key.py:7-9 | a row without a key gets "legacy-<id>"; a row with a key, even an empty one, is unchanged; the id never changes |
| Backfill.BackfillAll | core/migrations/0011_backfill_jobrun_idempotency_key.py:5-9 | the table after the migration has the same rows in the same order, each backfilled |
| Backfill.RunBackfill | core/migrations/0011_backfill_jobrun_idempotency_key.py:5-9 | the loop over the rows leaves the array equal to the backfilled table |
| Backfill.BackfillIdempotent | core/migrations/0011_backfill_jobrun_idempotency_key.py:7-9 | running the migration again changes nothing, since it only visits rows whose key is NULL |
| Backfill.LegacyKeysDistinct | core/migrations/0011_backfill_jobrun_idempotency_key.py:8 | two different job ids receive two different legacy keys |
| Embeddings.GetEmbedding | core/embeddings.py:33-49 | the vector always has 1536 entries; a missing or blank text gives all zeros; any other text gives the values drawn for its stripped form |
| Embeddings.EmbeddingIgnoresOuterWhitespace | core/embeddings.py:41-49 | a text and its stripped form get the same vector |
| Embeddings.GetEmbeddings | core/embeddings.py:52-57 | one embedding per text, in the order of the texts |
| Embeddings.EmbeddingsSplit | core/embeddings.py:52-57 | embedding a batch in two parts gives the same vectors as embedding it whole |
| Triage.MatchRoute | core/triage.py:32-65 | the first matching keyword group decides: login words give low/support and the reset line; otherwise billing words give high/billing; otherwise error words give high/backend; otherwise slowness words give medium/platform; no route exactly when none of the four groups occurs |
| Triage.FirstLine | core/triage.py:76 | the result is the longest prefix of the text without a line break: the whole text, or the part before its first '\n' |
| Triage.Summary | core/triage.py:75-82 | the summary is never longer than 160 characters |
| Triage.SummaryKeepsPrefix | core/triage.py:80-82 | a base text of at most 160 characters is kept whole; a longer one keeps its first 157 characters followed by "..." |
| Triage.SummaryOfBodyIsOneLine | core/triage.py:75-76 | a summary taken from a body is one line |
| Triage.BasicTriageRules | core/triage.py:11-93 | proposed status "open", confidence 0.65, the bounded summary; a matched route's priority, team and resolution line; with no match the ticket's own priority (or "medium"), its team (or "support") and the default line |
| Triage.Triage | core/triage.py:24-93 | the shared rule body for any default team: status "open", confidence 0.65, the summary, and the matched route's values or the ticket's priority, the default team and the default line |
| Triage.TriagePrecedence | core/triage.py:26-72 | login words win over billing words, which win over error words, which win over slowness words, each with its priority, team and line; with no keyword the ticket keeps its priority and team and gets the default resolution line |
| Triage.TriageIgnoresCase | core/triage.py:24 | two tickets that differ only in ASCII letter case get the same priority, team and resolution |
| Triage.AsWrittenAlwaysRaises | core/triage.py:28 | as written, the rules raise AttributeError on `assigned_team_name` for every ticket |
| Signals.PreSaveOld | core/signals.py:7-15 | the old row is remembered exactly when the instance has a non-zero primary key that is stored, and it is that stored row |
| Signals.EventActor | core/signals.py:28-30 | the actor set on the instance is used, and the system is used when none was set |
| Signals.ChangeEvents | core/signals.py:54-70 | at most three events, all for this ticket and organisation, without a job run or a user, attributed to the given actor |
| Signals.PostSaveEvents | core/signals.py:18-70 | every event is for this ticket and has no job run; a creation flagged to skip records nothing; any other creation records exactly one CREATED event with the actor, the time and the status/priority/team payload; an update with no old row records nothing; an update with its old row records exactly `ChangeEvents` |
| Signals.ChangeEventsIff | core/signals.py:54-70 | a status, priority or team event is recorded exactly when that column changed, and it carries the old and the new value |
| Signals.ChangeEventsOrdered | core/signals.py:54-70 | change events come in the order status, priority, team, none twice, and there are none exactly when no tracked column changed |
| Signals.SaveTicket | core/signals.py:7-70 | the save inserts or updates the ticket row, appends exactly the post-save hook's events, and changes nothing else |
| Filters.FilterTicketsIff | core/api/filters.py:8-48 | a ticket is listed exactly when it is one of the input tickets and satisfies every given parameter: exact status, priority and non-empty team (an empty `assigned_team` is skipped, as django-filter skips empty values), inclusive creation bounds, and a case-insensitive match of the stripped `q` in subject, body or requester e-mail |
| Filters.BlankQueryKeepsAll | core/api/filters.py:40-43 | a missing, empty or whitespace-only `q` leaves the list unchanged |
| Filters.NoParametersKeepAll | core/api/filters.py:8-38 | with no parameter at all, or only an empty `assigned_team` and `q`, the whole list is returned, in its order |
| Filters.QueryCaseInsensitive | core/api/filters.py:44-48 | two queries equal up to ASCII letter case match the same tickets |
| Filters.FilterEventsIff | core/api/filters.py:51-77 | an event is listed exactly when it is one of the input events and matches the given type, actor and inclusive creation bounds |
| LlmClient.KbSnippets | core/llm_client.py:86-88 | one line per hit for at most the first five hits, in order, each "- [doc:<title>] <text>" |
| LlmClient.BuildKbSnippets | core/llm_client.py:86-88 | the loop builds exactly the lines of `KbSnippets` |
| LlmClient.KbBlock | core/llm_client.py:89 | no lines give "None found."; a single line is the block itself; two or more lines are the block of all but the last, a newline, and the last line |
| LlmClient.ChatContent | core/llm_client.py:51-56 | the content is found exactly when the response is an object with a "message" object holding "content", and it is that value; a missing "message" is an `LLMError` |
| LlmClient.ParseJsonFromText | core/llm_client.py:59-69 | a reply without a '{' ... '}' span is an error; otherwise the result is the decoding of that span |
| LlmClient.NormalizeClassification | core/llm_client.py:125-131 | a classification of an object keeps the reply text as `raw_output` |
| LlmClient.ClassifyTicketWithLlm | core/llm_client.py:84-131 | a failed request, a response without message content, a content that is not a string, and a reply without a decodable JSON span are errors (the client's `LLMError` except the `TypeError` of a non-object response); when the content is a string whose JSON span decodes, the answer is exactly the normalised classification of that decoded value with that string as `raw_output` |
| LlmClient.ClassifyErrors | core/llm_client.py:118-131 | when the reply has no decodable JSON object the client raises its own `LLMError`; a success keeps the reply verbatim |
| LlmClient.ClassificationDefaults | core/llm_client.py:125-131 | a truthy category, team or draft reply is kept as decoded, a missing or falsy one becomes "general", "support" or ""; every string priority is lower-cased and not checked against any list ("CRITICAL" becomes "critical"), a missing or falsy one is "medium", and a truthy non-string priority raises AttributeError |
| Llm.ChatMessages | core/llm.py:28-31 | the user message always comes last; a system message precedes it exactly when a non-empty system prompt is given |
| Llm.BackendName | core/llm.py:12 | an unset backend is "ollama"; a configured one is its lower-cased value |
| Llm.ExtractJsonText | core/llm.py:99-105 | nothing is located exactly when '{' or '}' is missing or the last '}' does not come after the first '{' |
| Llm.ExtractJsonTextBounds | core/llm.py:99-105 | the located text is the span of the reply from its first '{' to its last '}' inclusive |
| Llm.GenerateJson | core/llm.py:64-116 | a backend other than "ollama" answers `{}` without asking; a failed request is passed on as the error; with "ollama" a returned dict means the reply came back, its stripped text holds a located '{' ... '}' span, and that span decodes to exactly the object whose fields are returned |
| Llm.RootObject | core/llm.py:107-116 | a dict is returned exactly when the decoder succeeded and the root is an object, and it is that object's fields |
| Llm.GenerateJsonIsObject | core/llm.py:88-116 | with the "ollama" backend an answer is returned exactly when the reply came back, contains a located span, and that span decodes to a JSON object, and the answer is that object's fields |
| Llm.KbText | core/llm.py:135 | no snippets give "No KB context available."; one snippet is used as it is; two or more are the text of all but the last, the "\n\n-----\n" separator, and the last snippet |
| Llm.NormalizeTriage | core/llm.py:171-185 | the priority is lower(strip(p)) when that is low, medium or high and "medium" otherwise; a category or team that is non-blank after strip is returned stripped, a truthy draft reply is returned stripped; the priority is always whitelisted, category and team are never empty, and all four values are stripped |
| Llm.NormalizeTriageDefaults | core/llm.py:172-183 | a missing, falsy or whitespace-only category becomes "general" and team "support"; a missing or falsy draft reply becomes "" and priority "medium" |
| Llm.NormalizeEmptyObject | core/llm.py:169-185 | an empty answer object normalises to general, medium, support and "" |
| Llm.NormalizeTriageKeepsPriority | core/llm.py:173-178 | a priority string already on the whitelist is kept unchanged |
| Llm.TriageAnswerKeys | core/llm.py:180-185 | the returned dict has exactly the keys category, priority, team and draft_reply |
| Llm.TriageTicket | core/llm.py:119-185 | every answer has a whitelisted priority; a backend other than "ollama" gives general, medium, support and ""; an answer is returned exactly when `GenerateJson` on the reply to the prompt with the knowledge-base text returns a dict, and it is that dict normalised |
| Kb.ReplaceCrlf | core/kb.py:48 | replacing "\r\n" is deleting exactly the '\r's that stand directly before a '\n' (`DropCrBeforeLf`); a text without '\r' is unchanged |
| Kb.DropCrBeforeLf | core/kb.py:48 | deleting those '\r's never lengthens the text and keeps every other character, as many times as it occurs |
| Kb.ReplaceCr | core/kb.py:48 | replacing '\r' keeps the length and leaves no '\r': each '\r' becomes '\n' and every other character stays in its place |
| Kb.NormalizeText | core/kb.py:45-48 | a missing or empty text gives ""; the result has no '\r' and no outer whitespace; a text without '\r' normalises to its stripped form |
| Kb.NormalizeKeepsContent | core/kb.py:45-48 | every non-whitespace character of the text survives normalisation |
| Kb.NormalizeIdempotent | core/kb.py:45-48 | normalising twice is the same as normalising once |
| Kb.EffectiveOverlap | core/kb.py:65-66 | an overlap below the window size is kept; any other becomes `max(0, chunk_size - 1)`; a non-negative overlap stays non-negative |
| Kb.StepSize | core/kb.py:68 | the step is at least 1, so the scan advances; a non-negative overlap below the window size gives `chunk_size - overlap`, a clamped one gives 1 |
| Kb.ChunkText | core/kb.py:51-82 | the loop returns exactly the chunks of the sliding-window scan `Chunks`, for every chunk size and overlap, a negative window end counting from the end of the text as Python's slice does |
| Kb.ChunksWellFormed | core/kb.py:72-77 | for a chunk size of at least 1, every triple has 0 <= start < end <= len(text), spans at most the window size, holds exactly text[start:end] and is not blank |
| Kb.ChunksOnStepGrid | core/kb.py:71-80 | every chunk starts at a multiple of the step |
| Kb.ChunksIncreasing | core/kb.py:71-80 | chunk starts strictly increase |
| Kb.ChunkEmittedIffNotBlank | core/kb.py:73-77 | for a chunk size of at least 1, a window the loop visits is emitted exactly when it is not all whitespace |
| Kb.LastChunkEndsAtLength | core/kb.py:74-79 | with a non-negative overlap, a text that does not end in whitespace has its last chunk ending at the end of the text |
| Kb.NegativeSizeCountsFromEnd | core/kb.py:65-80 | a negative chunk size never reaches the end of the text, and its windows end at Python's negative slice index: size -2 over "abcdefgh" gives (0, -2, "abcdef") and (1, -1, "bcdefg") |
| Kb.SizeMinusTwoChunks | core/kb.py:65-80 | over any eight letters, size -2 emits exactly two chunks: (0, -2, text[0:6]) and (1, -1, text[1:7]) |
| Kb.NonPositiveSizeTail | core/kb.py:71-80 | with a chunk size below 1, every window from the point where its end no longer reaches back before its start is empty, so nothing more is emitted |
| Kb.PadToDbDim | core/kb.py:88-100 | the vector has exactly the column width; it keeps the input's entries that fit and pads with zeros |
| Kb.Candidates | core/kb.py:165-167 | the candidates are exactly the organisation's chunks that have an embedding, taken from the table |
| Kb.InsertByDistance | core/kb.py:169-170 | inserting into a list ordered by distance keeps it ordered and adds one row |
| Kb.InsertByDistancePermutes | core/kb.py:169-170 | insertion adds exactly the new row to the multiset of rows |
| Kb.OrderByDistance | core/kb.py:169-170 | `ORDER BY distance` gives a permutation of the rows in non-decreasing distance |
| Kb.TakeAtMost | core/kb.py:170 | the slice `[:k]` keeps the first min(k, n) rows unchanged |
| Kb.Render | core/kb.py:173-185 | one result per row, in order, each rendered from its own row and document |
| Kb.RenderRows | core/kb.py:173-185 | the result loop builds exactly `Render` of the rows |
| Kb.NearestFromCandidates | core/kb.py:165-170 | every row the search reads is an embedded chunk of the organisation |
| Kb.SearchKbChunksForQuery | core/kb.py:137-187 | the method returns exactly `Search`: nothing for a blank query, otherwise the k nearest embedded chunks of the organisation, rendered |
| Kb.SearchCount | core/kb.py:158-170 | at most k results; none for a query that normalises to ""; otherwise exactly min(k, number of embedded chunks of the organisation) |
| Kb.SearchStaysInOrg | core/kb.py:165-185 | every result comes from an embedded chunk of the searching organisation, with that chunk's id, document and text |
| Kb.SearchSortedByScore | core/kb.py:169-185 | results come nearest first: scores never decrease |
| Tasks.SimpleClassification | core/tasks.py:10-76 | the label is one of the four known ones and fixes team, priority, reply and confidence; priority is never low; confidence lies between 0.72 and 0.9; the summary is the subject's first 180 characters |
| Tasks.Label | core/tasks.py:18-65 | the label is one of login_issue, billing, performance_incident and general_support |
| Tasks.ClassificationPrecedence | core/tasks.py:18-65 | a sign-in word wins over a payment word, which wins over an incident word; general support exactly when no group matches |
| Tasks.ClassifierTextIgnoresCase | core/tasks.py:16 | two tickets equal up to ASCII letter case have the same classifier text |
| Tasks.FieldsForLabelOnlySummary | core/tasks.py:18-75 | the subject only feeds the summary; every other field is fixed by the label |
| Tasks.ClassificationIgnoresCase | core/tasks.py:16-67 | two tickets equal up to ASCII letter case get the same label and the same draft reply |
| Tasks.NewSuggestion | core/tasks.py:112-124 | the suggestion belongs to the job's organisation, ticket and job, is pending, has no citations, and carries the classification's priority, team and summary |
| Tasks.TriageEvents | core/tasks.py:127-151 | two events, "ai_triage_ran" then "ai_suggestion_created", both for the job's ticket, linked to the job and attributed to the AI; the second names the suggestion id |
| Tasks.FirstCollisionIff | core/models.py:161-167 | inserting events one after another hits the partial (ticket, type, job) index exactly when a new event matches a stored one or an earlier new one |
| Tasks.TransactionViolationIff | core/tasks.py:107-151 | running the suggestion insert and then the two event inserts fails exactly when the job already has a suggestion or one of its triage events; the suggestion's one-per-job constraint is the one reported whenever a suggestion exists, because that insert runs first |
| Tasks.AppendTriageEvents | core/tasks.py:127-151 | when the job has no events yet, its two events keep the (ticket, type, job) partial unique constraint |
| Tasks.RunTicketTriage | core/tasks.py:79-163 | a missing job returns nothing and changes nothing; a job that already succeeded with a suggestion returns that suggestion unchanged; a conflicting insert rolls everything back and marks the job failed with the driver's message; otherwise one suggestion and two events are added and the job is marked succeeded |
| Tasks.RecordTriage | core/tasks.py:103-154 | the job is marked running then succeeded; exactly the new suggestion and the two events are added under one fresh id |
| Tasks.RerunReturnsSameSuggestion | core/tasks.py:99-101 | running a successful job again returns the same suggestion id and adds no event |
| Models.JobRun.constructor | core/models.py:174-202 | a new job run takes the column defaults: queued, never started or finished, no error |
| Models.JobRun.MarkRunning | core/models.py:216-219 | status running and a start time; finish time and error unchanged |
| Models.JobRun.MarkSucceeded | core/models.py:222-225 | status succeeded and a finish time; start time and error unchanged, so an earlier error text survives |
| Models.JobRun.MarkFailed | core/models.py:227-231 | status failed, the message as error and a finish time; start time unchanged |
| Db.Database.InsertJob | core/models.py:209-214 | inserting a job whose (ticket, idempotency key) pair is not taken keeps every constraint and changes only the job table |
| Db.Database.InsertSuggestion | core/models.py:250-254 | inserting the suggestion of a job that has none keeps the one-suggestion-per-job constraint and changes only the suggestion table |
| Db.Database.AppendEvents | core/models.py:161-167 | appending events that keep the partial (ticket, type, job) index keeps every constraint and changes only the event table |
| Db.Database.AppendChunks | core/models.py:351-356 | appending chunk rows that keep (document, chunk_index) unique keeps every constraint and changes only the chunk table |
| Db.FindSuggestion | core/models.py:250-254 | the job's suggestion is found exactly when one exists, and it is the only row for that job |
| Db.AppendJoblessEvents | core/models.py:161-167 | events without a job run never collide under the partial unique index |
| Serializers.IngestedTicket | core/api/serializers.py:30-40 | the new ticket belongs to the given organisation, is open and unassigned, keeps the given fields, and has medium priority unless one was given |
| Serializers.IngestEvent | core/api/serializers.py:42-51 | one creation event by the webhook, without job run or user, whose payload is the source "api" and the requester e-mail |
| Serializers.CreateTicket | core/api/serializers.py:15-56 | an unknown organisation is a validation error and changes nothing; otherwise exactly the ticket and one webhook creation event are added, with the hook's own creation event suppressed |
| Serializers.ApplyTicketUpdate | core/api/serializers.py:92-96 | each provided field among status, priority and team is set; every other column is kept |
| Serializers.UpdateEventsIff | core/api/serializers.py:92-96 | a change event is logged for a column exactly when it was provided with a different value; an empty update logs nothing |
| Serializers.InsertByIndex | core/api/serializers.py:224 | inserting into rows ordered by chunk index keeps them ordered and adds one row |
| Serializers.InsertByIndexPermutes | core/api/serializers.py:224 | insertion adds exactly the new row to the multiset of rows |
| Serializers.OrderByIndex | core/api/serializers.py:224 | `order_by("chunk_index")` gives a permutation in non-decreasing index order |
| Serializers.ChunksPreview | core/api/serializers.py:223-227 | at most five rows: the document's chunks in chunk-index order, reduced to index and span |
| Serializers.ChunksPreviewRows | core/api/serializers.py:223-227 | every preview row comes from a chunk of the document, and under the (document, chunk_index) constraint the indices strictly increase |
| Serializers.ValidateKbRetrieve | core/api/serializers.py:256-268 | accepted exactly when k, defaulting to 5, lies in 1..50 and a non-blank query or a non-zero ticket id is given |
| TicketViews.TicketAccess | core/api/views.py:144-146 | a ticket outside the user's organisations is 404; a member without the object permission for the method is 403 with the permission's message; otherwise the ticket's organisation |
| TicketViews.TicketWriteNeedsWriterRole | core/api/views.py:144-146 | a ticket write that passes the checks comes from an admin or agent member of the ticket's organisation |
| TicketViews.ValidateIdempotencyKey | core/api/views.py:210-214 | a missing or blank header is "required"; a stripped key over 80 characters is "too long"; otherwise the stripped key, 1 to 80 characters long |
| TicketViews.KeyValidationIgnoresPadding | core/api/views.py:210 | a key and its stripped form are validated alike, and an accepted key validates to itself |
| TicketViews.ActorFromHeader | core/api/views.py:148-156 | the actor is the webhook exactly for "webhook", the system exactly for "" or "system" (after strip and lower-case), anything else is a 400; a user or AI actor cannot be claimed |
| TicketViews.BlankActorIsSystem | core/api/views.py:148-150 | a missing or blank header records the system as actor |
| TicketViews.PatchTicket | core/api/views.py:143-164 | 404, 403 or 400 change nothing; otherwise the row becomes the partial update and exactly the hook's change events, with the header's actor, are added |
| TicketViews.FindJob | core/api/views.py:216-226 | the job for (organisation, ticket, key) is found exactly when it exists, and it is the only one |
| TicketViews.InsertOrFetchJob | core/api/views.py:216-234 | the insert of a new queued job succeeds and reports created exactly when no job holds the key; on the constraint violation the job holding the key is fetched, reported as not created, and only the spent id changes |
| TicketViews.GetOrCreateJob | core/api/views.py:216-234 | an existing job for the key is returned and nothing changes; otherwise a new queued job triggered by the user is inserted under a fresh id and reported as created, unless a concurrent request's insert of the key lands first, in which case that request's job is fetched and reported as not created; either way the key has exactly one job run |
| TicketViews.TriggerTriage | core/api/views.py:205-253 | the lookup, permission and key errors change nothing; otherwise the job for the key is fetched or created, the answer is 202 when created and 200 otherwise, a run is dispatched exactly for a new or queued never-started job, and the body carries the job's columns; a lost insert race answers 200 with the winning request's job |
| TicketViews.TriggerTwiceSameJob | core/api/views.py:216-253 | triggering twice with one key, even when the first call loses an insert race, names the same job, the second answer is 200 and not created, and the key has exactly one job run |
| TicketViews.RetriggerAfterSuccess | core/api/views.py:236-240 | after the worker has finished the key's job, a new trigger returns that job with 200 and dispatches no run |
| SuggestionViews.PermittedEdit | core/api/views.py:290-297 | an admin's edit passes whole; for any other role only the draft reply and the metadata survive (the agent serializer's fields) |
| SuggestionViews.ApplyEdit | core/api/views.py:328 | each edited field takes the sent value, each omitted field keeps the stored one, and no other column changes |
| SuggestionViews.DiffOverIff | core/api/views.py:338-341 | a visited column's name is in the diff exactly when its value changed, with the entry {from, to} |
| SuggestionViews.DiffOverKeys | core/api/views.py:338-341 | every key of the diff names a visited column |
| SuggestionViews.NameInjective | core/api/views.py:320-326 | the five tracked columns have distinct keys |
| SuggestionViews.ChangesIff | core/api/views.py:320-341 | the `changes` dict holds exactly the tracked keys whose value changed, each as {from, to}, and no other key |
| SuggestionViews.NoChangesIffSameColumns | core/api/views.py:338-343 | the diff is empty exactly when status, draft reply, team and priority are unchanged and the metadata is equal under Python's `==` |
| SuggestionViews.TrueForOneIsNoChange | core/api/views.py:338-343 | values are compared with Python's `==`: metadata {"x": 1} saved as {"x": true} is no change |
| SuggestionViews.AgentDiffOnlyReplyAndMetadata | core/api/views.py:290-297 | whatever a non-admin sends, the diff can only name draft_reply and metadata |
| SuggestionViews.Diff | core/api/views.py:338-341 | the loop over the five columns computes exactly `Changes` |
| SuggestionViews.EditEvents | core/api/views.py:343-354 | at most one event, present exactly when the diff is non-empty, a comment by the user with no job |
| SuggestionViews.EditSuggestion | core/api/views.py:307-354 | a non-member is 404, a role other than admin/agent is 403, a suggestion outside the URL's organisation and ticket is 404, all changing nothing; otherwise the row becomes the permitted edit and exactly `EditEvents` are appended |
| SuggestionViews.RejectEvent | core/api/views.py:451-462 | a SUGGESTION_REJECTED event by the user, on the suggestion's organisation and ticket, with no job |
| SuggestionViews.RejectSuggestion | core/api/views.py:424-470 | 404/403/404 change nothing; an already rejected suggestion answers "already rejected" and changes nothing; otherwise only its status becomes REJECTED and exactly one rejection event is appended |
| SuggestionViews.RejectTwice | core/api/views.py:441-446 | after a successful reject a second one answers "already rejected", so at most one event is recorded; a failing reject fails again alike |
| DocumentViews.DocumentMetadata | core/api/views.py:537 | a missing or falsy metadata value is stored as {} and any other is kept |
| DocumentViews.ChunkRows | core/api/views.py:559-569 | one row per piece: index i, the piece's text and offsets, no embedding |
| DocumentViews.NormalizedTextChunks | core/api/views.py:544-546 | a non-empty normalised text always yields chunks starting at 0 and ending at its length, so the "Could not chunk text." branch is unreachable |
| DocumentViews.UploadCheck | core/api/views.py:528-542 | 404 exactly for a non-member, 403 exactly for a member who is not admin/agent, 400 for a blank stripped title, then for a blank normalised text, in that order; otherwise the stripped title and normalised text |
| DocumentViews.StoreDocument | core/api/views.py:550-570 | the document is stored under a fresh id and its chunk rows are appended in `chunk_text` order under the following ids, and nothing else changes |
| DocumentViews.CreateDocument | core/api/views.py:527-574 | an upload check error or a missing organisation leaves the store unchanged; otherwise exactly the document and its well-formed chunk rows are added |
| DocumentViews.UniqueNewChunks | core/models.py:351-356 | a new document's rows, numbered from 0, keep (document, chunk_index) unique |
| DocumentViews.UploadedChunksCoverText | core/api/views.py:544-569 | the rows of an upload are numbered 0..n-1, each holds exactly the text between its offsets, spans at most 1200 characters, is not blank, and together they start at 0, advance strictly and end at the end of the text |

## Left out

- Network and model I/O are inputs. The Ollama HTTP calls (core/llm.py:21-57, core/llm_client.py:24-56) are the `reply`/`transport` parameters. The SentenceTransformer model (core/kb.py:39, 103-131) is `encode`. pgvector's `CosineDistance` is `distance`. The seeded random generator of core/embeddings.py is `draw`. The values these compute are not modelled.
- Floating point: confidences and vector entries are `real`. No rounding is modelled.
- Concurrency: Celery `.delay`, `select_for_update` and `transaction.atomic`. Each handler is one sequential atomic step, and dispatching the triage task is the trigger's `enqueue` flag. The one interleaving modelled is the trigger's insert race: the `racer` argument of TicketViews.GetOrCreateJob inserts the same key between the lookup and the insert.
- Tasks.RunTicketTriage: the database's error message for a violated constraint is the `describe` parameter, not the driver's text.
- `embed_document_chunks` (core/tasks.py:166-175) changes nothing. It is not a member of the model; document upload simply does not call it.
- `SuggestionApproveView` (core/api/views.py:357-413) uses `Suggestion.Status.APPROVED`, which the `Suggestion` status choices (core/models.py:235-238) do not define. Every call raises before any write, so there is no behaviour to model.
- `generate_triage_suggestion` (core/triage.py:96-148): nothing calls it, and it writes fields the models do not have.
- The commented-out helpers inside a string literal (core/api/views.py:56-91).
- Framework configuration: DRF field-type validation beyond what the serializers' own `validate`/`create`/`update` code does; URL routing, pagination, ordering and the list/retrieve views; `MeView`; admin; the exception handler; `seed_dev`; the load test.
- core/knowledge/chunking.py is not part of this model. The views chunk with core/kb.py, and core/knowledge/chunking.py itself raises on any non-empty text (`text[start.end]` reads an attribute of an `int`).
- core/migrations/0012_alter_jobrun_idempotency_key.py is schema only: its backfill function is never registered. The reverse step of migration 0011 is a no-op and is not modelled.
- Prompt texts and Python `repr` are parameters or fixed strings. Their exact wording is not a property of the model.
- `str.lower()` is modelled for ASCII letters only. Other characters are left as they are.
- Kb.SearchKbChunksForQuery: the order among chunks at equal distance is the one the model's insertion sort gives, not the database's; only the non-decreasing distance is stated.
- Db.Database: one id counter serves every table. The database's per-table sequences are not modelled.
- Models.Suggestion carries `classification`, `confidence` and `citations`. The triage task and the serializer use them, but core/models.py:234-261 does not declare them.
- DocumentViews.CreateDocument: the handler's "Could not chunk text." branch (core/api/views.py:545-546) is not modelled. DocumentViews.NormalizedTextChunks proves that it cannot be taken.
- LlmClient.NormalizeClassification: its own contract states only the non-object error and that the reply is kept as `raw_output`. The defaults, the pass-through of truthy values and the lower-cased priority are stated by LlmClient.ClassificationDefaults.
- Llm.GenerateJson, Llm.NormalizeTriage, LlmClient.ClassifyTicketWithLlm, LlmClient.NormalizeClassification: JSON numbers are integers, so a reply holding a float (`"priority": 0.5`) is not representable, and its `str()` rendering is not modelled.
- SuggestionViews.EditSuggestion: JSON numbers are integers, so a float in the metadata cannot be represented, and `1.0 == 1` is not modelled. Booleans and integers are compared as Python does (`True == 1`).
- DocumentViews.UploadCheck: DRF's `CharField` on the upload serializer (core/api/serializers.py:169-172) trims the title and text and rejects a blank one with its own "blank" message before the view runs. The model returns the view's "Title cannot be empty." / "Text cannot be empty." answers in its place, and does not model the field's 255-character title limit.
- Kb.ChunksWellFormed, Kb.ChunkEmittedIffNotBlank, Kb.LastChunkEndsAtLength: stated for a chunk size of at least 1, the size the only caller passes (1200, core/api/views.py:544). Kb.ChunkText itself covers every size.
- Triage.BasicTriageRules: it models the evidently intended team default (see Findings), not the code as written.

## Findings

| source | as written | input that shows it | evidently intended | confidence | as-written member | corrected member |
|---|---|---|---|---|---|---|
| core/triage.py:28 | the default team reads `ticket.assigned_team_name`, an attribute the `Ticket` model does not have, so the function raises `AttributeError` before any rule is applied | any ticket | `ticket.assigned_team or "support"` | not executed | Triage.AsWrittenAlwaysRaises | Triage.BasicTriageRules |
