# Formal model of the MCP control plane

An agent asks for a capability; the control plane routes it to a tool on a registered MCP server.
Mappings tie capabilities to tools. This project models the code that keeps those mappings honest
and the limits around it, and proves what that code guarantees over all inputs and all runs.

| files | part of the system |
|---|---|
| `Json`, `JsonSuffix`, `Digest` | compact JSON text, and the tool digest computed from it without separators |
| `ToolDiff` | comparison of two versions of a tool, and of two tool lists |
| `Tables`, `RegistryService`, `CapabilityService`, `RoutingService` | servers, tools, mappings and reviews; registering, inspecting, decommissioning, creating, reviewing, retiring, selecting |
| `Lifecycle`, `DigestCurrency`, `ReviewQueue`, `InspectionRuns` | properties of every run of those calls |
| `Effects` | what each of those calls does to the rows it touches and when it is refused, stated on the rows alone |
| `Instances` | runs from the empty tables that reach the failures named below |
| `RateLimit`, `Pagination`, `Envelope`, `Approvals`, `Lockout`, `PasswordHistory` | the limiters, the server list, approval budgets, approval requests, admin accounts |
| `Cohesion`, `Watchdog` | the cohesion score, and the alerts on overdue reviews |
| `Sorting`, `Options` | total orders and sorted listings; nullable values |

The database is a class (`Tables.Database`) whose fields are the tables. Each service operation is a
method proved to end in exactly the state, and with exactly the outcome or exception, that a function
on table snapshots gives: `Registered`, `Inspected`, `MappingCreated` and so on. Runs are sequences of
calls to those functions, and the main results are about all runs. What a single call does is pinned a
second time, without the services' helper functions: in `Effects` for the shared tables, and beside
each of the other components. Every service call is one atomic
step, except that burning an envelope's budget is split into its read, its UPDATE and its return,
interleaved freely. Where a query leaves the order of ties open, the method takes the rows as a
parameter and is proved for every permitted order.

## What the proofs found

Where the code and its documentation differ, the model follows the code.

* **Drift can go unnoticed.** `_compute_tool_digest` says a changed schema changes the digest and so is
  detected (api/services/capability_service.py:208-211). `compare_tool_definitions` ignores parameter
  types, defaults and parameters that stop being required, and `inspect` keeps the old row when it
  reports nothing. The stored digest then still matches the stored row and the mapping stays routed.
  `SurvivesInspection` gives the exact condition; `TypeDriftRouted` reaches an instance.
* **An unreadable schema stops inspection.** If `properties` or `required` of a stored tool is, say,
  `null`, every later inspection listing the tool fails with a TypeError and marks nothing stale
  (`UnreadableRowBlocks`). A second inspection with the same list succeeds exactly when every listed
  schema is readable (`InspectionConverges`). Registering such a tool succeeds, so the failure is
  reached by the first inspection after it (`NullRequiredStops`).
* **Two calls break digest currency, and only these:** approving a mapping whose tool row is gone, and
  migrating an active mapping to a server that does not offer the same schemas. The mapping is then
  active but not selected. Both are reached from empty tables (`ApprovalWithoutRow`,
  `MigrationElsewhere`). `StepCurrentIff` and `RunCurrent` are equivalences, for each step and for
  each run.
* **Envelopes can be overspent.** The documentation of `burn_envelope_budget` rules it out
  (api/services/approval_fatigue_service.py:145-147). The row count of the UPDATE is not consulted, so
  up to `budget + k - 1` of `k` concurrent callers' calls succeed, and for every positive budget some
  interleaving reaches that (`BoundReached`). Overspending is impossible exactly when the budget is
  zero or there is at most one caller (`SafeExactly`).
* **The current password can be reused.** "Used in the last 5 changes" (api/services/auth_service.py:791)
  is checked against the five passwords before the current one. The current one is not among them.
* **`per_page=0` hides the list**, which the router allows: the scan ends at once, empty
  (`ZeroPerPage`).
* **The limiter's forgetting shows exactly when the clock steps back.** After readings that never went
  back, up to `later`, a reading `next` is answered in every configuration and every run as a limiter
  that forgets nothing would answer it, if and only if `later <= next` (`UnobservableExactly`).
  Filtering old timestamps is enough to make it show; the periodic sweep does too
  (`BackwardClockShows`).
* The unique index on mapping digests is implied by the one on tool names (`DigestIndexRedundant`).

## Model

Rows marked as supporting state one operation or step; the others are the results built on them.

| member | source | states |
|---|---|---|
| Json.RenderInjective | api/services/capability_service.py:216-222 | A compact JSON rendering determines the value, up to the order of object keys |
| Json.RenderPrefixFree | api/services/capability_service.py:216-222 | Two renderings followed by delimiters and equal as texts are equal as values with equal rests: no rendering runs into what follows it |
| Json.EscapePrefixFree | api/services/capability_service.py:220-221 | ASCII escaping, surrogate pairs included, can be read back one character at a time |
| Json.RenderIs | api/services/capability_service.py:220-221 | The text itself: literals, arrays as comma-joined items, objects as comma-joined `"key":value` with keys ascending by code point, no spaces |
| Json.EscapeIs | api/services/capability_service.py:220-221 | Each character by a short escape, as printable ASCII, by its number, or by the surrogate pair that encodes it |
| Json.Hex4Value | api/services/capability_service.py:220-221 | Supporting: the four digits of an escape are lower-case and read back as the number |
| Sorting.LexLeMeans | api/services/capability_service.py:220-221 | Supporting: strings are ordered by their first differing code point, a proper prefix first |
| JsonSuffix.RenderClosed | api/services/capability_service.py:220-221 | A rendering read by the bracket-and-string lexer from outside strings comes back to its depth, outside strings, and never below it |
| JsonSuffix.OppositeModes | api/services/capability_service.py:220-221 | Of two lexers started on opposite sides of a string boundary, if one ends outside strings the other ends inside one |
| JsonSuffix.NoProperSuffix | api/services/capability_service.py:218-222 | No proper suffix of an object's rendering is an object's rendering |
| Digest.PreimageDecodable | api/services/capability_service.py:200-223 | The unseparated pre-image determines the tool name and both schemas, for every name |
| Digest.DigestDeterminesTool | api/services/capability_service.py:200-223 | Two digests are equal exactly when name, input schema and output schema are |
| Digest.PreimageText | api/services/capability_service.py:218-222 | Supporting: name, input schema, then output schema or `null`, with nothing between, on two texts |
| RoutingService.ServicesAgree | api/services/routing_service.py:126-141 | Routing and the capability service compute the same digest for every tool row |
| ToolDiff.CompareToolDefinitions | api/mcp/client.py:208-261 | The step-by-step comparison gives the changes, the verdict and the TypeError that the set-based specification gives |
| ToolDiff.BreakingExactly | api/mcp/client.py:217-220 | A change is breaking exactly when a parameter is gone, one is newly required, or both output schemas exist and differ |
| ToolDiff.IdenticalExactly | api/mcp/client.py:232-259 | No change is reported exactly when description, output schema and parameter names agree and none is newly required |
| ToolDiff.ChangesExactly | api/mcp/client.py:232-261 | The reported sets hold exactly the parameter names gained, lost and newly required, with the old and new description and output schema |
| ToolDiff.OptionalAdditions | api/mcp/client.py:244-251 | Gaining optional parameters is never breaking |
| ToolDiff.UnreadableExactly | api/mcp/client.py:235-238 | A schema is unreadable exactly when a field is null, a truth value, a number, or an array holding an array or object |
| ToolDiff.LastWins | api/mcp/client.py:495-496 | Supporting: of several definitions of a name the last one counts |
| ToolDiff.CompareSelf | api/mcp/client.py:229-261 | Supporting: a readable definition never differs from itself; an unreadable one raises |
| ToolDiff.IdenticalDigests | api/mcp/client.py:229-261 | After a verdict of no change the digests agree exactly when the input schemas do |
| ToolDiff.TypeChangeUnseen | api/mcp/client.py:235-261 | Changing a parameter's type is reported as no change but changes the digest |
| ToolDiff.DiffTools | api/mcp/client.py:467-517 | The added, removed and changed tools are exactly those; it raises exactly when some common pair is unreadable |
| RegistryService.InsertTools | api/services/registry_service.py:169-179 | Supporting: the new server's rows, or a refusal exactly when two tools share a name |
| RegistryService.Register | api/services/registry_service.py:122-179 | The new table and outcome for duplicate endpoint, unreachable server, clashing names and success |
| RegistryService.SuspendRows | api/services/registry_service.py:242-251 | Supporting: row by row, exactly the chosen mappings get the status, class and clock |
| RegistryService.DropRemoved | api/services/registry_service.py:271-292 | Supporting: exactly the removed rows go, each recorded as a breaking version |
| RegistryService.RewriteChanged | api/services/registry_service.py:294-323 | Raises exactly when some common tool is unreadable; otherwise rewrites and records exactly the rows whose comparison differs, breaking as compared |
| RegistryService.InsertAdded | api/services/registry_service.py:325-337 | Supporting: exactly the added tools gain rows, nothing else changes |
| RegistryService.RefreshedParts | api/services/registry_service.py:271-337 | Supporting: the three loops together leave the listed tools, with the stored row wherever the comparison saw no change |
| RegistryService.VersionsTogether | api/services/registry_service.py:281-313 | Supporting: the versions recorded by the two loops are one for each removed or changed tool |
| RegistryService.InspectListed | api/services/registry_service.py:256-371 | The new state after a successful listing, update time included, or no change at all on a TypeError |
| RegistryService.Inspect | api/services/registry_service.py:197-371 | The new state and outcome of an inspection: missing server, timeout, unreachable, unreadable schema, success |
| RegistryService.RepointMappings | api/services/registry_service.py:658-662 | Supporting: exactly the server's mappings are re-pointed |
| RegistryService.DeleteMappings | api/services/registry_service.py:664-668 | Supporting: exactly the given mappings are deleted |
| RegistryService.Decommission | api/services/registry_service.py:577-671 | The new state and outcome of each phase, decommissioning time included, with order errors and refused migrations |
| Effects.RegisterDecides | api/services/registry_service.py:139-149 | Each outcome of a registration exactly in its case, in order, a refusal changing nothing |
| Effects.RegisterStores | api/services/registry_service.py:154-179 | A registered server is stored under a new id with exactly the listed tools |
| Effects.InspectDecides | api/services/registry_service.py:226-254 | Each outcome of an inspection exactly in its case; a missing server or a TypeError changes nothing |
| Effects.FailedInspectionServer | api/services/registry_service.py:248-253 | Supporting: a failed inspection keeps tools and versions and reports the server unreachable |
| Effects.InspectStores | api/services/registry_service.py:256-371 | The stored tools are the listed ones, each old row kept exactly if it does not differ; the server is reachable and updated now |
| Effects.InspectMarks | api/services/registry_service.py:347-367 | Exactly the server's active mappings to a stored tool that is gone or differs become stale, drifted, from now on |
| Effects.InspectRecords | api/services/registry_service.py:281-313 | One version with the old schemas for each stored tool that is gone or differs, and nothing else; breaking if gone or the comparison says so |
| Effects.RecordedBreaking | api/services/registry_service.py:303-312 | The recorded version of a listed tool is breaking exactly when a parameter is gone, one is newly required, or both output schemas exist and differ |
| Effects.PhaseDecides | api/services/registry_service.py:625-642 | Phases follow grace period, migration, sunset; any other request is refused and changes nothing |
| Effects.DecommissionStores | api/services/registry_service.py:655-669 | Only the server's phase changes, and the decommissioning time at the start of the grace period |
| Effects.DecommissionMappings | api/services/registry_service.py:658-669 | Mappings move only in a migration with a replacement and disappear only at sunset, and only the server's own |
| CapabilityService.CreateMapping | api/services/capability_service.py:225-292 | The new state and outcome: unknown tool, unique-index violation, pending review behind a collision, active otherwise |
| Effects.CreateStores | api/services/capability_service.py:249-292 | A new mapping carries its tool row's digest; it is active, without class or clock, if every mapping of the capability names this tool, and otherwise pending review for schema mismatch from now on |
| Effects.CreatedRoutable | api/services/capability_service.py:283-292 | A new mapping is routable at once exactly when no mapping of the capability names another tool, so the same tool on a second server balances load |
| CapabilityService.ReviewMapping | api/services/capability_service.py:460-524 | The new state and outcome of a review, with the audit row's old and new digest |
| Effects.ReviewDecides | api/services/capability_service.py:477-511 | On sound tables a review fails only for a missing mapping or an unknown decision, changing nothing |
| Effects.ApprovalStores | api/services/capability_service.py:489-522 | An approval activates the mapping, takes it off the clock, adopts its tool row's digest if there is one, and records both digests |
| Effects.DenialStores | api/services/capability_service.py:505-522 | A denial rejects the mapping, takes it off the clock and out of the queue, keeps its digest and records one denial |
| Effects.DenialHolds | api/services/capability_service.py:505-509 | A denied mapping is routable in a later run only after its own approval |
| CapabilityService.BulkRetire | api/services/capability_service.py:416-458 | Exactly the selected limbo mappings are retired; the return value is their number |
| Effects.RetireStores | api/services/capability_service.py:435-458 | Exactly the queued mappings of the given class and in the given list are rejected with one denial each; naming neither is refused |
| CapabilityService.GetQueueSummary | api/services/capability_service.py:387-414 | The counting loop's total, per-class, critical and unreachable counts are the sizes of those sets of mappings |
| RoutingService.SelectServer | api/services/routing_service.py:143-196 | Returns a heaviest active mapping whose digest matches its row, whatever order ties come in; each error is raised exactly in its case |
| RoutingService.AnswersDecide | api/services/routing_service.py:174-196 | Supporting: a server is selected exactly when some mapping is routable |
| Lifecycle.DigestIndexRedundant | api/models/server.py:245-258 | When digests belong to their tools, the digest index and the tool-name index hold or fail together |
| Lifecycle.ReviewSound | api/services/capability_service.py:477-523 | A review keeps the tables sound, and on sound tables an approval or rejection of an existing mapping never fails on an index |
| Lifecycle.CreateSound | api/services/capability_service.py:238-280 | Creation keeps the tables sound, and is refused exactly for an unknown tool or an existing link of that capability, server and tool |
| Lifecycle.RunSound | api/models/server.py:115-258 | Every run keeps ids, references, unique indexes and digest ownership intact |
| Lifecycle.MigrationDecided | api/services/registry_service.py:625-671 | On sound tables a migration goes through exactly from the grace period, and with mappings only to an existing server that is the same one or links none of the same tools |
| Lifecycle.RunEndpoints | api/services/registry_service.py:139-144 | No run registers two servers at one endpoint |
| Lifecycle.StepRows | api/services/capability_service.py:489-508 | Whatever the call, a surviving mapping keeps its capability, tool and reviews, and becomes active or changes an active digest only by its own approval; new mappings come only from creation |
| Lifecycle.CollisionGate | api/services/capability_service.py:253-292 | Every run keeps the gate: of two mappings of a capability naming different tools, the later is active only with an approval on record |
| Lifecycle.CollisionGateFromEmpty | api/services/capability_service.py:253-292 | So the gate holds in every run from empty tables |
| Lifecycle.DormantUntilApproved | api/services/capability_service.py:489-511 | A mapping not active stays so through any run that does not approve it |
| Lifecycle.FailClosed | api/services/routing_service.py:163-193 | A mapping out of service at one point is routable later only if it was approved in between |
| Lifecycle.FailedInspectionMarks | api/services/registry_service.py:240-251 | Supporting: a failed inspection puts exactly the server's active mappings into limbo, now, classed by timeout or unreachability |
| Lifecycle.FailedInspectionCloses | api/services/registry_service.py:230-254 | After a failed inspection no mapping of the server is routable in any later run until its own approval |
| DigestCurrency.InspectKeepsRow | api/services/registry_service.py:294-367 | What an inspection leaves active it leaves untouched, tool row included |
| DigestCurrency.RepointedValidated | api/services/registry_service.py:659-662 | A re-pointed mapping passes the digest check exactly when the target's row has the same schemas |
| DigestCurrency.MigrationCurrent | api/services/registry_service.py:658-663 | A migration that goes through keeps digests current exactly when every active mapping moved finds the same schemas at the target |
| DigestCurrency.ReviewCurrent | api/services/capability_service.py:489-504 | A review keeps digests current exactly when it does not approve a mapping whose tool row is gone |
| DigestCurrency.StepCurrentIff | api/services/routing_service.py:182-193 | Any call keeps every active mapping's digest current exactly when it is neither of those two |
| DigestCurrency.RunCurrent | api/services/routing_service.py:182-193 | A run keeps every active mapping's digest current at every point exactly when each of its calls is guarded |
| DigestCurrency.NothingSkipped | api/services/routing_service.py:182-193 | In such runs the digest check never skips the heaviest candidate |
| DigestCurrency.SurvivesInspection | api/services/registry_service.py:294-367 | A mapping survives an inspection exactly when its tool is listed and compares as identical; its digest is then the listed tool's exactly when the input schemas agree |
| DigestCurrency.SurvivorRouted | api/services/routing_service.py:182-193 | A survivor of an inspection is routable, whatever the comparison did not see |
| DigestCurrency.StaleHasVersion | api/services/registry_service.py:281-313 | A mapping an inspection takes out of service keeps the digest of a version that inspection recorded, a breaking one if the tool is gone |
| DigestCurrency.ApprovalAdopts | api/services/capability_service.py:486-522 | Approving such a mapping while its tool is listed makes it routable with the listed tool's digest, and the review records both digests |
| Instances.UnseenChangeRouted | api/services/capability_service.py:208-211 | For any change the comparison does not see, the mapping stays routed with a digest that is not the listed tool's |
| Instances.TypeDriftRouted | api/services/capability_service.py:208-211 | A changed parameter type is such a change |
| Instances.ApprovalWithoutRow | api/services/capability_service.py:498-504 | Approving after the tool was removed leaves an active mapping that matches nothing |
| Instances.MigrationElsewhere | api/services/registry_service.py:658-663 | From empty tables, migrating to a server without the tool leaves an active mapping that is not routable |
| Instances.UnreadableStops | api/services/registry_service.py:297-303 | A tool with an unreadable schema is registered, mapped and routed to, and the next inspection listing it raises and changes nothing |
| Instances.NullRequiredStops | api/mcp/client.py:237-238 | A null list of required parameters is such a schema |
| ReviewQueue.RunCoherent | api/services/registry_service.py:248-251 | Every run keeps the waiting clock set exactly in limbo, and each limbo status with its own failure classes |
| ReviewQueue.ClassesPartition | api/services/capability_service.py:395-414 | The four failure classes divide the queue |
| ReviewQueue.SummaryAddsUp | api/services/capability_service.py:387-414 | In every run the summary's total is critical plus unreachable, and the sum of the per-class counts |
| ReviewQueue.RetireExactly | api/services/capability_service.py:435-458 | Bulk retirement takes exactly the selected mappings out of the queue, one denial each, and touches no other |
| ReviewQueue.RetireOneClass | api/services/capability_service.py:435-458 | Retiring one class leaves the other classes as they were, and empties its own unless ids were listed |
| InspectionRuns.InspectionStoresNames | api/services/registry_service.py:256-337 | Supporting: after a successful inspection stored tool names are the listed ones |
| InspectionRuns.RefreshedCompares | api/services/registry_service.py:294-316 | Supporting: a refreshed row compares as identical to the listing it came from, if readable |
| InspectionRuns.InspectionConverges | api/services/registry_service.py:256-371 | The same listing again succeeds exactly when every listed schema is readable, and then changes only the time of the last update; otherwise nothing |
| InspectionRuns.UnreadableRowBlocks | api/services/registry_service.py:297-303 | An unreadable stored schema makes every inspection still listing the tool fail with no change |
| InspectionRuns.PhasesInOrder | api/services/registry_service.py:625-642 | Over every run a server's phase advances by one per accepted call, never back, at most three times |
| InspectionRuns.MigrationConserves | api/services/registry_service.py:658-663 | Migration hands over all mappings and loses none; it is refused exactly when the target is missing or already links one of the same tools |
| InspectionRuns.SunsetRemoves | api/services/registry_service.py:664-669 | Supporting: sunset deletes the server's mappings and no others |
| RateLimit.Limiter.ForAgents | api/middleware/rate_limit.py:77-85 | Supporting: the limit given, or the default; a limit of zero counts as not given |
| RateLimit.Limiter.ForAddresses | api/middleware/ip_rate_limit.py:110-122 | Supporting: the same, with the default capped at 20 |
| RateLimit.Limiter.Dispatch | api/middleware/rate_limit.py:99-122 | The new state and the answer, cleanup loop included |
| RateLimit.ForgettingUnobservable | api/middleware/rate_limit.py:99-122 | With a non-decreasing clock every answer is that of a limiter that forgets nothing |
| RateLimit.WindowBound | api/middleware/ip_rate_limit.py:143-158 | Any half-open interval of one window holds at most the quota of a key's admissions |
| RateLimit.StoredBound | api/middleware/ip_rate_limit.py:144-158 | No stored list exceeds the quota |
| RateLimit.RefusedOnlyWhenFull | api/middleware/rate_limit.py:108-119 | A request is refused exactly when as many admissions of its key as the quota are less than a window old |
| RateLimit.SweepsEvery300 | api/middleware/rate_limit.py:99-106 | More than 300 seconds after the last sweep every key without a time in the window is dropped; otherwise no other key changes |
| RateLimit.KeysIndependent | api/middleware/rate_limit.py:97-122 | The answer is the same with every other key's traffic removed |
| RateLimit.UnobservableExactly | api/middleware/rate_limit.py:99-122 | A reading after a non-decreasing run is answered as the full record would answer it, in every configuration and run, if and only if the clock did not step back |
| RateLimit.BackwardClockShows | api/middleware/rate_limit.py:100-109 | Supporting: with a clock that steps back the periodic sweep alone admits a request the full record would refuse |
| Pagination.ListServers | api/services/registry_service.py:475-489 | Fetching one row too many gives the page, cursor and has_more of the ordered list |
| Pagination.OrderedMeans | api/services/registry_service.py:467-476 | The queried list holds exactly the matching rows of the table with a smaller (created_at, id) than the cursor, and each row's creation time is below the one before it, or equal with a smaller id |
| Pagination.PageMeans | api/services/registry_service.py:475-483 | A page leaves a matching row out only if it is full of rows created later, or at the same time with a larger id |
| Pagination.PageEnds | api/services/registry_service.py:476-489 | There is more exactly if the list exceeds the page; the cursor is then the page's last row, and the page is the whole list otherwise |
| Pagination.Suffix | api/services/registry_service.py:467-476 | The list beyond a cursor is the rest of the list after the cursor's row |
| Pagination.ScanComplete | api/services/registry_service.py:475-489 | On a fixed table following cursors yields exactly the filtered list in order, in as few pages as hold it |
| Pagination.PageCountIs | api/services/registry_service.py:475-483 | That number of pages is max(1, ceil(n / per_page)) |
| Pagination.ZeroPerPage | api/services/registry_service.py:476-486 | With per_page zero a scan is complete exactly when nothing matches |
| Pagination.KeysDescend | api/services/registry_service.py:467-483 | While the table changes at will, creation times decrease within and across pages, or stay equal while ids decrease |
| Pagination.NoServerTwice | api/services/registry_service.py:430-433 | With creation times fixed no server is returned twice |
| Pagination.ReturnedOnce | api/services/registry_service.py:430-433 | A matching server present throughout is on exactly one page |
| Envelope.EnvelopeService.GrantEnvelope | api/services/approval_fatigue_service.py:120-136 | Supporting: one new envelope with its full budget |
| Envelope.EnvelopeService.BurnEnvelopeBudget | api/services/approval_fatigue_service.py:138-185 | Undisturbed, one unit of a live envelope is spent; each refusal exactly in its case, changing nothing |
| Envelope.EnvelopeService.Classify | api/services/approval_fatigue_service.py:70-118 | Exactly which actions are approved, prompted, escalated or ambiguous; an in-envelope prompt spends one unit, anything else nothing |
| Envelope.OverspendBound | api/services/approval_fatigue_service.py:155-185 | In every interleaving 0 <= remaining <= budget, spent equals matched UPDATEs, and successes exceed the budget by less than the number of callers between check and UPDATE |
| Envelope.CallersBound | api/services/approval_fatigue_service.py:155-185 | So k callers get at most budget + k - 1 successes |
| Envelope.SerialExact | api/services/approval_fatigue_service.py:155-185 | Without overlap successes equal the budget spent |
| Envelope.BoundReached | api/services/approval_fatigue_service.py:145-147 | Some interleaving reaches the bound, for every positive budget and number of callers |
| Envelope.SafeExactly | api/services/approval_fatigue_service.py:145-147 | No interleaving lets more calls succeed than the budget exactly when the budget is zero or there is at most one caller |
| Approvals.ApprovalService.CreateRequest | api/services/approval_service.py:75-97 | Supporting: one new pending request with its deadline |
| Approvals.ApprovalService.ApproveRequest | api/services/approval_service.py:116-163 | Missing, resolved, expired (and then marked so) or approved with approver, note and time |
| Approvals.ApprovalService.DenyRequest | api/services/approval_service.py:191-214 | The same without a deadline check |
| Approvals.ApproveStores | api/services/approval_service.py:148-163 | A pending request approved by its deadline is stored as approved with actor, note and time; later, as expired; any other is refused unchanged |
| Approvals.DenyStores | api/services/approval_service.py:204-214 | A pending request is stored as denied with actor, note and time, whatever its deadline |
| Approvals.CreateStores | api/services/approval_service.py:86-97 | Supporting: a new pending request whose deadline is the configured lifetime from now |
| Approvals.ApprovedExactly | api/services/approval_service.py:150-163 | Over any run a request ends approved exactly if some approval reached it while pending and by its deadline |
| Approvals.ApprovalKept | api/services/approval_service.py:159-163 | And it keeps that approval's actor, note and time to the end |
| Approvals.ApprovalService.ExpirePending | api/services/approval_service.py:243-270 | Exactly the overdue pending requests expire; their number is returned |
| Approvals.SweepStores | api/tasks.py:287-292 | Either sweep expires exactly the pending requests past their deadline; only expire_pending sets a time |
| Approvals.CallRelated | api/services/approval_service.py:148-163 | An approval succeeds in a swept run exactly when it does in the unswept one, and the two stay related |
| Approvals.SweepRelated | api/tasks.py:287-292 | Either kind of sweep keeps the runs related |
| Approvals.SweepsDoNotDecide | api/tasks.py:266-298 | Sweeps anywhere in a run change neither which requests end approved nor by whom, when or with what note |
| Approvals.Settled | api/services/approval_service.py:150-153 | A request that left pending never changes again |
| Approvals.ApprovedInTime | api/services/approval_service.py:154-162 | In every run approvals are no later than the deadline, and recorded approvers exist |
| Lockout.AdminUser.AdminLogin | api/services/auth_service.py:518-537 | The new account state and outcome of a login |
| Lockout.AdminUser.DeactivateAdmin | api/services/auth_service.py:1070-1071 | Supporting: only the status changes: counter and lock stay |
| Lockout.AdminUser.UnlockAdmin | api/services/auth_service.py:1100-1104 | Supporting: counter, lock and status are all reset |
| Lockout.LoginCounted | api/services/auth_service.py:521-531 | Supporting: one login keeps the counter equal to the verifications and the lock tied to the last of them |
| Lockout.RunSpaced | api/services/auth_service.py:521-531 | Over every run without success or unlock, verifications from the fifth on are at least 15 minutes apart, and the counter is not reset by a lock running out |
| Lockout.LockoutBound | api/services/auth_service.py:62-63 | Any span of T seconds then sees at most 5 + floor(T / 900) password verifications |
| Lockout.LockedOutExactly | api/services/auth_service.py:521-537 | After any run without a success a login is locked out exactly from the fifth verification until 15 minutes after the last; otherwise the right password succeeds and clears counter and lock, a wrong one adds to the counter |
| Lockout.InactiveRefuses | api/services/auth_service.py:518-519 | Supporting: an inactive account refuses every login unchanged |
| Lockout.BoundReached | api/services/auth_service.py:521-531 | That bound is reached for spans of every number of lockouts |
| PasswordHistory.Credentials.RecentlyUsed | api/services/auth_service.py:808-812 | The loop finds a candidate exactly when it is among the last five stored |
| PasswordHistory.Credentials.ResetPassword | api/services/auth_service.py:777-818 | Each error exactly in its case, the policy spelled out; on success the new password and history, otherwise no change |
| PasswordHistory.Credentials.CompleteReset | api/services/auth_service.py:873-907 | The same with a token in place of the current password |
| PasswordHistory.HistoryKept | api/services/auth_service.py:814-817 | After any changes the history, as assigned, is the last ten replaced passwords in order |
| PasswordHistory.HistoryEntries | api/services/auth_service.py:814-817 | Entry by entry, the history is at most ten passwords, ending with the one before the current |
| PasswordHistory.KeepingTenSuffices | api/services/auth_service.py:809-817 | Keeping ten checks what keeping all would: the candidate is none of the five before the current one |
| PasswordHistory.NoRecentReuse | api/services/auth_service.py:808-812 | In any sequence of accepted changes, each assigned history being stored, each password differs from the second to the sixth before it |
| PasswordHistory.CurrentReusable | api/services/auth_service.py:788-791 | The current password passes the check exactly when it is none of the five before it |
| Cohesion.HasGrams | api/services/resource_service.py:48-59 | Supporting: a value has grams exactly when some character is alphanumeric, and grams have one to three characters |
| Cohesion.GramsAre | api/services/resource_service.py:56-59 | The grams are exactly the runs of three kept characters, or fewer than three as their own gram |
| Cohesion.KeptChar | api/services/resource_service.py:56 | Supporting: exactly the alphanumeric characters are kept, in place |
| Cohesion.SeparatorsIgnored | api/services/resource_service.py:51-54 | A separator that is not alphanumeric makes no difference |
| Cohesion.ComputeCohesion | api/services/resource_service.py:61-89 | The double loop computes the mean similarity over pairs of values that both have grams |
| Cohesion.CohesionIs | api/services/resource_service.py:70-89 | Fewer than two values give 1; otherwise the sum of the Jaccard indices of all pairs over m(m-1)/2, or 0 without pairs |
| Cohesion.BandFromHalf | api/services/resource_service.py:91-94 | Supporting: a band from one half on |
| Cohesion.OrderIrrelevant | api/services/resource_service.py:61-94 | Cohesion and the semantic-band verdict depend only on the multiset of values |
| Cohesion.PairCount | api/services/resource_service.py:73-89 | With m values that have grams the mean is over m(m-1)/2 pairs |
| Cohesion.Jaccard | api/services/resource_service.py:78-87 | A pair's similarity is in [0, 1], 1 exactly for equal sets and 0 exactly for disjoint ones |
| Cohesion.CohesionRange | api/services/resource_service.py:61-89 | Cohesion is in [0, 1]; for m >= 2 it is 1 exactly when all gram sets are equal and 0 exactly when no two share a gram |
| Watchdog.GroupRows | api/services/watchdog_service.py:158-161 | Supporting: the dictionary holds, for each class present, its rows in query order |
| Watchdog.SendAlerts | api/services/watchdog_service.py:163-183 | Supporting: one alert per group, in rank and name order |
| Watchdog.ProbeOverdue | api/services/watchdog_service.py:140-184 | Alerts exactly when something is overdue, and then those alerts |
| Watchdog.OverdueMeans | api/services/capability_service.py:352-359 | Overdue are exactly the queued mappings waiting for at least the threshold |
| Watchdog.AlertCounts | api/services/watchdog_service.py:172-183 | Each alert counts all overdue mappings of the class it names, unknown for a missing class |
| Watchdog.CountsAddUp | api/services/capability_service.py:342-364 | Item counts sum to the length of the overdue list at the same instant |
| Watchdog.InOneGroup | api/services/watchdog_service.py:158-161 | A mapping is overdue exactly when it is in an alert's group, and it is in one only |
| Watchdog.OldestIsMinimum | api/services/watchdog_service.py:172-183 | Each oldest_pending_since is its group's minimum, and the sample is the oldest five |
| Watchdog.CriticalFirst | api/services/watchdog_service.py:163-170 | Groups drifted and schema_mismatch precede unreachable and timeout, which precede unknown, alphabetical within each kind; no class appears twice |
| Watchdog.TiesShowInSamplesOnly | api/services/watchdog_service.py:142-183 | However the query breaks ties, only the samples differ |
| Watchdog.CriticalMeansChanged | api/services/watchdog_service.py:33-34 | On coherent tables no group is unknown, and an alert is critical exactly when its mappings are stale or pending review |

## Left out

- HTTP, SQLAlchemy sessions, Redis, Celery, OPA, audit and notifications: foreign code or I/O. What a
  remote server lists and whether it can be reached are parameters.
- Partial commits and concurrency inside a service call other than the envelope burn: one call is one
  atomic step that reads the clock once.
- HistoryKept: presupposes that every assigned history is stored. The source appends to the list it
  loaded and assigns an equal copy, and SQLAlchemy, which is not modelled, compares an untracked JSON
  column by value; from the second change on it may see no difference and write nothing.
- NoRecentReuse: presupposes the same, as do KeepingTenSuffices and CurrentReusable.
- SHA-256 is taken as injective and bcrypt as equality of passwords.
- Numbers in JSON are their texts, strings are sequences of Unicode scalar values (no lone
  surrogates), and `==` on JSON is structural: Python's identification of `1`, `1.0` and `True` is not
  captured.
- Floating point: limiter times and cohesion scores are reals.
- Character classes and lower-casing come from Unicode tables and are parameters.
- List filters are one predicate; the text encoding of cursors, invalid cursors and negative page
  sizes, and the total count, which is a query of its own.
- Health paths and the testing environment bypass the limiters; how a request's key is built.
- `list_tools` passes on a null or non-object input schema; input schemas are taken to be objects here,
  and output schemas to be objects or null.
- Columns no modelled code reads back: names, owners, labels, schema transformations, last logins. Health
  updates from outside an inspection.
- Invalid phase and failure-class strings; capability rows, aliases and trust levels; who reviewed a
  mapping and why; null routing weights; routing rules, and routing of an approved request.
- Other writers of mappings: deletion of servers or capabilities, the demo seeder, whose mappings have
  no digest, and the backfilling migration, whose digest is serialized differently.
- Mapping ids stand for creation order; server ids are naturals in place of UUIDs, of which only the
  total order matters.
- `bulk_approve`, prioritized and collision listings, heartbeats and the dead-man switch, MFA, tokens
  and the remaining CRUD: easy members or foreign state.
- Login with an unknown user name, which verifies no password and changes nothing.
