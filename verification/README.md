# Verified models of the agent gateway

The gateway is a control plane for AI agents: it ingests mail and chat events, routes them to agents under loop
guards, keeps its agents' credentials, and shows humans what they approve. This project models the parts whose
correctness lies in interleavings, crashes, greedy loops and printers, and proves what they promise, over every run
and every input.

| files | subject |
|---|---|
| `GmailStore`, `GmailMailbox`, `GmailSync`, `GmailProtocol`, `GmailWitnesses`, `GmailTheorems`, `GmailHeads`, `GmailSyncMailbox`, `GmailListing` | mailbox sync: a compare-and-set cursor, a dedupe map, any number of syncs in flight, crashes anywhere |
| `GmailConnector`, `GmailPubsub` | coalescing of sync requests; Pub/Sub leases and acknowledgements |
| `Events`, `Routing`, `RoutingReasons`, `RoutingOrder`, `RoutingRuns`, `Authority` | event routing with loop guards, turn authority, channel access |
| `CanonicalJson`, `CanonicalText`, `CodeUnits` | canonical JSON over UTF-16 code units, with a parser that inverts it |
| `HtmlText`, `HtmlTags`, `HidingRules` | HTML to text: a stack machine against an ancestor-based meaning, and that meaning told by the tags |
| `Provisioner`, `ProvisionerPass`, `AdminToken` | crash-safe credential protocols, and the passes that run them |
| `TextBudget`, `Thread`, `ThreadPosts`, `Summary`, `SummaryLines` | budgeted folds over a thread's history |
| `RequestPreview`, `Fences`, `ApprovalCard`, `ApprovalLines`, `ApprovalLimit` | approval cards: shortened, fenced, read back |
| `ToolPatterns`, `ConfigBundle` | tool patterns as sets of tool names; configuration checks |
| `ProviderSchema`, `ProviderKeywords`, `SchemaMeaning` | reducing a JSON Schema, and what schemas mean |

How it is built:

- A protocol is a transition system: a state, a datatype of steps, a total `Apply`, and `Run` over a sequence of
  steps. A step that is not enabled changes nothing, so a theorem about `Run` for all step sequences is a theorem about
  every interleaving, with a crash allowed between any two steps.
- Code that changes things in place is a method or a class. `GmailSyncMailbox`, `ProvisionerPass` and the server of
  `AdminToken` go one step further: each of their methods returns, as a ghost, the steps it took, and proves that its
  effect is exactly that run of the protocol. The results about runs are thereby results about the loops as written, and
  an undisturbed pass is shown to reach its end.
- `RoutingReasons`, `CanonicalText`, `HtmlTags`, `ThreadPosts`, `SummaryLines`, `ApprovalLines` and `ProviderKeywords`
  say what the operations beside them compute in terms of their inputs alone, by fields, positions and literal text.
- Greedy loops and incremental folds are proved equal to a closed form that does not mention the loop.
- Where a property turned out not to hold for every input, the model keeps the code's behaviour, a lemma gives the input,
  and another states exactly when the property holds (see the findings below).

`dafny verify dfyconfig.toml` checks everything.

## Findings

- `AdminToken.StrayExactlyWhen`, `AdminToken.SessionRevokesAStranger`: `admin-token set` revokes a token nobody pasted
  exactly when the operator enters a login session instead of a personal access token and the account holds a single
  token that is not tagged.
- `GmailListing.DeletionOmits`: for every mailbox and page size, taking any message of the first page out of the inbox
  before the second page of a full sync's listing is read omits the message that was to open it. A message still to come
  is skipped at a page boundary exactly when more messages leave before it than come, by as much as it stood behind the
  boundary (`GmailListing.SkippedExactlyWhen`); nothing but such a skip omits a message (`GmailListing.OmissionIsASkip`),
  and deliveries alone never do (`GmailListing.ListingOmitsNothing`).
- `Thread.EditBeforeCreationDisagrees`: an edit recorded before its post's creation reaches `postOverlays` and not the
  thread's fold. The two agree exactly when no change was recorded before the creation or those changes left no trace
  (`Thread.AgreeExactlyWhen`).
- `Summary.RepeatedRun`: merging a run again is a no-op exactly while it is still kept whole; once compacted it is
  counted a second time.
- `RequestPreview.EscapesStayWhole`, `RequestPreview.PairsStayWhole`: a limit of exactly one character splits a leading
  percent-escape or surrogate pair; no other limit does. The comment at `packages/contracts/src/common.ts:350-358` claims
  it for every limit.
- `SchemaMeaning.NotMayStrengthen`, `SchemaMeaning.ObjectConstMayChange`: under `not`, and for object-valued `const`, the
  reduced schema can reject what the original accepts. A `const` or `enum` is weakened exactly when the reduction leaves
  its values alone, a `not` exactly when the schema under it gained no value (`SchemaMeaning.ConstWeakenedExactlyWhen`,
  `SchemaMeaning.EnumWeakenedExactlyWhen`, `SchemaMeaning.NotWeakenedExactlyWhen`); the other modelled keywords are only
  weakened, at any depth (`SchemaMeaning.ReducingWeakens`).
- `ApprovalLimit.ThresholdIsExact`: the limit of 15 000 characters on a draft's blocks makes every card fit one post
  exactly as long as action type and expiry together have at most 495 characters. The comment at
  `packages/contracts/src/approval.ts:57-61` promises it without that condition, and the schema of the action type sets no
  limit of its own (`packages/contracts/src/common.ts:67-69`).
- The branch at `packages/contracts/src/approval.ts:240` that forces one character off is never taken: the cut is always
  shorter (`RequestPreview.ShortenedFits`), and the first one suffices unless it leaves nothing
  (`ApprovalCard.OneCutSuffices`).

## Model

| member | source | states |
|---|---|---|
| `GmailTheorems.NoMailLost` | packages/connector-gmail/src/sync.ts:142-194 | in every run, every inbox record above the last full sync's cursor and at or below the stored cursor has its event stored as fetching the message gave it, or its message was deleted or excluded at some moment since the record, or a record of it since then carries excluding labels, or it was found unreadable and an alert says so; and a full sync is always announced by its alert |
| `GmailTheorems.NoMailLostWithoutExpiry` | packages/connector-gmail/src/sync.ts:136-194 | without history expiry this holds for everything above the first cursor |
| `GmailWitnesses.GoneWasSeen` | packages/connector-gmail/src/sync.ts:86-119 | `gone` names a message only with a head at which it was deleted or excluded, or with the id of a logged record of it with excluding labels |
| `GmailWitnesses.AlertWasRaised` | packages/connector-gmail/src/sync.ts:120-131 | an unreadable alert is raised only for a message that was in the mailbox, admitted and not readable at some moment |
| `GmailWitnesses.StoredMailWasFetched` | packages/connector-gmail/src/sync.ts:111-121 | every stored mail event is what fetching its message gave at some moment: there, admitted, readable, with its hash |
| `GmailTheorems.CursorAndEventsOnlyGrow` | packages/connector-gmail/src/memory-store.ts:36-69 | between any two moments of any run, full syncs included: cursor and head never decrease, the cursor never passes the head, a stored event is never replaced, the account never changes |
| `GmailTheorems.ExactlyOnce` | packages/connector-gmail/src/memory-store.ts:36-84 | over every run the events accepted by commits and notifications, counted when each is delivered, add up to the number of stored events, each under its own key; cursor and account exist together |
| `GmailHeads.TargetWasHead` | packages/connector-gmail/src/sync.ts:167-171 | the head a sync is to commit to was the mailbox's head in the sync's own step that took it, its last page or its profile, and it has had that head at every moment since: a full sync lists and collects under the head of a profile taken before |
| `GmailHeads.LastSyncReachedAHead` | packages/connector-gmail/src/sync.ts:201-237 | `lastSyncAt` moves only in a commit whose cursor is the head this very sync took before, in a full sync by the profile before its listing; everything logged since lies above it |
| `GmailTheorems.RunKeepsInv` | packages/connector-gmail/src/sync.ts:142-237 | the protocol's invariant holds in every reachable state |
| `GmailProtocol.StepKeepsInv` | packages/connector-gmail/src/sync.ts:142-237 | every step, by whichever sync, arrival, expiry or crash, keeps the invariant |
| `GmailProtocol.CommitStep` | packages/connector-gmail/src/memory-store.ts:54-69 | a compare-and-set commit of a page continues exactly where the stored events end; a stale one changes nothing that matters |
| `GmailProtocol.CommitFullStep` | packages/connector-gmail/src/sync.ts:222-236 | a full sync's commit keeps the invariant with the floor moved to its profile's head |
| `GmailProtocol.PageCovers` | packages/connector-gmail/src/sync.ts:154-171 | every inbox record between the cursor and a page's reach is on the page's list of messages, or was excluded by its labels |
| `GmailProtocol.PageReads` | packages/connector-gmail/src/fake-google.ts:244-284 | with offset pagination, what was read before a page's end lies at or below its reach |
| `GmailProtocol.PcStable` | packages/connector-gmail/src/sync.ts:142-194 | what a sync knows stays true while others commit and mail arrives |
| `GmailStore.IngestAllMeaning` | packages/connector-gmail/src/memory-store.ts:36-45 | ingesting events adds exactly their keys and keeps every stored event |
| `GmailStore.FirstDeliveryWins` | packages/connector-gmail/src/memory-store.ts:36-45 | the first event of a new key is the one stored |
| `GmailStore.AcceptedGrow` | packages/connector-gmail/src/memory-store.ts:36-45 | the dedupe map grows by exactly the events whose key is new at their turn |
| `GmailStore.MemoryStore.IngestOne` | packages/connector-gmail/src/memory-store.ts:36-45 | accepted, duplicate or conflict, and the dedupe map after it |
| `GmailStore.MemoryStore.Start` | packages/connector-gmail/src/memory-store.ts:48-53 | the cursor is created once, with its account; a failing store changes nothing |
| `GmailStore.MemoryStore.Commit` | packages/connector-gmail/src/memory-store.ts:54-69 | compare-and-set on the cursor; events ingested in order; `accepted` counts the events whose key was new at their turn, which is the growth of the store |
| `GmailStore.MemoryStore.RecordNotification` | packages/connector-gmail/src/memory-store.ts:70-73 | a notification is ingested like any event |
| `GmailStore.MemoryStore.RecordWatch` | packages/connector-gmail/src/memory-store.ts:74-84 | a watch creates the cursor only when there is none |
| `GmailMailbox.AfterMembers` | packages/connector-gmail/src/fake-google.ts:252-256 | the history after a start holds exactly the inbox records above it |
| `GmailMailbox.AfterOrdered` | packages/connector-gmail/src/fake-google.ts:252-256 | in increasing order of id, none above the head |
| `GmailMailbox.FakeGoogle.History` | packages/connector-gmail/src/fake-google.ts:244-284 | one page of history, or nothing when it expired |
| `GmailMailbox.FakeGoogle.ListInbox` | packages/connector-gmail/src/fake-google.ts:285-299 | one page of the listing, newest first, and the next offset |
| `GmailMailbox.FakeGoogle.DeliverMessage` | packages/connector-gmail/src/fake-google.ts:389-407 | a delivery adds the message and a record above the old head |
| `GmailMailbox.FakeGoogle.Relabel` | packages/connector-gmail/src/fake-google.ts:423-441 | moving into the inbox adds a record, other label changes add none |
| `GmailMailbox.IntoInboxIsLogged` | packages/connector-gmail/src/fake-google.ts:389-441 | whatever comes into the inbox, by delivery or by a change of labels, is logged above the old head, and no other change of labels is |
| `GmailSync.UniqueMeaning` | packages/connector-gmail/src/sync.ts:86-95 | a message is listed exactly when some reference to it is not excluded, and once |
| `GmailSync.UniqueRefs` | packages/connector-gmail/src/sync.ts:86-95 | the filter with its set of seen ids computes that list |
| `GmailSyncMailbox.SyncMailbox` | packages/connector-gmail/src/sync.ts:136-237 | is a run of the protocol that keeps its invariant and its count of accepted events; with a working store it completes, with the cursor at the head, as started, synced or fully synced; after a full sync every inbox message dated at most an hour before the last completed sync (else the cursor's creation, else now), with fewer than 500 later ones, has its event stored, or an alert if it is unreadable, unless its labels exclude it, and no mail dated more than that hour and a second earlier is new in the store; a completed sync is recorded at its time, a first start with its time and account |
| `GmailSyncMailbox.SyncFrom` | packages/connector-gmail/src/sync.ts:149-193 | the page loop terminates whatever the number of pages and is a run of the protocol |
| `GmailSyncMailbox.SyncPage` | packages/connector-gmail/src/sync.ts:158-188 | one page fetched and committed, or skipped when it brought nothing |
| `GmailSyncMailbox.FullSync` | packages/connector-gmail/src/sync.ts:201-237 | profile, listing, fetches and commit are a run of the protocol and end at the profile's head; once committed, each of the newest 500 listed messages has its event stored, an alert if unreadable, or was gone or not admitted, and no other mail is new in the store |
| `GmailSyncMailbox.ListMessages` | packages/connector-gmail/src/sync.ts:209-218 | whatever the number of pages, the result is exactly the first 500 of the inbox listing |
| `GmailSyncMailbox.MessageEvents` | packages/connector-gmail/src/sync.ts:105-134 | is the run of its fetches: every readable message gave an event and every unreadable one an alert unless it was gone or not admitted, and no other event is there |
| `GmailListing.ListingOmitsNothing` | packages/connector-gmail/src/fake-google.ts:285-299 | while mail is only delivered between the pages, any amount of it, every message listed at the first page is on one of the pages |
| `GmailListing.DeletionOmits` | packages/connector-gmail/src/fake-google.ts:285-299 | for every mailbox and page size: a message of the first page deleted, or its inbox label taken away, before the second page omits the message that was to open it, which stays listed |
| `GmailListing.DeliveriesListed` | packages/connector-gmail/src/fake-google.ts:285-299 | after any deliveries the new listing ends in the old one |
| `GmailListing.OnPageByPlace` | packages/connector-gmail/src/fake-google.ts:285-299 | a listed message is on a page exactly when the number of newer listed messages falls into it |
| `GmailListing.SkippedExactlyWhen` | packages/connector-gmail/src/fake-google.ts:285-299 | between any two states of the mailbox, a message still to come is passed over by the next page exactly when departures before it exceed arrivals by more than its distance from the boundary |
| `GmailListing.OmissionIsASkip` | packages/connector-gmail/src/sync.ts:209-215 | however the mailbox changes, a message listed throughout is omitted only by such a skip |
| `GmailListing.OmittedExactlyWhen` | packages/connector-gmail/src/sync.ts:209-215 | when nothing newer comes into the listing, it is omitted exactly when a skip happens |
| `GmailListing.OmissionHappens` | packages/connector-gmail/src/fake-google.ts:285-299 | two deliveries, pages of one, the newer message deleted in between |
| `GmailConnector.EveryRequestIsServed` | packages/connector-gmail/src/connector.ts:198-257 | at most one attempt in flight; unless the connector stops, every request is followed by an attempt that starts after it or one is still owed, and none is owed at rest |
| `GmailConnector.OwedSyncStarts` | packages/connector-gmail/src/connector.ts:233-245 | however the attempt in flight ends, the owed one starts next |
| `GmailConnector.ServedInTime` | packages/connector-gmail/src/connector.ts:198-257 | from any reachable state, in every continuation without a stop: once as many attempts ended or queued requests ran as were queued, and two more if a sync was in flight, every earlier request has been served |
| `GmailConnector.Connector.AttemptSucceeded` | packages/connector-gmail/src/connector.ts:203-236 | runs again when asked to meanwhile, else clears `syncing` |
| `GmailConnector.Connector.AttemptFailed` | packages/connector-gmail/src/connector.ts:237-245 | a request that came during a failed sync is queued |
| `GmailConnector.Connector.RequestSync` | packages/connector-gmail/src/connector.ts:247-257 | starts an attempt or asks the one in flight to run again |
| `GmailConnector.Handle` | packages/connector-gmail/src/connector.ts:347-372 | acknowledged exactly when malformed, of another mailbox or recorded |
| `GmailConnector.HandleBatch` | packages/connector-gmail/src/connector.ts:388-397 | the acknowledgements are a prefix of the batch, each safe to lose; it stops only at an own message that could not be recorded |
| `GmailPubsub.AcknowledgedIsSafe` | packages/connector-gmail/src/connector.ts:373-398 | over every run with leases, late acknowledgements, redeliveries and crashes: what is acknowledged is malformed, of another mailbox, or recorded |
| `GmailPubsub.StepKeepsInv` | packages/connector-gmail/src/fake-google.ts:308-353 | an ack id, once handed out, stands for one message only |
| `GmailPubsub.PassAcknowledges` | packages/connector-gmail/src/fake-google.ts:308-353 | from every reachable state, a pull loop's pass acknowledged within its lease acknowledges exactly the first messages, up to the maximum, that are neither acknowledged nor leased, and records exactly those among them that name this mailbox |
| `Waits.MatchMeaning` | packages/core/src/waits.ts:34-77 | a matching event is not the agent's own post, comes before the timeout unless it ends an approval, is Gateway-emitted if reserved, and comes from the named human on their own account when only users are named |
| `RoutingReasons.MatchesExactlyWhen` | packages/core/src/waits.ts:34-77 | an event matches a wait exactly when type and correlation agree, it comes before the timeout or ends an approval, is the Gateway's own if reserved, and, for a post, is not the agent's own, lies in the thread, comes from a named sender if any is named, and addresses the required target |
| `Routing.WaitChoice` | packages/core/src/routing.ts:95-118 | an agent gets a wait candidate exactly when one of its waits matches, and it is the matching one that times out first |
| `Routing.FirstMatchesDistinct` | packages/core/src/routing.ts:107-112 | at most one wait per agent |
| `Routing.GrantsAreTheFirstPassing` | packages/core/src/routing.ts:195-262 | a guarded candidate is granted exactly when it passes the stateless guards and fewer than the room left by the two budgets pass before it in tier order; exempt ones are always granted |
| `Routing.NeverMixed` | packages/core/src/routing.ts:232-241 | exempt and guarded candidates never meet in one event |
| `Routing.RouteEvent` | packages/core/src/routing.ts:177-264 | the loop with its two counters computes the closed form |
| `RoutingReasons.RoutesMeaning` | packages/core/src/routing.ts:177-264 | with distinct agents: no routes for control and record-only events; else one route for each agent reached through a wait, as a target or by subscription, in the order of priorities 10, 5 and 0 and then of agent ids; each with the wait it resolves and, as its reason, the first obstacle that stands in its way |
| `RoutingReasons.CandidateMeaning` | packages/core/src/routing.ts:95-151 | an agent is a candidate exactly when the event resolves a wait of its, else names it as a target, else has an untargeted rule of it, and then for that reason alone |
| `RoutingReasons.DecideReasons` | packages/core/src/routing.ts:214-262 | ignored for a channel or time it may not read, its own post, or being disabled; blocked for hops, cascade, rate, thread, repeated content or pair, counted after the grants before it; always the first in this order, and granted exactly when none stands |
| `RoutingReasons.FirstOfSorted` | packages/core/src/routing.ts:107-112 | the wait chosen for an agent is, of those the event is for, the first to time out and the first listed among ties |
| `RoutingReasons.CandidatesInOrder` | packages/core/src/routing.ts:184-193 | waits before targets before subscriptions, each by agent id, and no agent twice |
| `Routing.RouteCandidates` | packages/core/src/routing.ts:195-262 | likewise for any candidate list |
| `Routing.BuildWaitCandidates` | packages/core/src/routing.ts:95-118 | the map filled in timeout order gives the wait candidates |
| `Routing.BuildWakeCandidates` | packages/core/src/routing.ts:136-151 | targets and subscriptions of agents without a matched wait |
| `RoutingOrder.OrderIrrelevant` | packages/core/src/routing.ts:182-193 | with distinct ids the routes do not depend on the order of the agents |
| `RoutingRuns.CascadeBounded` | packages/core/src/routing.ts:31-42 | over any sequence of events of a cascade, the granted routes of candidates that are not exempt never exceed `max_turns_per_cascade` |
| `RoutingRuns.ThreadBounded` | packages/core/src/routing.ts:81-85 | in every window of a thread, wherever it starts, the granted routes of candidates that are not exempt never exceed 30 |
| `RoutingRuns.GrantsCounted` | packages/core/src/routing.ts:195-261 | the granted routes are the exempt candidates and as many passing ones as both budgets leave room for |
| `RoutingRuns.GuardedWithinBudget` | packages/core/src/routing.ts:244-261 | the granted routes of candidates that are not exempt fit what both budgets had left |
| `RoutingRuns.ExemptResolvesOwnWait` | packages/core/src/routing.ts:232-241 | every exempt wake-up is a Gateway-emitted timeout or approval result that resolves a wait held by that agent |
| `Authority.CheckTurnResult` | packages/contracts/src/turn-authority.ts:43-174 | nothing is reported exactly when the result keeps to the turn's authority |
| `Authority.MessageIssues` | packages/contracts/src/turn-authority.ts:87-127 | exactly when posting, channel, mentions, targets and attachments are in order |
| `Authority.WaitIssues` | packages/contracts/src/turn-authority.ts:130-150 | exactly when senders are addressable, users waitable and the required target is the agent |
| `Authority.NextIssues` | packages/contracts/src/turn-authority.ts:129-165 | exactly when every wait is in order, or the approval requested is approvable and not denied |
| `Authority.AddressableAgents` | packages/core/src/turn-context.ts:198-201 | the other enabled agents with the channels they can read |
| `Authority.AgentChannelRefs` | packages/core/src/channel-access.ts:30-44 | configured channels and grants, each channel once |
| `Authority.ChannelsMeaning` | packages/core/src/channel-access.ts:30-68 | an agent works exactly in the channels it is configured for by name and those it was granted, and has a floor exactly in a granted channel that is not configured: its last grant's time |
| `Authority.AuthorizedTargetsAreRouted` | packages/core/src/routing.ts:214-231 | a target of an accepted post gets a route that is not an ignore, for an event after the target's floor |
| `CanonicalJson.RoundTrip` | packages/events/src/canonical.ts:8-22 | parsing the canonical text gives the value as data, with objects as finite maps |
| `CanonicalJson.CanonicalIdentifies` | packages/events/src/canonical.ts:1-22 | two values have the same text exactly when they are equal as data, undefined entries dropped |
| `CanonicalJson.CharsRoundTrip` | packages/events/src/canonical.ts:8-22 | a quoted string, lone surrogates included, reads back as itself |
| `CodeUnits.LessMeaning` | packages/events/src/canonical.ts:15-16 | one key sorts before another exactly when it has the smaller unit at the first difference or is a proper beginning of the other |
| `CanonicalText.ObjectMeaning` | packages/events/src/canonical.ts:15-21 | an object is written between braces as its defined entries, key and value with a colon, joined by commas, the keys ascending code unit by code unit |
| `CanonicalText.OrderIsOne` | packages/events/src/canonical.ts:15-16 | there is one such order of the entries |
| `CanonicalText.QuoteMeaning` | packages/events/src/canonical.ts:8-11 | a string is written unit by unit: seven two-character escapes, four lower-case hexadecimal digits for other controls and lone surrogates, everything else as it is |
| `CanonicalText.TextMeaning` | packages/events/src/canonical.ts:8-14 | the words for null, true and false, the decimal digits of a number without a leading zero, an array's items joined by commas between brackets |
| `HtmlText.HtmlToText` | packages/connector-gmail/src/html.ts:559-654 | the output is the text of the pieces with no dropping element around them |
| `HtmlText.ReadToken` | packages/connector-gmail/src/html.ts:586-650 | each token moves the machine as the meaning says; `dropDepth` stays the number of dropping elements on the stack |
| `HtmlText.CloseTo` | packages/connector-gmail/src/html.ts:573-585 | closing elements writes their link and line break as seen from below them |
| `HtmlText.ImpliedEnds` | packages/connector-gmail/src/html.ts:607-622 | a block closes an open paragraph, a list item the previous item of its list |
| `HtmlText.StackIsWellNested` | packages/connector-gmail/src/html.ts:607-649 | at most 256 open elements, no block above an open paragraph, a list between any two open items |
| `HtmlText.DroppedTextIsInvisible` | packages/connector-gmail/src/html.ts:568-572 | texts under a dropping element do not change output, hidden or truncated verdict |
| `HtmlTags.StackIsOpenTags` | packages/connector-gmail/src/html.ts:594-649 | the stack holds exactly the elements of the tags still open; each drops exactly when its tag is hidden or of a dropped kind, and keeps the address exactly when it is a link that does not drop |
| `HtmlTags.HiddenTextIsInvisible` | packages/connector-gmail/src/html.ts:568-587 | no text inside an open tag that is hidden or of a dropped kind changes the output, whatever it says |
| `HtmlTags.OpenTextIsShown` | packages/connector-gmail/src/html.ts:568-587 | a text inside no such tag is in the output as it is, in its place |
| `HtmlTags.HiddenUntilEnded` | packages/connector-gmail/src/html.ts:632-649 | behind a hidden tag, neither void nor self-closed, a text is not shown while only texts, comments and opening tags of no block lie between |
| `HtmlTags.VerdictsMeaning` | packages/connector-gmail/src/html.ts:632-645 | something counts as removed exactly when some tag is hidden where no enclosing one hides, and the end as unread exactly when an element would be nested more than 256 deep |
| `HtmlTags.LinkIsShown` | packages/connector-gmail/src/html.ts:573-585 | wherever nothing hides and the nesting leaves room, a link put in adds exactly its text and its address in angle brackets |
| `HtmlTags.MarksMeaning` | packages/connector-gmail/src/html.ts:623-631 | where nothing drops, an opening tag writes a line break if it is a block, a dash if it is an item, a space if it is a cell |
| `HtmlTags.ClosingMeaning` | packages/connector-gmail/src/html.ts:573-585 | closing an element writes the address of a link and then a line break if it is a block, unless something below it drops |
| `HidingRules.BuildIndex` | packages/connector-gmail/src/html.ts:475-511 | the compounds of resolved rules are filed under their key up to the limit; hiding is suspected exactly when there are more, a rule was not read, a hiding rule is conditional, or one of its selectors cannot be read |
| `HidingRules.LookupIsScan` | packages/connector-gmail/src/html.ts:513-532 | looking only under the element's own keys says hidden exactly when some rule names no other tag, only classes the element has and only its id |
| `Provisioner.ProvisionedWorks` | apps/controller/src/agent-provisioner.ts:369-456 | with crashes and superseding requests anywhere: a completed create or restore has the checkpointed bot as identity and a file token that works for it |
| `Provisioner.ProvisionedTokenIsOnlyOne` | apps/controller/src/agent-provisioner.ts:588-609 | starting without valid tokens, the one in the file is the bot's only valid token |
| `Provisioner.NeverTwoTokens` | apps/controller/src/agent-provisioner.ts:588-609 | at no moment does an account that started without tokens hold two |
| `Provisioner.RetiredIsPowerless` | apps/controller/src/agent-provisioner.ts:709-816 | a completed retire of a resolved bot leaves it disabled and without a valid token |
| `Provisioner.StepKeepsInv` | apps/controller/src/agent-provisioner.ts:307-456 | what the checkpoints stand for survives every step and crash |
| `ProvisionerPass.Gateway.ProcessOperation` | apps/controller/src/agent-provisioner.ts:369-456 | a pass that nothing interrupts is a run of the protocol and, from every reachable state and whatever the checkpoints, completes its create or restore with the checkpointed bot recorded and a file token that works for it; it fails exactly when the file is a symlink and no token was checkpointed |
| `ProvisionerPass.Gateway.ProcessRetire` | apps/controller/src/agent-provisioner.ts:688-816 | likewise a retire completes, its bot, recorded or recovered, disabled and without tokens |
| `ProvisionerPass.Gateway.ResolveBot` | apps/controller/src/agent-provisioner.ts:370-416 | the checkpointed bot, else the ensured one, is checkpointed, enabled and recorded as the identity |
| `ProvisionerPass.Gateway.EnsureBotToken` | apps/controller/src/agent-provisioner.ts:588-609 | is a run of the protocol: a working token is kept, a symlink refused, anything else replaced by a fresh and only token |
| `ProvisionerPass.Gateway.RevokeAllTokens` | packages/mattermost/src/bootstrap.ts:238-252 | is a run of the protocol: exactly the account's tokens go, others stay, and the last round is never reached |
| `AdminToken.FileStaysAccepted` | apps/cli/src/mattermost-commands.ts:296-339 | at every crash point of any sequence of runs after the first write, the token in the file is accepted by the server |
| `AdminToken.FinishedRotateLeavesOne` | apps/cli/src/mattermost-commands.ts:368-429 | a finished rotation leaves exactly one tagged token on its account, the one in the file, and never gives up |
| `AdminToken.OnlyThePastedIsRevoked` | apps/cli/src/mattermost-commands.ts:323-339 | while personal access tokens are pasted, an untagged token that any step revokes is the pasted one |
| `AdminToken.UntaggedLeavesExactlyWhen` | apps/cli/src/mattermost-commands.ts:296-429 | over every run: an untagged token is revoked exactly by the last step of a `set` run that found it alone on the account; no rotation and no failed verification touches one |
| `AdminToken.StrayExactlyWhen` | apps/cli/src/mattermost-commands.ts:323-339 | exactly when a run revokes a token nobody pasted |
| `AdminToken.SessionRevokesAStranger` | apps/cli/src/mattermost-commands.ts:285-339 | a run in which that happens |
| `AdminToken.Server.Rotate` | apps/cli/src/mattermost-commands.ts:364-429 | undisturbed it is a run of the steps to its end: a new token in the file, every other tagged one of the account gone, nothing else touched, within two rounds; a minted token of another account is revoked and nothing changes |
| `AdminToken.Server.SetToken` | apps/cli/src/mattermost-commands.ts:285-339 | undisturbed it is a run of the steps to its end, with a token or a session entered: the minted token in the file, and of the account's tokens none gone but a single one; an account that may not, or a minted token of another account, changes nothing |
| `TextBudget.TruncateText` | packages/context/src/text.ts:8-18 | the in-place cut computes `Truncate` |
| `TextBudget.TruncateFits` | packages/context/src/text.ts:8-18 | the budget is kept exactly when the text fits it or it has room for the mark |
| `TextBudget.TruncateKeeps` | packages/context/src/text.ts:8-18 | cut at the end only, by no more than the mark and half a character |
| `TextBudget.TruncateWellFormed` | packages/context/src/text.ts:4-18 | well-formed UTF-16 stays well-formed |
| `Thread.CurrentPosts` | packages/context/src/thread.ts:102-139 | the loop over events computes the fold |
| `ThreadPosts.FoldMeaning` | packages/context/src/thread.ts:102-139 | a post is folded exactly when its creation is recorded, with author, time, addressees and order of the first such record, the text of the last edit since, distrusted exactly when someone else edited it since, deleted exactly when a deletion followed |
| `ThreadPosts.ThreadEvents` | packages/context/src/thread.ts:160-166 | the thread's events are those of its channel about its root or a reply to it |
| `Thread.PostOverlays` | packages/context/src/thread.ts:57-79 | the map holds exactly the overlays of the asked posts that changed |
| `Thread.AgreeExactlyWhen` | packages/context/src/thread.ts:57-139 | overlay and fold agree on deletion, and on text and trust of live posts, exactly when no change was recorded before the creation, or the post was deleted since, or the early changes did not delete it, its text was replaced since or is the same, and any distrust is shared |
| `Thread.OverlayAgrees` | packages/context/src/thread.ts:57-139 | in particular for every post created before its changes |
| `Thread.EditBeforeCreationDisagrees` | packages/context/src/thread.ts:123-127 | an edit recorded before the creation makes them disagree |
| `Thread.HumanTrustIsEarned` | packages/context/src/thread.ts:128-136 | a post folded as human-trusted was created so and had only human-trusted edits since |
| `Thread.RecentPosts` | packages/context/src/thread.ts:178-193 | the longest suffix of the candidates within both budgets |
| `Thread.CandidatesAreLive` | packages/context/src/thread.ts:170-176 | the candidates are the thread's live posts but the root and the excluded |
| `Thread.CandidatesOldestFirst` | packages/context/src/thread.ts:171-176 | they stand by time of creation and then by acceptance order, strictly |
| `Thread.FoldThread` | packages/context/src/thread.ts:156-222 | nothing exactly when nothing of the thread is known; otherwise recent plus omitted is all candidates, recent their longest suffix within the budgets, oldest first, each with its own author, time and trust, and no omitted one newer than a shown one; the root shown unless excluded, the participants exactly the agents that wrote or were addressed, the humans the authors of human-trusted live posts |
| `Summary.MergeThreadSummary` | packages/context/src/summary.ts:57-81 | the shifting loop computes `Merge` |
| `Summary.MergingIsClosedForm` | packages/context/src/summary.ts:53-81 | merging distinct new runs into a stored summary equals adding all of them and compacting the oldest at once |
| `Summary.MergedFromNothing` | packages/context/src/summary.ts:53-81 | the last 8 runs whole, the last 24 decisions and results of all compacted runs in order, and the count of those |
| `Summary.MergeIsIdempotent` | packages/context/src/summary.ts:53-64 | merging a run twice in a row is merging it once, for any stored summary |
| `Summary.RepeatedRun` | packages/context/src/summary.ts:62-64 | a run merged again later changes nothing exactly while it is kept whole |
| `Summary.RenderThreadSummary` | packages/context/src/summary.ts:104-142 | nothing exactly when no run contributed; otherwise at most 8000 characters showing the most of the newest runs that fit, for any stored summary |
| `Summary.OnlyOneShowsNewest` | packages/context/src/summary.ts:108-141 | that determines the text |
| `Summary.ShownWhole` | packages/context/src/summary.ts:132-141 | when everything fits, the whole history is followed by every run |
| `Summary.TailIsMostLines` | packages/context/src/summary.ts:144-150 | the mark and the most whole last lines that stay strictly below the budget, or nothing exactly when none do; filling it exactly is never done |
| `SummaryLines.DecisionStands` | packages/context/src/summary.ts:73-76 | every decision of a compacted run stands under its agent's name, behind all decisions of the runs before |
| `SummaryLines.ResultStands` | packages/context/src/summary.ts:77 | likewise every result |
| `SummaryLines.RunIsTold` | packages/context/src/summary.ts:83-97 | a run shows agent, time and task, then facts, results, decisions, what remains, what it waits for and risks under their titles, every item on its own line |
| `SummaryLines.HistoryIsTold` | packages/context/src/summary.ts:124-131 | there is a history exactly with compacted or omitted runs: their decimal counts, the decisions and the results |
| `RequestPreview.TruncateRequestPreview` | packages/contracts/src/common.ts:332-363 | the cut point adjusted in place computes `Shortened` |
| `RequestPreview.ShortenedFits` | packages/contracts/src/common.ts:332-339 | within the limit for every text and limit, negative ones counting as none |
| `RequestPreview.ShortenedKeeps` | packages/contracts/src/common.ts:340-362 | a prefix at most four short of the limit, marked |
| `RequestPreview.EscapesStayWhole` | packages/contracts/src/common.ts:341-349 | a percent-encoded text stays so, except at limit one before a leading escape |
| `RequestPreview.PairsStayWhole` | packages/contracts/src/common.ts:350-361 | well-formed UTF-16 stays so, except at limit one before a leading pair |
| `Fences.FenceIsLonger` | packages/contracts/src/approval.ts:64-67 | the fence is longer than any stretch of backticks anywhere in the text |
| `Fences.BlockReadsBack` | packages/contracts/src/approval.ts:85-94 | read by the fence rules of CommonMark, a printed block is one block with exactly its text, whatever the text and whatever lines follow |
| `Fences.DocumentReadsBack` | packages/contracts/src/approval.ts:190-198 | a document of plain lines and printed blocks has those blocks and no others |
| `ApprovalCard.ApprovalBlocksLength` | packages/contracts/src/approval.ts:74-83 | equals the lengths of the two blocks as printed |
| `ApprovalCard.FitApprovalCard` | packages/contracts/src/approval.ts:217-242 | terminates; nothing exactly when the card without a summary is too long; no summary exactly when an empty one does not fit; else the card with its summary cut once, by what the full card has too much |
| `ApprovalCard.OneCutSuffices` | packages/contracts/src/approval.ts:234-240 | one cut by the overflow makes the card fit, unless it leaves nothing |
| `ApprovalCard.SummaryKept` | packages/contracts/src/approval.ts:234-240 | of a summary that does not fit all is kept but the overflow, the mark, and at most an escape's start and half a character |
| `Fences.FenceOfBeginning` | packages/contracts/src/approval.ts:64-67 | cutting and marking a text never takes a longer fence |
| `ApprovalCard.PreviewIsWhole` | packages/contracts/src/approval.ts:190-198 | the preview's block stands in the card whole, between two line breaks |
| `ApprovalCard.CardReadsBack` | packages/contracts/src/approval.ts:169-198 | a reader of the card finds exactly the summary, the parameters and the preview as its blocks, whatever an agent wrote in them |
| `ApprovalCard.WordingIsPlain` | packages/contracts/src/approval.ts:134-187 | the card's wording has no line break and opens no block, so the result above applies to it |
| `ApprovalLines.CardIsTold` | packages/contracts/src/approval.ts:169-198 | the card's lines in order: risk and expiry, agent and action, the summary's and the parameters' blocks, the preview's, the warning exactly when some parameter mixes alphabets, approve and deny with the approval's code, the request's id and hash |
| `ApprovalLines.WarningIsTold` | packages/contracts/src/approval.ts:124-135 | the warning names the first five flagged parameters in backticks and the decimal count of the rest |
| `ApprovalLines.FlaggedInOrder` | packages/contracts/src/approval.ts:126-128 | flagging runs over the parameters in order |
| `ApprovalLines.ParamsAreListed` | packages/contracts/src/approval.ts:69-72 | each parameter is one line, name and value, in order |
| `ApprovalLimit.FitsExactlyWhen` | packages/contracts/src/approval.ts:169-198 | a card without a preview fits exactly when action type and expiry take no more than the blocks and the other lines leave |
| `ApprovalLimit.DraftFits` | packages/contracts/src/approval.ts:57-62 | every draft the schemas accept, its blocks within 15000 characters, fits with up to 495 characters of action type and expiry |
| `ApprovalLimit.WideFitsExactlyWhen` | packages/contracts/src/approval.ts:124-135 | a draft the schemas accept field by field, with 32 mixed names of 64 characters and blocks of exactly 15000, fits exactly up to those 495 |
| `ApprovalLimit.ThresholdIsExact` | packages/contracts/src/approval.ts:57-62 | all drafts with n characters of action type and expiry fit exactly when n is at most 495 |
| `ApprovalLimit.WordingHasSourceLengths` | packages/contracts/src/approval.ts:134-187 | the card's wording has the lengths these results assume |
| `ToolPatterns.CoversIsInclusion` | packages/contracts/src/common.ts:87-94 | `toolPatternCovers` is exactly inclusion of the tool names matched |
| `ToolPatterns.OverlapIsIntersection` | packages/contracts/src/common.ts:96-99 | `toolPatternsOverlap` is exactly a common tool name |
| `ToolPatterns.OverlapsMeaning` | packages/contracts/src/common.ts:107-122 | a pair is reported exactly when it overlaps |
| `ToolPatterns.NoOverlapsMeansOneOutcome` | packages/contracts/src/common.ts:103-122 | nothing is reported exactly when every tool is reached by at most one entry |
| `ConfigBundle.FinanceIssues` | packages/contracts/src/config-bundle.ts:48-77 | nothing is reported exactly when the finance rule holds |
| `ConfigBundle.ValidateConfigBundle` | packages/contracts/src/config-bundle.ts:83-194 | nothing is reported exactly when the bundle is consistent |
| `ConfigBundle.FinanceIsolated` | packages/contracts/src/config-bundle.ts:48-77 | in a consistent bundle no agent but the finance agent is allowed or may request any finance tool, all others deny it, and the finance agent only reads without an approval |
| `ConfigBundle.DefaultsPassFinance` | packages/contracts/src/config-bundle.ts:37-46 | a new agent's permissions pass the finance rule |
| `ProviderSchema.ToProviderSchema` | packages/contracts/src/json-schema.ts:78-98 | the recursion that fills its result in a loop computes `Reduce` |
| `ProviderSchema.ReducedIsSupported` | packages/contracts/src/json-schema.ts:73-98 | at no depth is a keyword left that providers reject |
| `ProviderSchema.FixedIffSupported` | packages/contracts/src/json-schema.ts:64-98 | the reduction changes a schema exactly when something in it is not supported |
| `ProviderSchema.Idempotent` | packages/contracts/src/json-schema.ts:78-98 | reducing again changes nothing |
| `ProviderSchema.FieldNamesStay` | packages/contracts/src/json-schema.ts:87-91 | every field name under `properties` stays in place with its reduced schema |
| `ProviderKeywords.PatternMeaning` | packages/contracts/src/json-schema.ts:61-62 | a pattern is unsupported exactly when at some position a lookaround or a range quantifier begins |
| `ProviderKeywords.EntryStaysExactlyWhen` | packages/contracts/src/json-schema.ts:64-97 | an entry stays, its value reduced, exactly when it is no size or numeric keyword, no `minItems` above one, no `pattern` beside a format or with an unsupported construct, and no unknown `format` |
| `ProviderKeywords.ReducedIsAccepted` | packages/contracts/src/json-schema.ts:40-98 | at no depth of a reduced schema is any of these left, and a schema without them is unchanged |
| `SchemaMeaning.ReducingWeakens` | packages/contracts/src/json-schema.ts:64-98 | on the fragment, which takes in every supported schema, `not` over schemas that gain no value, and supported fixed values, every value valid for a schema is valid for the reduced one |
| `SchemaMeaning.ReducingMoves` | packages/contracts/src/json-schema.ts:64-98 | the reduction moves a schema one way, up or down by the number of `not` around it, at every depth |
| `SchemaMeaning.ReducingStrengthens` | packages/contracts/src/json-schema.ts:64-98 | on the downward fragment every value valid for the reduced schema is valid for the original |
| `SchemaMeaning.NotReverses` | packages/contracts/src/json-schema.ts:93-95 | under `not` the reduction strengthens where it weakened |
| `SchemaMeaning.NotWeakenedExactlyWhen` | packages/contracts/src/json-schema.ts:93-95 | a `not` is weakened exactly when the schema under it gained no value |
| `SchemaMeaning.NotMayStrengthen` | packages/contracts/src/json-schema.ts:93-95 | a value accepted before and rejected after, under `not` |
| `SchemaMeaning.ConstMeaning` | packages/contracts/src/json-schema.ts:93-95 | a fixed value is compared with what the reduction makes of it |
| `SchemaMeaning.ConstWeakenedExactlyWhen` | packages/contracts/src/json-schema.ts:93-95 | a `const` is weakened exactly when the reduction leaves its value alone, so when the value is supported |
| `SchemaMeaning.EnumWeakenedExactlyWhen` | packages/contracts/src/json-schema.ts:93-95 | an `enum` is weakened exactly when every value is supported |
| `SchemaMeaning.ObjectConstMayChange` | packages/contracts/src/json-schema.ts:93-95 | an object-valued `const` that rejects its own value after the reduction |

## Left out

- Gmail history ids are naturals, not decimal strings; the abort signal is a crash; clocks are parameters; `identify`, the refused state, `recordMode`, watch expiry and the wording of alerts are not modelled.
- The key of a stored event is a datatype of message and notification ids, not the text `source id`; payload hashes are integers.
- What a full sync does not read because it lists at most 500 messages, or because it lies before the overlap, is not claimed to be handled: `GmailTheorems.NoMailLost` starts at the full sync's cursor and requires its alert.
- GmailSyncMailbox.SyncMailbox: is proved with the mailbox undisturbed during the call, so it never comes out stale; interleavings are the subject of the protocol's runs.
- GmailSyncMailbox.FullSync: likewise; what changes of the mailbox between two pages do to the listing is stated in `GmailListing`.
- GmailSyncMailbox.ListMessages: likewise.
- The Pub/Sub environment's HTTP answers, waiting pulls and delivery counts.
- Routing counters are fed as their declarations say; how the database computes them is not modelled. Event helpers (`mattermostPost`, `eventTargets`, `eventSenderAgentId`) are read off a datatype.
- Authority.MessageIssues: takes the mentioned names as given; the mention pattern and Unicode classes are not modelled.
- CanonicalJson.RoundTrip: numbers are integers; floating-point formatting is not modelled.
- HTML tokenizing, entities, white space, CSS parsing and the hiding verdict of a tag's attributes are given with the tokens; the input length limit is not modelled.
- ProvisionerPass.Gateway.ProcessOperation: takes the account that ensuring the bot gives as an argument and leaves membership convergence out, so it completes in one pass.
- `ensureBot`, membership convergence, channel departure and the deletion of a retired bot's token file are not modelled; an ensured bot may be any account, existing or new.
- Provisioner.NeverTwoTokens: assumes, as the provisioner does, that nobody else mints tokens for the bot; the thousand-round limit is in `ProvisionerPass.Gateway.RevokeAllTokens` and not in the transition system.
- ProvisionerPass.Gateway.RevokeAllTokens: takes each round's listing as whole; the client's own paging of it is not modelled.
- Token values, hashing, file permissions other than exposed or private, and the advisory locks themselves; the locks' effect, one run at a time, is assumed.
- Thread.RecentPosts: takes the candidates as they would be shown, which the source does one by one in its loop.
- Summary.RenderThreadSummary: likewise takes all runs rendered, and the count in the history line is a natural.
- `threadSummaryEntry` and `toVerbatimPreview`.
- ApprovalCard.CardReadsBack: blocks are read by the rules for unindented opening fences, which are the only ones the card prints; other Markdown constructs are not modelled. Which values mix scripts is given with the parameters.
- The forced cut at `packages/contracts/src/approval.ts:240`, which is never reached.
- ProviderSchema.ToProviderSchema: keys in an object are listed in order and the prototype key is an ordinary one; numbers are reals.
- SchemaMeaning.ReducingWeakens: keywords outside the modelled ones count as annotations; regular expressions and formats are abstract.
- The agent state table, wait timeout clamping, DTO schemas, console, CLI parsing, metrics, health checks, HTTP servers and clients, queues and SQL would only add easy members or are foreign I/O.
