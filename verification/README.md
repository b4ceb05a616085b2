# CatX-UI core protocols, in Dafny

This project models the self-contained cores of the CatX-UI control panel and proves what they promise:

- **Access-log ingestion** (`AccessLogLines`, `AccessLogIngest`): the polling line reader and the crash-recovery protocol of tailer, bounded queue, transactional batch commit and durable cursor.
- **Policies** (`PolicyModel`, `PolicyPrecedence`, `PolicySchedule`, `PolicyDecision`, `PolicyDecided`, `PolicyCompiler`, `PolicyFailure`, `PolicyRouting`, `PolicyPlain`, `PolicyAgreement`, `PolicyEndToEnd`): candidate resolution and precedence, weekly schedules, decisions, and the compiler into Xray routing rules, with a first-match semantics of the rule list.
- **Concurrent protocols** (`UdpRelay`, `EventBus`, `Catalog`): each as a class with its critical sections and as a state machine over every interleaving of its steps.
- **Reconcilers** (`OutboundManager`, `InboundManager`, `PortForward`, over `NetDevice` and `KeyedFold`): embedded interfaces, the egress registry and port-forward listeners, with failing device and bind calls.
- **Formats and arithmetic** (`Versions`, `Releases`, `Params`, `ForwardedPorts`, `DnsRewrite`, `TrafficHistory`).

`Text`, `Sorting` and `StringSets` hold the string, sorting and set primitives these share.

Code that works by loops and updates is a method or a class here, proved against a specification function; the lemmas then say what the source promises about that function. Concurrency is a `Step`/`Enabled`/`Next` relation, and a theorem about "every run" quantifies over all step sequences from the start state. Calls into the outside world (database faults, device calls, socket binds, random draws, clocks) are parameters or nondeterministic choices, so the theorems hold for every outcome.

## Where the code and its promises part

Each of these is stated with the exact condition under which the promise holds. Where a further lemma is named, it gives inputs or runs for which the promise fails.

- A poll that meets the rest of a partial line reports that line with its beginning twice, because the reader seeks back to a cursor that excludes the partial text while still carrying it (`AccessLogLines.PollContentIff`, `AccessLogLines.PartialReadGarbles`). `AccessLogIngest.ExactlyOnce` is therefore about runs whose polls satisfy that condition.
- A line over 1 MiB, carried text included, is dropped without advancing the cursor: later offsets are too small, the cursor can land inside a line, and lines are stored again under other keys (`AccessLogLines.PollCursorIff`, `AccessLogLines.OverlongRepeats`). Offsets and cursor are right exactly in the runs without such a line (`AccessLogIngest.OnTrackIff`, `AccessLogIngest.CursorAfterNewline`), whatever partial lines are read.
- A batch that is retried after a failed commit counts its malformed lines again (`AccessLogIngest.MalformedRightIff`, `AccessLogIngest.CountedTwice`).
- Compile's early return compares lengths only, so a stale list of the same length is kept (`PolicyAgreement.ReplacesIff`, `PolicyAgreement.StaleRuleStays`); configs assembled afresh carry no stale rules, and the routing theorems assume that.
- The preview names "direct" and "blocked" whatever the outbounds are called (`PolicyAgreement.NamedIff`, `PolicyAgreement.PreviewMisnames`).
- `stableClient` is not injective, and colliding names lose rules (`PolicyAgreement.RuleEmittedIff`, `PolicyAgreement.CollisionDropsRule`).
- Quarantine and release on an override's value, other than the dedicated release, are not consulted (`PolicyDecision.DecisionQuarantinedIff`). Allowlist entries always go into the `domain` field, so nothing is claimed about IP entries there.
- Assignment priorities are not validated, so a large one can beat every override (`PolicyPrecedence.TemporaryBeatsAssignmentIff`, `PolicyPrecedence.UnboundedAssignmentWins`).
- Within the first minute of the epoch the next activation can be wrong (`PolicySchedule.NextActiveAtEpoch`, `PolicySchedule.WrongAtEpoch`).
- A new event-bus subscriber can receive events accepted before it subscribed (`EventBus.LooksBackIff`, `EventBus.EarlierToo`).
- After a half-applied IpcSet, going back to the recorded config is taken for a no-op in both managers (`OutboundManager.RunsWantedIff`, `OutboundManager.HalfAppliedSurvives`, `InboundManager.RunsWantedIff`, `InboundManager.HalfAppliedSurvives`).
- Host IPv6 aliases are diffed by peer email, and every add runs before any remove. So an alias that moves from one email to another, by a rename, a swap of addresses or a new owner in the same tick, is removed although it is wanted (`InboundManager.AliasesKeptIff`, `InboundManager.RenameLosesAlias`, `InboundManager.SwapLosesAliases`), and repeating the pass does not bring it back (`InboundManager.PassRepairsNothing`).
- A rebuild that fails after closing the old interface leaves its aliases on the host; when the interface comes back, those it and the others no longer want stay (`InboundManager.StrayIff`). These are the only two ways a pass leaves the host wrong where inbounds share no alias (`InboundManager.TidyIff`); where they do, `InboundManager.TidyThroughoutIff` gives the condition for a host that is right at every step.
- A rekey field made of blanks counts as 0 seconds instead of WireGuard's 120, so a reject window from 120 seconds down is accepted with it (`Params.RenewsInTimeIff`, `Params.BlankRekeySlipsThrough`); a reject window made of blanks passes its field check but never the set's (`Params.BlankRejectRefused`).

## Model

| member | source | states |
|---|---|---|
| AccessLogLines.ReadLines | internal/analytics/accesslog.go:227-266 | one poll of the tailer, loop by loop with its 1 MiB bound, returns what the specification `Poll` says |
| AccessLogLines.PollContentIff | internal/analytics/accesslog.go:182-266 | a poll reports exactly the lines of the file if and only if no newline arrived, or nothing was carried over and no line is over-long |
| AccessLogLines.PollOffsets | internal/analytics/accesslog.go:227-266 | where every complete line of the poll fits the bound, the first one behind the carried text, the number of records, their end offsets and the next cursor are those of the file; only the first line's text can be wrong |
| AccessLogLines.PollCursorIff | internal/analytics/accesslog.go:227-266 | the cursor a poll returns is the start of the unterminated tail if and only if every complete line fits so; otherwise it falls short |
| AccessLogLines.OverlongRepeats | internal/analytics/accesslog.go:236-262 | a concrete pair of polls: the line after a dropped one gets an end offset inside the dropped line, the cursor follows it there, and the next poll reports that line again under another offset |
| AccessLogLines.PartialReadGarbles | internal/analytics/accesslog.go:182-189 | a concrete run: text read as a partial line is read again, and the line arrives with its beginning twice |
| AccessLogLines.CarriedKept | internal/analytics/accesslog.go:182-233 | the text carried between polls has no newline and comes from a line that does not start with one; growth keeps that, and so does every poll whose lines fit the bound |
| AccessLogLines.ScanWhole | internal/analytics/accesslog.go:233-266 | with nothing carried and short lines, the reading loop yields the file's lines, in order, and a cursor after the last newline |
| AccessLogIngest.Store.CommitAccessLogBatch | internal/analytics/repository.go:114-135 | one transaction: rows whose event key is new are added and the cursor replaced, or nothing changes at all |
| AccessLogIngest.Worker.Flush | internal/analytics/accesslog.go:302-349 | a successful flush stores every line of the batch that parses and names a domain or an address, under the key of its text and end offset and with exactly its metadata, and no other row; the remaining lines are counted as malformed; a failed flush leaves batch, store and cursor as they were, and it fails exactly on a fault or an unacceptable time or port |
| AccessLogIngest.FlushMeans | internal/analytics/accesslog.go:381-391 | that statement for any batch and any stored rows |
| AccessLogIngest.Worker.Retry | internal/analytics/accesslog.go:350-372 | the retry loop: flushing until a commit succeeds stores the batch once, and nothing is stored or dropped when the context ends first |
| AccessLogIngest.MalformedRightIff | internal/analytics/accesslog.go:302-349 | after n failed commits and a successful one each malformed line is counted n + 1 times, so the counter is right if and only if n is 0 or every line parses |
| AccessLogIngest.CountedTwice | internal/analytics/accesslog.go:305-345 | such a batch: one unparseable line, one failed commit, and the counter says 2 |
| AccessLogIngest.CommitExtends | internal/analytics/repository.go:114-162 | committing lines from anywhere at or below the stored prefix extends that prefix, without repeating a line |
| AccessLogIngest.StepKeeps | internal/analytics/accesslog.go:131-372 | every step of reader, queue, worker, commit, crash and restart keeps the protocol's invariant |
| AccessLogIngest.ExactlyOnce | internal/analytics/accesslog.go:131-372 | over every run, the stored rows are, told from the bytes of the file, the events of the lines up to the high-water mark that parse and name a destination, in order and once each; the cursor never passes it and equals it unless a restart failed to load the cursor |
| AccessLogIngest.RowsOfLines | internal/analytics/accesslog.go:227-266 | the reference used for that, stated from newlines, a trailing carriage return, the line's text and its end offset |
| AccessLogIngest.QuiescentComplete | internal/analytics/accesslog.go:131-372 | when nothing is in flight and the reader is at the end, every complete line of the file that parses and names a destination is stored, and nothing else |
| AccessLogIngest.CommitIsFlush | internal/analytics/accesslog.go:302-349 | the protocol's commit step changes rows, cursor and batch as a flush does, and nothing when the commit fails |
| AccessLogIngest.CanCatchUp | internal/analytics/accesslog.go:131-372 | from every reachable state, whatever is appended still, the reader can be stopped and restarted so that every line that parses is stored, if the lines fit the bound and the database takes their events |
| AccessLogIngest.CanStart | internal/analytics/accesslog.go:131-372 | a first start needs no restart for that |
| AccessLogIngest.CursorIsHigh | internal/analytics/accesslog.go:292-294 | as long as no restart failed to load it, the cursor is the high-water mark |
| AccessLogIngest.CursorAfterNewline | internal/analytics/accesslog.go:182-233 | as long as the lines of every poll fit the bound, the stored cursor sits just after a newline, whatever partial lines were read |
| AccessLogIngest.OnTrackIff | internal/analytics/accesslog.go:182-233 | over any run, every poll returns the start of the unterminated tail if and only if the lines of every poll fit the bound |
| UdpRelay.Relay.Publish | internal/amneziawgnet/relay.go:412-423 | the second look under the lock: an existing session wins and the caller's own is reported lost, otherwise the caller's is published |
| UdpRelay.Relay.Retire | internal/amneziawgnet/relay.go:447-455 | a pump's exit removes the map entry only while it still names that pump's session |
| UdpRelay.Relay.Close | internal/amneziawgnet/relay.go:460-467 | closes every published session and empties the map |
| UdpRelay.StepKeeps | internal/amneziawgnet/relay.go:401-467 | every step of any number of Handle calls, pumps and Close calls keeps the ownership invariant |
| UdpRelay.SessionsExact | internal/amneziawgnet/relay.go:381-467 | in every reachable state a published session is open and pumped, no two sources share one, and a source has at most one live pump |
| UdpRelay.PumpEvictsOnlyItself | internal/amneziawgnet/relay.go:434-458 | a pump's exit leaves its source's entry in place exactly when that entry is another session |
| UdpRelay.NoLeak | internal/amneziawgnet/relay.go:401-467 | every open session is published, held by an undecided or discarding Handle call, or still owned by a leaving pump; with no holder nothing is open |
| UdpRelay.SendsOnPublished | internal/amneziawgnet/relay.go:401-430 | over every run, a packet goes out on the session that was published for its source when its Handle call last held the lock, which is open unless a pump or Close closed it since; the call associates exactly if nothing was published at its lookup |
| UdpRelay.LoserSendsOnWinner | internal/amneziawgnet/relay.go:412-428 | the loser of a race closes exactly its own session, which was never published, and sends on the one that was |
| UdpRelay.CanQuiesce | internal/amneziawgnet/relay.go:401-467 | from every reachable state all Handle calls and pumps can finish, whether or not the proxy can be reached, and then no session is published or open |
| UdpRelay.CloseFinalIff | internal/amneziawgnet/manager.go:75-81 | with packet delivery stopped, nothing is ever published again after Close if and only if no Handle call has missed its lookup without having taken the lock yet |
| UdpRelay.PublishedAfterClose | internal/amneziawgnet/relay.go:381-467 | the run the order of closing is there to prevent: lookup, Close, associate, publish ends with an open published session |
| PolicyCompiler.SupportedDestinations | internal/policycompiler/compiler.go:200-228 | destinations are normalized, deduplicated and sorted, or the first bad entry is reported |
| PolicyCompiler.SupportedSpec | internal/policycompiler/compiler.go:200-228 | the result is an error exactly when some entry is bad, and otherwise the ascending list of exactly the normalized entries |
| PolicyCompiler.SupportedUnique | internal/policycompiler/compiler.go:200-228 | that description determines the result |
| PolicyCompiler.NormalizeSpec | internal/policycompiler/compiler.go:202-221 | which destination a text stands for, told from the text, and the error for every other text |
| PolicyCompiler.SupportedMeans | internal/policycompiler/compiler.go:200-228 | the list is the ascending set of what the texts stand for, and it exists exactly if every text is blank or stands for something |
| PolicyCompiler.SelectOutboundSpec | internal/policycompiler/compiler.go:230-257 | allow leaves by "direct", else by the first freedom outbound; deny by "blocked", else by the first blackhole; an error exactly if there is neither |
| PolicyCompiler.EmitDecision | internal/policycompiler/compiler.go:118-178 | one decision's turn of the loop: DNS rule, quarantine block or destination rules, or its error |
| PolicyCompiler.Compile | internal/policycompiler/compiler.go:90-194 | the compiler with its loops and early returns returns what the specification `Compiled` says |
| PolicyCompiler.Preview | internal/policycompiler/compiler.go:35-86 | the preview returns what the specification `ShowAll` says |
| PolicyCompiler.PreviewDecision | internal/policycompiler/compiler.go:44-84 | one decision's turn of the preview loop |
| PolicyRouting.CompiledShape | internal/policycompiler/compiler.go:88-194 | on a fresh config the compiled list is front rules, the operator's rules untouched, then policy rules, even where Compile hands back its input |
| PolicyRouting.EmitFacts | internal/policycompiler/compiler.go:118-178 | every generated rule belongs to a decision of its user and carries a generated tag; every quarantined decision has its catch-all in front |
| PolicyRouting.UndecidedUnaffected | internal/policycompiler/compiler.go:88-194 | a connection of a user without a decision first-matches what it did in the original config |
| PolicyRouting.OperatorRulesFirst | internal/policycompiler/compiler.go:88-194 | a user with neither quarantine nor managed DNS sees every operator rule before its own policy rules, each of which selects what one of its destination texts stands for and leaves by its action's outbound |
| PolicyPlain.PlainLeaves | internal/policycompiler/compiler.go:88-257 | a connection of such a user that no operator rule takes is only ever matched for a destination it goes to, named by a decision about that user, and leaves by that decision's action |
| PolicyPlain.PlainRouted | internal/policycompiler/compiler.go:88-257 | where tags do not collide it is matched exactly if there is such a decision, and the one with the lowest policy id counts |
| PolicyRouting.QuarantineIsolates | internal/policycompiler/compiler.go:127-161 | every connection of a client with a quarantined decision first-matches a DNS rule, an allowlist rule or a block of that client |
| PolicyRouting.OnlyDecisionExit | internal/policycompiler/compiler.go:88-161 | a client with one decision: managed plaintext DNS leaves by the first dns outbound the decision admits; in quarantine what is allowlisted goes direct and everything else is blocked, whatever the operator's rules are |
| PolicyFailure.CompileOkIff | internal/policycompiler/compiler.go:88-257 | Compile succeeds if and only if the routing section is well shaped and every decision's action, outbounds, destinations and allowlist can be used; when it fails it hands back its input |
| PolicyAgreement.PreviewAgrees | internal/policycompiler/compiler.go:35-86 | whenever Compile succeeds, Preview shows, with multiplicity, the tags, users and destinations of the rules Compile generates |
| PolicyAgreement.PreviewOutbounds | internal/policycompiler/compiler.go:35-86 | and their outbounds, where the outbounds have the names Preview takes for granted |
| PolicyAgreement.NamedIff | internal/policycompiler/compiler.go:35-86 | for a decision that compiles, the outbounds shown are the ones used if and only if they have those names |
| PolicyAgreement.PreviewMisnames | internal/policycompiler/compiler.go:70-74 | such a decision: without a "direct" outbound the rule leaves by the freedom outbound while Preview says "direct" |
| PolicyAgreement.PreviewLines | internal/policycompiler/compiler.go:44-84 | every line of the preview is about one of the decisions, with its policy, client and winner's source, and emitted lines are numbered by their position |
| PolicyAgreement.NothingIsShown | internal/policycompiler/compiler.go:58-74 | every decision for which nothing can be emitted has a line that says so |
| PolicyAgreement.OrderIndependent | internal/policycompiler/compiler.go:35-118 | with at most one decision per client and policy, neither Compile nor Preview depends on the order of the decisions |
| PolicyAgreement.ReplacesIff | internal/policycompiler/compiler.go:99-194 | Compile replaces an earlier compilation's rules if and only if the counts of rules dropped and added differ or nothing was to change: its length test decides |
| PolicyAgreement.StaleRuleStays | internal/policycompiler/compiler.go:99-194 | such a config: one stale rule of another user against one rule to add, and Compile hands the config back unchanged |
| PolicyAgreement.CompileIdempotent | internal/policycompiler/compiler.go:88-194 | compiling the result again with the same decisions changes nothing |
| PolicyAgreement.TagInjective | internal/policycompiler/compiler.go:166-198 | a policy tag determines the policy id, the stable client name and the index |
| PolicyAgreement.TagTexts | internal/policycompiler/compiler.go:150-198 | the tags of one policy and client, character by character |
| PolicyAgreement.AlikeIff | internal/policycompiler/compiler.go:196-198 | two clients share a stable name if and only if their names differ at most in which of @ . : - stands where |
| PolicyAgreement.TagOwner | internal/policycompiler/compiler.go:162-178 | the rule emitted under a tag is that of the first decision wanting it |
| PolicyAgreement.RuleEmittedIff | internal/policycompiler/compiler.go:162-198 | a decision's i-th rule is emitted for its client exactly when no earlier decision of another client has the same policy, the same stable name and that many destinations |
| PolicyAgreement.CollisionDropsRule | internal/policycompiler/compiler.go:162-198 | such clients: a.b@c and a@b.c under one policy with one destination; the second gets no rule |
| PolicyDecision.CollectRows | internal/policy/repository.go:184-236 | one table's rows become candidates, skipping inactive ones and stopping at the first error |
| PolicyDecision.Resolve | internal/policy/repository.go:175-242 | assignments, overrides and temporary overrides in that order, then sorted by precedence |
| PolicyDecision.ResolveCapabilities | internal/policy/decision.go:223-313 | the capability loop's flags and sorted allowlist are those of the specification `CapsOf` |
| PolicyDecision.ResolveDecision | internal/policy/decision.go:105-217 | the winner's definition, patched by its override, with the capabilities of all candidates, or the first error |
| PolicyDecision.ResolveDecisions | internal/policy/decision.go:63-101 | the decisions of all clients in order, or the first error |
| PolicyDecided.ResolvedMeans | internal/policy/repository.go:175-271 | the candidates are exactly those that enabled rows about the client or its group put forward, in time and on schedule, with the sum of both priorities; resolution succeeds exactly if every such row's policy and schedule can be read |
| PolicyDecided.DecisionSpec | internal/policy/decision.go:105-217 | every field of a decision, told from the rows: action and destinations from the winner's stored definition and, by scope, its own override; capabilities from all candidates; and exactly when there is no decision |
| PolicyDecided.DecideOkIff | internal/policy/decision.go:105-313 | a decision, or the absence of one, is reached exactly if every definition and value that is read decodes and the winner asks for an action there is |
| PolicyDecided.ErrorNames | internal/policy/decision.go:105-313 | once the candidates are known, every error but a missing row names the policy of one of them |
| PolicyDecision.CapsSpec | internal/policy/decision.go:223-313 | quarantine and release are seen if and only if some candidate brings them, wherever it stands in the order; the allowlist is the union over the quarantining candidates |
| PolicyDecision.CapsDns | internal/policy/decision.go:223-313 | the DNS capabilities are those of the first candidate with a DNS section, whatever later ones say |
| PolicyDecision.CapsNoDns | internal/policy/decision.go:223-313 | without such a candidate there are none |
| PolicyDecision.DecisionQuarantinedIff | internal/policy/decision.go:105-313 | a decision is quarantined if and only if some candidate's policy quarantines and none is a dedicated release; nothing else an override says counts |
| PolicyDecision.TableCandidates | internal/policy/repository.go:184-236 | one table contributes candidates of its source with distinct ids |
| PolicyDecision.BoundedCandidates | internal/policy/model.go:209-270 | where row and policy priorities are as the validators demand, summed priorities lie within 200000 |
| PolicyDecision.ResolveForgetsRowOrder | internal/policy/repository.go:175-242 | whatever the priorities, whether resolution succeeds and what it lists do not depend on the order in which the database returned the rows |
| PolicyEndToEnd.QuarantineEndToEnd | internal/policycompiler/compiler.go:88-194 | from database rows to routed connections: an applicable quarantine without a release confines every connection of that client, whatever else is configured |
| PolicyEndToEnd.NoPolicyNoEffect | internal/policycompiler/compiler.go:88-194 | a client without a decision is routed as if there were no policies |
| PolicyPrecedence.SortCandidates | internal/policy/model.go:309-326 | the in-place sort yields the stable sort of its input by precedence |
| PolicyPrecedence.PrecedenceIff | internal/policy/model.go:309-326 | the whole order, for any priorities: sources stand 1000000 apart, targets 100000, and between equals the older candidate, then the smaller id comes first |
| Sorting.SortStable | internal/policy/model.go:309-326 | that sort keeps the input order of elements the comparison cannot tell apart, as sort.SliceStable does |
| PolicyPrecedence.SourceDecides | internal/policy/model.go:309-326 | with summed priorities within 200000, a temporary override beats a permanent one and either beats an assignment, whatever the targets |
| PolicyPrecedence.ClientBeatsGroupIff | internal/policy/model.go:309-326 | a client target beats a group target exactly while the priority gap is below 100000; at 100000 age, then id, decide |
| PolicyPrecedence.TemporaryBeatsAssignmentIff | internal/policy/model.go:209-326 | for any priorities and targets, a temporary override beats an assignment exactly while the priority gap is below 2000000, moved by 100000 where one targets the client and the other the group, with ties going to age and id |
| PolicyPrecedence.UnboundedAssignmentWins | internal/policy/model.go:225-243 | an assignment priority, which nothing validates, can outrank every temporary override |
| PolicyPrecedence.SortForgetsRowOrder | internal/policy/model.go:309-326 | bounded candidates with distinct ids sort to one list, whatever order they come in |
| PolicyPrecedence.TablesForgetRowOrder | internal/policy/model.go:309-326 | for any priorities, lists in table order with distinct ids sort to one list, whatever the order within each table: the sort is stable |
| PolicySchedule.ParseWeekdays | internal/policy/schedule.go:50-69 | the parsed days are the distinct listed numbers in ascending order, or an error at the first bad one |
| PolicySchedule.WeekdaysRoundTrip | internal/policy/schedule.go:50-77 | a formatted weekday list parses back to itself |
| PolicySchedule.ScheduleActiveIff | internal/policy/schedule.go:79-109 | a schedule is active exactly when the local minute lies in a selected day's window, overnight windows included |
| PolicySchedule.EdgeIffOpens | internal/policy/schedule.go:79-109 | the minutes at which it turns active are exactly the start minutes of selected days |
| PolicySchedule.ScheduleNextActive | internal/policy/schedule.go:111-127 | the search loop returns what its specification says |
| PolicySchedule.NextActiveIsLeast | internal/policy/schedule.go:111-127 | from 60000 ms on, the result is the least later opening, and eight days of search always find it |
| PolicySchedule.NextActiveAtEpoch | internal/policy/schedule.go:79-127 | in the first minute of the epoch the result is the least opening if and only if the schedule is not active at both minute 0 and minute 1 |
| PolicySchedule.WrongAtEpoch | internal/policy/schedule.go:79-127 | such a schedule: Thursdays 00:00 to 01:00 in UTC, asked at 1 ms, names minute 1, which opens nothing |
| Versions.ParseVersion | internal/forkrelease/version.go:27-72 | the parser's loops return what the specification `Parse` says |
| Versions.ParseRender | internal/forkrelease/version.go:27-72 | a well-formed version, printed, parses back to itself |
| Versions.IdentifierIff | internal/forkrelease/version.go:135-152 | the prerelease identifiers accepted, and called numeric, are those of section 9 of Semantic Versioning, character by character |
| Versions.RenderParse | internal/forkrelease/version.go:27-72 | an accepted text is the printed form of its version, up to surrounding space and a leading v, and every parsed version is well-formed |
| Versions.CompareVersions | internal/forkrelease/version.go:90-129 | the comparison loops return what the specification `Compare` says |
| Versions.CompareIsPrecedence | internal/forkrelease/version.go:90-129 | the sign of the comparison is the precedence of section 11 of Semantic Versioning 2.0.0, and 0 only for equal versions |
| Versions.NumericByLength | internal/forkrelease/version.go:108-122 | comparing numeric identifiers by length, then as text, is comparing the numbers, because leading zeros are refused |
| Versions.PrecedenceOrder | internal/forkrelease/version.go:90-129 | precedence is a strict total order on parsed versions |
| Releases.SelectRCRelease | internal/forkrelease/release.go:124-152 | None exactly when no release is a published, trusted prerelease of the fork's version that is not below the running one; otherwise the first of the greatest such releases |
| Releases.ApprovedIff | internal/forkrelease/release.go:213-226 | the approved tags are "v", the fork's own stable version, "-rc." and a positive number without leading zeros, and no others |
| Releases.EligibleIff | internal/forkrelease/release.go:139-226 | what the loop accepts is what that description says |
| Releases.EligibleCompare | internal/forkrelease/release.go:124-226 | the tags of eligible releases parse and compare by version order |
| EventBus.Bus.Publish | internal/eventbus/bus.go:97-113 | an event is accepted at the end of the channel exactly when there is room, and otherwise dropped |
| EventBus.Bus.Subscribe | internal/eventbus/bus.go:58-81 | a subscriber of the same id is replaced and told to quit, others keep their place, ids stay unique; nothing happens once stopped |
| EventBus.Bus.Unsubscribe | internal/eventbus/bus.go:83-95 | removes the subscriber of that id, and only it, and tells its worker to quit |
| EventBus.Bus.FanOut | internal/eventbus/bus.go:124-131 | one event goes to the end of every registered subscriber's queue of fewer than 64 events, and a full queue stays as it is |
| EventBus.MissesOnlyWhenFull | internal/eventbus/bus.go:97-155 | over every run, what a handler was called with and then its queue is exactly the accepted events offered since it subscribed, in order, less those whose fan-out found its queue full or began without it |
| EventBus.CanDeliverAll | internal/eventbus/bus.go:97-155 | from every reachable state of a bus that was not stopped, all accepted events can still reach a registered subscriber's handler without a further miss |
| EventBus.CanStop | internal/eventbus/bus.go:115-175 | from every reachable state Stop can return |
| EventBus.LockFreezes | internal/eventbus/bus.go:55-132 | while a fan-out holds the read lock, neither the subscribers nor the stop flag change |
| EventBus.DeliveredInOrder | internal/eventbus/bus.go:41-175 | over every interleaving, what a handler gets is a subsequence of the accepted events from where its subscription looks back to, queues keep their bounds and ids stay unique |
| EventBus.LooksBackIff | internal/eventbus/bus.go:58-133 | for every reachable state: over all continuations a new handler gets only events accepted after its subscription, if and only if no event is buffered and the dispatcher has none in hand |
| EventBus.LaterOnly | internal/eventbus/bus.go:58-152 | without such a backlog, what the new handler has got in any continuation is a subsequence of the events accepted since |
| EventBus.EarlierToo | internal/eventbus/bus.go:58-152 | with one, some continuation calls the new handler with an event accepted before, and nothing else |
| EventBus.OldEventDelivered | internal/eventbus/bus.go:58-133 | a run in which an event accepted before the subscription reaches the new handler |
| EventBus.StopIsFinal | internal/eventbus/bus.go:140-175 | once Stop has returned every goroutine has ended and no handler is ever called again |
| Catalog.CloneRegions | internal/pia/catalog.go:79-86 | a clone equals the original by value and is made of new memory only |
| Catalog.Store.Lookup | internal/pia/catalog.go:29-34 | a hit exactly when something is cached, verified and 0 <= age < TTL; the answer equals the cache and shares no memory with it |
| Catalog.Store.Publish | internal/pia/catalog.go:70-76 | cache and answer both equal the parsed list and share no memory with it or each other |
| Catalog.CallerMayScribble | internal/pia/catalog.go:79-86 | whatever a caller writes into a list it was given, the cache keeps its value |
| Catalog.StepKeeps | internal/pia/catalog.go:26-77 | every step of every interleaving of ListRegions calls keeps the protocol's invariant |
| Catalog.SingleFlight | internal/pia/catalog.go:26-57 | at most one fetch is in flight, and `refreshing` is set exactly while one is |
| Catalog.NoStrandedWaiter | internal/pia/catalog.go:36-57 | a waiter's channel is closed, or the call that will close it is in flight |
| Catalog.OnlyVerified | internal/pia/catalog.go:58-76 | cache and answers are parses of signature-verified snapshots, and hits were fresh and not empty |
| Catalog.FailureKeepsCache | internal/pia/catalog.go:58-69 | only a verified snapshot that parses changes the cache |
| Catalog.CanAnswer | internal/pia/catalog.go:26-76 | from every reachable state a new, asking or waiting call can be answered, from a fresh cache or with what the source brings now, which is then in the cache |
| Catalog.FlightEnds | internal/pia/catalog.go:50-76 | a call in flight can end on success and on failure; then nothing is outstanding, its channel is closed, the cache holds what was fetched or stays, and no other call is touched |
| Catalog.SharedFetch | internal/pia/catalog.go:26-76 | one fetch serves the call that made it and the call that waited for it |
| Catalog.FreshCacheAnswers | internal/pia/catalog.go:28-34 | a cache that is not empty and younger than the limit answers at once, without a fetch |
| Catalog.AskersJoin | internal/pia/catalog.go:35-43 | without one, whoever asks while a fetch is outstanding waits for it and starts none |
| OutboundManager.EgressServer.SetStack | internal/amneziawgnet/egress.go:79-98 | registers the device and sets the tag's DNS server, or clears it when it normalizes to nothing |
| OutboundManager.EgressServer.Listen | internal/amneziawgnet/egress.go:111-132 | idempotent; the listener is there afterwards unless binding failed |
| OutboundManager.Manager.Ensure | internal/amneziawgnet/outbound_manager.go:101-144 | one tag becomes what `After` says and nothing else changes; the registry still agrees, and the open devices are those of the managed tags |
| OutboundManager.Manager.Remove | internal/amneziawgnet/outbound_manager.go:147-158 | the tag's device is closed and its registration goes, nothing else changes |
| OutboundManager.Manager.StopAll | internal/amneziawgnet/outbound_manager.go:162-171 | no tunnel, no registration and no listener remain |
| OutboundManager.Manager.Reconcile | internal/amneziawgnet/outbound_manager.go:57-97 | the whole pass, with any failures, ends as `Reconciled` says, with registry and manager in agreement; the listener is kept exactly when tunnels are wanted and it could be bound |
| OutboundManager.EachAlone | internal/amneziawgnet/outbound_manager.go:57-97 | for distinct tags each ends as its own step leaves it, whatever becomes of the others, and tags not wanted are gone |
| OutboundManager.Converged | internal/amneziawgnet/outbound_manager.go:101-144 | a tag whose step succeeds has the wanted config, fingerprint and DNS server, and keeps its device if and only if the fingerprint was already right |
| OutboundManager.RunsWantedIff | internal/amneziawgnet/outbound_manager.go:110-122 | after a successful step the device runs the wanted config unless an earlier, half-applied change was undone by asking for the recorded config again |
| OutboundManager.HalfAppliedSurvives | internal/amneziawgnet/outbound_manager.go:110-122 | such a run: the manager reports no change while the device runs a mixture |
| OutboundManager.FailedStep | internal/amneziawgnet/outbound_manager.go:101-144 | a tag that could not be rendered or reconfigured keeps its entry, one that could not be rebuilt has none |
| OutboundManager.Settled | internal/amneziawgnet/outbound_manager.go:57-144 | after full success the same pass changes nothing, however device calls would turn out |
| InboundManager.Manager.Reuse | internal/amneziawgnet/manager.go:156-199 | no-op or reconfigure in place: entry, peer index, forwards, aliases and the device calls made are those specified |
| InboundManager.Manager.Build | internal/amneziawgnet/manager.go:206-246 | device, relay and port-forward set appear together, or are all closed again |
| InboundManager.Manager.Ensure | internal/amneziawgnet/manager.go:133-247 | one id becomes what `After` says, with the device calls of `Effects`, and the open devices, relays and forward sets are those of the managed ids |
| InboundManager.Manager.Remove | internal/amneziawgnet/manager.go:299-310 | the id goes with its device, relay, forwards and aliases, nothing else changes |
| InboundManager.Manager.StopAll | internal/amneziawgnet/manager.go:313-321 | nothing managed remains and all aliases of managed ids are removed |
| InboundManager.Manager.Reconcile | internal/amneziawgnet/manager.go:271-294 | the whole pass, with any failures: resulting ids, host aliases and the device calls, those of the stopped interfaces first, are those specified |
| InboundManager.EachAlone | internal/amneziawgnet/manager.go:271-294 | for distinct ids each starts its step as the pass found it and ends as that step leaves it |
| InboundManager.Converged | internal/amneziawgnet/manager.go:133-294 | a fully successful pass leaves exactly the desired ids, each recorded as wanted, and a device survives if and only if its fingerprint is unchanged |
| InboundManager.RunsWantedIff | internal/amneziawgnet/manager.go:156-186 | after a successful step the device runs the wanted config unless an earlier, half-applied change was undone by asking for the recorded config again |
| InboundManager.HalfAppliedSurvives | internal/amneziawgnet/manager.go:156-186 | such a run, from any healthy interface: the manager reports no change while the device runs a mixture |
| InboundManager.Settled | internal/amneziawgnet/manager.go:112-186 | repeating a fully successful pass makes no IpcSet, no close and no build, and changes nothing |
| InboundManager.DiffedIff | internal/amneziawgnet/v6alias.go:82-127 | the email-keyed diff, adds before removes, turns the old aliases into the new ones if and only if nothing it removes is wanted under another email |
| InboundManager.AliasesKeptIff | internal/amneziawgnet/manager.go:133-247 | a step keeps the host's aliases those the interfaces want, all inbounds together, if and only if it neither removes an alias some email still wants nor closes an interface with aliases of its own and fails to build its successor |
| InboundManager.StopKeptIff | internal/amneziawgnet/manager.go:271-289 | stopping interfaces keeps them so if and only if none of their aliases is wanted by an interface that stays |
| InboundManager.TidyThroughoutIff | internal/amneziawgnet/manager.go:271-294 | the host is right after the stops and after every step of a pass if and only if nothing is lost in that way, whatever aliases inbounds share |
| InboundManager.TidyIff | internal/amneziawgnet/manager.go:271-294 | where no two inbounds have an alias in common, a pass leaves the host right if and only if no interface loses one of its own |
| InboundManager.RenameLosesAlias | internal/amneziawgnet/v6alias.go:82-127 | a peer is renamed and keeps its address: the step succeeds and the alias is gone |
| InboundManager.RenamePassNotTidy | internal/amneziawgnet/manager.go:271-294 | so a pass over that inbound in which every call succeeds leaves the host without it |
| InboundManager.SwapLosesAliases | internal/amneziawgnet/v6alias.go:82-127 | two peers swap addresses: both aliases are gone |
| InboundManager.PassRepairsNothing | internal/amneziawgnet/manager.go:133-294 | once a pass has succeeded, repeating it neither adds nor removes an alias, however its calls turn out |
| InboundManager.StrayIff | internal/amneziawgnet/manager.go:133-247 | a rebuild fails and a later step brings the interface back: what is left over is exactly the old aliases that neither the new instance nor another interface wants |
| ForwardedPorts.ParseForwardedPorts | internal/amneziawg/portfwd.go:20-46 | the token loop returns the valid ranges in order, each once |
| ForwardedPorts.TokenIff | internal/amneziawg/portfwd.go:20-46 | a token counts exactly if it writes ports from 1 to 65535, the first not above the last |
| ForwardedPorts.KeyInjective | internal/amneziawg/portfwd.go:37-43 | the text key used to drop duplicates tells ranges apart |
| ForwardedPorts.ParsedCovers | internal/amneziawg/portfwd.go:20-46 | dropping bad tokens and duplicates changes no membership |
| ForwardedPorts.ForwardedPortsInclude | internal/amneziawg/portfwd.go:85-92 | true exactly when some token of the text covers the port |
| ForwardedPorts.ExpandUpTo | internal/amneziawg/portfwd.go:124-142 | the capped nested loops and the sort return what `Expansion` says |
| ForwardedPorts.ExpansionExact | internal/amneziawg/portfwd.go:108-142 | the expansion is ascending, free of duplicates, covered by the text and of size min(limit, number of covered ports); below the limit it is all of them |
| ForwardedPorts.ExceedsForwardedPortsCap | internal/amneziawg/portfwd.go:117-119 | true exactly when the text covers more than 100 ports |
| ForwardedPorts.PrintParse | internal/amneziawg/portfwd.go:20-70 | distinct ranges printed with commas or semicolons parse back to the same list |
| PortForward.DesiredPeerTargets | internal/amneziawgnet/portfwd.go:115-135 | the peer loop returns what `Targets` says |
| PortForward.HasTarget | internal/amneziawgnet/portfwd.go:115-135 | an email has a target exactly when some peer of that email resolves to an address |
| PortForward.DesiredPortForwardKeys | internal/amneziawgnet/portfwd.go:156-165 | a key is returned exactly when a forwarding peer of its email expands to its port |
| PortForward.ForwardedPortOwner | internal/amneziawgnet/portfwd.go:169-178 | an owner is found exactly when some wanted listener has the port, and both of the owner's listeners are wanted |
| PortForward.WantedIffIncluded | internal/amneziawgnet/portfwd.go:139-165 | for a forwarding peer within the cap, the wanted ports are exactly those the save-time check sees |
| PortForward.PortForwardSet.Reconcile | internal/amneziawgnet/portfwd.go:186-224 | listeners end as the wanted keys that were open or could be bound, kept ones untouched, no socket leaked, and nothing opened when nothing was missing |
| PortForward.PortForwardSet.Close | internal/amneziawgnet/portfwd.go:241-249 | no listener and no open socket remain |
| PortForward.RetryConverges | internal/amneziawgnet/portfwd.go:186-224 | a later pass without bind failures reaches exactly the wanted keys, and listeners from before are untouched |
| PortForward.SettledRound | internal/amneziawgnet/portfwd.go:186-224 | with exactly the wanted listeners open, a pass opens and closes nothing |
| Params.ParsePrintRange | internal/amneziawg/params.go:409-448 | a printed range reads back as its two bounds |
| Params.RangeOkIff | internal/amneziawg/params.go:369-448 | a range field is accepted exactly if it is blank, or printable throughout and writes a range from the minimum to 2^32 - 1 |
| Params.ValidateObfChain | internal/amneziawg/params.go:261-284 | the scanning loop accepts exactly the chains whose every tag is closed, named and known |
| Params.ChainOkIff | internal/amneziawg/params.go:248-284 | the chains, told from the text: stretches without an opening bracket and bracketed tags whose first word is one of the eight known ones |
| Params.ValidateHNoOverlap | internal/amneziawg/params.go:409-426 | accepts exactly when no two header ranges overlap, a blank one counting as its own number |
| Params.NoOverlapMeans | internal/amneziawg/params.go:409-426 | no overlap holds if and only if every header value identifies at most one message type |
| Params.ValidateObfuscation | internal/amneziawg/params.go:168-250 | accepts exactly the sets that meet every stated constraint |
| Params.ValidateServerObfuscation | internal/amneziawg/params.go:147-160 | additionally, exactly those whose padded handshakes fit the smallest receive buffer |
| Params.RenewsInTimeIff | internal/amneziawg/params.go:231-248 | with WireGuard's 120 and 180 seconds for blank fields, an accepted set has every rekey time below every reject time, unless its rekey field is made of blanks and its reject window begins at 120 seconds or earlier |
| Params.BlankRekeySlipsThrough | internal/amneziawg/params.go:231-248 | from any accepted set, one that is accepted and does not renew in time |
| Params.HeadersIdentify | internal/amneziawg/params.go:206-213 | in an accepted set a header value belongs to at most one message type |
| Params.BlankRejectRefused | internal/amneziawg/params.go:233-248 | a reject window of blanks passes its own check but always makes the set refused |
| Params.GenerateHValues | internal/amneziawg/params.go:125-135 | four numbers, each from its own quarter of the header space |
| Params.GenerateObfuscation31 | internal/amneziawg/params.go:51-111 | every set produced lies within the documented bounds |
| Params.HeaderBands | internal/amneziawg/params.go:125-135 | generated headers are single values in disjoint quarters of [5, 2^31 - 1] |
| Params.RekeyMargin | internal/amneziawg/params.go:82-91 | read back, the generated rekey window ends at least 30 seconds before the reject window begins |
| Params.PaddingBounded | internal/amneziawg/params.go:77-80 | read back, the generated content padding is at most 64 |
| Params.GeneratedAccepted | internal/amneziawg/params.go:51-160 | whatever is drawn, the server-side validator accepts the generated set |
| DnsRewrite.LegacyDNSBlockTypes | internal/database/db.go:2149-2165 | the blocked types of a list, number or comma string, in order, without those the core rejects |
| DnsRewrite.BlockTypesMean | internal/database/db.go:2147-2165 | which query types a stored value blocks: a number by its value, a text by the numbers between its commas, a list by its entries, null and booleans none |
| DnsRewrite.RewritesIff | internal/database/db.go:2096-2117 | what is rewritten: exactly the outbounds whose protocol is dns up to case, with a settings object that has a legacy key that is not null |
| DnsRewrite.RewriteLegacyKeys | internal/database/db.go:2085-2134 | the in-place loop rewrites each outbound as `Rewritten` says and reports whether any had legacy keys |
| DnsRewrite.QTypeValueReads | internal/database/db.go:2191-2202 | the encoded query types read back as the same set, a lone 0 included |
| DnsRewrite.RulesKeepPolicy | internal/database/db.go:2167-2202 | first match over the emitted rules answers every query type as the legacy policy did, in every mode |
| DnsRewrite.RewriteKeepsPolicy | internal/database/db.go:2096-2126 | a rewritten outbound loses its legacy keys, keeps all else, keeps its own rules if it had any and otherwise answers every query type as the values of its legacy keys said: blocked types, A and AAAA, and the mode's answer for the rest |
| DnsRewrite.RewriteIdempotent | internal/database/db.go:2085-2134 | rewriting again changes nothing, and other outbounds are left alone |
| DnsRewrite.RepairRules | internal/database/db.go:2249-2256 | the inner loop repairs each rule and reports whether any needed it |
| DnsRewrite.RepairQTypeZero | internal/database/db.go:2235-2268 | the outer loop repairs each dns outbound |
| DnsRewrite.RepairMeans | internal/database/db.go:2233-2256 | a repaired rule names query type 0 where it named every query; no other rule and no action changes |
| DnsRewrite.GeneratedNeedNoRepair | internal/database/db.go:2169-2202 | the repair is a no-op on rules the rewrite emits |
| DnsRewrite.RepairIdempotent | internal/database/db.go:2235-2268 | repairing again changes nothing, nor does repairing an outbound that needs none |
| TrafficHistory.Accumulate | internal/analytics/repository.go:318-341 | the loop over rows with its map of last samples returns what `Fold` says |
| TrafficHistory.QueryTrafficHistory | internal/analytics/repository.go:306-342 | an error exactly for a negative start or an empty range, otherwise the totals of the selected rows in query order |
| TrafficHistory.NonNegative | internal/analytics/repository.go:321-331 | totals are never negative |
| TrafficHistory.Split | internal/analytics/repository.go:321-341 | a counter's contribution can be computed on its own and added to the rest |
| TrafficHistory.InterleavingFree | internal/analytics/repository.go:321-341 | totals do not depend on how counters interleave |
| TrafficHistory.OrderFree | internal/analytics/repository.go:310-341 | nor on the order of rows in the table |
| TrafficHistory.HistoryAdds | internal/analytics/repository.go:306-341 | [a, b] plus [b + 1, c] is [a, c], for the sums and for the clients, inbounds and nodes seen |
| TrafficHistory.Telescopes | internal/analytics/repository.go:321-331 | a counter that never falls contributes its last sample minus the last one before the range, or minus its first |
| TrafficHistory.CounterShare | internal/analytics/repository.go:306-341 | the same within a full query, for uploads and downloads, whatever the other counters do |

## Left out

- Access log: sessions, evidence enrichment and the reconnect of rotated or truncated files; one append-only file is modelled, whose generation stays 0, and no completeness is claimed across rotation.
- Access log: the digest behind the event key is taken to be injective on its four inputs (identity, generation, end offset, line); the parser of a single log line is a parameter.
- Access log: the commit step is enabled whenever the batch is not empty, which covers a full batch, a closed queue and the end of the context; the worker's shutdown deadline and liveness are not modelled.
- UDP relay: the SOCKS5 handshake and datagram codec; packets are not modelled, only sessions.
- Policies: JSON and YAML decoding of definitions and database access are tables and decoded values; address and prefix parsing are parameters of the compiler.
- PolicySchedule.ScheduleActiveIff: zones are fixed offsets in whole minutes; daylight-saving changes are not modelled.
- PolicyDecision.ResolveDecisions: takes the known clients in their order; trimming, de-duplicating, sorting and looking up the emails is not modelled, and the time of a query is the one that was resolved.
- PolicyDecision.ResolveForgetsRowOrder: which of several errors is reported may depend on the row order, so only success and its result are compared.
- Releases: download, checksum verification and asset lookup; whether an asset URL is trusted is a flag of the release.
- Event bus: events lost to a full queue and the promptness of delivery are not claimed; a handler's panic is a normal return.
- Catalog: the HTTP client and the signature check; the monotonic clock's saturation at large ages.
- OutboundManager.Manager.Reconcile: the flush of the tunnel DNS cache and in-flight proxy connections are not modelled; rendering a config is a parameter of the desired entry.
- OutboundManager.Converged: is about distinct tags; with repeated tags only the step-by-step result of Reconcile is stated.
- InboundManager.Converged: is about distinct ids and one rendering and fingerprint per pass; an address becoming bindable between passes is a new desired entry.
- InboundManager.AliasesKeptIff: counts an alias as on the host once asked for and as gone once removed; failing `ip` commands are not modelled. The aliases an instance wants, by email, are a field of it, so the gate that empties them when IPv6 or its interface is off is not modelled.
- InboundManager.TidyIff: is about inbounds without a common alias; `InboundManager.TidyThroughoutIff` has no such condition but speaks of every step, since a later step may put back what an earlier one took.
- Managed entries are map values rather than heap records; they are never shared, so updating in place and replacing the value are the same.
- PortForward: the first IPv4 and IPv6 address of a peer are fields of the peer; the relaying of accepted connections and datagrams is not modelled.
- Params: base64 decoding of the header-protection key is a parameter; which field an error names is not modelled, only acceptance.
- Params.GenerateObfuscation31: the unbounded redraw of S2 gives up after a number of draws that is a parameter, so termination is not claimed for a source of randomness that always repeats.
- DnsRewrite: JSON numbers are integers, and the text Go prints for a nested list or object is a parameter; parsing and re-indenting the stored text are left to the JSON library.
- TrafficHistory.HistoryAdds: assumes unique row ids and scopes without a NUL character (`TrafficHistory.CounterInjective` says why); the destination breakdown of the same query is left out.
- Strings are sequences of characters: lower-casing is ASCII only, and no Unicode normalisation is modelled.
- HTTP handlers, subscription rendering, mtproto and Xray process control, migrations other than the dns rewrite, the frontend and the command line: they drive the parts above from requests, timers and processes and hold no state of these protocols.
