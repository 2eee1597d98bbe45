# OpenAlgo: stateful core, modelled and proved in Dafny

This project models six stateful parts of OpenAlgo and proves properties of
them over every run. Code that updates state in place is a class here, with the
same steps in the same order and a specification beside it; the properties are
lemmas about the specification, and the `ensures` of the methods connect the
two.

* **Workflow lifecycle** (`FlowTrigger.dfy`, `FlowLifecycle.dfy`). Activate,
  deactivate, PUT, replace and delete keep a stored active flag in step with the
  scheduler, the price alerts and the order watches. Every database write,
  registration and removal may fail, may raise, and may report failure although
  it took effect; the method that models the call writes that into a fault log,
  and nothing else does.  The state after every such call is kept in a ghost
  history, so a statement about the history is one about every point where the
  process may stop.  `undoFailed` holds the workflows for which a removal whose
  failure the code ignores left something armed, `misread` those with a changed
  trigger that a save did not see.  A workflow is in one of them exactly as long
  as what is armed is not what its stored graph says, and each contract says
  which fault or which save puts it there.
* **Chartink order processor** (`OrderProcessor.dfy`). Two queues, smart orders
  first, and a ten-stamp deque that limits regular orders, over an integer clock
  and with orders queued at any time.
* **MCP quota, dispatcher and audit file** (`ToolDispatch.dfy`, `AuditLog.dfy`;
  the window arithmetic shared with the order processor is in
  `SlidingWindow.dfy`).
* **Agent turns** (`TurnRecorder.dfy`, `RunOptions.dfy`). The recorder with its
  aliased tool entries, the stream it listens to and the turn it stores; run
  options across a pause.
* **Logs and .env** (`ErrorLog.dfy`, `ErrorGroups.dfy`, `EnvFile.dfy`, over
  `TextLines.dfy` and, for a file that is read with newline translation and split
  at every line break, `FileLines.dfy`).
* **Login session** (`LoginSession.dfy`) and **expiry codes**
  (`ExpiryCodes.dfy`).

`Wrappers.dfy` and `Whitespace.dfy` hold the optional value and `strip()`.

## Where the code does less than it says

Each of these comes with an input, as a lemma or as a run, and, where a caller
could check one, with the exact condition under which the code does meet the
promise.

* `blueprints/chartink.py:115` promises up to 10 regular orders a second. Stamps
  are taken before the rate check and posts start later, so 11 accepted posts
  can start in one second (`ElevenPostsInOneSecond`; 11 is the bound). That takes
  a post that straddles the start of the second, stamped before and started
  after (`TenUnlessStraddled`, and exactly in `ElevenExact`). Posts the broker does not accept
  leave no stamp and are not limited (`RejectedPostsUnlimited`, `AttemptBound`).
* `blueprints/flow.py:284-292`: the read before a PUT answers `None` when it
  fails, the workflow then counts as inactive, and the old registration stays
  armed for the new graph (`UnseenSaveRun`). A save that re-arms nothing is
  right exactly when the workflow is inactive, nothing is armed or both graphs
  arm the same (`AfterSave`, in the contracts of `Update` and `Replace`).
* `services/flow_workflow_validator.py:1657-1662` says that graphs with equal
  trigger configuration can be swapped. A plain PUT accepts several trigger
  nodes; the comparison sees the last one of each kind and the first one is
  armed. So a saved graph can hide its trigger (`ShadowedTriggerComparesEqual`),
  and so can the stored one (`StoredShadowComparesEqual`, `HiddenTriggerRun`).
  `ComparisonExact` gives the exact condition on the pair, `UnshadowedDecides`
  the one on each graph when the other hides nothing, and `SafeForEveryStored`
  the saved graphs that are safe over any stored one.
* `database/flow_db.py:271-283`: a write that fails after its commit is reported
  as not found or as an error although it is there (`TornSaveRun`). Flag and registrations stay
  safe all the same; what such a write leaves behind is in each contract.
* `blueprints/admin.py:1124-1126`: after an empty-string timestamp `first_seen`
  starts over (`FirstSeenWrong`, `FirstSeenExact`). One group's fold fails exactly
  when it opens with a truthy timestamp of another type and later meets a string
  (`MixedPairFails`, `FoldFailsExact`).
* `blueprints/admin.py:1064-1083`: an entry with a level that is no text, or with
  a lone surrogate in its message, has no fingerprint and makes the grouping of
  the whole file fail (`NamelessEntriesFail`, `FingerprintFailsExact`).
* `blueprints/admin.py:2270`: the key pattern accepts a key with a final
  newline, which can then never be read back.
* `blueprints/admin.py:2306`: of all line breaks the value check refuses the
  newline only, while the next read also breaks lines at nine other characters. A
  value with one of them does not read back, each repetition of the edit makes
  the file longer, and what follows the break may set another key
  (`ReturnSetsAnotherKey`). `ReadsBackExact`, `SetIsIdempotent`,
  `KeepsOtherExact` and `SetIsMapUpdate` give the exact conditions.
* `utils/env_check.py:395-396` says that the file's line endings are preserved.
  The edit reads the file with newline translation first, so carriage returns
  are gone after it (`ReturnsAreLost`).
* `blueprints/agent.py:1922`: a second start with the same id takes over, and
  the first call's entry stays open for good (`RestartOrphansFirstCall`).
* `blueprints/agent.py:2266-2293`: a resumed turn takes its options from the last
  message the person wrote, not from the one that opened it. A turn opened with
  the web off may reach the web after a newer message (`NewerMessageLiftsSwitch`),
  when its own row is missing (`MissingOpeningLiftsSwitch`) or when the
  conversation cannot be read (`UnreadRowLosesSwitch`);
  `SwitchStaysOffExact` says exactly when the switch stays off.

## Model

| member | source | states |
|---|---|---|
| `FlowTrigger.SameConfigSameRegistration` | services/flow_workflow_validator.py:1657-1676 | two one-trigger graphs with equal trigger configuration arm the same registration |
| `FlowTrigger.ComparisonExact` | services/flow_workflow_validator.py:1663-1676 | for every stored and every saved graph, treating equal configuration as equal registration is right if and only if the configurations differ or the first trigger nodes agree on their kind's fields, defaults filled in |
| `FlowTrigger.UnshadowedDecides` | blueprints/flow.py:292-313 | of two graphs that compare equal, once one hides no trigger they arm the same if and only if the other hides none either |
| `FlowTrigger.SafeForEveryStored` | services/flow_workflow_validator.py:1663-1676 | a saved graph is safe to compare whatever was stored if and only if its triggers are all webhooks |
| `FlowTrigger.OneTriggerUnshadowed` | services/flow_workflow_validator.py:1445-1457 | a graph with at most one trigger, which strict validation demands, hides none |
| `FlowTrigger.AtMostOneExact` | services/flow_workflow_validator.py:1445-1457 | at most one trigger means that no two nodes of the graph are triggers |
| `FlowTrigger.RegistrationExact` | blueprints/flow.py:400-465 | two trigger nodes arm the same registration if and only if both arm nothing, or they are of one kind and agree on each of its fields with its default |
| `FlowTrigger.AlertHolds` | blueprints/flow.py:439-455 | a price alert is handed the node's own values and, where it has none, the literal defaults; a missing or falsy price is 0 |
| `FlowTrigger.WatchHolds` | blueprints/flow.py:457-465 | an order watch is handed the node's order, symbol and exchange where they are present and truthy and nothing otherwise, and its status and repetition or their defaults |
| `FlowTrigger.JobHolds` | blueprints/flow.py:415-432 | a start is scheduled if and only if its schedule type is present, truthy and not manual, with its own values or the defaults |
| `FlowTrigger.WebhookHolds` | blueprints/flow.py:415-465 | every other trigger arms nothing |
| `FlowTrigger.ShadowedTriggerComparesEqual` | blueprints/flow.py:372-381 | a saved graph that compares equal and arms something else: a manual start in front of the stored daily one |
| `FlowTrigger.StoredShadowComparesEqual` | blueprints/flow.py:372-381 | the other way round: the stored graph arms a daily start it hides behind a manual one, and the manual one alone compares equal |
| `FlowTrigger.ConfigShape` | services/flow_workflow_validator.py:1667-1675 | the configuration has one entry per trigger kind in the graph, and the last trigger's entry holds that node's fields |
| `FlowTrigger.ConfigEntry` | services/flow_workflow_validator.py:1667-1675 | each kind's entry holds exactly the compared fields of the last node of that kind |
| `FlowTrigger.TriggerNodeFacts` | blueprints/flow.py:372-381 | the armed node is the first trigger of the graph, and none is found only when there is none |
| `FlowTrigger.SameConfigSameNodeRegistration` | blueprints/flow.py:400-465 | every field a registration is built from is one the comparison looks at |
| `FlowLifecycle.UnseenSaveGoesStale` | blueprints/flow.py:284-292 | a save that looks for no change can leave the old schedule running for a new graph |
| `FlowLifecycle.UnseenSaveRun` | blueprints/flow.py:213-331 | a run from an empty service whose only failing call is the read before the save: it ends with the old schedule armed for the new graph |
| `FlowLifecycle.HiddenTriggerRun` | blueprints/flow.py:213-331 | a run without any failing call that ends with a daily job armed for a manual graph |
| `FlowLifecycle.TornSaveRun` | database/flow_db.py:271-283 | a run whose save is reported as not found although the new graph is there, with the old schedule armed |
| `FlowLifecycle.EqualSaveGoesStale` | blueprints/flow.py:292 | so can a save that looks, when the stored graph hides the trigger that is armed |
| `FlowLifecycle.InStepExact` | blueprints/flow.py:400-465 | in step means that nothing is armed, or that the row is there and active and exactly what its graph asks for is armed, in the registry of its kind |
| `FlowLifecycle.FlowService.Load` | blueprints/flow.py:206-210 | a row that is read is the stored one; a failed read looks like a missing row and is logged |
| `FlowLifecycle.FlowService.SaveRow` | database/flow_db.py:244-283 | a write changes its one field or nothing, may report failure after it was applied, touches no other workflow, and is logged when it was lost or torn |
| `FlowLifecycle.FlowService.DeleteRow` | database/flow_db.py:286-309 | the same of a deletion |
| `FlowLifecycle.FlowService.RemoveJob` | services/flow_scheduler_service.py:269-303 | without strict a failed removal is silent and strands the workflow, with it a return means that the job is gone |
| `FlowLifecycle.FlowService.RemoveAlert` | services/flow_price_monitor_service.py:165-180 | a removal that keeps the alert raises, and strands the workflow only where the exception is caught |
| `FlowLifecycle.FlowService.AddJob` | blueprints/flow.py:421-432 | a job that is added replaces the previous one; a failed call may leave old, new or none |
| `FlowLifecycle.FlowService.RegisterTrigger` | blueprints/flow.py:400-465 | on an active row, success from a clean slate arms exactly what the node asks for and failure arms nothing else; safe after every step |
| `FlowLifecycle.FlowService.UnregisterTrigger` | blueprints/flow.py:384-397 | a return means that none of the three kinds is armed; an exception leaves a subset |
| `FlowLifecycle.FlowService.ReregisterTrigger` | blueprints/flow.py:468-486 | a return means that exactly what the stored graph asks for is armed |
| `FlowLifecycle.FlowService.UndoArming` | blueprints/flow.py:503-512 | each of the three registrations is still there if and only if its own removal was lost, and then the workflow is stranded |
| `FlowLifecycle.FlowService.RollbackActivation` | blueprints/flow.py:489-515 | the row stays active if and only if the write of the flag was lost, and something stays armed only where its removal was lost |
| `FlowLifecycle.FlowService.Create` | blueprints/flow.py:68-150 | a new workflow is inactive and arms nothing |
| `FlowLifecycle.FlowService.Activate` | blueprints/flow.py:518-581 | success arms exactly what the stored graph asks for; after a failure the flag is set if and only if its write was torn or its clearing lost, and flag and registrations are as they were when no removal was lost either; without faults it succeeds if and only if the checks pass |
| `FlowLifecycle.FlowService.ArmNow` | blueprints/flow.py:543-581 | the flag is written before anything is armed, so every intermediate state is safe |
| `FlowLifecycle.FlowService.Deactivate` | blueprints/flow.py:584-638 | success leaves the row inactive with nothing armed; a failure leaves it active and repeatable, or already stood down when the write was torn; without faults it succeeds |
| `FlowLifecycle.FlowService.Disarm` | blueprints/flow.py:602-629 | the flag stays set until everything is disarmed |
| `FlowLifecycle.FlowService.Update` | blueprints/flow.py:213-331 | a trigger seen to change on an active workflow ends freshly armed, or reported and, short of a lost undo, inactive with nothing armed; otherwise nothing is touched, which is right if and only if the workflow is inactive, nothing is armed or both graphs arm the same |
| `FlowLifecycle.FlowService.SaveAndRearm` | blueprints/flow.py:284-313 | the write and the re-arming, given the row read before the write |
| `FlowLifecycle.FlowService.RearmIfChanged` | blueprints/flow.py:292-313 | after a change was seen the workflow is re-armed, or reported and stood down up to the calls that were lost |
| `FlowLifecycle.FlowService.Replace` | blueprints/flow.py:1237-1345 | the same of replace, which never leaves a workflow misread when the stored graph hid no trigger |
| `FlowLifecycle.FlowService.Delete` | blueprints/flow.py:334-366 | success removes the row; of an active workflow only the job can stay armed, and only when its removal was lost; an inactive one has nothing armed; without faults it succeeds |
| `FlowLifecycle.FlowService.TearDown` | blueprints/flow.py:352-356 | three removals, after which only the job can be armed, and only when its removal was lost |
| `FlowLifecycle.FlowService.Fire` | services/flow_price_monitor_service.py:512-548 | a trigger that ran only shrinks what is armed; a one-shot alert or watch is removed and then the active flag cleared, and without faults both happen |
| `FlowLifecycle.FlowService.Handle` | blueprints/flow.py:213-638 | one request touches its own workflow only and leaves each workflow excused exactly as long as it is not in step |
| `FlowLifecycle.FlowService.Serve` | blueprints/flow.py:213-638 | over every run: a workflow none of whose lost removals was ignored had at any recorded point nothing armed unless its row was there and active; if also no read that a PUT compares with failed, no graph write was torn and its graphs had one trigger each, what is armed is what its graph says |
| `SlidingWindow.WindowBound` | blueprints/mcp_http.py:129-138 | a history in which stamps `limit` positions apart are more than a window apart has at most `limit` stamps in every closed window |
| `SlidingWindow.AdmissionKeepsSpacing` | blueprints/mcp_http.py:135-138 | admitting while fewer than `limit` are in the window keeps the history spaced |
| `SlidingWindow.PrunedLengthIsCount` | blueprints/mcp_http.py:132-135 | the length of the pruned list is the number of stamps the whole history has in the window |
| `SlidingWindow.Prune` | blueprints/mcp_http.py:132-134 | the pop loop drops a prefix of stamps older than the cutoff and nothing else |
| `OrderProcessor.RunKeeps` | blueprints/chartink.py:79-157 | every interleaving keeps queue order, the timeline, smart-first, and the spacing of stamps |
| `OrderProcessor.RateBounds` | blueprints/chartink.py:115-139 | at most 10 recorded stamps and at most 11 accepted regular posts in any closed second of any run |
| `OrderProcessor.ElevenPostsInOneSecond` | blueprints/chartink.py:115-139 | a run in which 11 accepted posts start in one second, so the bound is tight |
| `OrderProcessor.TenUnlessStraddled` | blueprints/chartink.py:115-139 | at most 10 accepted posts start in every second that no accepted post straddles |
| `OrderProcessor.ElevenExact` | blueprints/chartink.py:115-139 | 11 accepted posts start in a second if and only if one straddles its start and the tenth after that one still starts within it |
| `OrderProcessor.AttemptBound` | blueprints/chartink.py:128-145 | counting posts that were not accepted, the bound of 10 is exceeded by at most their number |
| `OrderProcessor.AttemptsInWindow` | blueprints/chartink.py:134-145 | every regular post in a window is either a stamped one or one that was not accepted |
| `OrderProcessor.RejectedPostsUnlimited` | blueprints/chartink.py:140-145 | any number of rejected posts fits into one second |
| `OrderProcessor.PauseAfterSmart` | blueprints/chartink.py:108-109 | posts never overlap, and none starts within a second after a smart post ended |
| `OrderProcessor.SmartFirstExact` | blueprints/chartink.py:83-127 | over every run and in terms of what was queued alone: a pass that posts a regular order finds every smart order queued until its check already posted, and a pass that finds one that is not posts the oldest of them |
| `OrderProcessor.PassWithSmart` | blueprints/chartink.py:86-110 | a pass with a smart order pending at its check posts the oldest one, and a second passes after its response |
| `OrderProcessor.PassWithoutSmart` | blueprints/chartink.py:112-151 | a pass without one posts the oldest regular order if and only if there is one and fewer than 10 accepted stamps lie in the last second, and sleeps a tenth of a second otherwise |
| `OrderProcessor.QueuedByEndpoint` | blueprints/chartink.py:176-179 | the smart queue gets exactly the orders for placesmartorder |
| `OrderProcessor.SmartOrdersGoFirst` | blueprints/chartink.py:87-112 | the count of smart orders recorded with a regular post is the number posted before it |
| `OrderProcessor.NothingLostOrResent` | blueprints/chartink.py:83-179 | per queue, the attempted orders followed by the pending ones are the queued orders in order |
| `OrderProcessor.BackoffBounded` | blueprints/chartink.py:146-151 | at most 11 rate-limited sleeps can be left at any time |
| `OrderProcessor.SleepShortensBackoff` | blueprints/chartink.py:149-151 | each rate-limited sleep uses up one of them |
| `OrderProcessor.QuietStepProgress` | blueprints/chartink.py:83-151 | with nothing newly queued every pass lowers the termination measure, and empty queues stay empty |
| `OrderProcessor.Drains` | blueprints/chartink.py:83-151 | once queueing stops both queues are empty after smart + 12 * regular + 11 passes |
| `OrderProcessor.Processor.EnsureOrderProcessor` | blueprints/chartink.py:161-169 | at most one processor thread is ever started |
| `OrderProcessor.Processor.QueueOrder` | blueprints/chartink.py:172-179 | an order goes to the end of the queue its endpoint names |
| `OrderProcessor.Processor.Interleave` | blueprints/chartink.py:172-179 | orders queued by other threads between two steps arrive in order |
| `OrderProcessor.Processor.Pass` | blueprints/chartink.py:82-151 | one pass over queues and deque does what the history-counting specification says |
| `OrderProcessor.Processor.PostSmart` | blueprints/chartink.py:86-110 | the oldest smart order is posted and a second is slept, whatever the response |
| `OrderProcessor.Processor.PruneStamps` | blueprints/chartink.py:117-121 | after the pruning the deque's length is the number of stamps of the last second in the whole run |
| `OrderProcessor.Processor.PostRegular` | blueprints/chartink.py:123-151 | a regular order is posted exactly when fewer than 10 stamps of the whole run lie in the last second and one is pending |
| `OrderProcessor.Processor.SendRegular` | blueprints/chartink.py:125-145 | only an accepted post records its stamp, and the deque of 10 never overflows |
| `OrderProcessor.Processor.ProcessOrders` | blueprints/chartink.py:79-157 | the loop refines the specified run |
| `ToolDispatch.QuotaBound` | blueprints/mcp_http.py:118-138 | every closed interval of the window's length holds at most `count` admissions of a token and scope |
| `ToolDispatch.AdmittedIsSpaced` | blueprints/mcp_http.py:132-138 | admissions are in order and spaced out |
| `ToolDispatch.HoldersAreIndependent` | blueprints/mcp_http.py:130-131 | admissions of one token and scope are those on the calls projected to it |
| `ToolDispatch.DecisionsProject` | blueprints/mcp_http.py:130-138 | so is every single decision |
| `ToolDispatch.GrantedAreAdmitted` | blueprints/mcp_http.py:624-649 | tool runs, holder by holder, are the admissions |
| `ToolDispatch.ToolRunBound` | blueprints/mcp_http.py:618-633 | no token gets more than `count` tool runs of a scope into any window |
| `ToolDispatch.ScopeBounds` | blueprints/mcp_http.py:126-138 | in any window no token gets more order calls than the write setting says, and no more market or account calls than the read setting says |
| `ToolDispatch.ScopeLimits` | blueprints/mcp_http.py:126 | the order scope has the write setting, the other two the read setting |
| `ToolDispatch.ContainsExact` | blueprints/mcp_http.py:126 | the substring test finds every occurrence |
| `ToolDispatch.BucketDecides` | blueprints/mcp_http.py:129-138 | the pruned bucket decides as the full history does, never exceeds `count`, and stays a refinement of it |
| `ToolDispatch.QuotaStep` | blueprints/mcp_http.py:130-137 | a check touches its own bucket only |
| `ToolDispatch.KeyInjective` | blueprints/mcp_http.py:130 | the joined key names one bucket per token and scope, for the scopes of the catalogue |
| `ToolDispatch.KeyCollides` | blueprints/mcp_http.py:130 | it would not if a scope contained the separator |
| `ToolDispatch.Server.WithinScopeQuota` | blueprints/mcp_http.py:118-138 | admits exactly when fewer than `count` earlier admissions lie in the window |
| `ToolDispatch.Server.Dispatch` | blueprints/mcp_http.py:572-693 | each refusal is given if and only if its own condition on the request holds, in the code's order; a call refused before the quota touches neither buckets nor log; a call that is run was granted its scope and leaves one entry with its token, client, tool, scope, arguments and outcome |
| `ToolDispatch.Server.Serve` | blueprints/mcp_http.py:572-693 | over every sequence of requests the tool runs are the calls the quota grants on the full history of those that reached it, each comes from a request that was granted its scope, and the audit entries are theirs, one for one and in order |
| `AuditLog.Log.Append` | blueprints/mcp_http.py:362-386 | the file is a suffix of all entries appended, holds at least the last 5000 or all, and ends at most 2,000,000 bytes or 5000 lines long |
| `AuditLog.Log.Trim` | blueprints/mcp_http.py:372-380 | a trim keeps exactly the last 5000 entries and leaves a shorter file alone |
| `TurnRecorder.OpenCalls` | blueprints/agent.py:1915-1927 | exactly the ids whose last frame is a start are open, each at the entry that start made; entries count starts plus unmatched ends |
| `TurnRecorder.StartedCall` | blueprints/agent.py:1915-1930 | a started call has one entry for good, and the entry's outcome is that of the end which follows directly among the frames about its id, if any |
| `TurnRecorder.UnmatchedEnd` | blueprints/agent.py:1925-1930 | an end that completes nothing keeps an entry of its own |
| `TurnRecorder.RestartOrphansFirstCall` | blueprints/agent.py:1922-1924 | a second start with the same id leaves the first entry open for good |
| `TurnRecorder.ProseIsTokens` | blueprints/agent.py:1948-1950 | the prose is every token in order |
| `TurnRecorder.ChartsAndUsage` | blueprints/agent.py:1931-1941 | the first four charts and the last usage total are kept |
| `TurnRecorder.NoticesAndPause` | blueprints/agent.py:1942-1946 | every notice, error and confirm is kept in order, and a turn is paused if and only if it saw a confirm |
| `TurnRecorder.SessionIsLastStart` | blueprints/agent.py:1912-1914 | run and session are those of the last start frame, and empty without one |
| `TurnRecorder.MarkupIsUi` | blueprints/agent.py:1910-1911 | the markup is every ui delta in order |
| `TurnRecorder.StoredRow` | blueprints/agent.py:1948-1974 | what is stored of any turn, told by its frames: prose, entries, and beside them notices, first four charts, joined markup, last usage and run id, in this order |
| `TurnRecorder.ContentExact` | blueprints/agent.py:1976-1978 | a turn is worth storing if and only if some frame was neither a start nor unknown |
| `TurnRecorder.DeliveredExact` | blueprints/agent.py:1998-2007 | as many chunks get through as are there and asked for, up to the first data line that holds no object |
| `TurnRecorder.Recorder.Observe` | blueprints/agent.py:1901-1946 | the recorder with aliased entries refines the pure fold for every frame sequence |
| `TurnRecorder.Recorder.StartTool` | blueprints/agent.py:1915-1922 | a start adds one entry, reachable from the list and from the open calls |
| `TurnRecorder.Recorder.EndTool` | blueprints/agent.py:1923-1930 | an end completes the open call with its id or adds an entry of its own |
| `TurnRecorder.Recorder.CompleteTool` | blueprints/agent.py:1924-1930 | completing the popped entry changes its one place in the list and no other |
| `TurnRecorder.Recorder.ObservePart` | blueprints/agent.py:1908-1946 | the other frames change what the fold changes and no tool |
| `TurnRecorder.Conversation.PersistTurn` | blueprints/agent.py:2012-2034 | the session is bound and the turn stored, as far as the database calls before it did not raise; nothing is raised |
| `TurnRecorder.RecordStream` | blueprints/agent.py:1981-2034 | chunks pass through untouched and in order; however a started stream ends the turn seen so far is persisted, for every pattern of database failures; without one the conversation ends bound to the session of the last start passed on and the row carries that start's run id |
| `TurnRecorder.Relay` | blueprints/agent.py:1998-2007 | the frames recorded are those of the chunks passed on; a data line holding no object ends the stream |
| `RunOptions.RuntimeLines` | blueprints/agent.py:2101-2125 | the lines are the first ten of all scalar items' lines |
| `RunOptions.RenderedIsBounded` | blueprints/agent.py:2117-2125 | at most 10 lines of at most 162 characters |
| `RunOptions.LineExact` | blueprints/agent.py:2122 | a line is at most 40 characters of the key, a colon and a blank, and at most 120 characters of the value |
| `RunOptions.EncodeExact` | blueprints/agent.py:2348-2359 | the switch is stored as an explicit false and only when it is off, effort and lines only where there are any |
| `RunOptions.LegacyRowAllowsWeb` | blueprints/agent.py:2377-2394 | a row without the switch, or without options, allows the web |
| `RunOptions.RecoveredIsBounded` | blueprints/agent.py:2381-2393 | whatever a row holds, what is recovered is a known effort or none and at most 10 lines of at most 200 characters |
| `RunOptions.RoundTrip` | blueprints/agent.py:2348-2394 | effort, lines and web switch come back as they were stored, whatever else is stored beside them |
| `RunOptions.ResumeKeepsOpening` | blueprints/agent.py:2684-2696 | however often a turn is resumed, it gets the request's effort and lines where it brings its own and the ones found otherwise, and the web only if both allow it |
| `RunOptions.StoredOptions` | blueprints/agent.py:2285-2293 | what is found: the options of the latest message since the opening, else the opening's when its row is stored and within the 500 rows read, else those of an earlier message, else none |
| `RunOptions.SwitchStaysOffExact` | blueprints/agent.py:2688-2696 | a turn opened with the web off stays off for every request if and only if the conversation can be read and the latest message since was sent with the web off too or, without one, the opening is stored and among the rows read, or else an earlier message was sent with the web off |
| `RunOptions.NewerMessageLiftsSwitch` | blueprints/agent.py:2290-2293 | a turn opened with the web off that may reach the web after a newer message |
| `RunOptions.MissingOpeningLiftsSwitch` | blueprints/agent.py:2590-2597 | a turn opened with the web off that may reach the web because its row was not stored |
| `RunOptions.UnreadRowLosesSwitch` | blueprints/agent.py:2285-2293 | with an unreadable conversation the request alone decides |
| `RunOptions.LastUserStays` | blueprints/agent.py:2290-2293 | rows the person did not write do not change which row is recovered |
| `ErrorLog.TailIsLinesAfterCut` | blueprints/admin.py:748-770 | the tail read returns exactly the lines starting after the cut offset, all lines when nothing is cut |
| `ErrorLog.PlacedAreLines` | blueprints/admin.py:765-766 | the offsets are right: each is a line of the file, from one newline to the next |
| `ErrorLog.PlacedTexts` | blueprints/admin.py:766 | the placed lines are the lines of the text |
| `ErrorLog.ScanBackwards` | blueprints/admin.py:813-832 | the early-exit reverse scan returns the last `limit` matching entries in file order, having looked no further back than needed |
| `ErrorLog.ClampLimit` | blueprints/admin.py:794-798 | the limit from 1 to 200 that is nearest to the requested one, so a limit in range is kept, and 100 for none |
| `ErrorLog.ListErrors` | blueprints/admin.py:790-834 | both together over any file, with the total of the window |
| `ErrorGroups.GroupErrors` | blueprints/admin.py:1104-1135 | one group per fingerprint, folded from exactly its entries; counts add up to the entries; fails if and only if some entry has no fingerprint or some group is mixed |
| `ErrorGroups.FingerprintFailsExact` | blueprints/admin.py:1064-1083 | an entry has no fingerprint if and only if its level, logger or module is a truthy value that is no text, or a part holds a lone surrogate |
| `ErrorGroups.FingerprintSeparates` | blueprints/admin.py:1068-1083 | entries with one fingerprint agree in all four parts, as far as the digest keeps texts apart and the first three parts hold no bar |
| `ErrorGroups.BarsCollide` | blueprints/admin.py:1083 | with a bar inside a part two different entries have one fingerprint |
| `ErrorGroups.NamelessEntriesFail` | blueprints/admin.py:1083 | two files that fail so although no group is mixed |
| `ErrorGroups.FoldCounts` | blueprints/admin.py:1123 | a group's count is the number of its entries |
| `ErrorGroups.CountsConserved` | blueprints/admin.py:1105-1123 | group counts add up to the number of entries |
| `ErrorGroups.LastSeenAndSample` | blueprints/admin.py:1127-1135 | last_seen is the latest string timestamp and the sample is the last entry in file order that carries it |
| `ErrorGroups.FirstSeenEarliest` | blueprints/admin.py:1125-1126 | first_seen is the earliest string timestamp when none is empty |
| `ErrorGroups.FirstSeenExact` | blueprints/admin.py:1125-1126 | it is the earliest if and only if none is empty or the last string timestamp is |
| `ErrorGroups.FirstSeenAfterLast` | blueprints/admin.py:1125-1126 | after an empty timestamp first_seen is the earliest string since the last empty one |
| `ErrorGroups.FirstSeenWrong` | blueprints/admin.py:1125-1126 | three entries for which first_seen ends as the latest timestamp |
| `ErrorGroups.FoldFailsExact` | blueprints/admin.py:1125-1133 | the comparison raises if and only if a group opens with a truthy timestamp of another type and later meets a string |
| `ErrorGroups.MixedPairFails` | blueprints/admin.py:1125 | a pair of entries for which it raises |
| `ErrorGroups.NoText` | blueprints/admin.py:1112-1124 | without a string timestamp a group keeps what its first entry said |
| `EnvFile.SetIsMapUpdate` | blueprints/admin.py:2309-2333 | for every two accepted keys: under first-match lookup the edit is a map update on every file if and only if the key reads back, or the other key is not assigned by the written line |
| `EnvFile.KeepsOtherExact` | blueprints/admin.py:2313-2326 | every file keeps what it says about another key if and only if the written line, read back, does not assign that key |
| `EnvFile.CleanInjectsNothing` | blueprints/admin.py:2306-2309 | the line of a well-formed key and a value without line break assigns no other key |
| `EnvFile.ReturnSetsAnotherKey` | blueprints/admin.py:2306-2314 | a value with a carriage return sets another key, and one more line with every repetition |
| `EnvFile.ReturnsAreLost` | blueprints/admin.py:2313-2333 | after the edit only the value can have brought a carriage return into the file |
| `EnvFile.SetIsIdempotent` | blueprints/admin.py:2309-2333 | for every file, repeating the edit changes no byte if the key has no final newline and the value no line break, and makes the file longer otherwise |
| `EnvFile.MatchUnique` | blueprints/admin.py:2315-2318 | a line assigns at most one key |
| `EnvFile.ReadsBackExact` | blueprints/admin.py:2270-2326 | for every file, an accepted key reads back if and only if it has no final newline and the value no line break |
| `EnvFile.LinesAfter` | blueprints/admin.py:2313-2333 | what the next read makes of the file: the lines there were, with the written line, as it is read back, in place of the first match or at the end |
| `EnvFile.AcceptedExact` | blueprints/admin.py:2270-2305 | which keys pass: capitals, digits and underscores with a capital first, and possibly one newline after them |
| `EnvFile.StorableExact` | blueprints/admin.py:2306-2307 | which values pass: those without quote, backslash and newline |
| `EnvFile.NewLineExact` | blueprints/admin.py:2309 | the line that is written |
| `EnvFile.MatchesExact` | blueprints/admin.py:2315-2318 | a line matches a key if and only if it holds blanks, the key, blanks and an equals sign, and assigns what follows |
| `EnvFile.LookupIsFirst` | blueprints/admin.py:2317-2321 | the first line that matches decides |
| `EnvFile.SetLinesFound` | blueprints/admin.py:2317-2321 | with a match exactly the first matching line is replaced |
| `EnvFile.SetLinesMissing` | blueprints/admin.py:2323-2326 | without one the new line is added after the last line, which gets the newline it lacks |
| `FileLines.LineEndsRead` | blueprints/admin.py:2313-2314 | the line ends that reading and splitting know |
| `EnvFile.EnvPath.SetEnvValue` | blueprints/admin.py:2292-2333 | the loop over the lines of the translated text makes the specified edit, malformed keys, forbidden values and a missing file are refused in that order, and a refusal changes nothing |
| `LoginSession.CodeAuthorizes` | blueprints/auth.py:418-457 | a right code at most 300 seconds after the password step authorizes its user |
| `LoginSession.PasswordCounts` | blueprints/auth.py:319-357 | a password step authorizes its user, or leaves it awaiting the code when one is due |
| `LoginSession.Session.PasswordLogin` | blueprints/auth.py:276-382 | each reply is given if and only if its own condition holds, so past the first three a right password always gets in or is parked for the code, and a wrong one never does |
| `LoginSession.Session.LoginRedirect` | blueprints/auth.py:384-398 | a GET can end a session but never start one, and redirects by its state alone |
| `LoginSession.Session.TotpLogin` | blueprints/auth.py:401-473 | the parked user is promoted if and only if the step is at most 300 seconds old and the code right; each refusal has its own condition, and a wrong code keeps the user parked |
| `LoginSession.Session.TryResume` | blueprints/auth.py:189-273 | logs in if and only if the stored token is there, not revoked, readable and passed by the broker and the handler does not raise; a raising handler leaves nobody logged in |
| `LoginSession.Session.LogOut` | blueprints/auth.py:1312-1381 | a cross-site request changes nothing, any other wipes the session |
| `LoginSession.Session.Serve` | blueprints/auth.py:276-473 | in every reachable state user and parked user exclude each other, logged in implies a user, and a user implies the password since the last wipe and, if it was due, the code at most 300 seconds later |
| `ExpiryCodes.SortedExpiryCodes` | blueprints/flow.py:1531-1560 | the loop, the deduplication and the sort are the specified result |
| `ExpiryCodes.NothingLost` | blueprints/flow.py:1540-1560 | every nonblank string entry is in the result, and nothing twice |
| `ExpiryCodes.ResultMembers` | blueprints/flow.py:1540-1560 | the result holds the entries' codes and nothing else |
| `ExpiryCodes.Chronological` | blueprints/flow.py:1553-1560 | dated codes come first and strictly in calendar order, the others last in the order first seen |
| `ExpiryCodes.OrderIndependent` | blueprints/flow.py:1531-1560 | the dated part depends neither on the order of the entries nor on repetitions |
| `ExpiryCodes.Idempotent` | blueprints/flow.py:1531-1560 | running the result through again changes nothing |
| `ExpiryCodes.CodeReadsBack` | blueprints/flow.py:1551-1555 | the sort key reads a code as the date it was made from, up to the century the two digits stand for |
| `ExpiryCodes.FormsRead` | blueprints/flow.py:1545-1551 | what each of the four forms is read as |
| `ExpiryCodes.ParseFormExact` | blueprints/flow.py:1545-1549 | what one form takes, and nothing else: the day's digits, the signs, a month name and the digits of the year |
| `ExpiryCodes.OneDigitDay` | blueprints/flow.py:1545-1549 | a day of one digit is read as well |
| `ExpiryCodes.CalendarExact` | blueprints/flow.py:1547 | which days each month has |
| `ExpiryCodes.FormsAgree` | blueprints/flow.py:1545-1551 | one expiry in its four forms becomes one code |
| `ExpiryCodes.FormsExample` | blueprints/flow.py:1545-1551 | 28 May 2026 in its four forms becomes 28MAY26 |
| `ExpiryCodes.KeyOrder` | blueprints/flow.py:1553-1557 | the sort key orders dates by year, month and day |
| `ExpiryCodes.DedupKeepsOrder` | blueprints/flow.py:1559-1560 | codes keep the order in which they are first seen |
| `Whitespace.StripExact` | blueprints/flow.py:1541-1543 | what is stripped is blank and from the two ends only |
| `ExpiryCodes.LeapDaySurvives` | blueprints/flow.py:1551-1555 | 29 February stays a date when its year loses the century |
| `ExpiryCodes.NormalFixed` | blueprints/flow.py:1543-1551 | normalising twice is normalising once, and a code is dated if and only if its entry could be parsed |
| `ExpiryCodes.SortIsStable` | blueprints/flow.py:1559-1560 | sorted, a permutation, and equal keys keep their order |
| `ExpiryCodes.KeyInjective` | blueprints/flow.py:1553-1557 | different dated codes of a result have different keys |

## Left out

- Two requests on the same workflow at the same time: the code takes no lock, and requests are served one at a time here.
- Internals of the scheduler, the monitors, the validator and the database: each call is an operation with every outcome it can have; the re-arming of active workflows when the server starts is not part of this model.
- The API key and the workflow id inside a registration, and the release of market-data subscriptions beyond the fact that it may raise.
- FlowTrigger.TriggerConfig: node data is a mapping, so nodes with other data are not modelled, and Python's equality of `True` and `1` is not either.
- The read with which the draft check of a PUT begins, and the verdict of validation, come in as one parameter.
- FlowTrigger.RegistrationFor: the conversion of a price with `float` is left to the registration call, which may raise.
- FlowLifecycle.FlowService.Fire: that a retirement finds its own registration replaced by a newer one is not modelled.
- FlowLifecycle.FlowService.Serve: a workflow that a fault or a hidden trigger left out of step is only promised to be safe, and in step again once a later request brings it there.
- The stored scheduler job id after a rollback, which leaves it alone: removals go by workflow id.
- The webhook that queues Chartink orders, with its time gates and the validation of strategy times.
- The poison pill and the outer exception handler of the order processor: nothing queues the former, and the latter only sleeps.
- OrderProcessor.RateBounds: the clock is an integer number of microseconds that never runs backwards, so rounding and clock adjustments are not modelled; the same holds for the quota.
- Parsing of the rate settings: a limit is a count, which may be zero or negative, and a window.
- JSON-RPC framing, hashing, request addresses, durations and pre-write notifications in the dispatcher.
- AuditLog.Log.Append: an append or a trim takes effect whole or not at all, and the entry text is opaque.
- ErrorLog.TailIsLinesAfterCut: the newline is the only line break of a log, and undecodable bytes are not modelled.
- EnvFile.Lookup: the reader is the edit's own next read; other readers of the file are not modelled, and neither are bytes that cannot be decoded.
- TurnRecorder.Recorder.Observe: call ids are compared in their `str` rendering and payload fields are opaque.
- RunOptions.RuntimeLines: the context arrives with its keys in sorted order, and the rendering of scalars is given.
- ErrorGroups.Fingerprint: the normalisation of the signature is left out, and the digest is any function.
- The level and text filters of the error list: any predicate on entries may stand for them; fields are neither truncated nor redacted here.
- The ordering of the group list, which raises when two groups tie on their count with timestamps of different types, its truncation and its other fields.
- The atomic replacement of the .env file and reading it into the process environment.
- ExpiryCodes.SortedExpiryCodes: digits and upper case are those of ASCII.
- Concurrent or replayed session cookies, the broker callback, the password reset and the checks made before a handler runs.
- LoginSession.Session.TryResume: an error response of the success handler counts as resumed, as in the code; what the handler does beyond the login flag is left out.
- Routes that only wrap a service call, CSV and HTML output, and the event stream's keepalives.
