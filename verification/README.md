# Verified models of the OpenCode adapter's stateful cores

The adapter sits between a portal and an OpenCode server. Most of it moves HTTP traffic; what can go subtly wrong
lives in a handful of small stateful components. This project models those components in Dafny and proves what their
comments and callers rely on:

| file | component | main result |
|---|---|---|
| `ChatLog.dfy` | write-back chat log cache | every run answers as a map that writes through at once |
| `PendingInput.dfy`, `PermissionProtocol.dfy` | answering permissions | at most one answer to a permission of a session, and exactly when an announcement breaks that |
| `AbortTree.dfy` | aborting a session tree | the walk ends on any graph and settles everything reachable |
| `EventBus.dfy` | replay indexes | a reply equals a scan of everything ever published |
| `DeleteSet.dfy` | deleting several paths | the collapsed list removes exactly what was requested |
| `ShellWords.dfy`, `EnvFile.dfy` | the environment file | reading back gives the same variables if and only if no value holds a line break |
| `SessionStore.dfy`, `ForkMutation.dfy` | deleting a conversation from a message on | a record is repointed only to a session with exactly the wanted messages |
| `Compaction.dfy` | what stays visible after a compaction | the reverse scan finds the declared boundary and is idempotent |
| `CategoryScaling.dfy` | scaling token estimates | the exact total, and when it overshoots |
| `TokenCache.dfy` | the two token managers | one exchange at a time, no stale or foreign token |
| `NoProxy.dfy`, `ProxyPlan.dfy`, `ProxyRouting.dfy` | the Proxy connector | every choice leads to the route of the plain rule |
| `SessionTitle.dfy` | cleaning a title | the loop ends, and cleaning twice is cleaning once |
| `RunPayload.dfy`, `RunRegistry.dfy` | chat runs | finished runs stay finished; pruning takes the oldest finished ones |
| `RequestBindings.dfy` | request bindings | pruning is never observable |

`PyText.dfy` holds the Python string operations and `Seqs.dfy` facts about sequences. `dafny verify dfyconfig.toml`
checks everything.

Components that update their fields are classes here too. Their methods are proved equal to specification functions on
the value of those fields (`Now()`, `View()`, `Slots()`), and the laws are proved about the functions over whole runs.
What the source reads from outside is a parameter: clock readings, timestamps, uuids, the answers of the upstream server
(an arbitrary function of the number of the call), the preview function, and what else happens while an answer is awaited.

What an operation does is stated twice where a law about it would not say it: the specification functions give the step,
and predicates and lemmas written without them say in literal terms what its answer holds (`RespondStart`, `FinishEntry`,
`CollectedIsAnswer`, `ShowsPrefix`, `DefaultsTo`). The text operations are described the same way.

Where the code does less than a plain reading promises, the exact condition is proved, and a concrete input that fails
is given: the guard of at-most-once answering (`GuardIsExact`, `GuardedRunIsExact`), the special files a deletion leaves
(`AllRequestsGoneExactly`), the values an environment file cannot carry (`EnvFileRoundTrip`), the overshoot of scaled
categories (`ScaledTotal`), the two clock readings of `resolve` (`TwoReadings`), a start that finds its run
(`CapAfterStart`), a proxy choice made without a host (`ChoiceWithoutHost`) and proxies named by a reserved word
(`ReservedNames`). The inputs are in `ReannouncementExample`, `SpecialFileExample`,
`LineBreakExample`, `OvershootExample`, `TwoReadingsExample`, `CapExample`, `WithoutHostExample` and `ReservedNameExample`.

## Model

| member | source | states |
|---|---|---|
| ChatLog.Sanitize | efp_opencode_adapter/chatlog_store.py:63-65 | every session id gets a non-empty file name of safe characters that neither starts nor ends with a dot or a dash |
| ChatLog.SanitizeIdempotent | efp_opencode_adapter/chatlog_store.py:121-122 | names that flush_all passes on, already sanitized, reach the same entries |
| ChatLog.NameCharsAre | efp_opencode_adapter/chatlog_store.py:64-64 | the characters of a file name by code point: letters, digits, dot, dash and underscore |
| ChatLog.SanitizeKeeps | efp_opencode_adapter/chatlog_store.py:63-65 | a session id is its own file name if and only if it is a clean one |
| ChatLog.SanitizeJoins | efp_opencode_adapter/chatlog_store.py:64-64 | a run of other characters between clean names becomes one dash |
| ChatLog.SanitizeNothing | efp_opencode_adapter/chatlog_store.py:63-65 | an id of which nothing would be left is called `default` |
| ChatLog.TouchMakesRecent | efp_opencode_adapter/chatlog_store.py:46-50 | a touched name is the most recent one, and the others keep their order |
| ChatLog.EvictionIsLeastRecentlyUsed | efp_opencode_adapter/chatlog_store.py:55-61 | an evictable entry that is kept is younger than everything evicted |
| ChatLog.EvictionSplits | efp_opencode_adapter/chatlog_store.py:51-61 | neither the touched entry nor a pending one is evicted; order and the rest are kept; as many go as needed, or all that may |
| ChatLog.EvictionPlanSize | efp_opencode_adapter/chatlog_store.py:55-61 | the exact cache size after a touch: at the cap, below it, or just the touched and the pending entries |
| ChatLog.RememberedView | efp_opencode_adapter/chatlog_store.py:46-61 | caching a log and evicting others changes nothing a reader sees of other sessions |
| ChatLog.WrittenInv | efp_opencode_adapter/chatlog_store.py:84-94 | a write makes readers see the log, settles the name and restores the whole invariant |
| ChatLog.CoalescedInv | efp_opencode_adapter/chatlog_store.py:96-109 | an append is seen by readers at once whether or not the file write is put off; a name put off has a file and stays cached |
| ChatLog.FlushedAllInv | efp_opencode_adapter/chatlog_store.py:111-122 | flushing changes nothing a reader sees, in whatever order names are visited |
| ChatLog.FlushAllReachesDisk | efp_opencode_adapter/chatlog_store.py:121-122 | after flush_all nothing is pending and the files equal the memory |
| ChatLog.ForgottenInv | efp_opencode_adapter/chatlog_store.py:124-128 | forgetting a session keeps the invariant and every other session |
| ChatLog.FetchedInv | efp_opencode_adapter/chatlog_store.py:70-82 | a read answers what the write-through map holds and changes nothing a reader sees |
| ChatLog.EnsuredInv | efp_opencode_adapter/chatlog_store.py:138-163 | an unreadable file is put aside and replaced by a fresh log; a readable one is continued |
| ChatLog.StepIsWriteThrough | efp_opencode_adapter/chatlog_store.py:186-257 | one call of any kind answers as the write-through map and keeps the invariant |
| ChatLog.StoreIsWriteThrough | efp_opencode_adapter/chatlog_store.py:46-257 | every run of calls, with any clock readings and cap, gives the answers of a map that writes every change through at once, and ends showing that map |
| ChatLog.ChatLogStore.Remember | efp_opencode_adapter/chatlog_store.py:46-61 | the field updates amount to the eviction plan whose order, size and victims the lemmas describe |
| ChatLog.ChatLogStore.Write | efp_opencode_adapter/chatlog_store.py:84-94 | after a write file, cache, pending set and last-write time are those of a stored log |
| ChatLog.ChatLogStore.WriteCoalesced | efp_opencode_adapter/chatlog_store.py:96-109 | the write is put off only within the interval after a write of the same name |
| ChatLog.ChatLogStore.Flush | efp_opencode_adapter/chatlog_store.py:111-119 | it says whether anything moved, and moves exactly what was pending and cached |
| ChatLog.ChatLogStore.FlushAll | efp_opencode_adapter/chatlog_store.py:121-122 | it empties the pending set, makes the files equal to what readers saw, and counts what it wrote |
| ChatLog.ChatLogStore.Get | efp_opencode_adapter/chatlog_store.py:70-82 | it answers what readers are promised for the sanitized name and leaves that as it was |
| ChatLog.ChatLogStore.Ensure | efp_opencode_adapter/chatlog_store.py:138-163 | it returns the log an entry operation starts from |
| ChatLog.ChatLogStore.FindEntry | efp_opencode_adapter/chatlog_store.py:165-170 | the backward search finds the newest entry of a request |
| ChatLog.ChatLogStore.StartEntry | efp_opencode_adapter/chatlog_store.py:186-201 | the log gains one running entry at its end with the previews of what was given; everything before it is kept; effect and answer are those of the write-through map |
| ChatLog.ChatLogStore.FinishEntry | efp_opencode_adapter/chatlog_store.py:203-220 | the newest entry of the request, a new one if there is none, gets the status, the previews of the response and of each list, context and debug text given or stored, and the finishing time; its id, message and start are kept, and so is every other entry; effect and answer are those of the write-through map |
| ChatLog.ChatLogStore.AppendEvent | efp_opencode_adapter/chatlog_store.py:225-234 | the newest entry of the request, a new one if there is none, gains the preview of the event at the end of the list asked for and changes in nothing else; effect and answer are those of the write-through map, though the file write may wait |
| ChatLog.ChatLogStore.DeleteLog | efp_opencode_adapter/chatlog_store.py:251-257 | deleting removes just that session and says whether it had a log |
| PendingInput.ClearedFits | efp_opencode_adapter/pending_input.py:187-196 | clearing touches no other session and, when an id is given, no other permission |
| PendingInput.EvictedFits | efp_opencode_adapter/pending_input.py:143-147 | the cap holds afterwards and only the oldest session is forgotten |
| PendingInput.AnnouncementFits | efp_opencode_adapter/pending_input.py:117-147 | an announced permission is its session's pending one, claimed only if the same one was; at most one other session is forgotten, the one announced longest ago |
| PendingInput.ObservedDoes | efp_opencode_adapter/pending_input.py:99-147 | the same of the board, by the names of the event kinds |
| PendingInput.PendingInputStore.ObserveEvent | efp_opencode_adapter/pending_input.py:99-147 | a resolution ends the permission it names, or without an id whichever is pending; the end of a run ends whichever is pending; an announcement takes the slot with the first id it carries; a replay, an event without a session and every other kind do nothing |
| PendingInput.PendingInputStore.Put | efp_opencode_adapter/pending_input.py:131-143 | a new object takes the session's slot, which becomes the newest; no other slot changes |
| PendingInput.PendingInputStore.Evict | efp_opencode_adapter/pending_input.py:143-147 | the loop drops the oldest sessions until the cap holds |
| PendingInput.PendingInputStore.Claim | efp_opencode_adapter/pending_input.py:168-180 | a claim succeeds exactly for the pending, unclaimed permission, and then takes it |
| PendingInput.PendingInputStore.Release | efp_opencode_adapter/pending_input.py:182-185 | releasing gives back only the permission named |
| PendingInput.PendingInputStore.Clear | efp_opencode_adapter/pending_input.py:187-196 | clearing drops the session's permission if the given id matches |
| PermissionProtocol.NoReannouncementGuards | efp_opencode_adapter/pending_input.py:131-141 | not announcing displaced permissions again implies the guard that safety needs |
| PermissionProtocol.BusKeepsInv | efp_opencode_adapter/pending_input.py:99-147 | a guarded event of the bus keeps the protocol invariant |
| PermissionProtocol.HandlerKeepsInv | efp_opencode_adapter/permissions_api.py:194-266 | starting, succeeding, failing and being cancelled keep the protocol invariant |
| PermissionProtocol.GuardedRunIsSafe | efp_opencode_adapter/permissions_api.py:194-266 | every guarded interleaving keeps the invariant |
| PermissionProtocol.AtMostOneResponse | efp_opencode_adapter/permissions_api.py:194-266 | over every interleaving in which no displaced permission is announced again, at most one response to a permission of a session is in flight and at most one succeeds |
| PermissionProtocol.OneAnswerPerId | efp_opencode_adapter/permissions_api.py:194-266 | if moreover all announcements of an id name one session, at most one response to an id is in flight or has succeeded, whatever the session |
| PermissionProtocol.TwoSessionsExample | efp_opencode_adapter/pending_input.py:131-143 | announced in two sessions, one id can be answered in both |
| PermissionProtocol.UnguardedAnswersTwice | efp_opencode_adapter/pending_input.py:131-141 | after an announcement that breaks the guard, named handler steps answer a permission twice |
| PermissionProtocol.GuardIsExact | efp_opencode_adapter/pending_input.py:131-141 | after any event handlers stay safe if and only if the event meets the guard |
| PermissionProtocol.GuardedRunIsExact | efp_opencode_adapter/permissions_api.py:194-266 | a run is guarded if and only if in every state on its way handlers alone cannot answer a permission of a session twice |
| PermissionProtocol.ReannouncementExample | efp_opencode_adapter/pending_input.py:131-141 | the guard does fail: announced, being answered, displaced by another permission of its session and announced again, one permission can be answered twice |
| PermissionProtocol.FailureReopens | efp_opencode_adapter/permissions_api.py:234-243 | after a failed upstream call a permission that is still pending can be answered by the next handler |
| PermissionProtocol.CancelledIsNeverAnswered | efp_opencode_adapter/permissions_api.py:230-243 | a handler cancelled while it waits neither clears nor releases: over every run in which the permission keeps its slot, no reply to the session is accepted any more |
| PermissionProtocol.RespondStart | efp_opencode_adapter/permissions_api.py:107-228 | a handler reaches its upstream call exactly when every check passes and the claim is won; it then sends "reject" if and only if the decision is one of the four denying words, and for the six approving ones "always" if a standing approval is asked for and "once" otherwise; with a permission pending any other word is refused with 400; a refusal, a body that is no object included, changes nothing and carries the status of the first failed check |
| PermissionProtocol.WordsDecide | efp_opencode_adapter/permissions_api.py:107-123 | which decision words approve, which deny, and that every other one decides nothing, whatever their case and the white space around them |
| PermissionProtocol.ResponseAnswers | efp_opencode_adapter/permissions_api.py:131-149 | what is sent upstream for a decision word and the two fields that ask for a standing approval |
| PermissionProtocol.RespondSucceeded | efp_opencode_adapter/permissions_api.py:245-255 | success clears the slot and publishes the resolution of that permission of that session |
| PermissionProtocol.RespondFailed | efp_opencode_adapter/permissions_api.py:234-243 | failure releases the claim and nothing else |
| AbortTree.VisitCovers | efp_opencode_adapter/opencode_client.py:598-621 | every child listed below a node is settled or on the current path |
| AbortTree.RaisedMeansListingFailed | efp_opencode_adapter/opencode_client.py:603-609 | the walk raises exactly when a listing failed for a reason other than a missing session |
| AbortTree.ReachableIsSettled | efp_opencode_adapter/opencode_client.py:582-632 | every session reachable through listed children ends up aborted, missing or in the errors, even when the server's answers change during the walk |
| AbortTree.VisitIsHonest | efp_opencode_adapter/opencode_client.py:598-621 | the recorded calls carry the answers the server gave |
| AbortTree.StaticReachableIsSettled | efp_opencode_adapter/opencode_client.py:582-632 | on any fixed graph, cycles and shared children included, everything reachable through listable sessions is settled |
| AbortTree.VisitAbortsChildrenFirst | efp_opencode_adapter/opencode_client.py:610-616 | on an acyclic graph a session is aborted only after all its children are settled |
| AbortTree.VisitAbortsOnce | efp_opencode_adapter/opencode_client.py:598-621 | a session is aborted exactly once for every time its children are listed, and never more often |
| AbortTree.ResultsNameSettled | efp_opencode_adapter/opencode_client.py:626-632 | the three result lists together name exactly the settled sessions |
| AbortTree.TreeAborter.AbortOne | efp_opencode_adapter/opencode_client.py:598-621 | the recursion terminates on every finite graph, restores the path set on every exit and makes the specified calls |
| AbortTree.TreeAborter.AbortSessionTree | efp_opencode_adapter/opencode_client.py:582-632 | unless a listing failed, every session reachable from the root is in one of the three result lists, and every session was aborted as often as its children were listed |
| EventBus.PruneIsLive | efp_opencode_adapter/event_bus.py:101-104 | with times in order, popping the expired head is a full scan for expired items |
| EventBus.BucketAnswers | efp_opencode_adapter/event_bus.py:134-189 | what a pruned, trimmed bucket yields is the last unexpired items of the key's full history |
| EventBus.AppendRepresents | efp_opencode_adapter/event_bus.py:92-99 | appending, pruning and trimming keep a bucket an end of its key's history |
| EventBus.SortItemsFits | efp_opencode_adapter/event_bus.py:175-175 | sorting permutes the items into strict (event time, sequence) order |
| EventBus.AscendingIsUnique | efp_opencode_adapter/event_bus.py:175-175 | there is only one such order, so any correct sort gives the same reply |
| EventBus.ReplyIsOrdered | efp_opencode_adapter/event_bus.py:134-189 | a reply is cut from the matching recent items, each once, in (event time, sequence) order |
| EventBus.LiveOfKey | efp_opencode_adapter/event_bus.py:134-160 | which items of the log a reply is chosen from: those of the session or the request that are within the window |
| EventBus.CollectedIsAnswer | efp_opencode_adapter/event_bus.py:163-189 | a reply tells of the items whose kind is asked for, whose session is the asked one when both ids are given, and whose creation time, or else publish time, is strictly later than the given one; in order, the last ones up to the limit and the replay limit, and none for a limit of 0 or less |
| EventBus.Bus.PruneBucket | efp_opencode_adapter/event_bus.py:101-104 | the popping loop removes exactly the expired head |
| EventBus.Bus.SweepStore | efp_opencode_adapter/event_bus.py:106-121 | every bucket keeps its unexpired end and the empty ones are gone, so finished requests do not hold memory for ever |
| EventBus.Bus.Sweep | efp_opencode_adapter/event_bus.py:106-121 | a sweep happens only when due, rids both indexes of everything expired, and leaves them standing for the full log |
| EventBus.Bus.AppendLimited | efp_opencode_adapter/event_bus.py:92-99 | a bucket is left with its last unexpired items up to the limit |
| EventBus.Bus.Publish | efp_opencode_adapter/event_bus.py:123-132 | an event joins the log with the next sequence number and both indexes still stand for the log |
| EventBus.Bus.RecentEvents | efp_opencode_adapter/event_bus.py:134-189 | the reply is such an answer from everything ever published within the window: pruning, trimming and sweeping are not observable |
| EventBus.Bus.Collect | efp_opencode_adapter/event_bus.py:163-189 | filtering, sorting and cutting a bucket gives such an answer |
| DeleteSet.OutermostCovers | efp_opencode_adapter/file_service.py:333-347 | a request below another requested directory lies below one that is kept |
| DeleteSet.DescendantIs | efp_opencode_adapter/file_service.py:326-331 | a path lies below another one if and only if it is that path with more behind it |
| DeleteSet.OutermostIsAntichain | efp_opencode_adapter/file_service.py:333-347 | no kept target lies below another, and every request is kept or lies below a kept directory |
| DeleteSet.OutermostRemovesAll | efp_opencode_adapter/file_service.py:310-321 | removing the kept targets removes what removing every request would |
| DeleteSet.AllRequestsGoneExactly | efp_opencode_adapter/file_service.py:313-320 | the tree is the original minus the subtrees of all requests if and only if every requested special file lies below a requested directory |
| DeleteSet.SpecialFileExample | efp_opencode_adapter/file_service.py:313-321 | a special file requested on its own is still there afterwards |
| DeleteSet.WithoutKeepsShape | efp_opencode_adapter/file_service.py:313-320 | what is left is a well-formed tree |
| DeleteSet.TargetStillThere | efp_opencode_adapter/file_service.py:313-320 | nothing removed before a kept target's turn reaches it |
| DeleteSet.BusyStays | efp_opencode_adapter/file_service.py:313-320 | a kept directory is as empty or as full when its turn comes as it was at the beginning |
| DeleteSet.RemovedFits | efp_opencode_adapter/file_service.py:313-320 | the deletion stops exactly at the first kept directory that holds something, if it is not recursive |
| DeleteSet.NonRecursiveExample | efp_opencode_adapter/file_service.py:310-320 | a non-recursive deletion of a file and its directory is refused, because the collapse drops the file |
| DeleteSet.OrderExample | efp_opencode_adapter/file_service.py:313-320 | what a non-recursive deletion leaves does depend on the order: an empty directory goes only if it comes before a busy one |
| DeleteSet.SameRequests | efp_opencode_adapter/file_service.py:293-323 | the tree a recursive deletion leaves, and which requests are kept, do not depend on the order or repetition of the requests |
| DeleteSet.CollapseDeleteTargets | efp_opencode_adapter/file_service.py:333-347 | the one-pass collapse yields exactly the requests with no requested directory above them, in request order |
| DeleteSet.WorkspaceFiles.ResolveAll | efp_opencode_adapter/file_service.py:297-308 | the first request that cannot be met decides the error; without one the targets are the requested paths, each where it is first named |
| DeleteSet.WorkspaceFiles.RemoveOne | efp_opencode_adapter/file_service.py:313-320 | a target goes with everything below it; a non-empty directory only when recursive |
| DeleteSet.WorkspaceFiles.DeletePaths | efp_opencode_adapter/file_service.py:293-323 | an unacceptable request leaves the tree alone; otherwise the kept targets go, all of them or, without `recursive`, those before the first kept directory with something below it, and the result says which |
| ShellWords.LexEscaped | efp_opencode_adapter/runtime_env.py:523-523 | a quoted text, quotes inside it included, reads as itself (section 2.2 of the POSIX Shell Command Language) |
| ShellWords.SplitOfQuote | efp_opencode_adapter/runtime_env.py:542-542 | splitting a quoted value gives that value back as one word |
| ShellWords.SplitOfUnclosed | efp_opencode_adapter/runtime_env.py:542-542 | a quoted value cut before its closing quote cannot be split |
| ShellWords.QuoteIsPlain | efp_opencode_adapter/runtime_env.py:523-523 | a value is written without quotes if and only if it is not empty and all its characters are safe ones |
| ShellWords.SplitAtBlank | efp_opencode_adapter/runtime_env.py:542-542 | blanks end a word and are skipped before one |
| ShellWords.SplitOfDoubleQuoted | efp_opencode_adapter/runtime_env.py:542-542 | a text in double quotes, with a backslash before quotes and backslashes, is one word, and so is one with a backslash before every character; without its closing quote, or with a backslash at the end, it cannot be split |
| ShellWords.LexPair | efp_opencode_adapter/runtime_env.py:542-542 | between double quotes a backslash stays before any other character |
| EnvFile.ReadRuntimeEnvFile | efp_opencode_adapter/runtime_env.py:529-543 | the reading loop over lines is the specified reading; a missing file reads as empty |
| EnvFile.LineIs | efp_opencode_adapter/runtime_env.py:523-523 | a variable is written as an exported assignment of its quoted value |
| EnvFile.LineSays | efp_opencode_adapter/runtime_env.py:535-542 | a line that is no exported assignment is skipped; of one that is, the first word after the first equals sign is the value |
| EnvFile.ParseOfLine | efp_opencode_adapter/runtime_env.py:538-542 | a written line reads as its own key and value, whatever the value contains |
| EnvFile.ParseOfCutLine | efp_opencode_adapter/runtime_env.py:538-542 | a line cut inside its quotes raises, however much white space stripping takes |
| EnvFile.ReadOfRender | efp_opencode_adapter/runtime_env.py:520-543 | a file whose values hold no line break reads back as its variables, in whatever key order it was written |
| EnvFile.ReadOfBrokenRender | efp_opencode_adapter/runtime_env.py:520-543 | with a line break in any value reading raises |
| EnvFile.EnvFileRoundTrip | efp_opencode_adapter/runtime_env.py:520-543 | reading back gives the same variables if and only if no value holds a line break |
| EnvFile.LineBreakExample | efp_opencode_adapter/runtime_env.py:534-542 | a concrete value on two lines makes reading raise |
| Sessions.UpstreamStays | efp_opencode_adapter/session_store.py:217-273 | no operation but a replacement moves a record to another upstream session |
| Sessions.DeletedForGood | efp_opencode_adapter/session_store.py:260-286 | a deleted record stays deleted, and late chats and replacements do not touch it |
| Sessions.ManualNameStays | efp_opencode_adapter/session_store.py:217-233 | a manual name is shown until the next rename, whatever is generated, chatted or replaced meanwhile |
| Sessions.NameShown | efp_opencode_adapter/session_store.py:67-76 | the manual name is shown, else the generated one, else the title, else `Chat`; blank ones do not count |
| Sessions.SessionStore.Rename | efp_opencode_adapter/session_store.py:218-221 | renaming sets both titles of that record and saves; an unknown id changes nothing |
| Sessions.SessionStore.SetGeneratedTitle | efp_opencode_adapter/session_store.py:223-233 | the generated title alone changes, not the sort key |
| Sessions.SessionStore.UpdateAfterChat | efp_opencode_adapter/session_store.py:251-273 | a chat updates a live record and leaves a deleted one alone |
| Sessions.SessionStore.MarkDeleted | efp_opencode_adapter/session_store.py:235-240 | deleting marks the one record |
| Sessions.SessionStore.Clear | efp_opencode_adapter/session_store.py:242-249 | clearing marks every live record with a time of its own, leaves deleted ones alone, saves, and returns the records it marked |
| Sessions.SessionStore.ReplaceOpencodeSessionAfterMutation | efp_opencode_adapter/session_store.py:275-301 | repointing keeps the names of the record as it is now, and refuses a deleted record |
| ForkMutation.NormalTwice | efp_opencode_adapter/sessions_api.py:300-301 | normalized texts are in normal form |
| ForkMutation.UnixReads | efp_opencode_adapter/sessions_api.py:300-301 | a carriage return, with its line feed or without, reads as one line feed between what is before and after it |
| ForkMutation.PlainContent | efp_opencode_adapter/sessions_api.py:300-301 | a text without carriage returns loses the white space around it and nothing else |
| ForkMutation.SignaturesLook | efp_opencode_adapter/sessions_api.py:304-318 | two lists are compared as equal if and only if they are equally long, with the same role and the same text in every place, line endings read as line feeds and ends stripped |
| ForkMutation.FindMessageIndex | efp_opencode_adapter/sessions_api.py:329-333 | the search finds the first message with the id, or none |
| ForkMutation.CandidatesFit | efp_opencode_adapter/sessions_api.py:357-378 | the boundaries are at most three, distinct, the target's first and that of the message before next, and exactly the ids of the target, the message before and the nearest user message before |
| ForkMutation.ForkBoundaryCandidates | efp_opencode_adapter/sessions_api.py:357-378 | the loops collect exactly those candidates |
| ForkMutation.SearchIsSound | efp_opencode_adapter/sessions_api.py:470-519 | a session is accepted only right after it was made and listed with the wanted messages; earlier attempts failed or differed; with none accepted every candidate was tried |
| ForkMutation.AcceptedPreservesPrefix | efp_opencode_adapter/sessions_api.py:391-535 | whatever the upstream answers, an accepted session shows exactly the (role, normalized text) list before the first message with the id |
| ForkMutation.ConflictTriedAll | efp_opencode_adapter/sessions_api.py:521-535 | a conflict means that every boundary was tried and none gave the prefix |
| ForkMutation.RepointedToPrefix | efp_opencode_adapter/sessions_api.py:878-908 | a deletion that succeeds has repointed the record to such a session: its last listing has as many messages as come before the target, in every place with the same role and the same normalized text, and the record holds their number and the last text; whatever the upstream answers and whatever else lands, other replacements included |
| ForkMutation.FailureKeepsUpstream | efp_opencode_adapter/sessions_api.py:878-908 | every failing path leaves the record's upstream session unchanged |
| ForkMutation.WhatLandsIsKept | efp_opencode_adapter/sessions_api.py:878-908 | renames, titles, chats, deletions and replacements that land during the awaits are kept; the commit changes four fields of one record; a record deleted meanwhile is not repointed |
| ForkMutation.Upstream.ForkCandidateWithAbortRetry | efp_opencode_adapter/sessions_api.py:381-388 | a busy session is aborted and forked once more; every other refusal is final |
| ForkMutation.Upstream.TryBoundary | efp_opencode_adapter/sessions_api.py:470-519 | one attempt makes the specified calls and reaches the specified verdict |
| ForkMutation.Upstream.SearchBoundaries | efp_opencode_adapter/sessions_api.py:470-535 | the loop over candidates is the search the lemmas describe, and touches the store only by what lands during its awaits |
| ForkMutation.Upstream.NewEmptySession | efp_opencode_adapter/sessions_api.py:417-468 | before the first message a new session takes the fork's place, if it lists as empty |
| ForkMutation.Upstream.ForkSessionPreservingPrefix | efp_opencode_adapter/sessions_api.py:391-535 | the fork makes the calls and reaches the outcome of the plan |
| ForkMutation.Upstream.DeleteFromHere | efp_opencode_adapter/sessions_api.py:878-908 | the whole deletion: calls, result and store are what the plan, the landed operations and one commit give, and when it is done the record is on a session listed last with exactly the messages before the target, place by place |
| Compaction.ActiveContextMessages | efp_opencode_adapter/context_api.py:110-149 | the reverse scan returns the suffix that starts at the newest answered compaction, or back at its tail start, or everything |
| Compaction.ActiveStartUnique | efp_opencode_adapter/context_api.py:110-149 | the declared boundary determines one start |
| Compaction.ActiveIsUnique | efp_opencode_adapter/context_api.py:110-149 | the declared boundary determines one result |
| Compaction.SuffixStartsAtZero | efp_opencode_adapter/context_api.py:110-149 | the visible suffix has its own boundary at its beginning |
| Compaction.ActiveIsIdempotent | efp_opencode_adapter/context_api.py:110-149 | scanning what is visible keeps all of it |
| CategoryScaling.HalfEvenNear | efp_opencode_adapter/context_api.py:332-334 | half-even rounding is off by at most a half, and a half up only at ties |
| CategoryScaling.SharesBound | efp_opencode_adapter/context_api.py:330-336 | the tool shares exceed the actual count by at most one, exactly when both tie upwards with no conversation |
| CategoryScaling.ScaledTotal | efp_opencode_adapter/context_api.py:307-338 | every category is non-negative and the total is the actual count, or one more exactly in the stated case |
| CategoryScaling.ScaledShares | efp_opencode_adapter/context_api.py:307-338 | estimates within the count stay and the rest is instructions; otherwise each tool category is its own share of the count rounded to half even, and the conversation is what these leave |
| CategoryScaling.DriftAbsorbed | efp_opencode_adapter/context_api.py:336-337 | however the shares were rounded, the total misses the actual count exactly when the tool shares alone exceed it |
| CategoryScaling.AnyScalingIsClose | efp_opencode_adapter/context_api.py:329-338 | with any arithmetic that gets each share to less than one from the exact quotient, no category is negative and the total is the actual count or one more |
| CategoryScaling.DoublesAreNear | efp_opencode_adapter/context_api.py:329-334 | a rounded scale factor, a rounded product and a rounded share in double precision stay less than one from the exact share for actual counts up to 2 to the 50th |
| CategoryScaling.DoublesAreClose | efp_opencode_adapter/context_api.py:329-338 | so in double precision, for such counts, no category is negative and the total is the actual count or one more |
| CategoryScaling.OvershootExample | efp_opencode_adapter/context_api.py:329-338 | a concrete overshoot by one |
| TokenCache.NextKeepsInv | efp_opencode_adapter/copilot_plugin_auth.py:264-281 | every step of every call keeps one exchange at a time and all returned tokens sound |
| TokenCache.TokensAreSound | efp_opencode_adapter/copilot_plugin_auth.py:257-281 | over all interleavings of calls, failures, cancellations and credential changes, a returned token was obtained under the fingerprint of a credential its own call read, and one from the cache had 300 seconds left with Copilot, 5 with the AI platform |
| TokenCache.StartIsSound | efp_opencode_adapter/ai_platform_proxy.py:232-237 | an empty manager is a sound start for both theorems |
| TokenCache.SingleFlight | efp_opencode_adapter/ai_platform_proxy.py:246-271 | while credential and token last, one exchange serves all overlapping calls |
| TokenCache.TokenManager.GetTokenBeforeLock | efp_opencode_adapter/ai_platform_proxy.py:246-251 | the check before the lock hands out the cached token if and only if it is of this credential and has 300 seconds left with Copilot, 5 with the AI platform |
| TokenCache.TokenManager.GetTokenUnderLock | efp_opencode_adapter/copilot_plugin_auth.py:270-277 | the check under the lock answers likewise, and empties the cache when the credential is gone |
| TokenCache.TokenManager.ExchangeFinished | efp_opencode_adapter/copilot_plugin_auth.py:278-281 | the token is cached under the fingerprint of the credential it was exchanged for |
| NoProxy.WordsOfJoin | efp_opencode_adapter/proxy_plan.py:160-165 | reading a printed list gives its items back |
| NoProxy.WordsSplit | efp_opencode_adapter/proxy_plan.py:160-160 | commas and white space separate items, and a text with neither is one item |
| NoProxy.NoProxyTextTwice | efp_opencode_adapter/proxy_plan.py:157-165 | a completed list reads as its items and completing it again changes nothing |
| NoProxy.CompletingExemptsLoopback | efp_opencode_adapter/proxy_plan.py:157-165 | completing a list exempts the loopback names and their subdomains and nothing else |
| NoProxy.PlainItem | efp_opencode_adapter/proxy_plan.py:448-496 | a plain item exempts the name and its subdomains, with a dot or a star in front its subdomains only |
| NoProxy.EndsWithIs | efp_opencode_adapter/proxy_plan.py:490-494 | a host is below a name if and only if it is something with that ending, the dot included |
| NoProxy.StarAndBlock | efp_opencode_adapter/proxy_plan.py:470-486 | a star exempts every host, and an address block the addresses in it |
| NoProxy.NameReads | efp_opencode_adapter/proxy_plan.py:472-478 | a scheme before a name and a port behind it are ignored |
| NoProxy.CaseIsIgnored | efp_opencode_adapter/proxy_plan.py:466-466 | the case of an item is ignored |
| NoProxy.BracketsRead | efp_opencode_adapter/proxy_plan.py:475-476 | an address in brackets, with a port or without, is that address |
| NoProxy.TargetReads | efp_opencode_adapter/proxy_plan.py:458-460 | a host is compared in lower case without the white space around it, its final dots or its brackets |
| NoProxy.NoProxyExempts | efp_opencode_adapter/proxy_plan.py:448-496 | a host is exempt if and only if it is `localhost`, `127.0.0.1`, `::1` or another loopback address, or some item of the list exempts it |
| ProxyPlan.CollectEntries | efp_opencode_adapter/proxy_plan.py:350-370 | the loop with its set of seen names keeps the first entry of every name that has an address |
| ProxyPlan.CollectAssignments | efp_opencode_adapter/proxy_plan.py:385-391 | assignments are kept in order, a later one of the same connector overriding |
| ProxyPlan.NormalizeProxySection | efp_opencode_adapter/proxy_plan.py:340-397 | the loops produce the normal form of a section of any shape, the flat legacy one included; its default is the name the section asks for if an entry bears it, and the first one otherwise |
| ProxyPlan.NormalizeIsNormal | efp_opencode_adapter/proxy_plan.py:340-397 | distinct non-empty names, addresses, no redacted secret, a default that is one of the entries |
| ProxyPlan.NormalizeFixpoint | efp_opencode_adapter/proxy_plan.py:340-397 | normalizing leaves a section alone if and only if it is normal |
| ProxyPlan.NormalizeTwice | efp_opencode_adapter/proxy_plan.py:340-397 | normalizing twice is normalizing once |
| ProxyPlan.TextReads | efp_opencode_adapter/proxy_plan.py:76-77 | what a field reads as: nothing for null, otherwise its text without the white space around it |
| ProxyPlan.WordsRead | efp_opencode_adapter/proxy_plan.py:107-115 | the words that switch the section on, and the placeholders read as no secret |
| ProxyPlan.ExemptListReads | efp_opencode_adapter/proxy_plan.py:400-404 | the list of exempt hosts is under either of two spellings, of which the first wins unless it is blank |
| ProxyPlan.EnvTokenReads | efp_opencode_adapter/proxy_plan.py:87-89 | a token is the name in upper case with one underscore for every run of other characters, and `DEFAULT` when nothing is left |
| ProxyPlan.DecimalReads | efp_opencode_adapter/proxy_plan.py:358-358 | the number in a made-up name or a suffix reads back as itself |
| ProxyPlan.NthInjective | efp_opencode_adapter/proxy_plan.py:414-418 | the suffix search never tries the same token twice |
| ProxyPlan.FirstFreeFits | efp_opencode_adapter/proxy_plan.py:413-418 | the token found is free and every one tried before was taken |
| ProxyPlan.UniqueToken | efp_opencode_adapter/proxy_plan.py:413-418 | the suffix search terminates for any set of taken tokens and finds that token |
| ProxyRouting.BuildProxyPlan | efp_opencode_adapter/proxy_plan.py:407-445 | the loop gives every entry its token; the default is absent if and only if there are no entries, the entry that bears the stripped text of the default field if there is one, and the first entry otherwise |
| ProxyRouting.ToMapHolds | efp_opencode_adapter/proxy_plan.py:428-428 | the assignments are looked up as they are listed, and no others |
| ProxyRouting.TokensDistinct | efp_opencode_adapter/proxy_plan.py:411-420 | for any names the tokens are pairwise distinct |
| ProxyRouting.CredentialEnvironment | efp_opencode_adapter/proxy_plan.py:245-263 | the variables of all entries, and none while the connector is off |
| ProxyRouting.OwnCredentials | efp_opencode_adapter/proxy_plan.py:178-181 | every entry's `EFP_PROXY_`…`_USERNAME` and `_PASSWORD` variables look up exactly its own credentials, and are unset where it has none |
| ProxyRouting.BuiltIsSound | efp_opencode_adapter/proxy_plan.py:407-445 | names are distinct and the default is one of the entries |
| ProxyRouting.EnvironmentRoute | efp_opencode_adapter/proxy_plan.py:234-243 | a tool that reads any of the variables goes the default proxy's way |
| ProxyRouting.ChoiceFollowsRule | efp_opencode_adapter/proxy_plan.py:265-306 | for every section, connector, host and tool, following the choice gives the plain rule's route, so answering "the environment" for the default proxy preserves meaning |
| ProxyRouting.UnassignedRoute | efp_opencode_adapter/proxy_plan.py:265-306 | a connector without an assignment goes the way of the entry the section's default names, of the first entry when none bears that name, and directly when there is none |
| ProxyRouting.ChoiceWithoutHost | efp_opencode_adapter/proxy_plan.py:301-306 | a choice made without a host agrees with the rule if and only if the connector is not assigned another proxy than the default that exempts the host |
| ProxyRouting.WithoutHostExample | efp_opencode_adapter/proxy_plan.py:301-306 | asked without a host, a concrete plan sends a tool through a proxy to a host which that proxy exempts |
| ProxyRouting.InstanceSetting | efp_opencode_adapter/proxy_plan.py:280-288 | a row's own setting stands on its own: direct, that proxy under its own rule, that URL, or else the assignment |
| ProxyRouting.ReservedNames | efp_opencode_adapter/proxy_plan.py:291-299 | an assignment reaches the proxy it names if and only if the name is none of the six reserved words |
| ProxyRouting.ReservedNameExample | efp_opencode_adapter/proxy_plan.py:291-299 | a concrete enabled proxy called `none` is listed, assigned and not used |
| SessionTitle.StripOnceShrinks | efp_opencode_adapter/session_title.py:141-148 | a round shortens the text unless it only rewrites white space |
| SessionTitle.CleanIsFixpoint | efp_opencode_adapter/session_title.py:141-148 | a round leaves a text alone if and only if it has no label, outer quotes or white space, emphasis, closing punctuation or doubled spaces |
| SessionTitle.RoundsEnd | efp_opencode_adapter/session_title.py:164-168 | every round that changes the text lowers a measure |
| SessionTitle.CleanTitle | efp_opencode_adapter/session_title.py:151-171 | the loop ends for every reply, and the title is clean and at most 60 characters long |
| SessionTitle.BoundedIsClean | efp_opencode_adapter/session_title.py:169-170 | cutting a clean text with an ellipsis leaves it clean |
| SessionTitle.TitleFixpoints | efp_opencode_adapter/session_title.py:151-171 | cleaning leaves a text alone if and only if it is clean and within the bound |
| SessionTitle.CleanTitleIdempotent | efp_opencode_adapter/session_title.py:151-171 | cleaning a cleaned title changes nothing, cut or not |
| SessionTitle.WrapperComesOff | efp_opencode_adapter/session_title.py:141-148 | quotes, emphasis of up to three marks, closing punctuation or a label around a clean text come off in one round and leave exactly that text |
| SessionTitle.TitleUnwraps | efp_opencode_adapter/session_title.py:151-171 | the title of a wrapped clean text is the text itself |
| SessionTitle.MarksAre | efp_opencode_adapter/session_title.py:108-110 | the quotes, closing punctuation and colons by code point |
| SessionTitle.LabelsAre | efp_opencode_adapter/session_title.py:108-108 | a text is labelled if and only if one of the five labels in any case, white space and a colon are its beginning |
| SessionTitle.EmphasisIs | efp_opencode_adapter/session_title.py:111-111 | emphasis is the same one to three stars or underscores on both sides of some text within one line |
| RunPayload.CompactFinalPayload | efp_opencode_adapter/chat_run_registry.py:28-45 | the loop cuts the retained event lists of a payload and no other list |
| RunPayload.CompactKeepsTails | efp_opencode_adapter/chat_run_registry.py:28-45 | `events`, `runtime_events` and `thinking_events` keep their last 100 items, or all of fewer; one that was cut says how long it was, and the rest is as it was |
| RunPayload.CompactTwice | efp_opencode_adapter/chat_run_registry.py:28-45 | compacting a compacted payload changes nothing |
| RunRegistry.SortFits | efp_opencode_adapter/chat_run_registry.py:137-140 | the stable sort keeps the items and orders them by update time, ties by insertion |
| RunRegistry.VictimsFit | efp_opencode_adapter/chat_run_registry.py:133-142 | pruning takes distinct finished runs only, exactly as many as are too many or all there are |
| RunRegistry.VictimsAreOldest | efp_opencode_adapter/chat_run_registry.py:136-142 | a finished run that is kept was updated after every one dropped, ties going by insertion |
| RunRegistry.PruneKeepsShape | efp_opencode_adapter/chat_run_registry.py:133-142 | pruning shrinks the registry by exactly its victims and keeps it consistent |
| RunRegistry.SparedInOrder | efp_opencode_adapter/chat_run_registry.py:133-142 | pruning leaves the other slots in their order |
| RunRegistry.Outcome | efp_opencode_adapter/chat_run_registry.py:180-181 | a run completes exactly when its completion state says so, or is absent or empty and `ok` is not false |
| RunRegistry.StepOfRun | efp_opencode_adapter/chat_run_registry.py:97-207 | one call never restarts a finished run or changes its sequence number, and advances a running one's exactly when it records an event of it |
| RunRegistry.FinishedIsForGood | efp_opencode_adapter/chat_run_registry.py:97-207 | over any calls without a new start under the id: finished stays finished with its number, a cancelled run changes only by completion |
| RunRegistry.SequenceCountsEvents | efp_opencode_adapter/chat_run_registry.py:161-167 | the sequence number is the number of events recorded while the run was running |
| RunRegistry.LastWord | efp_opencode_adapter/chat_run_registry.py:176-207 | in the registry, completion overrides a cancellation, failure does not, only running runs can be cancelled, payloads are kept compacted, nobody else's run is touched, and a call that reaches no run does nothing |
| RunRegistry.StartMeetsCap | efp_opencode_adapter/chat_run_registry.py:97-142 | after a start that made a run the cap holds or nothing finished is left, and every running run that is neither stale nor replaced is untouched |
| RunRegistry.CapAfterStart | efp_opencode_adapter/chat_run_registry.py:97-105 | the exact condition for that after any start |
| RunRegistry.CapExample | efp_opencode_adapter/chat_run_registry.py:97-105 | with room for one run, four calls leave the registry above its cap with a finished run in it, because the last start finds its run |
| RunRegistry.FailStale | efp_opencode_adapter/chat_run_registry.py:107-131 | exactly the running records past the timeout are failed, with the error of a stale run |
| RunRegistry.ChatRunRegistry.Get | efp_opencode_adapter/chat_run_registry.py:144-153 | the record under the trimmed id, if the session fits |
| RunRegistry.ChatRunRegistry.Start | efp_opencode_adapter/chat_run_registry.py:97-105 | an existing run is returned untouched; otherwise a new record enters, stale runs fail and old ones are pruned |
| RunRegistry.ChatRunRegistry.PruneTerminalRecords | efp_opencode_adapter/chat_run_registry.py:133-142 | the popping loop leaves what pruning spares |
| RunRegistry.ChatRunRegistry.AttachTask | efp_opencode_adapter/chat_run_registry.py:155-159 | the addressed record alone gets the asyncio task |
| RunRegistry.ChatRunRegistry.RecordEvent | efp_opencode_adapter/chat_run_registry.py:161-167 | the addressed running record alone advances |
| RunRegistry.ChatRunRegistry.MarkDetached | efp_opencode_adapter/chat_run_registry.py:169-174 | the addressed running record alone counts a detached viewer |
| RunRegistry.ChatRunRegistry.Complete | efp_opencode_adapter/chat_run_registry.py:176-184 | the addressed record alone ends with the outcome its payload asks for and keeps the compacted payload |
| RunRegistry.ChatRunRegistry.Fail | efp_opencode_adapter/chat_run_registry.py:186-195 | the addressed record alone fails and keeps the compacted payload, unless it was cancelled |
| RunRegistry.ChatRunRegistry.Cancel | efp_opencode_adapter/chat_run_registry.py:197-207 | it answers whether a running run was reached and which asyncio task to cancel |
| RequestBindings.CompletedStaysSilent | efp_opencode_adapter/request_bindings.py:82-85 | after a completion no lookup of live bindings answers the request until it is bound again |
| RequestBindings.TwoReadings | efp_opencode_adapter/request_bindings.py:57-68 | with two clock readings the answer is the reference's if and only if no entry that expires between them comes, in the order message, task, session, before the first that outlives both |
| RequestBindings.TwoReadingsExample | efp_opencode_adapter/request_bindings.py:57-68 | two bindings with which the readings do differ: the message's expires between them and hides the session's |
| RequestBindings.PruningIsInvisible | efp_opencode_adapter/request_bindings.py:40-91 | over every run with a non-decreasing clock the pruned store gives the answers of a store that never prunes |
| RequestBindings.ResolveAnswersFirstLive | efp_opencode_adapter/request_bindings.py:57-68 | with one reading per call every `resolve` answers the first live binding by message, task and session |
| RequestBindings.CompletedInPlace | efp_opencode_adapter/request_bindings.py:82-85 | completing the shared objects completes the entries of every index that holds them |
| RequestBindings.RequestBindingStore.PruneExpired | efp_opencode_adapter/request_bindings.py:87-91 | exactly the completed and expired entries go |
| RequestBindings.RequestBindingStore.BindActive | efp_opencode_adapter/request_bindings.py:40-45 | one object under the session and its task id, after pruning |
| RequestBindings.RequestBindingStore.BindMessage | efp_opencode_adapter/request_bindings.py:47-55 | one object under the message, the session and its task id, after pruning; nothing without a message |
| RequestBindings.RequestBindingStore.Resolve | efp_opencode_adapter/request_bindings.py:57-68 | the first binding alive at the pruning, if it is alive at the check |
| RequestBindings.RequestBindingStore.ResolveExact | efp_opencode_adapter/request_bindings.py:70-79 | the same without the session's entry, or including completed bindings without pruning |
| RequestBindings.RequestBindingStore.Complete | efp_opencode_adapter/request_bindings.py:82-85 | every entry of the request is completed in all three indexes, and no other |
| PyText.SpacesAre | efp_opencode_adapter/session_title.py:147-147 | white space and line breaks by code point |
| PyText.TrimIs | efp_opencode_adapter/session_title.py:142-143 | stripping takes the characters to drop at both ends and nothing else |
| PyText.ReplaceRunsJoins | efp_opencode_adapter/chatlog_store.py:64-64 | a run of characters to replace becomes one character between texts that have none |
| PyText.CaseIs | efp_opencode_adapter/permissions_api.py:118-118 | lower and upper case change the ASCII letters and nothing else |
| PyText.SplitLinesAt | efp_opencode_adapter/runtime_env.py:534-534 | a line break ends a line, a carriage return with its line feed is one, and a last break adds no line |

## Left out

- Chat logs are values here: a caller that keeps and changes the dictionary `get` or an entry operation returned, which the source shares with its cache, is not captured.
- Chat log files that hold JSON other than an object, failing reads and writes of files, writers outside the process, `latest_entry`, `fail_entry` and `list_session_ids`; JSON text is taken as identity and `safe_preview` is a parameter.
- ChatLog.StoreIsWriteThrough: the answers of `flush` and `flush_all` are not compared with the map, which has nothing pending; `Flush` and `FlushAll` state them.
- PermissionProtocol.AtMostOneResponse: is about a permission id in a session, since the store keeps one slot per session (`OneAnswerPerId` is about ids alone); it needs that no displaced permission is announced again, because a new announcement drops the claim; `GuardIsExact` gives the exact condition.
- The older route `/api/permissions/{id}/respond`, which never claims, the questions route, and the upstream calls themselves.
- AbortTree.ReachableIsSettled: says nothing when a listing fails for another reason than a missing session, because the walk then stops.
- Subscribers, observers and websocket queues of the event bus; event times are parsed values.
- EventBus.Bus.RecentEvents: the clock must not go back between calls, because a bucket pruned at a later reading has lost what an earlier one would show.
- Path resolution, symbolic links and permissions of the file service; special files are those that exist but are neither file nor directory.
- EnvFile.EnvFileRoundTrip: is for keys without `=` or line breaks, which no environment name has; it is proved for every order of the keys, of which the sorted one is written.
- File modes and unreadable files of the environment file.
- CategoryScaling.ScaledTotal: rounds the exact quotient half to even; for double precision `DoublesAreClose` gives the total up to counts of 2 to the 50th, not which of its two values it is, and beyond that `AnyScalingIsClose` needs its hypothesis.
- CategoryScaling.SharesBound: is about the exact quotients, like `ScaledTotal`.
- How credentials are found and tokens exchanged; a fingerprint is any function of the credential.
- Loading the session index (corrupt files, missing fields, records stored under another id) and `upsert` of whole records; the index file is the value last saved.
- Sessions.SessionStore.Clear: returns the cleared records as a set; the order of the index is not modelled.
- Reading id, role and text out of raw upstream messages, reply metadata, and cancellation of a deletion while it waits.
- ForkMutation.FailureKeepsUpstream: assumes that no other replacement of the same record lands during the awaits, which would move it; `WhatLandsIsKept` covers that case by saying that a failed deletion adds nothing to what landed.
- NoProxy.NoProxyExempts: which addresses are loopback and which lie in a CIDR block are parameters.
- Quoting credentials into a URL, what reads as a URL in a row's own setting, and IP address and CIDR arithmetic are parameters; plan warnings, summaries and status texts are not modelled.
- ProxyRouting.ChoiceFollowsRule: `environment` is called with its default list of exemptions, as every caller does.
- Lower and upper case are ASCII, except that title prefixes also match the non-ASCII letters Python's regular expressions fold to i and s.
- The model call behind a generated title, its prompt and its publication.
- Payload fields of a run other than `ok`, the completion state, the error and the lists; timestamps are integers, and the stale runs failed by one start share one clock reading.
- RequestBindings.RequestBindingStore.ResolveExact: with completed bindings included the answer depends on what was pruned before, so it is not compared with the reference store.
