# Verified models of the chat store, the chat pipeline and the priority join

Three parts of the repository are modelled in Dafny and proved correct.

**The session store** (`agent/backend/store.go`, `handlers.go`) keeps a map from sessions to growing
message logs in two flat buckets whose keys are byte strings in byte order. `Lex`, `Decimal`, `Keys`
and `Bolt` give byte order, decimal notation, the key scheme and the cursor scan; `SessionStore` is
the store as a class over two buckets, with a ghost field for the map it stands for; `Timestamps`
says when the timestamp strings it sorts by are in time order; `Handlers` adds validation, status
codes, arbitrary sequences of operations, and what a request sees when others run between its two
transactions.

**The chat pipeline** (`keda/websocket-gateway`, `keda/agent-worker`) is a transition system in
`Protocol`: tabs, one Redis stream read through one consumer group by any number of workers, Pub/Sub,
and the gateway's subscriber. A step is one Redis command, tool call, hub critical section, list
fetch or connection write, and a step that is not enabled changes nothing, so the theorems speak of
every sequence of steps whatever: `QueueSafety` (the consumer group and the stages of a turn),
`Settlement` (what an acknowledgement is worth), `Losses` (which entries are never dealt with),
`Routing` and `Arrivals` (whose reply goes where, and that none vanishes), `Effects` (where the
effects of tool calls are), `Progress` (what does happen when nothing intervenes), `Freshness` and
`Staleness` (which snapshots a tab gets, and which one it is left with). A tool call is a request, its effects on the data one by one, and a return; a
call that is cut short by a timeout or a crash can have effects later. `AgentTurn` and `Worker` are
the worker's loops as loops, and `WorkerProtocol` connects them to the transition system in both
directions. `Hub` is the hub as a class.

**The priority join** (`keda/mcp-server/tools.go`) is in `Priorities`: the tools as methods of a
class over api's table and the Redis hash, a history of the atomic events on both, and what a listing
shows after any history.

What the environment is taken to do: a bbolt transaction is atomic and a bucket is a map whose keys a
cursor visits in byte order; XREADGROUP with `>` hands out the entry after the group's last delivered
one and makes it pending; a Pub/Sub message reaches the gateway's channel or is lost; `sort.Slice`
returns some sorted permutation; api's ids are auto-incremented and never reused; UUIDs are fresh.

Where the code and its documentation differ, the model follows the code:

- `ListSessions` says "most-recently-updated first" but compares strings. The list is in that order
  if and only if no two stored timestamps fall in one whole second with the printed fraction of one a
  proper prefix of the other's (`SessionStore.Store.ListSessions`, `Timestamps.StringOrderVersusTime`).
- `ListMessages` says "chronological". It is so if and only if the session has at most
  10,000,000,000 messages (`SessionStore.Store.ListMessages`).
- `add_todo` says a todo "starts at priority 0". A listing agrees if and only if the last
  `set_priority` on that very id, if there was one and nothing cleared it since, was to 0
  (`Priorities.TodoTools.AddTodo`; `Priorities.EarlySetOutlivesCreation` is an input that shows 50).
- A finished broadcast was sent to every tab, but a tab can be left with an older snapshot. It is if
  and only if the last snapshot it was sent is its own, initial or refreshing, and was fetched before
  the announcement (`Staleness.StaleExactlyByOwnWrite`); from the broadcast's write on it never is
  again, if and only if that write did not fall between such a fetch and its write
  (`Staleness.CurrentFromThenOn`; `Staleness.LastSnapshotMayBeStale` is a run).
- The change announced after a turn does not always cover the turn: a tool call that timed out can
  take effect later. It covers every effect, for good, if and only if none has landed after it and
  none is on its way (`Settlement.CoveredForGood`), as when no call was cut short
  (`Settlement.UncutIsCovered`; `Settlement.LateEffectIsNotCovered` is a run where it does not).
- An entry is lost for good if and only if a worker crashes between reading and acknowledging it
  (`Losses.LostExactlyByCrash`), and delivered but never started if and only if its worker crashes
  before it begins, or has not begun yet (`Losses.NotStartedMeans`).

## Model

| member | source | states |
|---|---|---|
| Lex.PrefixRunEnds | agent/backend/store.go:207-215 | keys sharing a prefix are contiguous in byte order: above the first key at or past the prefix that lacks it, no key has it |
| Bolt.ScanVisitsMatching | agent/backend/store.go:207-215 | the Seek-then-HasPrefix loop, over any ascending keys, visits exactly the keys with the prefix, each once, in order |
| Bolt.MatchingElements | agent/backend/store.go:241-244 | the reference list of matching keys holds exactly the keys with the prefix, in ascending order |
| Keys.NewIdIsUsable | agent/backend/store.go:106-114 | both forms of a new id are non-empty and free of colons; the bytes can be read off the digits two by two, so different bytes give different ids, and the fallback reads back as the clock |
| Keys.KeyLayout | agent/backend/store.go:120-132 | a session key is its prefix and the id; a message key is its prefix, the id, a colon and at least ten digits that denote the number, just ten up to 9,999,999,999 |
| Keys.PrefixBelongsToOneSession | agent/backend/store.go:124-132 | a key of a colon-free id starts with the prefix of a string, any string, if and only if the string is that id |
| Keys.MessageKeyInjective | agent/backend/store.go:128-132 | over colon-free ids and all sequence numbers, however wide, two keys are equal only for the same message |
| Keys.KeyOrderIsSeqOrder | agent/backend/store.go:128-132 | up to 9,999,999,999 byte order of one session's keys is numeric order |
| Keys.KeyOrderBreaksAfterPadding | agent/backend/store.go:128-132 | the bound is tight: number 10,000,000,000 sorts before 1,000,000,001 |
| Keys.SessionKeyInjective | agent/backend/store.go:120-122 | session keys are equal only for equal ids, colons or not |
| Timestamps.StringOrderVersusTime | agent/backend/store.go:116-118 | for an earlier and a later instant, the formatted strings are in the wrong order if and only if both share the whole second and the printed fraction of the earlier is a proper prefix of the other's; otherwise they are in the right order |
| Timestamps.EqualFractionsSortByTime | agent/backend/store.go:116-118 | with printed fractions of one length string order is time order, as section 5.1 of RFC 3339 has it |
| Timestamps.FormatInjective | agent/backend/store.go:116-118 | a timestamp string names one instant |
| Timestamps.WholeSecondSortsLate | agent/backend/store.go:116-118 | every whole second sorts after the half second that follows it |
| Timestamps.ClockLayout | agent/backend/store.go:116-118 | four digits and five times two that denote the fields, with hyphens, a T and colons in between |
| Timestamps.FormatLayout | agent/backend/store.go:116-118 | after the clock comes nothing for a whole second, else a point and up to nine digits that do not end in zero and make up the nanoseconds; then Z |
| SessionStore.RefinementIsUnique | agent/backend/store.go:4-10 | two buckets stand for at most one map of sessions and logs |
| SessionStore.NoOrphans | agent/backend/store.go:269-295 | in buckets that stand for a map, no message lacks its session |
| SessionStore.Store.constructor | agent/backend/store.go:70-93 | opening a file keeps the buckets it has and stands for the chats they stand for |
| SessionStore.NewFileIsEmpty | agent/backend/store.go:77-85 | a new file stands for no chats, and for nothing else |
| SessionStore.Store.CreateSession | agent/backend/store.go:134-154 | adds exactly the returned session, with the default title for an empty one, and keeps the refinement |
| SessionStore.Store.ListSessions | agent/backend/store.go:156-177 | returns every session once, in descending string order of the update time; most recent first if and only if no two stored timestamps clash |
| SessionStore.Store.GetSession | agent/backend/store.go:179-199 | the session's metadata, or not found for any string that is not a live id |
| SessionStore.Store.ListMessages | agent/backend/store.go:201-219 | a permutation of the session's log, nothing for a string that is not a live id, and the log itself if and only if it has at most 10,000,000,000 messages |
| SessionStore.Store.AppendMessage | agent/backend/store.go:221-267 | appends exactly one message numbered by the length of the log and bumps the session's update time, or reports not found and changes nothing |
| SessionStore.AppendTx | agent/backend/store.go:227-262 | the transaction's body, on the buckets: the counted number is the log's length and the new buckets stand for the extended log |
| SessionStore.AppendHoldsMessages | agent/backend/store.go:238-254 | the key written by an append is not in the bucket yet, so nothing is overwritten |
| SessionStore.ScanFindsLog | agent/backend/store.go:239-244 | a scan for a live session finds as many keys as it has messages, and just their keys |
| SessionStore.ScanOrder | agent/backend/store.go:203-219 | the scan visits the log in append order if and only if the numbers fit the padding |
| SessionStore.Store.DeleteSession | agent/backend/store.go:269-295 | removes the session with all of its messages and nothing else, or reports not found |
| SessionStore.DeleteHoldsMessages | agent/backend/store.go:281-293 | deleting the collected keys leaves every other session's messages as they were |
| SessionStore.ReadPrefix | agent/backend/store.go:208-215 | the reading loop returns the values of the matching keys, in key order |
| SessionStore.CountPrefix | agent/backend/store.go:240-244 | the counting loop counts the matching keys |
| SessionStore.CollectPrefix | agent/backend/store.go:283-287 | the collecting loop collects the matching keys |
| SessionStore.DeleteKeys | agent/backend/store.go:288-292 | the deleting loop removes just the given keys |
| Handlers.PerformAll | agent/backend/store.go:136-295 | after any sequence of operations the buckets stand for what the same operations do to a map |
| Handlers.LogOnlyGrows | agent/backend/store.go:221-295 | under any operations that do not draw the id anew, a session's log only grows until it is deleted, and it is gone exactly if it was deleted |
| Handlers.GetSession | agent/backend/handlers.go:81-104 | with any transactions between its two reads, the messages are those of a gap-free log that extends the log at lookup, or none if the session was deleted in between; 404 if it was not there |
| Handlers.CreateSession | agent/backend/handlers.go:53-67 | 201 with the session, stamped now and with the trimmed or default title; 400 and no change for an undecodable body |
| Handlers.DeleteSession | agent/backend/handlers.go:106-119 | 204 and removal, or 404 and no change |
| Handlers.AppendMessage | agent/backend/handlers.go:121-156 | stores a message if and only if the body decodes, the trimmed role is user or assistant, the content is not blank and the session exists; 404 exactly for a valid message to a missing session, 400 for all else, and then nothing changes |
| Text.TrimSpaceCutsEnds | agent/backend/handlers.go:135-136 | trimming removes white space at both ends, all of it and nothing else |
| Text.BlankTrimsToNothing | keda/websocket-gateway/main.go:120-122 | a text trims to nothing if and only if it is all white space |
| Text.SpaceIsTrimmed | agent/backend/handlers.go:135-136 | a blank, tab, newline or carriage return at either end of any text makes no difference to the trimmed text |
| Text.AsciiSpace | keda/websocket-gateway/main.go:120-122 | in ASCII just the blank and the five characters from tab to carriage return are white space |
| AgentTurn.CallTools | keda/agent-worker/main.py:87-99 | one result and one call for each and only the tool_use blocks, in block order, with its id and what its call returned, unless a call raises; then just the calls of the blocks before it reached the server, and its own if the request got through |
| AgentTurn.JoinTextIsAllText | keda/agent-worker/main.py:84-85 | the reply is the texts of all text blocks, each once and in order, and nothing of other blocks |
| AgentTurn.RunAgentTurn | keda/agent-worker/main.py:68-102 | at most 8 model calls, each with the transcript of all rounds so far; it continues exactly while rounds complete, and its outcome and the calls that reached the server are determined by the first round that does not, the limit text standing for eight complete rounds |
| AgentTurn.TranscriptAlternates | keda/agent-worker/main.py:71-100 | in every transcript sent the roles alternate, the user first and last |
| Worker.ProcessEntry | keda/agent-worker/main.py:105-118 | the model is first sent the message field, or the empty text without one; the effects are the turn's tool calls, then the reply on the channel of the session_id field if that is there and not empty, then the change, cut off where Redis raises; the reply is the turn's text or the apology with the exception |
| Worker.ServeAll | keda/agent-worker/main.py:133-140 | each delivery is processed completely and then acknowledged, before the next; the loop ends only where a Redis command raises, with the effects up to there |
| WorkerProtocol.LoopIsProtocol | keda/agent-worker/main.py:105-140 | whatever effects the loop has for a delivered entry, the transition system's worker has steps that do just that about the entry, in that order, whatever steps of others come in between and however many effects each call asks for |
| WorkerProtocol.Interleaved | keda/agent-worker/main.py:133-140 | what a worker does about its entry is what the same steps do when it is alone |
| WorkerProtocol.ProtocolIsLoop | keda/agent-worker/main.py:105-140 | what any run has done about an entry is what the loop would do for it, as far as it has come; all of it if and only if the entry is acknowledged |
| QueueSafety.QueueAlwaysSafe | keda/agent-worker/main.py:51-56 | the queue invariants hold after every sequence of steps |
| QueueSafety.EveryTurnStartsAtMostOnce | keda/agent-worker/main.py:133-140 | undelivered, pending and acknowledged entries partition the stream, the delivered ones are a prefix, only they are started, each at most once, and the acknowledged ones were |
| Settlement.AcknowledgedMeansSettled | keda/agent-worker/main.py:116-140 | an acknowledgement comes after the change, and that after the reply, if a session asked; none of them happens twice |
| Settlement.CoveredIffNoneLate | keda/agent-worker/main.py:112-118 | the announced version includes every effect of the turn's tool calls if and only if none landed after it |
| Settlement.CoveredForGood | keda/agent-worker/mcp_client.py:21-35 | it does so in every continuation if and only if none has landed after it and none of an abandoned call is on its way |
| Settlement.UncutIsCovered | keda/agent-worker/mcp_client.py:30-35 | if no call was given up while it had effects to come, it does so in every continuation |
| Settlement.LateEffectIsNotCovered | keda/agent-worker/mcp_client.py:21-30 | a run in which an entry is acknowledged and an effect of its turn lands after the announcement |
| Effects.EffectsAreConserved | keda/agent-worker/main.py:91-91 | in every run the effects an entry's calls asked for are those that happened, those the call in progress still owes and those on their way from abandoned calls |
| Effects.VersionsAreCounted | keda/agent-worker/main.py:91-91 | every version of the data is an edit from outside or an effect on record, each counted once |
| Effects.CallTakesEffect | keda/agent-worker/main.py:91-91 | a call that returns after all its effects leaves nothing on its way |
| Losses.LostExactlyByCrash | keda/agent-worker/main.py:133-140 | an entry is pending with nobody to deal with it if and only if a worker crashed while it held it |
| Losses.LostForGood | keda/agent-worker/main.py:133-140 | in every continuation a lost entry stays pending, and no turn, reply or acknowledgement of it follows |
| Losses.NotStartedMeans | keda/agent-worker/main.py:134-139 | a delivered entry's turn has not started if and only if its worker has read it and not begun, or crashed at that point |
| Routing.RoutingAlwaysSafe | keda/websocket-gateway/hub.go:27-44 | the routing invariants hold after every sequence of steps |
| Routing.RepliesReachTheirAsker | keda/websocket-gateway/main.go:118-126 | a chat reply on a connection answers an entry that connection queued, with the text published for it |
| Routing.NoMoreRepliesThanChats | keda/websocket-gateway/main.go:159-161 | no connection receives two replies to one chat, nor more replies than it queued chats |
| Arrivals.NoReplyVanishes | keda/websocket-gateway/hub.go:36-44 | in every run a published reply has reached the connection that asked, or is on its way, or was dropped because the gateway did not hear it, its session had no connection or the write failed; exactly one of these |
| Progress.HubAlwaysExact | keda/websocket-gateway/main.go:98-103 | in every run the hub's map holds exactly the tabs that have registered and not left, each under its session |
| Progress.ChatIsQueued | keda/websocket-gateway/main.go:118-126 | a chat that is not blank is queued as typed with the tab's session, a blank one is not |
| Progress.ReplyIsSent | keda/websocket-gateway/hub.go:36-44 | from any state, lookup and write give the frame to the session's open connection and to no other |
| Progress.ChatIsAnswered | keda/websocket-gateway/main.go:118-126 | from any state with nothing queued ahead, a chat goes through stream, worker, Pub/Sub and hub and comes back to its tab as the turn's reply, and no other tab receives anything |
| Progress.FirstSnapshotIsSent | keda/websocket-gateway/main.go:98-110 | a connecting tab is registered and greeted with the current list |
| Progress.RefreshIsSent | keda/websocket-gateway/main.go:130-137 | a refresh brings the tab the current list |
| Progress.ChangeIsSent | keda/websocket-gateway/main.go:149-157 | a change brings any registered, open tab the list as it is at the fetch |
| Progress.ChangeIsAnnounced | keda/agent-worker/main.py:118-140 | the end of a turn announces the current version, acknowledges the entry and frees the worker |
| Progress.TabLeaves | keda/websocket-gateway/main.go:100-103 | a tab that leaves is out of the hub's map, alone, and closed |
| Freshness.AlwaysFresh | keda/websocket-gateway/main.go:98-110 | the freshness invariants hold after every sequence of steps |
| Freshness.NoMissedChange | keda/websocket-gateway/main.go:149-157 | once the broadcast of a change has finished, every registered tab whose initial snapshot was written and whose writes succeeded has been sent a snapshot fetched after it |
| Freshness.TurnReachesEveryTab | keda/agent-worker/main.py:105-118 | an acknowledged entry's turn announced a version that includes just the effects that landed before it, and once that broadcast has finished every such tab has been sent a snapshot no older |
| Staleness.StaleExactlyByOwnWrite | keda/websocket-gateway/main.go:106-143 | after a finished broadcast a registered, greeted, unbroken tab is left with an older snapshot if and only if the last one it was sent is its own initial or refreshing write of an earlier fetch |
| Staleness.CurrentFromThenOn | keda/websocket-gateway/hub.go:46-57 | when a broadcast writes to a tab, the tab's last snapshot is no older than the announcement in every continuation, if and only if the tab is not between an older fetch and its write |
| Staleness.AlwaysTracked | keda/websocket-gateway/main.go:149-157 | after every sequence of steps: subscriber snapshots never get older, and a tab behind a finished broadcast wrote its last snapshot itself |
| Staleness.LastSnapshotMayBeStale | keda/websocket-gateway/main.go:106-110 | a run in which the last snapshot a tab receives is older than a change whose broadcast has finished |
| Hub.LookupIsLatest | keda/websocket-gateway/hub.go:24-38 | after any registrations and unregistrations a lookup finds the connection of the session's last registration, if it was not unregistered since, and nothing otherwise |
| Hub.Hub.SendTo | keda/websocket-gateway/hub.go:36-44 | the socket found under the lock gets the frame if it is not broken and the network cooperates, whatever happens to the map before the write, and else is broken; every other socket is untouched |
| Hub.Hub.Copy | keda/websocket-gateway/hub.go:47-52 | the copy holds every registered socket once |
| Hub.Hub.Broadcast | keda/websocket-gateway/hub.go:46-57 | every socket registered at the copy is written to exactly once and gets the frame if it is not broken and the network cooperates, whoever registers or leaves meanwhile; nobody else is written to |
| Decimal.AtoiOfFormatInt | keda/mcp-server/tools.go:66-68 | every int64 is read back from its printed form |
| Decimal.AtoiAccepts | keda/mcp-server/tools.go:67-68 | a string is read as a number if and only if it is digits after at most one sign and denotes an int64, and then as that number |
| Decimal.FormatIntShape | keda/mcp-server/tools.go:149 | an id is printed as a minus sign if need be and digits that denote its size, without leading zeros |
| Decimal.FormatIntInjective | keda/mcp-server/tools.go:149 | different ids never share a hash field |
| Priorities.RequireIntArg | keda/mcp-server/tools.go:217-235 | succeeds exactly on numbers: an int as it is, a float less than 1 away and on the side of zero |
| Priorities.Truncate | keda/mcp-server/tools.go:226-227 | a float argument loses its fraction, towards zero |
| Priorities.MergeWithPriority | keda/mcp-server/tools.go:55-81 | one row for each todo, unchanged, with the number its hash field reads as, or 0 without one or if it is no number; higher priority first, then lower id |
| Priorities.ListingIsUnique | keda/mcp-server/tools.go:74-79 | the listing is the same for every order of the input and every correct sort |
| Priorities.PriorityIsLastSet | keda/mcp-server/tools.go:63-72 | after every history the hash gives an id the last value set since it was last cleared, else 0, always within 0..100 |
| Priorities.NewRowShowsOnlyEarlySets | keda/mcp-server/tools.go:166-191 | a row just created shows a non-zero priority only if set_priority named its id before, and nothing cleared it since |
| Priorities.DeletedStaysDeleted | api/store.go:16 | a deleted row never comes back, so what its interrupted deletion left in the hash is not shown |
| Priorities.TodoTools.SetPriority | keda/mcp-server/tools.go:136-153 | reports success if and only if both arguments are numbers, the priority is within 0..100 and Redis answers; stores the value if and only if the arguments are valid and Redis is reached, so also when the reply is lost |
| Priorities.TodoTools.AddTodo | keda/mcp-server/tools.go:99-134 | creates the row if and only if the text is valid and api is reached, and reports it with priority 0 if api answers; a listing confirms that if and only if the last set_priority on the id in force, if any, was to 0 |
| Priorities.EarlySetOutlivesCreation | keda/mcp-server/tools.go:136-153 | a legal history after which a fresh todo shows priority 50 |
| Priorities.AddedAtZeroJoinedAtFifty | keda/mcp-server/tools.go:130-153 | the tools themselves do it: add_todo reports 0 and the join shows 50 |
| Priorities.TodoTools.DeleteTodo | keda/mcp-server/tools.go:166-191 | succeeds if and only if the row is there and api and Redis answer; then row and priority are gone, whatever others did in between; a failed clearing leaves the row deleted, and a missing row is api's error and changes nothing |
| Priorities.TodoTools.ListTodos | keda/mcp-server/tools.go:83-97 | exactly the rows of its fetch, with the last priorities set by the time the hash was read, whatever others did in between; higher priority first, then lower id |

## Left out

- I/O errors of bbolt and failing JSON: a transaction that fails is rolled back and changes nothing; records are stored typed.
- The three cursor loops and ForEach are methods on a bucket value rather than inline in the store's
  methods; a bucket is a value that its methods replace, so aliasing of buckets is not captured.
- `sort.Slice` sorts in place; the model returns a sorted sequence.
- `handleWS` and `subscribeUpdates` are steps of the transition system, not loops, because their interleaving is the point.
- Hub.Hub.Broadcast: others' changes to the map come between the copy and the first write; the transition
  system has them at any point among the writes.
- A list fetch is one step that sees one version of the data; list_todos reads api and the hash one after the other, which `Priorities.TodoTools.ListTodos` models.
- Calendar rules: an instant is its fields, up to year 9999.
- A float argument outside int64: Go leaves the conversion to the platform.
- `complete_todo` and api's other fields: they do not touch the join.
- Exhaustion of int64 ids; a Redis restart, which loses the stream and the hash.
- Servers, probes, shutdown, retry loops, `agent/mcp-server`, the JSON-RPC envelopes, front ends and manifests.
