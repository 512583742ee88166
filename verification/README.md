# Orchestration platform: verification model

A Dafny model of the parts of this platform that keep state across steps, with proofs about all
runs of them.

| module | models |
|---|---|
| Pipeline, EventSafety, Losses, Streams, OneConsumer | commits in tasks-svc, the JetStream stream, replicas of notifier-svc sharing a durable consumer: a transition system with lost publishes, failed inserts, lost acks, redelivery and crashes |
| Hub, NotifierService, Notification, Sse | the consumer loop, the bounded non-blocking fan-out, the SSE stream calls, and how a browser decodes their bytes |
| TaskTable, TasksService | the tasks table and the four handlers on it |
| Browser | the page's task list, kept by hand next to the table, and its toasts |
| Bootstrap | the database bootstrap job as a sequence of guarded commands |
| ToolLoop | the bot's tool-use conversation and its tool summary |
| Strconv, Tokens, Accounts | 64-bit decimals, the signed tokens with their two verifiers, signup, login and me |
| Subnets | the VPC address plan |

Code that changes state in place is a class whose methods are proved against functions on values;
the statements about all runs are lemmas about those functions. Records named as history in the
sources (the origin of an event, the source of a notification, what a subscriber was offered) are
read by no step. The outside world enters as parameters: how a statement, a publish, an
acknowledgement or a model call ends, the clock, the salt, and the abstract MAC, token encoding and
password hash, of which only `Faithful` is assumed.

Where the code does less than its comments say, the model follows the code:

- The comment on `publish` (apps/tasks-svc/internal/app.go:176-178) expects JetStream redelivery to
  make up for a failed publish. It does not: `LostPublishIsFinal`, `EventIffPublished`.
- `handle` gives up on a failed insert and its caller acknowledges all the same, so the notification
  is gone for good: `AckedWithoutRow`, `RowIffWritten`, `SettledIsFinal`, `FailedInsertExample`.
- A task name with a line break does not survive the event stream: `RoundTrip`, `BrowserSeesBodies`.
- `createTask` refuses an empty name, `updateTask` accepts one: `NamesStayPresent`, `EmptyNameExample`.
- `listTasks` does not look at the cursor's error after its loop and may answer 200 with fewer rows:
  `ListAnswersPrefix`, `CutListingExample`.
- tasks-svc accepts a token without the Bearer prefix, auth-svc does not: `VerifiersAgree`.
- The number the bot reports as tool calls counts rounds: `RoundsAndTools`, `RoundsMiscount`.

## Model

| member | source | states |
|---|---|---|
| Pipeline.RunKeepsInv | apps/notifier-svc/internal/app.go:104-156 | every interleaving of commits, publishes, fetches, inserts, fan-outs, acks, lost acks, crashes and stream calls keeps the pipeline invariant |
| EventSafety.Provenance | apps/notifier-svc/internal/app.go:125-145 | in every run each notification traces to one stored event, one commit and one step of the run: a request authMW passed, whose name and fields the row carried by the event has, and after which the table held it; the addressee is the uid read from that request |
| EventSafety.CommitHappened | apps/tasks-svc/internal/handler.go:48-106 | every commit record comes from its own Http step of the run, with that header and time: a create of exactly the given name, or an update of the named task with exactly the given fields, and the table held the row right after it |
| EventSafety.OriginsDistinct | apps/tasks-svc/internal/handler.go:48-106 | distinct events come from distinct commits, distinct notifications from distinct deliveries |
| EventSafety.CommitRecordsRow | apps/tasks-svc/internal/handler.go:48-106 | a commit is recorded exactly for an authenticated create or update that succeeds, with the owner's row as the table then holds it and the subject of the operation |
| EventSafety.TableIsRunOfCalls | apps/tasks-svc/internal/app.go:101-107 | the table inside the pipeline is the table after exactly the requests that passed authMW, so every property of request sequences holds in it |
| EventSafety.HandlersMatchPipeline | apps/tasks-svc/internal/handler.go:48-106 | a request and its publish leave the pipeline's table and stream as the in-place handler leaves its own: one message tasks.created or tasks.updated with the row, an empty one if encoding failed, none if the publish is lost or no row was written |
| EventSafety.AckedWasHandled | apps/notifier-svc/internal/app.go:118-121 | an acknowledged event has had a handle call that returned |
| EventSafety.UnackedCanBeRedelivered | apps/notifier-svc/internal/app.go:101-121 | from every reachable state any replica can crash, fetch any unacknowledged event again and bring it to an ack, with a new notification when it decodes and nothing else changed |
| EventSafety.RowsPerEvent | apps/notifier-svc/internal/app.go:136-142 | an event has exactly as many notifications as deliveries whose insert took effect, so never more than deliveries |
| Losses.AckedWithoutRow | apps/notifier-svc/internal/app.go:118-145 | an acknowledged event that decodes had a handle call in the run, and has no notification if and only if the insert failed in every one of them |
| Losses.RowIffWritten | apps/notifier-svc/internal/app.go:125-145 | an event has a notification if and only if some handle call of the run decoded it and its insert took effect |
| Losses.NoFailureNoLoss | apps/notifier-svc/internal/app.go:118-145 | in a run without failed inserts every acknowledged event that decodes has a notification |
| Losses.AckedExactlyByAcks | apps/notifier-svc/internal/app.go:118-121 | an event is acknowledged exactly when some replica finished handling it and that ack was not lost |
| Losses.EveryCommitIsNotified | apps/tasks-svc/internal/handler.go:64-103 | in any run without failed publishes and inserts, whatever crashes and is redelivered, a commit whose event is acknowledged has a notification with its owner, subject and name |
| Losses.SettledIsFinal | apps/notifier-svc/internal/app.go:118-121 | an event that is acknowledged and out of every replica's hands keeps its having or lacking a notification in every continuation |
| Losses.FailedInsertExample | apps/notifier-svc/internal/app.go:139-142 | a concrete run: created, published, fetched, acknowledged over a failed insert, and without a notification for good |
| Losses.EventIffPublished | apps/tasks-svc/internal/app.go:179-182 | a commit has an event in the stream if and only if the run holds its publish and the stream stored it, and never two |
| Losses.LostPublishIsFinal | apps/tasks-svc/internal/app.go:176-182 | a publish that failed is never made up for: no event and no notification for that commit in any continuation |
| Losses.LostPublishExample | apps/tasks-svc/internal/app.go:176-182 | a concrete run with a committed task and an empty stream |
| Streams.StreamsCarryRows | apps/notifier-svc/internal/app.go:143-156 | in every run, on every replica: the counter counts the fan-outs; what a stream call wrote and holds is a subsequence of stored notifications' bodies fanned out since it registered; offered = written + queued + dropped; a frame was dropped exactly when sixteen were queued as it was offered |
| Streams.CreateReachesStream | apps/tasks-svc/internal/app.go:127-182 | from any state, an authenticated create, its publish, a delivery and a receive by an idle open stream call store the notification and write exactly its text to that call |
| Streams.ReplicaIsHubRun | apps/notifier-svc/internal/app.go:147-191 | in every pipeline run a replica's subscribers are those of the hub run over its fan-outs and stream steps since it last started: registered are the calls still open, and each one depends on its own steps and the fan-outs only |
| Streams.BrowserSeesBodies | apps/notifier-svc/internal/app.go:135-144 | in every run a browser decodes exactly the bodies its stream call wrote if and only if their task names have no line breaks |
| Hub.DeliveryAccount | apps/notifier-svc/internal/app.go:147-191 | in every run, per subscriber: written then queued frames are the kept ones of those offered since registration, in order; offered = written + queued + dropped; at most sixteen queued; each frame was dropped if and only if sixteen were queued at the step that offered it |
| Hub.DropIffFull | apps/notifier-svc/internal/app.go:147-156 | whatever came before and whatever follows while the call lasts, a frame fanned out to it is dropped if and only if sixteen are queued at that moment |
| Hub.DrainWritesOldest | apps/notifier-svc/internal/app.go:183-185 | after any run a receive on a nonempty queue writes exactly its oldest frame and leaves the rest queued, touching no other call |
| Hub.BeatWritesKeepAlive | apps/notifier-svc/internal/app.go:186-188 | a timer writes exactly one keepalive and moves no frame |
| Hub.DrainsCatchUp | apps/notifier-svc/internal/app.go:179-190 | after as many receives as frames are queued every kept frame has been written, in order, and the queue is empty |
| Hub.OfferedWhileOpen | apps/notifier-svc/internal/app.go:169-173 | a call starts with nothing queued or written and is offered exactly the frames fanned out while it lasts |
| Hub.Independence | apps/notifier-svc/internal/app.go:147-156 | what one stream call ends up with is a function of the fan-outs and its own steps, whatever other subscribers do |
| Hub.NoLeaks | apps/notifier-svc/internal/app.go:169-177 | a stream call is registered if and only if some step of the run entered it and no later step left it |
| Hub.LosslessWhileClose | apps/notifier-svc/internal/app.go:151-154 | a call that stays open loses nothing if and only if it never trails the fan-outs by more than sixteen frames |
| NotifierService.App.Fanout | apps/notifier-svc/internal/app.go:147-156 | every registered channel gets the frame or drops it when full, in whatever order the set is walked |
| NotifierService.App.Handle | apps/notifier-svc/internal/app.go:125-145 | a message that decodes and is stored adds its notification, counts once, and puts its frame behind the others on every channel with fewer than sixteen; any other outcome reaches no channel |
| NotifierService.App.Subscribe | apps/notifier-svc/internal/app.go:110-122 | rows, counter and acks are those of the concatenated messages, and every channel holds the first sixteen of what it held and their frames, whatever the batches, timeouts or fetch errors |
| NotifierService.MessageIs | apps/notifier-svc/internal/app.go:125-145 | what one message adds to notifications, frames and acks, spelled out |
| NotifierService.MessagesAre | apps/notifier-svc/internal/app.go:110-122 | every message of every batch counts, in order; timeouts and fetch errors add none |
| NotifierService.AcceptAllIs | apps/notifier-svc/internal/app.go:147-156 | a channel takes frames in order up to its sixteenth and drops the rest |
| NotifierService.BatchesDoNotMatter | apps/notifier-svc/internal/app.go:110-122 | undisturbed, any cutting into batches stores one row per decodable event, fans out their frames, counts them and acks every event, in log order |
| OneConsumer.BatchesRefineMap | apps/notifier-svc/internal/app.go:110-145 | in the pipeline with one replica and no failed insert, lost ack or crash, in any interleaving with publishes and stream calls and for any cut into batches, the notifications are the per-event rows of a prefix of the stream, the fan-outs their bodies, the counter their number, and exactly the events behind the consumer are acked; when drained, the prefix is the whole stream |
| NotifierService.HandlerMatchesPipeline | apps/notifier-svc/internal/app.go:125-145 | the imperative handler and the pipeline's step store the same row and fan out the same frame |
| NotifierService.App.Stream | apps/notifier-svc/internal/app.go:159-191 | a stream call writes exactly the bytes WakeWrites describes, or 500 without a flusher, and leaves the subscriber set as it found it on every path |
| NotifierService.StreamCall.Turn | apps/notifier-svc/internal/app.go:179-190 | a receive writes the oldest frame of the channel and takes it off, the timer writes a keepalive comment, an arriving frame is queued if fewer than sixteen are; and all agree with the hub's record |
| NotifierService.WakeWrites | apps/notifier-svc/internal/app.go:179-190 | the bytes and the queue of a stream call, wake by wake, for any wakes before; nothing after the client is gone |
| NotifierService.BurstIsWritten | apps/notifier-svc/internal/app.go:179-190 | up to sixteen frames that arrive, then as many receives, send exactly those frames in order |
| Notification.RowIs | apps/notifier-svc/internal/app.go:135-138 | the stored row: owner, subject, and the text event=subject task=name |
| Notification.BodyOneLine | apps/notifier-svc/internal/app.go:135 | a notification text is one line if and only if subject and task name are |
| Notification.BodyDetermines | apps/notifier-svc/internal/app.go:135 | two notification texts are equal if and only if subject and task name agree, or one subject runs on through the separator into the other's task name |
| Notification.BodyDeterminesPlain | apps/notifier-svc/internal/app.go:135 | for subjects without spaces, as all subjects are, the text determines subject and task name |
| Sse.WireIs | apps/notifier-svc/internal/app.go:144-188 | the bytes written: data, body and an empty line for a frame, a comment for a keepalive |
| Sse.RoundTrip | apps/notifier-svc/internal/app.go:144-188 | for any interleaving of frames and keepalives, decoding the bytes as sections 9.2.5 and 9.2.6 of the WHATWG HTML Living Standard say gives exactly the bodies in order if and only if no body has a line break |
| Sse.NeverMoreText | apps/notifier-svc/internal/app.go:144-188 | whatever the bodies contain, the message events never carry more text than was written |
| Sse.TwoDataLines | apps/notifier-svc/internal/app.go:144 | a body that goes on with a second data line reaches the browser as one message of two lines |
| TaskTable.CreateIs | apps/tasks-svc/internal/handler.go:48-68 | a create succeeds if and only if the name is nonempty, an id is left and the database is up; it then adds one row with the next id, the caller, exactly the name given, not done, and the time; otherwise no row changes |
| TaskTable.UpdateIs | apps/tasks-svc/internal/handler.go:75-106 | which answer an update gets: 400 for an id text that is no 64-bit integer or a bad body, 404 for a row missing or not the caller's; otherwise the given fields are stored as given and everything else stays |
| TaskTable.DeleteIs | apps/tasks-svc/internal/handler.go:108-125 | which answer a delete gets, and that it removes exactly the named row of the caller or nothing |
| TaskTable.BadIdExample | apps/tasks-svc/internal/handler.go:110-114 | the id text 2x is refused and nothing changes |
| TaskTable.RunKeepsWellFormed | apps/tasks-svc/internal/handler.go:48-125 | over any requests every row is filed under its own id and all ids stay below the next sequence value |
| TaskTable.RowsKeepIdentity | apps/tasks-svc/internal/handler.go:48-125 | over any requests a surviving row keeps id, owner and creation time, and an id that is gone never returns |
| TaskTable.CreatedIdsIncrease | apps/tasks-svc/internal/handler.go:56-59 | ids handed out by creates grow strictly along any run, failed inserts and deletions notwithstanding |
| TaskTable.OthersLeaveRowsAlone | apps/tasks-svc/internal/handler.go:88-115 | requests by other users leave a user's rows exactly as they are |
| TaskTable.ListIsNewest | apps/tasks-svc/internal/handler.go:22-42 | listTasks answers the at most 200 largest ids of the caller, strictly descending; a row is missing only behind 200 newer ones |
| TaskTable.ListAnswersPrefix | apps/tasks-svc/internal/handler.go:31-41 | any listing answered is a prefix of the query result, and the whole of it exactly when the cursor was not cut short unnoticed |
| TaskTable.CutListingExample | apps/tasks-svc/internal/handler.go:31-41 | a concrete listing that answers success without the caller's task |
| TaskTable.FullListUnique | apps/tasks-svc/internal/handler.go:25 | the id-descending listing of a user's rows is unique |
| TaskTable.UpdatesCompose | apps/tasks-svc/internal/handler.go:88-94 | any sequence of updates of a task equals one update by the right-biased merge |
| TaskTable.DisjointUpdatesCommute | apps/tasks-svc/internal/handler.go:88-94 | updates to different fields commute |
| TaskTable.NamesStayPresent | apps/tasks-svc/internal/handler.go:51-94 | a request keeps every name nonempty if and only if it is not a patch to the empty name, with a readable id of a task the caller owns, on a working database |
| TaskTable.EmptyNameExample | apps/tasks-svc/internal/handler.go:70-94 | a create and a patch that leave a task with an empty name |
| TasksService.App.ListTasks | apps/tasks-svc/internal/handler.go:22-42 | the cursor loop's answer for every way the database behaves |
| TasksService.App.CreateTask | apps/tasks-svc/internal/handler.go:48-68 | table, answer and published event of a create, for every database and publish outcome |
| TasksService.App.UpdateTask | apps/tasks-svc/internal/handler.go:75-106 | table, answer and published event of a patch |
| TasksService.App.DeleteTask | apps/tasks-svc/internal/handler.go:108-125 | table and answer of a delete; nothing is published |
| Browser.AddOnce | apps/frontend/src/app/page.tsx:71-84 | a blank name sends nothing; any other is stored exactly as typed and shown in front; an error answer leaves the list |
| Browser.LoadIs | apps/frontend/src/app/page.tsx:34-37 | the list after a fetch: the newest 200 rows, empty after an error answer, unchanged after a rejection |
| Browser.RemoveOnce | apps/frontend/src/app/page.tsx:99-108 | removing a shown row takes exactly it out of table and list |
| Browser.ToggleWrites | apps/frontend/src/app/page.tsx:86-97 | a toggle sets only the done flag, to the opposite of what is shown, even of a row changed meanwhile |
| Browser.ListIsPrefix | apps/frontend/src/app/page.tsx:32-108 | in every session the list shown is a prefix of the user's rows, newest first, whatever listings fail and other users do |
| Browser.HiddenRowsStay | apps/frontend/src/app/page.tsx:71-108 | between two listings every add, toggle and remove moves the list exactly as the table: the rows the browser lacks never change |
| Browser.CacheAgreesWithQuery | apps/frontend/src/app/page.tsx:32-108 | after a listing and any acts the list is complete if and only if that listing was, and equals what listTasks would answer if and only if it shows 200 rows, or fewer with none missing |
| Browser.LostAnswerBreaksPrefix | apps/frontend/src/app/page.tsx:74-83 | after a create whose answer is lost the list is still a prefix if and only if it is empty |
| Browser.ToggleTwice | apps/frontend/src/app/page.tsx:86-97 | toggling a shown task twice restores table and list |
| Browser.AddThenRemove | apps/frontend/src/app/page.tsx:71-108 | removing what was just added restores rows and list |
| Browser.ToastsAreNewest | apps/frontend/src/app/page.tsx:39 | the toasts are the eight newest messages, newest first |
| Browser.ToastAt | apps/frontend/src/app/page.tsx:39 | the toasts place by place, newest message first, eight in all |
| Browser.Home.LoadTasks | apps/frontend/src/app/page.tsx:34-37 | the initial fetch against the service: list after success, error answer, or rejection |
| Browser.Home.AddTask | apps/frontend/src/app/page.tsx:71-84 | table and list after addTask, run against the service's own handler |
| Browser.Home.ToggleTask | apps/frontend/src/app/page.tsx:86-97 | table and list after toggle |
| Browser.Home.RemoveTask | apps/frontend/src/app/page.tsx:99-108 | table and list after remove |
| Browser.Home.Listen | apps/frontend/src/app/page.tsx:38-39 | the toasts after the messages of a decoded stream |
| Bootstrap.RetryConverges | gitops/platform/db-bootstrap/job.yaml:78-133 | any number of runs stopped after any command, then one complete run, end exactly as the complete run alone, which always succeeds |
| Bootstrap.CommandsAbsorbed | gitops/platform/db-bootstrap/job.yaml:79-132 | script commands in any order and number leave the outcome of a later complete run where it was |
| Bootstrap.OrderDoesNotMatter | gitops/platform/db-bootstrap/job.yaml:79-132 | reordering or repeating environments gives the same instance |
| Bootstrap.EnvironmentReady | gitops/platform/db-bootstrap/job.yaml:79-131 | after a complete run each environment has exactly its role, database, schemas, tables, indexes, grants and search path added to what was there, and the master is no member |
| Bootstrap.OthersUntouched | gitops/platform/db-bootstrap/job.yaml:79-132 | roles, memberships and databases of environments not listed stay as they were |
| Bootstrap.NamesResolve | gitops/platform/db-bootstrap/job.yaml:129-131 | users always resolves to auth; tasks and notifications resolve to their schema if and only if no earlier schema on the path held that name |
| Bootstrap.ScriptReaches | gitops/platform/db-bootstrap/job.yaml:79-132 | a complete run succeeds from every state and reaches the closed-form target of every environment |
| Bootstrap.Job.Run | gitops/platform/db-bootstrap/job.yaml:78-133 | the nested loops perform exactly the script up to where the pod is stopped, and succeed only with all of it |
| ToolLoop.AnswerQuestion | apps/ai-bot/ai_bot/claude.py:32-86 | for every sequence of replies and API failures: how the loop ends, the history, tools used and count it returns, exactly how many model calls are made, and the answer: the final reply's texts joined front to back and stripped, or the limit notice word for word |
| ToolLoop.TextIsJoin | apps/ai-bot/ai_bot/claude.py:53 | the text of a reply is its text blocks' texts joined front to back |
| ToolLoop.ReadInOrder | apps/ai-bot/ai_bot/claude.py:53-60 | text, tool calls and tool names of a reply are read block by block, first to last |
| ToolLoop.ReadOne | apps/ai-bot/ai_bot/claude.py:53-60 | what each single block adds to text, calls and names |
| ToolLoop.StripIs | apps/ai-bot/ai_bot/claude.py:51-54 | the answer is the joined text with white space taken off both ends and nothing else |
| ToolLoop.HistoryAlternates | apps/ai-bot/ai_bot/claude.py:36-75 | after k complete rounds the history has 1+2k messages alternating user and assistant, each tool-use turn followed by results with its ids in order |
| ToolLoop.RunTools | apps/ai-bot/ai_bot/claude.py:57-73 | one result per tool-use block, in order, with its id and its output cut to 8000 characters; names appended in order |
| ToolLoop.RoundsAndTools | apps/ai-bot/ai_bot/claude.py:54-85 | the reported count never exceeds the tools used when every turn has one, and equals it exactly when every turn has just one |
| ToolLoop.RoundsMiscount | apps/ai-bot/ai_bot/claude.py:51-75 | one round with two tools, and one with none: both are reported as one call |
| ToolLoop.BreakdownIsRight | apps/ai-bot/ai_bot/main.py:93-97 | each distinct tool once with its number of uses, counts adding up to all uses, larger first, ties by first use |
| Strconv.ParseFormat | apps/auth-svc/internal/tokens.go:19-42 | printing then parsing gives a 64-bit integer back, the minimum included, and refuses every other integer |
| Strconv.ParseIntIff | apps/auth-svc/internal/tokens.go:42 | a text is read as n if and only if it is an optional sign and at least one digit, and nothing else, with that positional value, and n fits in 64 bits |
| Strconv.FormatIntIs | apps/auth-svc/internal/tokens.go:21 | printing gives the canonical decimal text |
| Strconv.ParsedIsInt64 | apps/tasks-svc/internal/handler.go:77-81 | an id text that is accepted names a 64-bit id, and its printed form names the same one |
| Tokens.IssuedIs | apps/auth-svc/internal/tokens.go:19-28 | what an issued token holds |
| Tokens.ParseIssued | apps/auth-svc/internal/tokens.go:17-43 | an issued token parses to its uid strictly before the second-truncated expiry (section 4.1.4 of RFC 7519) and never after |
| Tokens.AcceptedIff | apps/auth-svc/internal/tokens.go:30-43 | any token is read as a uid if and only if it is HS256, signed with the secret, from the expected issuer, past its start, before its expiry, which it has, and its subject is that uid |
| Tokens.ForeignToken | apps/auth-svc/internal/tokens.go:30-43 | a token issued under another secret or issuer is accepted if and only if it is unexpired, the secrets sign its claims alike, and the expected issuer is its own or empty |
| Tokens.ExpiryWithinSecond | apps/auth-svc/internal/tokens.go:19-43 | an issued token is accepted until one second before its configured time is over, and refused from its end on |
| Tokens.IssuedHeaderAccepted | apps/auth-svc/internal/handler.go:81-92 | an issued token in a Bearer header gives both services the same uid |
| Tokens.HeaderIs | apps/tasks-svc/internal/app.go:127-153 | what each service makes of a header with and without the Bearer prefix |
| Tokens.VerifiersAgree | apps/tasks-svc/internal/app.go:127-153 | me and authMW agree on a header if and only if it has the Bearer prefix or is not itself an acceptable token |
| Tokens.BareTokenSplitsThem | apps/tasks-svc/internal/app.go:129-133 | a bare issued token is accepted by tasks-svc and refused by auth-svc |
| Accounts.AccountsAreStable | apps/auth-svc/internal/store.go:25-34 | over any run accounts are never changed or removed and emails stay unique |
| Accounts.TokensResolve | apps/auth-svc/internal/handler.go:31-103 | every token handed out in any run resolves through me, until it expires, to the account it was issued for, and is refused afterwards |
| Accounts.DuplicateSignup | apps/auth-svc/internal/handler.go:46-56 | a well-formed signup is refused with a conflict if and only if the email is taken, and then no account changes |
| Accounts.SignupIff | apps/auth-svc/internal/handler.go:31-57 | a signup opens an account if and only if the email is nonempty and free and the password has length 8 to 72; otherwise no account changes |
| Accounts.SignupRefusals | apps/auth-svc/internal/handler.go:31-57 | which refusal a signup gets, that it adds no account, and what becomes of the sequence |
| Accounts.ReadRefusals | apps/auth-svc/internal/handler.go:59-103 | which refusal a login or a me gets, and that neither changes the store |
| Accounts.SignupThenLogin | apps/auth-svc/internal/handler.go:31-79 | credentials of a successful signup log in to that account after any later run |
| Accounts.LoginIff | apps/auth-svc/internal/handler.go:59-79 | a login answers with a token exactly when some account has that email and its hash verifies the password, the token is for that account, and nothing changes |
| Accounts.MeIff | apps/auth-svc/internal/handler.go:81-103 | me answers with an account if and only if the header has the Bearer prefix, tasks-svc's own check reads that account's id from it, and the account exists |
| Accounts.App.Signup | apps/auth-svc/internal/handler.go:31-57 | store and answer of a signup |
| Accounts.App.Create | apps/auth-svc/internal/store.go:25-34 | the insert: sequence value taken first, then the unique constraint |
| Subnets.PlanLayout | infra/terraform/modules/vpc/main.tf:8-14 | all subnets lie inside the VPC, and they are pairwise disjoint if and only if there are at most three zones |
| Subnets.PlanFails | infra/terraform/modules/vpc/main.tf:12-14 | the plan is an error exactly for a prefix longer than /28 or more than ten zones |
| Subnets.PlanBlocks | infra/terraform/modules/vpc/main.tf:12-14 | zone i's public, private and intra subnets are sixteenths i, i + 3 and i + 6 of the VPC block |

## Left out

- Real time and the 24 h retention of the stream: an unacknowledged event stays fetchable for ever, and any unacknowledged event may be fetched again at any moment, which covers every redelivery timer.
- NATS and database connections, IAM tokens, HTTP timeouts, metrics labels, health endpoints.
- A statement that fails at tasks-svc or auth-svc after having taken effect: an error answer there means no row changed. For the notifications insert both outcomes of an error are modelled.
- A publish that reports an error although the message was stored counts as stored.
- JSON text: a body or message is a record or does not decode; ids beyond 2^53, which a browser rounds, are taken as exact.
- Byte encodings: texts are sequences of characters, so invalid UTF-8 is not modelled and password lengths count characters.
- Two browser sessions of one user, requests in flight together, and answers that overtake each other.
- The id, retry and last-event-id handling of EventSource, and its reconnection.
- NotifierService.App.Stream: other goroutines reach the call only through what arrives on its channel; concurrent changes of the subscriber set are covered by Hub and Pipeline.
- Privileges of the bootstrap's master user: no statement is refused for lack of them, although PostgreSQL lets a user who is no superuser create a database for another role only with membership in that role.
- Bootstrap.Job.Run: one job at a time, REVOKE always removes a membership that is there, an existing role or table is taken as it is, sequences exist only as those of tables, and column definitions are not modelled.
- ToolLoop.AnswerQuestion: a tool call always returns, as dispatch turns exceptions into results; the wording of the summary line is not modelled.
- The clock read twice by Issue is read once.
- The page's statistics, filter, seven-day buckets, rendering and styling; the login form.
- slack.py, tools.py, the Helm charts, rollouts, workflows, policies, other Terraform modules and scripts.
