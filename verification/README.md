# browser-automation, modelled and proved in Dafny

The service keeps browser sessions: rows in a store, browser processes in a runtime, proxy leases in a
controller, and a worker process per session that executes commands. This project models those parts and
proves what keeps them in agreement. `dafny verify dfyconfig.toml` checks everything.

How the model is laid out:

- **Values and their order**: `Text` (Go's string operations), `Core` (statuses, error codes, page tokens),
  `Entities` (sessions, tasks, filters), `Listing` (the one listing a set of rows has, and its pages).
- **Stores**: `Store` holds the locked regions of the memory store as functions on a table and as the class
  `MemoryStore`; `Postgres` holds the list queries over an abstract table and proves them equal to `MemoryStore`.
- **Service calls one at a time**: `SessionService` gives the effect of each call on the store, the runtime map
  and the lease map; everything the service cannot decide (clock readings, generated ids, whether a process
  starts, whether a write fails) is an argument. `SessionAnswers` and `TaskAnswers` say what each call stores and
  answers without naming these functions. `Agreement`, `SessionRecords`, `PageTurn` and `PageWalk` prove properties
  of whole runs. `Automation` holds the service, the runtime and the controller as classes; each method
  is proved equal to its function, and every public one keeps `Valid` and, with working writes, the agreement of
  store, runtime and controller. `TaskService`, `TaskOutcome`, `TaskAutomation` and `LiveView` do the same for
  tasks and live views.
- **Interleaved calls**: `RuntimeProtocol`, `LeaseProtocol`, `Admission`, `SessionProtocol` and `WorkerPipe` are
  state machines whose steps are the lock regions, with any number of calls in flight; `SessionProtocol` joins
  service, runtime and controller. `Capacity` derives the session maximum.
- **The worker**: `Commands` and `WorkerCommands` are the two validators of the command language (Go on the
  command, Python on the JSON it is rendered to) and `ValidatorAgreement` proves exactly where they agree.
  `TaskRun` is the interpreter and the decoding of its answer, `Poll` the two polling loops, `NetworkLog` the
  bounded log.
- **Codecs**: `Base64`, the tokens in `LiveView`, and the proxy notations in `ProxyUrl`, which
  `ProxySelection` (the choice of a session's proxy) uses through its validity check.

Some promises one might expect do not hold of the code. For each there is an input or a run that breaks it, and
the exact condition under which it does hold:

- `UpdateSession` is last-write-wins, so a start that finishes late writes RUNNING over STOPPED
  (`Admission.StartOverwritesStop`). A final row can still change if and only if some call in flight holds a copy
  of it from before it was final (`Admission.FinalRowCanChangeIff`); between calls run one at a time none does
  (`Agreement.StatusesAdvance`).
- A stop that overlaps a start can leave a STOPPED session with its browser (`SessionProtocol.StopStrandsBrowser`).
  Short of a Shutdown the browser can still be stopped if and only if some call in flight is about to write RUNNING
  or STOPPING or to take the browser (`SessionProtocol.BrowserOfFinalSessionIff`). Leases are not left behind: once
  no call is in flight each belongs to a registered session (`SessionProtocol.NoLeaseWithoutBrowser`).
- A page walk can repeat one session and miss another when the clock reads earlier than a stored `updated_at`
  (`PageWalk.ClockBehindRepeats`). A finished walk is complete if and only if in every call each session that the
  page expires stays ahead of the first session behind the page (`PageWalk.WalkIsCompleteIff`).
- The two stores may page differently below a microsecond (`Postgres.SubMicrosecondOrderDiffers`). They page alike
  if and only if rows that differ only there are ordered by id as by time and, for tasks, the time bounds judge as
  the columns do (`Postgres.TaskPagesAlikeIff`, `Postgres.SessionPagesAlikeIff`).
- An exchange given up on the worker pipe shifts every later reply by one, for good (`WorkerPipe.LagNeverHeals`), and
  a worker that an exception ends writes one more line, which answers no request and is read by whoever waits
  (`WorkerPipe.FarewellIsRead`). A line read is the reply to one's own request if and only if no earlier exchange was
  missed and it is not that last line (`WorkerPipe.PairingWithLag`).
- So a task may store another one's results, or be FAILED without results whatever was carried out: because the reply
  belongs to a live request, or because the line was the worker's last (`TaskOutcome.PipedTaskTakes`). If no exchange
  was missed the stored task tells about its own commands if and only if the line is not the last one of a worker
  that an exception ended (`TaskOutcome.PipedTaskTells`).
- Preparing one session id twice can lose a lease (`LeaseProtocol.ReusedIdLosesLease`). None is lost if and only if
  between any two recordings for one session its entry was taken out (`LeaseProtocol.NothingLostIff`). The service
  never prepares an id twice: over a run it admits no id twice and prepares only what it admitted, once
  (`Admission.AdmittedOnce`, `Admission.PreparationsAreFresh`).
- Go accepts evaluate, file upload, the point (0,0) and some hollow selector groups that the worker refuses;
  `ValidatorAgreement.Excluded` lists the cases and `AgreementIsExact` proves the list exact.
- Below a memory limit of 1792 MiB the one session always allowed does not fit beside the reserve
  (`Capacity.SessionsFitMemory`).

## Model

| member | source | states |
|---|---|---|
| Text.LessTrichotomy | internal/app/memory_session.go:70-75 | Go's string order is irreflexive, asymmetric and total |
| Text.LessTransitive | internal/app/memory_session.go:70-75 | and transitive, so ids can break ties between equal times |
| Text.AtoiOfSprint | internal/core/pagination.go:13-39 | reading back the numeral written for any int64 offset gives the offset |
| Text.AtoiReads | internal/core/pagination.go:13-22 | nothing but a numeral is read, perhaps behind a sign |
| Text.AtoiOfSigned | internal/core/pagination.go:13-22 | a plus sign makes no difference, a minus sign negates |
| Text.TrimParts | internal/adapters/proxyplugin/controller.go:115-119 | trimming takes blanks off both ends and nothing else, and leaves none there |
| Core.NormalizePageSize | internal/core/pagination.go:24-32 | every page size becomes one between 1 and 200: those already there are kept, none at all is 50, too many is 200 |
| Core.PageTokenRoundTrip | internal/core/pagination.go:13-39 | the token of an offset is parsed as that offset, and only offset 0 has the empty token |
| Core.TokenIsRead | internal/core/pagination.go:13-22 | no token is the first page, a numeral the rows from there on, and anything else fails validation |
| Listing.ListingUnique | internal/app/memory_session.go:64-75 | a set of rows with distinct ids has at most one sorted listing |
| Listing.SortIsListing | internal/app/memory_session.go:64-75 | sorting rows collected in any order yields their listing: every row once, in order |
| Listing.ListingDeterministic | internal/app/memory_session.go:64-75 | whatever the map iteration order and whatever sorting algorithm, any sorted permutation of the collected rows is the same sequence |
| Store.CreateCoherent | internal/app/memory_session.go:10-27 | creating succeeds exactly if id and request id are free, and keeps rows and request-id index mutually inverse |
| Store.UpdateCoherentIff | internal/app/memory_session.go:90-104 | an update keeps the index right exactly if the row keeps its request id, or had none and takes a free one |
| Store.IndexInvariant | internal/app/memory_session.go:10-104 | after any sequence of creates and request-id-keeping updates, rejected ones included, rows and index are mutually inverse |
| Store.MemoryStore.CreateSession | internal/app/memory_session.go:10-27 | inserts row and index entry together, or rejects and leaves both maps unchanged; keeps coherence |
| Store.MemoryStore.GetSession | internal/app/memory_session.go:29-40 | answers with the row of the id, or with the error for an empty or unknown id |
| Store.MemoryStore.GetSessionByRequestID | internal/app/memory_session.go:42-53 | in a coherent store answers with the row that carries the request id, and not-found means that no row does |
| Store.MemoryStore.UpdateSession | internal/app/memory_session.go:90-104 | replaces the row of an existing id, or fails and leaves both maps unchanged |
| Store.MemoryStore.ListSessions | internal/app/memory_session.go:55-88 | returns the page of the unique listing of all sessions, whatever order the map is iterated in |
| Store.MemoryStore.CreateTask | internal/app/memory_task.go:10-27 | inserts row and index entry together, or rejects and leaves both maps unchanged; keeps coherence |
| Store.MemoryStore.GetTaskByRequestID | internal/app/memory_task.go:42-53 | answers with the task the index names for the request id, or the error for an empty or unknown one |
| Store.MemoryStore.UpdateTask | internal/app/memory_task.go:91-105 | replaces the row of an existing id, or fails and leaves both maps unchanged |
| Store.MemoryStore.ListTasks | internal/app/memory_task.go:55-137 | returns the page of the unique listing of exactly the tasks the filter matches |
| Postgres.ReadRows | internal/adapters/repository/postgres/task_list_repository.go:50-66 | the row loop keeps at most a page of decoded rows in order and says whether a row was left over |
| Postgres.PageOfWindow | internal/adapters/repository/postgres/task_list_repository.go:21-74 | one row beyond the page tells whether a next page exists: LIMIT n+1 gives the page and token slicing gives |
| Postgres.TasksSelectedAlikeIff | internal/adapters/repository/postgres/task_list_repository.go:21-33 | the where clause selects the rows of exactly the tasks taskMatches accepts if and only if the time bounds judge every task the rest of the filter lets through as the columns do |
| Postgres.ListedAlikeIff | internal/adapters/repository/postgres/session_list_repository.go:9-54 | the column order lists rows as MemoryStore does if and only if rows that differ only below a microsecond are ordered by id as by time |
| Postgres.TaskPagesAlikeIff | internal/adapters/repository/postgres/task_list_repository.go:10-75 | for a filter, the two stores give the same page for every size and token if and only if bounds judge alike and the order of the matching tasks is kept |
| Postgres.SessionPagesAlikeIff | internal/adapters/repository/postgres/session_list_repository.go:9-54 | likewise for sessions, if and only if the order is kept |
| Postgres.ListTasks | internal/adapters/repository/postgres/task_list_repository.go:10-75 | pages through what the database lists, for every filter, size and token; that is the page of MemoryStore whenever the exact condition holds, so always for times at the column's precision |
| Postgres.ListSessions | internal/adapters/repository/postgres/session_list_repository.go:9-54 | likewise for sessions |
| Postgres.SubMicrosecondOrderDiffers | internal/adapters/repository/postgres/task_list_repository.go:21-33 | two tasks the stores order differently, which the condition rules out |
| ProxySelection.RefTellsProxy | internal/adapters/proxyplugin/controller.go:99-157 | for every kind of selection the profile gets a proxy reference exactly if the session gets a proxy |
| ProxySelection.ChosenProxy | internal/adapters/proxyplugin/controller.go:99-157 | a blank reference, or none asked for, is no proxy; a configured one gives its URL and itself as reference, any other fails; a URL given goes before the reference and is taken exactly if it is valid; a proxy-runtime lease is passed on under its account, and fails without client or lease; an unknown provider fails |
| Automation.Controller.PrepareSessionProxy | internal/adapters/proxyplugin/controller.go:53-73 | records a lease exactly if the chosen proxy has a URL, and an error leaves the map unchanged |
| Automation.Controller.ReleaseSessionProxy | internal/adapters/proxyplugin/controller.go:85-97 | takes the entry out always, and fails only if a remote lease was there and its release failed |
| Automation.Runtime.StartSession | internal/adapters/runtime/cloakbrowser/runtime_core.go:46-89 | registers the processes of a new session within capacity; a session already there is no error; a failed launch gives its lease up |
| Automation.Runtime.StopSession | internal/adapters/runtime/camoufox/runtime_core.go:104-121 | removes processes and lease of the session whether or not it was running, and reports a failed stop or release |
| Automation.Runtime.Shutdown | internal/adapters/runtime/camoufox/runtime_core.go:123-137 | empties the map, releases the lease of every session that was in it, and fails exactly if one stop or remote release did |
| Automation.AutomationService.StartBrowserSession | internal/app/session_service.go:13-80 | changes store, runtime and lease maps and answers as the specification Start in every failure case; keeps Valid and, if its last write works, the agreement |
| Automation.AutomationService.StopBrowserSession | internal/app/session_service.go:119-155 | likewise for Stop: mark, stop, release, record |
| Automation.AutomationService.ExpireSessionIfNeeded | internal/app/session_service.go:157-175 | changes the state and answers as the specification of expiry, which only touches due sessions that are not final |
| Automation.AutomationService.GetBrowserSession | internal/app/session_service.go:96-102 | likewise for a read, which may expire the session it reads |
| Automation.AutomationService.ListBrowserSessions | internal/app/session_service.go:104-117 | likewise for a listing, which expires listed rows in order and stops at the first failure |
| Agreement.AgreementAtBoundaries | internal/app/session_service.go:13-175 | after any sequence of calls a finally stored session owns neither process nor lease; while no write fails, RUNNING rows, runtime keys and lease keys agree exactly |
| Agreement.StatusesAdvance | internal/app/session_service.go:13-175 | over any run, failed writes included, statuses never move back and final rows never change |
| Agreement.StartEffect | internal/app/session_service.go:13-80 | a start keeps the agreement in every outcome: refused, failed, or running |
| Agreement.StopEffect | internal/app/session_service.go:119-155 | a stop keeps it, also when the runtime or a write fails |
| Agreement.ListEffect | internal/app/session_service.go:104-117 | a listing that expires sessions keeps it |
| Agreement.CallCoherent | internal/app/session_service.go:13-175 | no call disturbs the request-id index |
| SessionRecords.RowsOverRuns | internal/app/session_service.go:30-175 | over any run every row's times and last error fit its status: STARTING is stamped with its creation and has no start time, RUNNING with its start time, STOPPED and EXPIRED with their stop time, which no other row has; last_error is there exactly when FAILED |
| SessionRecords.RowsEvolve | internal/app/session_service.go:30-175 | from any point of a run to any later one a row keeps id, request id, creation time, browser kind, expiry, a start time once set, its proxy once it is past STARTING, and every label but stop_reason |
| SessionRecords.CallKeepsSound | internal/app/session_service.go:13-175 | every call keeps rows well-formed, the index coherent and final sessions without browser or lease, and with working writes the full agreement |
| SessionRecords.StartAnswersWithRow | internal/app/session_service.go:13-80 | a start without error answers with the row as stored; a new one is RUNNING; the request id is the one asked for |
| SessionRecords.RepeatedStart | internal/app/session_service.go:16-25 | starting again under a request id changes nothing and answers with the stored row |
| SessionRecords.StopAnswersWithRow | internal/app/session_service.go:119-155 | a stop without error has stored STOPPED with the reason and answers with that row |
| SessionRecords.GetAnswersWithRow | internal/app/session_service.go:96-102 | a read answers with the row as stored, never one that is overdue and not final |
| SessionRecords.ListKeeps | internal/app/session_service.go:104-117 | every row a listing answers with is the row stored when the call ends |
| SessionAnswers.ReadAnswers | internal/app/session_service.go:96-102 | until a session's time has run out, or once it is over, a read answers with its row and changes nothing; after that it takes browser and lease and stores and answers EXPIRED, stopped at the time of the read |
| SessionAnswers.ListAnswers | internal/app/session_service.go:104-117 | the same for each row a listing answers with, by the clock reading of its turn; rows not on the page stay; it fails exactly if the token cannot be read, the read fails, or the write of a row whose time has run out does, and then has ended the sessions before that row |
| SessionAnswers.StartAnswers | internal/app/session_service.go:13-80 | a start answers with the session known under its request id; or is refused with the given code and changes nothing; or adds one row, which is RUNNING with browser, lease and proxy reference, or FAILED with the given code and nothing owned |
| SessionAnswers.NewRowBegins | internal/app/session_service.go:33-52 | a row is added exactly if nothing stands in the way, and says who asked, when, for which kind and labels, and that it ends after the ttl asked for, or thirty minutes if none was |
| SessionAnswers.StopAnswers | internal/app/session_service.go:119-155 | a stop is refused with the given code, or ends the session: what its row holds, what is answered, and what is left if a write fails |
| SessionAnswers.StoppedIff | internal/app/session_service.go:132-155 | with a store that works a session that was alive is STOPPED without error if and only if its browser stopped and its lease was released, else FAILED with browser_unavailable |
| PageWalk.WalkIsComplete | internal/app/session_service.go:104-117 | with a clock not behind any stored updated_at, following next_page_token with any page sizes ends within one call per session and visits every session once in the first listing's order |
| PageWalk.WalkGoesOn | internal/app/session_service.go:104-117 | while a token is left and reads and writes work the next call succeeds, whatever the clock reads |
| PageTurn.TailKeptIff | internal/app/session_service.go:104-117 | the listing behind a page survives the page if and only if the sessions the page expires stay ahead of the first one behind it |
| PageWalk.StaysMissed | internal/app/session_service.go:104-117 | a session that slipped in front of the offset is pushed back by a page by at most the page's length, so no later page reaches it |
| PageWalk.WalkIsCompleteIff | internal/app/session_service.go:104-117 | a finished walk visited every session once in the first listing's order if and only if every call met that condition; otherwise some session was never visited |
| PageWalk.ClockBehindRepeats | internal/app/session_service.go:157-175 | with a clock behind a stored updated_at the walk returns one session twice and another never |
| RuntimeProtocol.ProcessesConserved | internal/adapters/runtime/camoufox/runtime_core.go:46-137 | under every interleaving each spawned process is in exactly one place: one call, one map entry, stopped, or exited while starting |
| RuntimeProtocol.StoppedAtMostOnce | internal/adapters/runtime/camoufox/runtime_core.go:53-137 | no process is stopped twice, nor while a call or an entry still has it |
| RuntimeProtocol.NoLeakAtRest | internal/adapters/runtime/camoufox/runtime_core.go:46-137 | with no call in flight every process belongs to one session, was stopped, or died while starting |
| RuntimeProtocol.CapacityRespected | internal/adapters/runtime/cloakbrowser/runtime_core.go:53-88 | although the lock is dropped between check and registration, registered sessions never exceed the maximum |
| Capacity.SessionsFitMemory | cmd/browser-automation-service/capacity.go:18-64 | a maximum derived from the limit read from the container's files keeps reserve plus registered sessions within it exactly if the limit is at least 1792 MiB, and one more slot never fits; without a limit there is one session |
| Capacity.NumeralIsRead | cmd/browser-automation-service/capacity.go:47-64 | a file holding a numeral and a line end is read as that number |
| Capacity.ConfiguredCounts | cmd/browser-automation-service/capacity.go:18-21 | a configured maximum is the one respected under every interleaving, whatever the files say |
| Capacity.DerivedFromFiles | cmd/browser-automation-service/capacity.go:18-64 | without one the limit is that of the version 2 file if it can be read as a limit, else of the version 1 file; without a limit there is one session |
| LeaseProtocol.LeasesConserved | internal/adapters/proxyplugin/controller.go:53-97 | under every interleaving a lease is in one place and is released remotely at most once, by the call that took it out |
| LeaseProtocol.NothingOverwritten | internal/adapters/proxyplugin/controller.go:53-73 | with fresh session ids no recorded lease is ever overwritten |
| LeaseProtocol.DistinctIsFresh | internal/adapters/proxyplugin/controller.go:53-73 | a run whose preparations are for pairwise distinct sessions has fresh ids |
| LeaseProtocol.RecordedOrTakenOut | internal/adapters/proxyplugin/controller.go:53-97 | with fresh ids a recorded lease is in the map exactly if no release has taken it out |
| LeaseProtocol.NothingLostIff | internal/adapters/proxyplugin/controller.go:53-97 | in a run with any session ids no lease is lost if and only if between any two recordings for one session its entry was taken out |
| LeaseProtocol.ReusedIdLosesLease | internal/adapters/proxyplugin/controller.go:53-73 | a run in which a second preparation of one session id loses the first lease |
| Admission.InvOverRuns | internal/app/memory_session.go:14-26 | under every interleaving of lookups, inserts, effects and write-backs the index stays coherent and each row has one creator |
| Admission.OneEffectPerRequest | internal/app/task_service.go:10-106 | a request id reaches the runtime at most once, across all entry points |
| Admission.AdmittedOnce | internal/app/memory_session.go:10-27 | over a whole run no id is admitted twice, no id is prepared twice, and only admitted ids are prepared |
| Admission.PreparationsAreFresh | internal/app/session_service.go:53-60 | so a run of the proxy controller whose preparations are the service's overwrites no lease |
| Admission.OneOwnerPerRow | internal/app/session_service.go:53-79 | two calls at work on rows they created work on different rows and request ids |
| Admission.FinalRowCanChangeIff | internal/app/memory_session.go:90-104 | in any reachable state a final row can still change if and only if some call in flight holds a copy from before it was final |
| Admission.StartOverwritesStop | internal/app/session_service.go:70-79 | a run in which a start writes RUNNING over STOPPED |
| SessionProtocol.NoLeaseWithoutBrowser | internal/adapters/proxyplugin/controller.go:53-97 | under every interleaving of starts, stops, expiries and Shutdowns, once no call is in flight every recorded lease belongs to a registered session |
| SessionProtocol.BrowserOfFinalSessionIff | internal/app/session_service.go:119-175 | a final session's browser can still be stopped if and only if there may be a Shutdown or some call in flight is about to write RUNNING or STOPPING or to take it |
| SessionProtocol.StopStrandsBrowser | internal/app/session_service.go:119-155 | a run that ends with a STOPPED session whose browser nothing short of a Shutdown will stop |
| WorkerPipe.OrderOverRuns | internal/adapters/runtime/cloakbrowser/runtime_worker.go:16-108 | under every interleaving of stops, kills and exceptions of the worker and lines too long to be read, unread replies and requests stay in order, and a line written on an exception is the last |
| WorkerPipe.PairingWithLag | internal/adapters/runtime/cloakbrowser/runtime_session.go:24-36 | an exchange that gets a line gets the reply to the request k before it, k being the exchanges missed earlier, task and live calls mixed, or the line of a worker that an exception ended, after which no exchange gets one; it is its own reply if and only if k is 0 and it is not that line, and k is 0 exactly if none was missed |
| WorkerPipe.LagNeverHeals | internal/adapters/runtime/cloakbrowser/runtime_worker.go:80-96 | after a missed exchange no later one gets its own reply: each gets an earlier one's, or the worker's last line |
| WorkerPipe.FarewellOfCrash | internal/adapters/runtime/playwrightworker/scripts/99_entrypoint.py:1-11 | without an exception leaving the worker's main function there is no such line |
| WorkerPipe.FarewellIsRead | internal/adapters/runtime/playwrightworker/scripts/99_entrypoint.py:1-11 | runs in which an exchange of any kind gets it, its request written behind a stop or not |
| WorkerPipe.TaskAcceptsForeignResults | internal/adapters/runtime/cloakbrowser/worker_response.go:31-38 | a run in which a task accepts the reply to the task before it |
| ValidatorAgreement.ValidCommandsAreAccepted | internal/app/task_validation.go:48-201 | a command Go accepts, outside the excluded cases, is never refused by the worker, whatever the page does |
| ValidatorAgreement.AgreementIsExact | internal/adapters/runtime/playwrightworker/scripts/30_locator_click.py:1-32 | on a page where nothing goes wrong a valid command is refused if and only if it is one of the excluded cases |
| ValidatorAgreement.InvalidCommandsAreTurnedDown | internal/adapters/runtime/playwrightworker/scripts/11_handlers_input.py:1-96 | of the commands Go refuses the worker refuses all but the tolerated ones, which are listed exactly |
| ValidatorAgreement.ToleratedIff | internal/app/task_validation.go:48-201 | on a quiet page the tolerated commands are exactly those Go refuses and the worker would carry out: a scroll without target or distance, a selection without an option, a negative timeout or limit for network requests |
| ValidatorAgreement.GroupRaises | internal/adapters/runtime/playwrightworker/scripts/32_locator_group.py:8-16 | a selector group is refused exactly if none of its selectors has a value |
| ValidatorAgreement.DragJudged | internal/adapters/runtime/playwrightworker/scripts/40_geometry_extract.py:36-60 | a drag is refused exactly if one of its ends has neither a usable locator nor a point other than (0,0) |
| ValidatorAgreement.MouseMoveJudged | internal/adapters/runtime/playwrightworker/scripts/12_handlers_mouse.py:1-70 | a mouse move is refused exactly if its path, or without one its point, offers nothing but (0,0) |
| ValidatorAgreement.CommandLocatorShown | internal/adapters/runtime/playwrightworker/scripts/20_input_utils.py:1-6 | the worker sees a locator in the JSON exactly if Go's hasSelector sees one in the command |
| Commands.UploadIff | internal/app/task_validation.go:130-191 | of the two operations the worker never carries out, an upload is valid exactly with a target and files by secrets whose id, provider and purpose are not blank, an evaluation exactly with a script |
| TaskRun.ExecuteTask | internal/adapters/runtime/playwrightworker/scripts/02_execute_task.py:1-61 | one result per command up to the first failure not to be continued after, the artifacts in order, and that failure's code as the error |
| TaskRun.ReplyUnique | internal/adapters/runtime/playwrightworker/scripts/02_execute_task.py:1-61 | that description determines the answer completely |
| TaskRun.CodesAgree | internal/core/types.go:64-97 | the worker's and Go's rendering of a code agree exactly on the worker's six codes and "internal" |
| TaskRun.TextsComeBack | internal/core/types.go:64-97 | every code with a text is rendered from that text |
| TaskRun.CodesComeBack | internal/core/types.go:64-97 | and from no other |
| TaskRun.FailuresShown | internal/adapters/runtime/playwrightworker/scripts/51_results_errors.py:20-39 | results and the task's error name the kind of failure: a timeout, the worker's own code, and for Playwright's errors navigation, script or browser by the kind of command |
| TaskRun.DecodeWorkerResponse | internal/adapters/runtime/cloakbrowser/worker_response.go:31-62 | succeeds exactly for task results all of whose parts can be read, and keeps their order |
| TaskRun.LineRoundTrip | internal/adapters/runtime/cloakbrowser/worker_response.go:31-62 | nothing the interpreter reports is lost in decoding |
| TaskAutomation.TaskService.StartBrowserTask | internal/app/task_service.go:10-56 | changes the state and answers as the specification StartTask in every case; keeps Valid and, if an expiry it causes is written, the agreement |
| TaskAutomation.TaskService.ExecuteBrowserCommands | internal/app/task_service.go:58-123 | likewise for ExecuteCommands |
| TaskAutomation.TaskService.ExecuteTask | internal/adapters/runtime/cloakbrowser/runtime_core.go:144-155 | without a browser, a line or a readable line no results and the matching error; else the decoded results |
| TaskAnswers.StartTaskAnswers | internal/app/task_service.go:10-56 | a queued task is stored and answered with as asked for, QUEUED and untouched, or FAILED with the error of the queue; a call turned away answers with the known task or the given code and adds none |
| TaskAnswers.QueuedIff | internal/app/task_service.go:10-46 | a task is created if and only if its request id is not known, its input is complete, its session is stored RUNNING with time left, its ids are free and the store works |
| TaskAnswers.ExecuteAnswers | internal/app/task_service.go:58-123 | an executed task is stored and answered with as asked for and as the exchange went: the worker's results and artifacts in order, SUCCEEDED exactly without an error, which is the missing browser, the missing or unreadable line, or the one the line reports |
| TaskAnswers.ExecutedIff | internal/app/task_service.go:58-106 | likewise for commands, which must be there and valid, while the task key may be missing |
| TaskOutcome.StoredTaskTells | internal/app/task_service.go:106-122 | SUCCEEDED means one result per command in order with failures only where allowed; FAILED means results up to the first failure that is not, whose code is the last error; a line that reports an error tells this of the commands exactly if it is the interpreter's answer, while the line of a worker that an exception ended leaves FAILED with browser_unavailable and no results; only a failed write leaves RUNNING |
| TaskOutcome.PipedTaskTakes | internal/adapters/runtime/cloakbrowser/runtime_session.go:17-42 | over the worker pipe, the m-th exchange stores the results of the request k before it, k being the exchanges missed until then; if that was a live request, or the line is that of a worker an exception ended, the task is FAILED with browser_unavailable and no results |
| TaskOutcome.PipedTaskTells | internal/app/task_service.go:106-122 | while no exchange was missed a stored task tells about its own commands if and only if the line is not that of a worker an exception ended |
| TaskOutcome.TaskNeedsRunningSession | internal/app/task_service.go:58-106 | a task is created only with valid commands and for a stored RUNNING session, which in agreement has a browser |
| TaskOutcome.RepeatedRequest | internal/app/task_service.go:10-69 | after a task was created any call with its request id, through either entry point, changes nothing and answers with it as stored |
| TaskOutcome.InvokeKeeps | internal/app/task_service.go:10-123 | either entry point changes task rows under one id at most and keeps the index coherent |
| TaskOutcome.ValidTasksAreNotRefused | internal/app/task_validation.go:39-139 | through both validators and the interpreter, a task of valid commands outside the excluded cases reports no validation_failed and no unsupported_operation |
| NetworkLog.KeptIsLast | internal/adapters/runtime/playwrightworker/scripts/00_imports_constants.py:39-96 | after any sequence of page events the log is the last 300 entries of the log that forgets nothing |
| NetworkLog.BoundRefinesFull | internal/adapters/runtime/playwrightworker/scripts/00_imports_constants.py:59-95 | cutting off old entries before or after an event makes no difference to those that stay |
| NetworkLog.EntriesAreRequests | internal/adapters/runtime/playwrightworker/scripts/00_imports_constants.py:47-86 | entry k of the full log was started by the k-th request event and keeps what that event said |
| NetworkLog.NetworkLog.OnRequest | internal/adapters/runtime/playwrightworker/scripts/00_imports_constants.py:47-58 | appends the request to the history and retains its last 300 entries |
| NetworkLog.NetworkLog.OnOutcome | internal/adapters/runtime/playwrightworker/scripts/00_imports_constants.py:60-86 | updates only the newest entry of its request, if that is still retained |
| NetworkLog.NetworkLog.EventForRequest | internal/adapters/runtime/playwrightworker/scripts/00_imports_constants.py:88-95 | finds the newest entry of a request, searching from the end |
| NetworkLog.NetworkLog.List | internal/adapters/runtime/playwrightworker/scripts/00_imports_constants.py:112-116 | the last min(limit, matches) matching entries in order, all of them without a limit |
| NetworkLog.NetworkLog.FirstMatching | internal/adapters/runtime/playwrightworker/scripts/00_imports_constants.py:118-123 | the earliest matching entry, none exactly if no entry matches |
| NetworkLog.MatchingPositions | internal/adapters/runtime/playwrightworker/scripts/52_network_utils.py:1-31 | the listed matches are the entries at all matching positions, in increasing order |
| NetworkLog.MatchesIff | internal/adapters/runtime/playwrightworker/scripts/52_network_utils.py:1-31 | an entry passes a filter exactly if its request meets every criterion that is set |
| NetworkLog.OutcomesTold | internal/adapters/runtime/playwrightworker/scripts/00_imports_constants.py:60-95 | after any events each attribute of an entry is what the latest event about its request said of it, missing if none did; an id that a later request took over no longer concerns the earlier entry |
| NetworkLog.NoQueryShown | internal/adapters/runtime/playwrightworker/scripts/52_network_utils.py:38-46 | a URL shown to callers has neither query nor fragment, and everything before them |
| NetworkLog.PublicShows | internal/adapters/runtime/playwrightworker/scripts/52_network_utils.py:34-35 | every other member of an entry is shown as it is |
| Poll.ResolveFirstVisible | internal/adapters/runtime/playwrightworker/scripts/32_locator_group.py:19-45 | with a clock that moves on the poll ends; it returns the first visible selector of the earliest round that shows one, else the first ever seen attached, else times out; the exception of a wait is passed on exactly if that wait comes before anything was visible |
| Poll.RoundsMade | internal/adapters/runtime/playwrightworker/scripts/32_locator_group.py:25-42 | one round exactly without a timeout; with one, a further round follows a round exactly if its clock reading is before the deadline |
| Poll.ResolutionUnique | internal/adapters/runtime/playwrightworker/scripts/32_locator_group.py:19-45 | page and clock determine the result |
| Poll.WaitFor | internal/adapters/runtime/playwrightworker/scripts/00_imports_constants.py:97-111 | the earliest matching request of the first round that has one, else the timeout, which comes after at most the first reading past the deadline; the exception of a wait is passed on exactly if that wait comes before the match |
| Base64.EncodeDecode | internal/app/live_view_service.go:113-144 | decoding an encoding gives the bytes back |
| Base64.DecodeEncode | internal/app/live_view_service.go:122-144 | re-encoding what was decoded gives a text as long, and the same one for whole groups |
| Base64.AlphabetAvoids | internal/app/live_view_service.go:113-144 | no letter is a dot, a slash or a blank |
| LiveView.SignedVerifies | internal/app/live_view_service.go:113-144 | a signed view verifies to itself under the same key |
| LiveView.VerifiedIff | internal/app/live_view_service.go:122-144 | a token verifies to a view exactly if it is two texts around its first dot, the second decoding to the MAC of what the first decodes to |
| LiveView.TokenComesBack | internal/adapters/http/server.go:38-80 | the token handed to authorization from the WebSocket path and from the WebRTC path is the one that was signed |
| LiveView.RoutesIff | internal/adapters/http/server.go:38-80 | requests reach the handlers of tokens exactly by these paths, the answer only by POST |
| LiveView.CreatedIff | internal/app/live_view_service.go:25-70 | under cloakbrowser a view is created exactly for a RUNNING session, a provider other than screenshots and a ttl that is not negative; under camoufox never |
| LiveView.ViewAnswers | internal/app/live_view_service.go:25-70 | under cloakbrowser the code of every refusal, and what a view holds: session, provider, control, sizes, times, and three URLs around a token that verifies to it |
| LiveView.CreatedViewIsAuthorized | internal/app/live_view_service.go:25-92 | by either path a created view is authorized, to itself without its URLs, exactly until it expires and while its session is read as RUNNING |
| LiveView.TokenAnswers | internal/app/live_view_service.go:72-92 | under cloakbrowser every token is answered with its view or the code of the refusal |
| LiveView.LiveViewService.CreateBrowserLiveView | internal/app/live_view_service.go:25-70 | changes the state and answers as the specification CreateView in every case |
| LiveView.LiveViewService.AuthorizeBrowserLiveView | internal/app/live_view_service.go:72-92 | likewise for AuthorizeView |
| ProxyUrl.NotationsAgree | internal/platform/proxyurl/proxyurl.go:11-109 | host:port:user:password and host:port@user:password give the same URL, blanks around the parts or not, and the browser gets the parts as written |
| ProxyUrl.FullUrlsAgree | internal/platform/proxyurl/proxyurl.go:11-49 | a full URL without escapes and the notation it abbreviates give the same URL, with credentials and without; the scheme written counts, and the browser gets the parts as written |
| ProxyUrl.AmbiguousIsRefused | internal/platform/proxyurl/proxyurl.go:11-82 | outside a full URL a text with more than one @ is refused, and so is a blank one |
| ProxyUrl.PasswordWithColons | internal/platform/proxyurl/proxyurl.go:11-90 | with colons in the password either notation is read as the authority of a URL: the first then has no user, the second the host for its user and the port for its password, so they agree only in being refused, as they are when something but digits follows the last colon |
| ProxyUrl.SchemeNormalizedOnce | internal/platform/proxyurl/proxyurl.go:51-62 | a normalized scheme is not empty and is its own normalization |
| ProxyUrl.SchemeNames | internal/platform/proxyurl/proxyurl.go:51-62 | case and blanks do not matter; socks5h is socks5, none is http, and any other stays |
| ProxyUrl.BrowserTakes | internal/platform/proxyurl/proxyurl.go:29-49 | the browser takes exactly URLs of bare servers, and gets a user name if there is one and a password if one was set |

## Left out

- The Postgres engine: the select statement is an oracle that filters, orders and cuts correctly, with the id column ordered byte by byte as Go orders strings; another collation of the database is not part of the model.
- Agreement.AgreementAtBoundaries: speaks of calls run one at a time; what is left of it when calls overlap is in SessionProtocol, which knows of rows only their status.
- RuntimeProtocol.NoLeakAtRest: says nothing about a Shutdown being the last to act; a start in flight when Shutdown takes the map may register afterwards.
- LeaseProtocol.LeasesConserved: covers leases the controller received; one lost inside the proxy-runtime client after a bad endpoint is never recorded.
- WorkerPipe.PairingWithLag: takes a line as written whole or not at all; a partial write to a dying worker is not part of the model.
- ProxyUrl.NotationsAgree: leaves out ports, users and passwords beginning with "//", which turn one of the notations into a URL, and the separators ':' and '@' inside a part: a colon in the password is the subject of PasswordWithColons, and a host with colons, or '@' anywhere in a part, goes to url.Parse or is refused.
- ProxyUrl.FullUrlsAgree: leaves out URLs in which url.Parse has to undo escapes, and addresses in brackets.
- ProxyUrl.PasswordWithColons: says of url.Parse only what every accepted authority is like; whether it accepts one with several colons in its host is left open, as is a default scheme that is no URL scheme and a host or port with a slash, a question mark or a number sign.
- Text.TrimOfBlankFree: blanks are the ASCII ones, not the whole Unicode class.
- TaskRun.ExecuteTask: leaves out messages, times and the retryable flags of errors.
- NetworkLog.NetworkLog.List: upper-casing is for ASCII methods, and a regular expression Python rejects is not modelled.
- Coordinates are reals: a NaN or a negative zero is not part of the model, and neither is a nil element in a selector list.
- Starting, signalling and killing processes, pipes, HTTP retries, Playwright and page scripts are reduced to their outcomes; so are the bodies of `fill_locator`, `select_options` and `with_navigation_retry`.
- Protobuf and JSON libraries, HMAC and url.Parse are parameters with the laws the proofs need.
- gRPC and HTTP routing beyond the token paths, static files, the web UI, WebRTC peers, configuration, artifacts and logging.
- `Collect` and its helpers in the proxy URL package, `GetTask`, and the list and get wrappers that only delegate: nothing modelled here depends on them.
