# Qingtian control plane: verified models

Qingtian keeps long-running agent work on durable tables: a core store of tasks, sessions, runs and
checkpoints, and around it an engine that admits dispatches, hands work over, records corrections and
releases, pages events and creates one remote manager thread. This project models those state machines
in Dafny and proves what holds of them over whole runs.

Each machine is written twice. A value of its tables with one function per operation (`Apply`, `Next`,
`Execute`) is what the theorems are about. A class with the same tables as fields has a constructor that begins
where runs begin, and one method for every step of a run: the operations of the program, with its branches,
loops and assignments, and the steps of whoever else writes its tables. Each method is proved to turn the old
tables into exactly what the function says. The class invariant `Valid()` says that the tables are reachable by a
run of the functions, and the methods that stand for steps and whole calls require and ensure it, so every theorem
about reachable states or about continuations of runs holds of an object after any sequence of those methods. The
remaining methods are parts of one transaction or call (a handler, the write of one row) and make no such claim. The steps between two methods of one call (a stopped process, another
process in between) are arguments of the method that makes the call.

What an operation accepts, refuses and writes is stated once more over rows and columns alone, without naming the
functions of the machine (`CoreMoves`, `AdmissionGates`, `LifecycleActions`, `LifecycleRefusals`, `LifecycleRights`,
`CorrectionsExact`, `ReleaseEvidence`, `ReleaseReasons`, `CreationConsent`), and where it matters who may do something
or under which conditions, that is lifted to whole runs.

| component | value and operations | theorems | object with tables updated in place |
|---|---|---|---|
| core store | `CoreModels`, `CoreStore` | `CoreMoves`, `CoreInvariant`, `CoreRuns`, `CoreLineage`, `CoreDrain` | `CoreService` |
| dispatch admission | `Admission` | `AdmissionGates`, `AdmissionSafety` | `AdmissionServices` |
| lifecycle and managed runs | `Lifecycle` | `LifecycleActions`, `LifecycleRefusals`, `LifecycleRights`, `LifecycleInvariant`, `LifecycleSafety`, `LifecycleOutbox`, `LifecycleRevisions` | `LifecycleServices` |
| watchdog | `LifecycleDue`, `LifecycleWatchdog` | `LifecycleDue`, `LifecycleWatchdog`, `LifecycleRaces` | `LifecycleServices` |
| corrections | `Corrections` | `CorrectionsExact`, `CorrectionsSafety`, `CorrectionsReplay` | `CorrectionsServices` |
| succession walk | `Succession` | `Succession` | methods of `Succession` |
| release ledger | `ReleaseAssessment`, `ReleaseDates`, `ReleaseLedger` | `ReleaseEvidence`, `ReleaseReasons`, `ReleaseCounts`, `ReleaseSafety`, `ReleaseProjection` | `ReleaseServices` |
| event paging | `Paging` | `Paging` | methods of `Paging` |
| feedback feed | `PagingFeeds` | `PagingFeeds` | `PagingFeedsServices` |
| creation journal | `CreationJournal` | `CreationConsent`, `CreationJournal` | `CreationServices` |

Conventions shared by all components:

- a database transaction is one atomic step, and a refused call leaves every table as it was;
- generated identifiers and tokens are parameters; where the program relies on their freshness a step that
  repeats one is a refusal or changes nothing;
- digests stand for the canonical values they are taken of, timestamps for integers;
- everything other actors and the outside world may do (editing tasks, inserting runs, dispatcher and server
  answers, crashes between any two steps) is a step that may happen at any point of a run.

Facts about the code that the proofs brought out:

- The checks that look for runs left in flight by another session (store.py, creation and starting of runs and
  recovery of a session) refuse nothing in a reachable store; of the checks on activating a session only four
  can refuse. A task already under review passes the quietness checks again by itself.
- A lifecycle amendment of native columns raises the revision through a trigger, so the conditional update
  after it matches no row, and its row count is not looked at; the revision has risen all the same, and the
  response reports the raised one.
- The damage checks of the correction tables never find damage, and the identity triggers never refuse a
  correction that was judged acceptable.
- The loop that adds currently confirmed deployments to the release dates adds nothing to what history gave.
- A pass of the watchdog need not be the last one needed at its clock: activity that is out of date when it is
  reported is accepted, and reported after the visit of its task it is due when the pass ends.
- Two overlapping readers of one feedback consumer can repeat events and move the stored cursor back; they can
  never skip an event.
- The cycle branch of the succession walk is reached only by returning to the task the walk began with.

## Model

| member | source | states |
|---|---|---|
| CoreService.QingtianStore.CreateTask | qingtian_core/store.py:615-650 | Creates a draft at revision one or refuses with all tables unchanged; keeps the invariant. |
| CoreService.QingtianStore.TransitionTask | qingtian_core/store.py:668-722 | Compare-and-set of a task row under the transition table and the quietness checks; every other row unchanged. |
| CoreService.QingtianStore.RequireRecoveryCheckpoint | qingtian_core/store.py:583-613 | Accepts exactly a checkpoint of the task, at the given revision, that nothing supersedes; otherwise names the first guard that fails. |
| CoreService.QingtianStore.CreateSession | qingtian_core/store.py:724-800 | A session in the task's revision, recovered from a current checkpoint unless it is the first; guards in the order of the code. |
| CoreService.QingtianStore.TransitionSession | qingtian_core/store.py:812-881 | Moves one session; activation repeats the checks of creation against the task as it is now. |
| CoreService.QingtianStore.CreateRun | qingtian_core/store.py:883-975 | Returns the run a key already names before any check of state, or plans one run in an active session. |
| CoreService.QingtianStore.TransitionRun | qingtian_core/store.py:985-1059 | Moves one run, records an operation at most once, and starts a run only under the fences. |
| CoreService.QingtianStore.CreateCheckpoint | qingtian_core/store.py:1121-1176 | Appends a checkpoint that supersedes at most one current checkpoint of its task. |
| CoreMoves.TaskMoves | qingtian_core/store.py:668-722 | A task moves exactly along one of the twelve written pairs of states, at the expected revision, and into review or completion only with every run resolved and every session ended; which refusal means what. |
| CoreMoves.SessionMoves | qingtian_core/store.py:812-881 | A session moves exactly along one of five pairs of states, with what activation, checkpointing and closing ask of the rows of sessions, checkpoints and runs. |
| CoreMoves.SessionBegins | qingtian_core/store.py:724-800 | Exactly when a session is created, and what is inserted, said of the rows. |
| CoreMoves.RunMoves | qingtian_core/store.py:985-1059 | A run moves exactly along one of eight pairs of states, starts only where work may go on, keeps its operation, and becomes unknown only with one. |
| CoreMoves.RunBegins | qingtian_core/store.py:883-975 | Exactly when a run is planned, when its key gives an older run back, and what is inserted. |
| CoreMoves.CheckpointBegins | qingtian_core/store.py:1121-1176 | Exactly when a checkpoint is inserted: of an existing task, superseding at most a current one of the same task. |
| CoreMoves.RunRefusals | qingtian_core/store.py:883-975 | The refusal names the first thing that stands against a run. |
| CoreMoves.RunMoveRefusals | qingtian_core/store.py:985-1059 | The refusal names the first thing that stands against the move of a run. |
| CoreMoves.EndsAreFinal | qingtian_core/models.py:59-91 | Over any calls from any store a task done or cancelled, a closed session and a run succeeded, failed or interrupted keep their rows. |
| CoreInvariant.ApplyKeepsInv | qingtian_core/store.py:615-1176 | Every call keeps the relations between the four tables. |
| CoreInvariant.SingleExecutionLineage | qingtian_core/store.py:724-1059 | In every reachable store a task has at most one open session, and every planned or executing run belongs to it, while it is active or quiescing. |
| CoreInvariant.FinishedMeansQuiet | qingtian_core/store.py:686-714 | A task in review or done has no unresolved run and no open session, in every reachable store; every unknown run names an operation. |
| CoreInvariant.InFlightGuardsAreDead | qingtian_core/store.py:941-956 | The guards on runs in flight elsewhere never refuse a call in a reachable store. |
| CoreInvariant.ActivationGuards | qingtian_core/store.py:834-865 | Only four of the guards of an activation can ever refuse it. |
| CoreInvariant.ReviewAlreadyChecked | qingtian_core/store.py:686-714 | Completion of a task is accepted if and only if it is in review at the expected revision. |
| CoreRuns.HistoryIsAppendOnly | qingtian_core/store.py:421-530 | Over any calls no row disappears and sources, contexts, inputs, supersession and recorded operations never change. |
| CoreRuns.RevisionCountsChanges | qingtian_core/store.py:668-722 | The revision of a task counts its accepted transitions, over any calls. |
| CoreRuns.ExpectedRevisionIsUsedOnce | qingtian_core/store.py:668-722 | Two accepted transitions of a task never expected the same revision, whatever lies between them. |
| CoreRuns.KeyNamesOneRun | qingtian_core/store.py:903-926 | After any calls a used key returns its run and writes nothing, or refuses another request, even where no new run may be made. |
| CoreRuns.AcceptedRunIsReturned | qingtian_core/store.py:903-926 | Repeating an accepted keyed run returns that run for ever. |
| CoreRuns.UnknownFence | qingtian_core/store.py:924-940 | While a task has an unknown run none of its runs is created or started, over whole runs. |
| CoreRuns.StaleFence | qingtian_core/store.py:827-833 | A session whose context the task has passed is never activated again, gets no run and starts none, whatever is called. |
| CoreRuns.InputsAreContexts | qingtian_core/store.py:957-975 | The input revision of every run is the context of its session, and not above the task's revision. |
| CoreLineage.ChainLooksBack | qingtian_core/store.py:1121-1176 | A chain of superseded checkpoints stays in one task, goes back in time and never forward in revision. |
| CoreLineage.ChainsAreDisjoint | qingtian_core/store.py:1121-1176 | Two chains that share a checkpoint are nested: supersession is injective. |
| CoreLineage.SessionsRecover | qingtian_core/store.py:744-783 | All sessions of a task but one have a source checkpoint of that task, and every source was taken at exactly the context revision of its session. |
| CoreLineage.OnlyTheFirstIsBare | qingtian_core/store.py:744-783 | Of two creations accepted for a task, with any calls between them, the later names a current, unsuperseded checkpoint while the task rests; one accepted without a source is the first. |
| CoreDrain.EveryTaskCanFinish | qingtian_core/models.py:59-91 | From every reachable store there is a finite list of accepted calls that brings a task that is not cancelled to done; every other task with its runs and sessions, all checkpoints and keys stay as they are. |
| CoreDrain.CancelledTaskCanSettle | qingtian_core/models.py:59-91 | A cancelled task can still have all its runs resolved and sessions closed. |
| CoreDrain.RunningTaskCanResume | qingtian_core/store.py:724-1059 | From every reachable store a running task can be settled, checkpointed, given a new session and a new executing run. |
| AdmissionServices.AdmissionService.Reserve | qingtian_engine/admission.py:208-257 | The first transaction; a pending receipt is written exactly when this request may go on to call the dispatcher. |
| AdmissionServices.AdmissionService.Confirm | qingtian_engine/admission.py:263-281 | The second transaction records what the call came to against the facts as they are now. |
| AdmissionGates.FirstReceipt | qingtian_engine/admission.py:125-257 | What a new request is told, exactly, over the columns of its task: pending if and only if nothing protects the task, no run is active and no request in doubt; the first protection in order gives the reason; when a run is reused. |
| AdmissionGates.FlightBegins | qingtian_engine/admission.py:229-257 | A dispatch begins exactly with a new request for a task free for it, and remembers the scope and runs of then. |
| AdmissionGates.CallsWereClear | qingtian_engine/admission.py:208-262 | Whatever happens, the dispatcher is called only for requests made while their task was free for dispatch. |
| AdmissionGates.SecondReceipt | qingtian_engine/admission.py:263-281 | Exactly when a call is bound to the run it named, and which reason it is given otherwise. |
| AdmissionGates.BoundWasDispatched | qingtian_engine/admission.py:208-281 | Over any run a bound receipt was written by a confirmation, with the task unprotected and its scope that of the beginning of the dispatch, and names a run that was not there then. |
| AdmissionSafety.ApplyKeepsInv | qingtian_engine/admission.py:198-281 | Both transactions, the call, crashes and outside edits keep the invariant of the protocol. |
| AdmissionSafety.AtMostOnceDispatch | qingtian_engine/admission.py:198-281 | At most one pending request and one dispatch in progress per task, no key reaches the dispatcher twice, calls never overlap, under any interleaving and crashes. |
| AdmissionSafety.NoCallAfterDoubt | qingtian_engine/admission.py:198-201 | After a call not recorded as bound and no longer worked on, nothing requested afterwards reaches the dispatcher, in any continuation. |
| AdmissionSafety.LaterRequestsAreNotCalled | qingtian_engine/admission.py:198-281 | The same from any reachable world: only requests already made can still be called. |
| AdmissionSafety.BindingsAreInjective | qingtian_engine/admission.py:237-246 | No run is bound by two receipts, and a coalesced receipt names a run bound before it for the same intent, scope and target. |
| AdmissionSafety.RetryWritesNothing | qingtian_engine/admission.py:222-227 | An exact retry writes nothing and shows the newest receipt; another payload under its key is refused. |
| LifecycleServices.LifecycleService.Amend | qingtian_engine/lifecycle.py:323-362 | Sets exactly the named columns of a task row and its stage under the executability, managed-run, deployment and next-action checks; the revision rises by trigger only if a native column is named. |
| LifecycleServices.LifecycleService.RegisterExecution | qingtian_engine/lifecycle.py:364-390 | Inserts an active execution, bound only to an accepted handoff of its executor, and never beside a managed run. |
| LifecycleServices.LifecycleService.RecordActivity | qingtian_engine/lifecycle.py:401-412 | Strictly newer activity of the executor makes an unfinished execution active again. |
| LifecycleServices.LifecycleService.FinishExecution | qingtian_engine/lifecycle.py:414-430 | Ends an unfinished execution by its executor or the owner, not before its last activity. |
| LifecycleServices.LifecycleService.OfferHandoff | qingtian_engine/lifecycle.py:432-450 | Inserts an offer to somebody else with a deadline ahead, and one notice. |
| LifecycleServices.LifecycleService.AnswerHandoff | qingtian_engine/lifecycle.py:459-488 | The recipient answers an open offer once, before its deadline, with its manifest. |
| LifecycleServices.LifecycleService.ResolveHandoff | qingtian_engine/lifecycle.py:490-504 | Only the sender resolves, once, and as completed only after acceptance. |
| LifecycleServices.LifecycleService.ClaimNotice | qingtian_engine/lifecycle.py:506-519 | Leases an undelivered notice whose lease has run out, under a token never drawn before. |
| LifecycleServices.LifecycleService.AcknowledgeNotice | qingtian_engine/lifecycle.py:521-532 | Delivers under the current, running lease only. |
| LifecycleServices.LifecycleService.ReconcileTask | qingtian_engine/lifecycle.py:534-553 | Loses every stale execution and announces every loss and lapse, each once. |
| LifecycleServices.LifecycleService.ApplyRequest | qingtian_engine/lifecycle.py:279-321 | One request: replay, compare, handle, raise the revision, remember; it is one step of a run. |
| LifecycleServices.LifecycleService.ReconcileDue | qingtian_engine/lifecycle.py:555-589 | One look at what is due, then for each due task once a reading of the revision and a request, with any steps of others before and between the two; counts what was put off and what was not. |
| LifecycleServices.LifecycleService.VisitErrand | qingtian_engine/lifecycle.py:577-585 | One visit with its gap; a refusal is a conflict of revisions or of keys and nothing else. |
| LifecycleServices.LifecycleService.NewestRun | qingtian_engine/runner.py:175-178 | Finds the attempt that no other attempt of the task exceeds, if there is one. |
| LifecycleServices.LifecycleService.PlanNextAttempt | qingtian_engine/runner.py:175-180 | Reads the next attempt outside the inserting transaction. |
| LifecycleServices.LifecycleService.EnqueueRun | qingtian_engine/runner.py:200-242 | Inserts the planned attempt unless trigger, unique attempt or one-active-run index refuses. |
| LifecycleServices.LifecycleService.ClaimQueuedRun | qingtian_engine/worker_entry.py:59-103 | Starts only the newest queued attempt, for a process that may hold it, of a task that may run, and moves the task in the same transaction. |
| LifecycleServices.LifecycleService.FinishOwnedRun | qingtian_engine/worker_entry.py:106-207 | Ends a run, with the evidence and the move of its task in the same transaction, if and only if the process owns the newest running attempt and the task may be completed if it is. |
| LifecycleServices.LifecycleService.OverwriteStatus | qingtian_engine/runner.py:1113-1172 | The unguarded status write of cancellation and crash recovery. |
| LifecycleActions.AmendIsAllowed | qingtian_engine/lifecycle.py:323-362 | Exactly when an amendment is handled, said of the columns of the row and the runs of the task. |
| LifecycleActions.AmendSets | qingtian_engine/lifecycle.py:323-362 | Each named column has its new value and every other its old one; the revision rises by the triggers or by one. |
| LifecycleActions.RegisterIsExact | qingtian_engine/lifecycle.py:364-390 | Exactly when an execution is registered, and the row, revision and response it leaves. |
| LifecycleActions.ActivityIsExact | qingtian_engine/lifecycle.py:401-412 | Activity is handled exactly if it comes from the executor of an unfinished execution, newer than the last, not ahead of the clock, under another reference. |
| LifecycleActions.FinishIsExact | qingtian_engine/lifecycle.py:414-430 | An end is handled exactly if it comes from the executor or the owner, in time, with a final outcome. |
| LifecycleActions.OfferIsExact | qingtian_engine/lifecycle.py:432-450 | Exactly when a handoff is offered, and the row and notice it leaves. |
| LifecycleActions.AcceptIsExact | qingtian_engine/lifecycle.py:459-485 | An offer is accepted exactly by its recipient, before its deadline, with its manifest, while work may go on; the acceptance carries the clock and the sender is told. |
| LifecycleActions.RejectIsExact | qingtian_engine/lifecycle.py:459-488 | It is rejected under the same conditions, whatever the state of the task. |
| LifecycleActions.ResolveIsExact | qingtian_engine/lifecycle.py:490-504 | Exactly when a handoff is resolved, and the notice to its recipient. |
| LifecycleActions.ClaimIsExact | qingtian_engine/lifecycle.py:506-519 | Exactly when a notice is leased, to whom and until when. |
| LifecycleActions.AcknowledgeIsExact | qingtian_engine/lifecycle.py:521-532 | Exactly when a notice is delivered. |
| LifecycleActions.ReconcileIsExact | qingtian_engine/lifecycle.py:534-553 | Exactly which executions a reconciliation loses, which notices it adds and to whom, and which it reports. |
| LifecycleActions.AnswersAre | qingtian_engine/lifecycle.py:279-321 | A key answers its request again, refuses another, and a request out of turn is not handled. |
| LifecycleRights.HandoffMoves | qingtian_engine/lifecycle.py:432-504 | Any step makes of a handoff an offer, an answer of its recipient, a resolution of its sender, or nothing, and writes exactly that. |
| LifecycleRights.HandoffsAreRightful | qingtian_engine/lifecycle.py:432-504 | Over any run every handoff was offered; an accepted or rejected one was answered by its recipient in time and with its manifest, a resolved one resolved by its sender. |
| LifecycleRights.ExecutionMoves | qingtian_engine/lifecycle.py:364-430 | Any step makes of an execution a registration, a report of its executor, an end by executor or owner, a loss, or nothing, and writes exactly that. |
| LifecycleRights.ExecutionsAreRightful | qingtian_engine/lifecycle.py:364-553 | Over any run every execution was registered, an ended one was ended by its executor or the owner of its task, and a lost one was out of date when it was lost. |
| LifecycleRights.RunsMove | qingtian_engine/worker_entry.py:59-207 | Exactly when a queued run starts and a running one ends, and with which status. |
| LifecycleRights.RunsBegin | qingtian_engine/runner.py:200-242 | Exactly when an attempt is inserted: no responsibility of others, no active run, number not taken. |
| LifecycleRights.PlansAre | qingtian_engine/runner.py:175-180 | A planned attempt is one past the latest of the task, or the first. |
| LifecycleRights.EditsAre | qingtian_engine/lifecycle.py:157-171 | A task row is inserted at revision zero and written as given unless it completes a task that others are responsible for or that lacks its deployment. |
| LifecycleInvariant.NextKeeps | qingtian_engine/lifecycle.py:157-171 | Every step of every process keeps the relations between responsibilities, runs, notices and requests. |
| LifecycleSafety.DoneIsSafe | qingtian_engine/lifecycle.py:157-166 | A done task has no unresolved handoff and no active or lost execution; a bound execution belongs to the recipient of an accepted or resolved handoff, after its acceptance. |
| LifecycleSafety.ExclusiveExecution | qingtian_engine/db.py:128-129 | Attempts are exactly 1 to n, at most one is queued or running and it is n, and then no external execution is active or lost. |
| LifecycleSafety.ToldOnce | qingtian_engine/lifecycle.py:272-277 | One subject is announced once per kind: each lost activity and each overdue handoff has one notice. |
| LifecycleOutbox.LeasesAreExclusive | qingtian_engine/lifecycle.py:506-532 | Leases of a notice never overlap, tokens are never shared, and at most one token is acceptable at any instant. |
| LifecycleOutbox.ReplacedTokenIsRefused | qingtian_engine/lifecycle.py:506-532 | A token replaced by a later claim is never accepted again, in any continuation. |
| LifecycleOutbox.DeliveredOnce | qingtian_engine/lifecycle.py:521-532 | Exactly one acknowledgement delivers a notice, within the lease it names. |
| LifecycleRevisions.ResponsesRise | qingtian_engine/lifecycle.py:279-321 | Over any run, of two requests newly handled for a task the later expected a revision no lower than the earlier was told: none is expected twice with success, and those reported rise strictly. |
| LifecycleOutbox.ReplayIsForEver | qingtian_engine/lifecycle.py:293-297 | After any steps an exact replay returns the stored response and writes nothing. |
| LifecycleDue.StepDue | qingtian_engine/lifecycle.py:534-575 | After any step an item is due exactly if the step raised it (a report already out of date, or time running out), or it was due and the step did not settle it. |
| LifecycleDue.DueIffLeft | qingtian_engine/lifecycle.py:534-575 | After any run an item is due exactly if it was due or was raised, and nothing has settled it since. |
| LifecycleWatchdog.StoredIffHandled | qingtian_engine/lifecycle.py:293-321 | A request is stored exactly if it was stored before or was handled by somebody in between. |
| LifecycleWatchdog.VisitSettles | qingtian_engine/lifecycle.py:577-585 | With any steps between reading the revision and the request: put off exactly if the key holds another request, or is free and the revision has moved; replayed exactly if the identical request was handled in between; otherwise nothing is left due for the task at that instant. |
| LifecycleWatchdog.PassVisits | qingtian_engine/lifecycle.py:577-588 | Each answer of a pass is that of one visit at the tables of its own instant, so the exact outcomes hold of it. |
| LifecycleWatchdog.PassCounts | qingtian_engine/lifecycle.py:577-588 | The count of deferred races is the number of visits that were put off. |
| LifecycleWatchdog.PassSettles | qingtian_engine/lifecycle.py:555-589 | Whatever was due for a visited task when the pass began is settled during the pass, unless its visit was put off. |
| LifecycleWatchdog.QuietIffNothingLeft | qingtian_engine/lifecycle.py:555-589 | After any steps nothing is due exactly if every item due at the start or raised since was settled later. |
| LifecycleWatchdog.WatchdogIsQuiet | qingtian_engine/lifecycle.py:555-589 | After a pass that put nothing off, with any steps of others before, within and after its visits, the next pass finds nothing and writes nothing exactly if everything those steps raised was settled again. |
| LifecycleWatchdog.CalmPassIsLast | qingtian_engine/lifecycle.py:555-589 | If no step of others in or after such a pass moves time or reports activity out of date, the next pass finds nothing and writes nothing. |
| LifecycleRaces.LateReportDisturbsPass | qingtian_engine/lifecycle.py:364-390 | A pass that puts nothing off, followed by the registration of activity already out of date: something is due at the same clock. |
| Corrections.PriorCorrection | qingtian_engine/operations_clarity.py:663-664 | The correction of a task under a key, or none only if there is none. |
| CorrectionsServices.OperationsClarityService.InsertNative | qingtian_engine/operations_clarity.py:123-129 | An insertion and its trigger: first version, or one past the last. |
| CorrectionsServices.OperationsClarityService.UpdateNative | qingtian_engine/operations_clarity.py:132-141 | A write and its trigger: the revision always rises, the basis only with a changed native column. |
| CorrectionsServices.OperationsClarityService.DeleteNative | qingtian_engine/operations_clarity.py:130-131 | A deletion and its trigger. |
| CorrectionsServices.OperationsClarityService.RenameNative | qingtian_engine/operations_clarity.py:132-138 | A changed identifier is a disappearance and an appearance. |
| CorrectionsServices.OperationsClarityService.PreviewCorrection | qingtian_engine/operations_clarity.py:648-690 | Judges and shows a correction without writing; what it shows is what the correction records (CorrectionsReplay.PreviewIsCorrection). |
| CorrectionsServices.OperationsClarityService.Correct | qingtian_engine/operations_clarity.py:654-710 | Records a correction and folds it into the projection, or refuses with all tables unchanged. |
| CorrectionsServices.OperationsClarityService.ReportHumanAction | qingtian_engine/service.py:504-553 | Clears the native action under the same compare-and-set and records one report. |
| CorrectionsExact.ShownMeans | qingtian_engine/operations_clarity.py:519-533 | What is shown of a field, over the stored rows: the override in force, else the reviewed record, else the native column. |
| CorrectionsExact.CorrectionIsExact | qingtian_engine/operations_clarity.py:654-700 | Exactly when a correction is recorded, and which refusal means what. |
| CorrectionsExact.CorrectionLeaves | qingtian_engine/operations_clarity.py:680-710 | The record, version and projection an accepted correction leaves, column by column. |
| CorrectionsExact.ReportIsExact | qingtian_engine/service.py:504-553 | Exactly when a report is recorded and what it leaves of the native row, the version and the log. |
| CorrectionsExact.ReportRefusals | qingtian_engine/service.py:504-553 | A report that is not made is refused for the first thing that stands against it, unless it was made before. |
| CorrectionsExact.UpdateIsExact | qingtian_engine/operations_clarity.py:132-141 | A write counts the revision on and moves the basis exactly if a native column changed. |
| CorrectionsExact.DamageIsRefused | qingtian_engine/operations_clarity.py:631-646 | Over tables in any state: what counts as damage, in which order it is said, and that nothing is recorded over it. |
| CorrectionsSafety.NextKeeps | qingtian_engine/operations_clarity.py:121-152 | Every step keeps versions, projections, corrections and reports in order. |
| CorrectionsSafety.BookkeepingNeverFires | qingtian_engine/operations_clarity.py:631-646 | The damage checks never refuse in a reachable state. |
| CorrectionsSafety.AcceptedIsRecorded | qingtian_engine/operations_clarity.py:691-700 | The row count of the version update and the identity triggers never refuse what was judged acceptable. |
| CorrectionsSafety.ReportIsRecorded | qingtian_engine/service.py:530-547 | An acceptable report is recorded at the revision after the one it expected. |
| CorrectionsReplay.OverlayIsReplay | qingtian_engine/operations_clarity.py:701-710 | At every moment the overrides in force equal the replay of the corrections since the last native change. |
| CorrectionsReplay.NativeChangeForgets | qingtian_engine/operations_clarity.py:132-141 | Nothing recorded before a native change can come back. |
| CorrectionsReplay.ThereAndBack | qingtian_engine/operations_clarity.py:132-141 | A native row that changes and changes back shows its own text, not the old correction. |
| CorrectionsReplay.ReplayIsLastWord | qingtian_engine/operations_clarity.py:701-707 | A replayed override is exactly the last non-empty value given to its field since the last native change. |
| CorrectionsReplay.ShownFollowsHistory | qingtian_engine/operations_clarity.py:519-533 | What is shown of a field is decided by the history of the row alone. |
| CorrectionsReplay.RetryIsForEver | qingtian_engine/operations_clarity.py:663-671 | An accepted correction answers its exact retry for ever and its key refuses anything else. |
| CorrectionsReplay.AcceptanceIsExact | qingtian_engine/operations_clarity.py:673-710 | An accepted correction used the revision it expected, raised it by one, recorded what was shown and shows what it asked for. |
| CorrectionsReplay.PreviewIsCorrection | qingtian_engine/operations_clarity.py:648-710 | A correction made on the tables of its preview records what was shown under its own identifier, and is refused as the preview was unless that came too early. |
| CorrectionsReplay.RevisionsAreSpentOnce | qingtian_engine/operations_clarity.py:104-116 | Corrections and reports of one row never share a revision. |
| Succession.BuildGraph | qingtian_engine/operations_clarity.py:382-390 | The adjacency maps hold exactly what the evidence declares. |
| Succession.FindLineage | qingtian_engine/operations_clarity.py:391-429 | The loop terminates by a shrinking set of unseen tasks and computes the verdict of the walk. |
| Succession.Concludes | qingtian_engine/operations_clarity.py:396-429 | Every verdict is read off the end of the longest chain of sound hops from the start. |
| Succession.VerdictMeans | qingtian_engine/operations_clarity.py:401-424 | Every verdict said of the last task of the chain: its successors, its predecessors, and the identifier it names. |
| Succession.ReturnsToStart | qingtian_engine/operations_clarity.py:397-399 | A chain can only come back to its first task. |
| Succession.ValidIffSucceeds | qingtian_engine/operations_clarity.py:425-429 | Valid exactly when a non-empty simple path of mutually unique hops leads to a task without successors. |
| Succession.SucceedsIsValid | qingtian_engine/operations_clarity.py:425-429 | The reported successor is the second task of that path. |
| Succession.ValidityIsInherited | qingtian_engine/operations_clarity.py:396-429 | Every later task on a valid path that has a successor is valid too, and the last reports nothing. |
| Succession.CycleIffReturns | qingtian_engine/operations_clarity.py:397-399 | The cycle verdict is given exactly when sound hops lead back to the start. |
| Succession.CycleIsShared | qingtian_engine/operations_clarity.py:397-399 | All members of a cycle get the same verdict. |
| Succession.NoneIffNoSuccessor | qingtian_engine/operations_clarity.py:391-393 | Nothing is reported exactly without a successor and with at most one predecessor. |
| ReleaseAssessment.NoSiblingReasons | qingtian_engine/releases.py:291-308 | No reason against a mapping exactly when all entries are complete and all components distinct. |
| ReleaseAssessment.ListSiblingReasons | qingtian_engine/releases.py:291-308 | The loop over the mapping lists exactly those reasons. |
| ReleaseAssessment.ConfirmedIffProven | qingtian_engine/releases.py:228-328 | A deployment is confirmed exactly when observation, review, artifact, rollout, health and siblings are proven by the time of its receipt, and a later receipt of the same facts takes nothing back. |
| ReleaseEvidence.ShownIffProven | qingtian_engine/releases.py:228-328 | Every claim of every dimension is shown as declared exactly if it is witnessed and proven for its kind, and as reported otherwise. |
| ReleaseReasons.ReasonsAreFaults | qingtian_engine/releases.py:228-328 | The reasons shown name exactly the parts of the claim that are at fault, sibling by sibling. |
| ReleaseEvidence.BatchShowsProven | qingtian_engine/releases.py:331-377 | In every reachable ledger the counts count the items whose last receipt proved them deployed, enabled, accepted or rolled back; the batch is released or rolled back exactly if every item is proven so. |
| ReleaseServices.ReleaseService.CreateBatchOf | qingtian_engine/releases.py:459-484 | Creates a batch with its first receipt, or finds or refuses its key. |
| ReleaseServices.ReleaseService.AppendReceiptsTo | qingtian_engine/releases.py:486-510 | Appends one receipt under compare-and-set, or finds or refuses its key. |
| ReleaseSafety.CreationIsExact | qingtian_engine/releases.py:459-484 | Exactly when a creation is recorded, found again or refused, and what it leaves. |
| ReleaseSafety.AppendIsExact | qingtian_engine/releases.py:486-510 | Exactly when a receipt is appended, found again or refused, and what it leaves. |
| ReleaseServices.ReleaseService.ReadBatch | qingtian_engine/releases.py:331-377 | The loops of the projection compute the fold of the receipts of the batch. |
| ReleaseServices.ReleaseService.ReadRows | qingtian_engine/releases.py:339-358 | Every item is assessed from the facts its receipts left, stamped with their arrival. |
| ReleaseServices.ReleaseService.CountRows | qingtian_engine/releases.py:352-368 | The total is the number of items and every count the number of items in its state. |
| ReleaseCounts.SummaryMeans | qingtian_engine/releases.py:367-374 | Released exactly if every item is confirmed, partial exactly if some are and some are not, rolled back exactly if there are items and all are rolled back, otherwise unverified. |
| ReleaseServices.ReleaseService.LatestDate | qingtian_engine/releases.py:376-376 | The latest of the dates, if there is any. |
| ReleaseServices.ReleaseService.FindBatch | qingtian_engine/releases.py:463-464 | A batch created under a key, or none only if there is none. |
| ReleaseServices.ReleaseService.FindReceipt | qingtian_engine/releases.py:491-492 | A receipt of a batch under a key, or none only if there is none. |
| ReleaseSafety.ApplyKeeps | qingtian_engine/releases.py:451-510 | Every call keeps numbering, sums and identities, and only appends receipts. |
| ReleaseSafety.RevisionsAreConserved | qingtian_engine/releases.py:451-457 | The global revision is the sum over batches, each of which counts its receipts, numbered 1 to n. |
| ReleaseSafety.CreationRetries | qingtian_engine/releases.py:463-468 | A repeated creation finds its batch after any calls and changes nothing. |
| ReleaseSafety.ReceiptRetries | qingtian_engine/releases.py:491-498 | A repeated receipt is found however far the batch has moved on, and changes nothing. |
| ReleaseProjection.LastDecides | qingtian_engine/releases.py:343-347 | What is known of a dimension is what the last receipt carrying it said. |
| ReleaseProjection.AssessmentIsLastReceipt | qingtian_engine/releases.py:353-358 | An assessment depends only on the last receipt carrying its dimension and the time that receipt arrived. |
| ReleaseProjection.UnreportedIsDefault | qingtian_engine/releases.py:230-234 | A dimension no receipt carries has its default state and no reasons. |
| ReleaseDates.GridMax | qingtian_engine/releases.py:376-376 | The latest of all dates in the history is one of them, and none is later. |
| ReleaseProjection.ReleasedAtIsLatest | qingtian_engine/releases.py:348-377 | The release date comes from the history of receipts alone. |
| ReleaseProjection.ReleasedAtMeans | qingtian_engine/releases.py:348-377 | The release date is the latest deployment any receipt confirmed on arrival, and exists if one did. |
| ReleaseEvidence.ReleaseDateMeans | qingtian_engine/releases.py:348-377 | In every reachable ledger the release date of a batch is the latest at which a receipt of it proved a deployment of one of its items, and exists exactly if one did. |
| ReleaseProjection.ReleaseDateNeverRecedes | qingtian_engine/releases.py:486-510 | Through any later calls a release date stays and never decreases. |
| ReleaseProjection.PreviewIsCreation | qingtian_engine/releases.py:441-449 | A preview shows what the creation it announces will show at that moment. |
| Paging.PageSize | qingtian_engine/service.py:2093-2093 | A page holds between one and 500 events, as asked within those bounds. |
| Paging.Scan | qingtian_engine/service.py:2099-2107 | The first rows after a cursor, up to a number. |
| Paging.RealtimePage | qingtian_engine/service.py:2084-2118 | The page as the code computes it. |
| Paging.PageIsExact | qingtian_engine/service.py:2084-2118 | A page is what lies between its origin and its cursor, non-empty whenever anything follows, true about more, and restarts exactly when the cursor is past the log. |
| Paging.DeliveryIsLossless | qingtian_engine/server.py:164-185 | Following the cursor over a growing log delivers every event after the origin exactly once and in order, and starts over at most on the first page. |
| Paging.CaughtUpHasEverything | qingtian_engine/server.py:164-185 | A client whose cursor is the newest event has received everything after its origin. |
| Paging.FollowUntilCaughtUp | qingtian_engine/service.py:2084-2118 | Asking again while there is more ends for every limit, with everything, in at most one page per event and one more. |
| PagingFeeds.InOrderIffClean | qingtian_engine/service.py:2120-2158 | Over any run of overlapping readers the stored cursor never falls and no event is given twice exactly if no call has another's write between its own look and its own write. |
| PagingFeeds.FeedIsExact | qingtian_engine/service.py:2120-2158 | A feed is what lies between the cursor asked after and its own, and short of its limit only at the end of the log. |
| PagingFeeds.CleanMeans | qingtian_engine/service.py:2120-2158 | A write counts as clean exactly if none of the steps between the look of its reader and itself writes the cursor. |
| PagingFeeds.NothingIsSkipped | qingtian_engine/service.py:2120-2158 | However readers overlap, every event up to a stored cursor has been given by then. |
| PagingFeeds.FeedsAreContiguous | qingtian_engine/service.py:2120-2158 | Any number of calls that do not overlap deliver the log from the first cursor to the last, in order, without gap or repetition. |
| PagingFeeds.OverlapRepeats | qingtian_engine/service.py:2120-2158 | Two overlapping readers that give an event twice and move the cursor back. |
| PagingFeedsServices.FeedbackTable.FeedbackChanges | qingtian_engine/service.py:2120-2158 | One call in three statements, with any steps of others between them: it gives what followed the cursor it looked up, and writes back its own last event. |
| CreationServices.ManagerEntry.CreateThread | qingtian_engine/manager_entry.py:739-766 | Saves the intent, sends, and records the named thread, wherever it stops. |
| CreationServices.ManagerEntry.FindOrCreate | qingtian_engine/manager_entry.py:711-742 | Scans, refuses ambiguity and doubt, and sends a creation exactly if the call allows one, no intent stands, and the scan showed nothing or could not finish and may. |
| CreationServices.ManagerEntry.InitializeEntry | qingtian_engine/manager_entry.py:688-839 | One call, with any answers and any stopping point, is a run of the journal; the state it leaves, whether it sends a creation and where a newly bound thread comes from are determined by the state it found and what happened around it. |
| CreationJournal.NextKeeps | qingtian_engine/manager_entry.py:688-835 | Every action keeps the trace of a creation that may have taken effect. |
| CreationJournal.CreateAtMostOnce | qingtian_engine/manager_entry.py:688-835 | At most one creation is ever sent that was not refused as unsupported. |
| CreationJournal.NoneAfterBinding | qingtian_engine/manager_entry.py:705-710 | Once a thread is bound it stays bound and no creation is ever sent. |
| CreationJournal.NoneAfterDoubt | qingtian_engine/manager_entry.py:734-742 | After a creation in doubt none is sent, in any continuation. |
| CreationConsent.SendsAreWanted | qingtian_engine/manager_entry.py:705-747 | Over any run a creation is sent only for a call that allows one and names no thread, that found neither thread nor intent stored, and was shown nothing by its scan or may do without finishing it. |
| CreationConsent.BindingsAreExplained | qingtian_engine/manager_entry.py:703-766 | Over any run a bound thread was stored at the outset, wanted by a call, shown alone by its scan, or named by the server in answer to a creation that was wanted. |
| CreationConsent.AmbiguityStops | qingtian_engine/manager_entry.py:726-728 | A scan of two threads or more binds none and sends nothing, whatever follows in the call. |
| CreationJournal.OtherScopesNeverWrite | qingtian_engine/manager_entry.py:697-698 | No sequence of calls of other scopes, however they go, changes anything. |
| CreationJournal.LostCreationIsFound | qingtian_engine/manager_entry.py:729-733 | A lost creation that shows up alone in a scan is bound by one more call. |

## Left out

- File locking, descriptor pinning, path identity, atomic replacement and schema migration: the store is assumed durable and atomic.
- Text limits, identifier formats outside the succession walk, Unicode white space, JSON shapes and payload size limits: one flag says whether a payload is well formed.
- Evidence, knowledge records, full-text search, bundles, dashboards, category and urgency labels, HTTP handlers and the sending of server-sent events.
- Deletion of task rows in the core store, admission and lifecycle tables and its cascades; corrections do model deletion and renaming.
- The content digest of a core checkpoint and the check of it on reading; a checkpoint is its identity, task, revision and supersession.
- Empty strings given for an optional reference in the core store, where the code treats them as absent.
- LifecycleServices.LifecycleService.ReconcileDue: the pass looks at the clock and the tables in one instant where the code reads the clock just before; the sums of what the visits lost and found overdue are not added up.
- LifecycleServices.LifecycleService.Amend: how many triggers fire on one change of columns is a parameter of at least one, because nested triggers decide it.
- LifecycleServices.LifecycleService.FinishOwnedRun: what evidence a run brings and whether its task is eligible for completion enter as the row the task is left with; evidence of a run whose task row is not written appears with the next write of the row.
- LifecycleServices.LifecycleService.OverwriteStatus: which process is found dead or stale is not modelled; the write may happen to any run at any time.
- LifecycleOutbox.LeasesAreExclusive: the clock is assumed not to run backwards.
- Rows written before the dedupe key of notices and the recorded execution target of runs existed.
- Corrections.PriorCorrection: the reviewed records that may stand before native text enter as the fields they declare, already validated.
- CorrectionsServices.OperationsClarityService.ReportHumanAction: state, pause and origin of the row are one flag, and an action of white space only counts as an action.
- Succession.FindLineage: the evidence records attached to a verdict and its wording.
- ReleaseReasons.ReasonsAreFaults: how often a part is named among the reasons, and in which order.
- ReleaseAssessment.ConfirmedIffProven: reasons are numbered by the part they concern instead of named by field.
- ReleaseServices.ReleaseService.ReadBatch: the filtered and sorted list of batches, and mappings to tasks after creation.
- PagingFeeds.InOrderIffClean: the setting of a cursor to the newest event, which skips what lies before on purpose; events of deleted tasks; consumers other than one, whose cursors are independent.
- CreationServices.ManagerEntry.InitializeEntry: the pages of a scan, pinning and naming of the thread, and the provenance fields of the saved state.
- CreationJournal.CreateAtMostOnce: removal or hand editing of the state file between calls.
- The coordinator, knowledge providers, capability policy, intake and the retry policy of managed runs.
