# Task-detail screen controller of TimeManagement, in Dafny

This project models `DefaultViewTaskViewModel`, the controller of the
task-detail screen of the TimeManagement time-tracking app, and proves
properties of the model. The screen receives a task id and asks the task
lookup for the task. It shows the task's name, description, creation date and
duration. A standalone task gets a run/stop toggle. A stepped task gets its
list of steps (sub-tasks). Through the time-gap interactor the screen starts
and stops the task or one of its steps, and through the removal use case it
removes the task or a step. Every failure becomes one of four fixed messages:
task not found, removal failed, start failed, stop failed.

Files:

- `tasks.dfy`: module `Options` (the `Option` type that stands for Kotlin's
  nullable values) and module `Tasks`. `Tasks` holds the time gaps, steps and
  the two kinds of task, and the predicate `IsRunning`: a standalone task runs
  when it has a time gap and its latest gap has no end time. `IsRunning` is
  proved equal to a reference definition that walks the gaps from the front.
- `view_task_screen.dfy`: module `ViewTaskScreen`. It is the screen as a state
  machine over values. `Screen` holds the loaded task, the current value of
  every observable field, and the log of requests sent to the collaborators.
  `Event` lists the user actions, the collaborator replies and the new values
  of the loaded task's observable sources. `Step` handles one event and `Run`
  handles a sequence. `Displayed` is the screen invariant: what is shown agrees
  with the loaded task. The lemmas state what each handler does, including
  what it leaves alone, and what holds over whole runs.
- `view_task_view_model.dfy`: module `ViewTaskUi` with the class
  `DefaultViewTaskViewModel`. It has one field per observable field plus the
  request log. Each handler and each reply handler changes those fields in
  place. Its contract says the new fields are `Step` of the old ones, and
  that `Valid()` (the invariant `Displayed`) is kept.

Modelling choices:

- A request to a collaborator is an entry appended to the log `sent`. A reply
  is a separate event, `Step` case and class method. It carries the values the
  Kotlin callback captured when the request was made: the id and name for a
  start.
- An observable field is `None` until it is first set. This matters for the
  run toggle: `isRunningLiveData.value == false` is not true while the value
  is unset.
- A task's duration and time-gap sources are `Option` fields of `Task`: `None`
  while the source has no value yet. An `addSource` subscription recomputes
  its field from the source's value when the task is loaded if that value is
  there, and otherwise leaves the field as it was. Later values of the loaded
  task's sources are the events `TimeGapsChanged` and `DurationChanged`.
- The date and duration formatters are not modelled. The model keeps the raw
  `Long` values that they would format.
- The message codes are the four constructors of `ErrorCode`, not resource
  integers.
- `SubTask.isRunning()` is defined outside the files of this model. A step
  carries its result as the field `running`.
- Ids are unbounded integers. The screen only passes ids on and does no
  arithmetic on them, so the 64-bit width of Kotlin's `Long` does not matter.

Two behaviours of the code as written come from the running flag keeping its
last value. `ViewTaskScreen.StaleRunningFlagAfterSteppedLoad`: loading a
stepped task does not reset the flag left by a stopped standalone task loaded
earlier, so the run toggle can still send a start for the stepped task. The
screen disables the toggle for stepped tasks (`isRunEnabled` is false), so a
user cannot normally reach this. `ViewTaskScreen.PendingGapsUseStaleFlag`:
after a stopped task, a standalone task whose gaps have not arrived yet is
sent a start when the toggle is checked, even if it is in fact running.
`ViewTaskScreen.EnabledToggleTargetsStandaloneTask` proves that while the
toggle is enabled, every request it sends is for the loaded standalone task,
and that once its gaps are known the request matches its running state.

## Model

| member | source | states |
|---|---|---|
| `Tasks.IsRunning` | TimeManagement/app/src/main/kotlin/com/ganeeva/d/f/timemanagement/task_view/ui/ViewTaskViewModel.kt:132 | the running test itself (a gap exists and the latest has no end time); it has no contract of its own, and `Tasks.IsRunningIsLastGapOpen`, `Tasks.NoGapsNotRunning` and `Tasks.LatestGapDecides` state what it means |
| `Tasks.IsRunningIsLastGapOpen` | TimeManagement/app/src/main/kotlin/com/ganeeva/d/f/timemanagement/task_view/ui/ViewTaskViewModel.kt:132 | the screen's running test (at least one gap, and the latest has no end time) agrees on every gap list with a front-to-back reference definition |
| `Tasks.NoGapsNotRunning` | TimeManagement/app/src/main/kotlin/com/ganeeva/d/f/timemanagement/task_view/ui/ViewTaskViewModel.kt:132 | a task with no time gaps is not running |
| `Tasks.LatestGapDecides` | TimeManagement/app/src/main/kotlin/com/ganeeva/d/f/timemanagement/task_view/ui/ViewTaskViewModel.kt:132 | whatever gaps came before, a task runs exactly when its latest gap is open, under both definitions |
| `ViewTaskScreen.ShowTask` | TimeManagement/app/src/main/kotlin/com/ganeeva/d/f/timemanagement/task_view/ui/ViewTaskViewModel.kt:110-139 | the screen after a successful lookup; it has no contract of its own, and `ViewTaskScreen.LoadSuccessShowsTask`, `ViewTaskScreen.LoadStandaloneEnablesToggle`, `ViewTaskScreen.LoadSteppedShowsSteps` and `ViewTaskScreen.ShowTaskDisplayed` state its behaviour |
| `ViewTaskScreen.RunToggled` | TimeManagement/app/src/main/kotlin/com/ganeeva/d/f/timemanagement/task_view/ui/ViewTaskViewModel.kt:84-171 | the run toggle together with the start and stop of the loaded task; it has no contract of its own, and `ViewTaskScreen.RunToggleRequests`, `ViewTaskScreen.RunToggleMatchingStateIsNoOp` and `ViewTaskScreen.EnabledToggleTargetsStandaloneTask` state its behaviour |
| `ViewTaskScreen.Step` | TimeManagement/app/src/main/kotlin/com/ganeeva/d/f/timemanagement/task_view/ui/ViewTaskViewModel.kt:65-191 | one handler or reply of the screen; it has no contract of its own, and the per-event lemmas below (from `ViewTaskScreen.TaskIdAbsentMeansNotFound` to `ViewTaskScreen.DurationRecorded`) and `ViewTaskScreen.StepPreservesDisplayed` state its behaviour case by case |
| `ViewTaskScreen.InitialDisplayed` | TimeManagement/app/src/main/kotlin/com/ganeeva/d/f/timemanagement/task_view/ui/ViewTaskViewModel.kt:50-63 | a fresh screen, with no task and no field set, satisfies the screen invariant |
| `ViewTaskScreen.ShowTaskDisplayed` | TimeManagement/app/src/main/kotlin/com/ganeeva/d/f/timemanagement/task_view/ui/ViewTaskViewModel.kt:110-139 | a freshly shown task agrees with every shown field, whatever the screen showed before |
| `ViewTaskScreen.StepPreservesDisplayed` | TimeManagement/app/src/main/kotlin/com/ganeeva/d/f/timemanagement/task_view/ui/ViewTaskViewModel.kt:65-191 | no handler or reply breaks the agreement between the loaded task and the name, description, date, duration, toggle, time gaps and steps shown |
| `ViewTaskScreen.OtherEventsKeepDisplay` | TimeManagement/app/src/main/kotlin/com/ganeeva/d/f/timemanagement/task_view/ui/ViewTaskViewModel.kt:72-191 | user actions and collaborator replies other than a lookup leave the loaded task and every shown task field unchanged |
| `ViewTaskScreen.RunPreservesDisplayed` | TimeManagement/app/src/main/kotlin/com/ganeeva/d/f/timemanagement/task_view/ui/ViewTaskViewModel.kt:65-191 | after any sequence of events the shown fields still agree with the loaded task |
| `ViewTaskScreen.TaskIdAbsentMeansNotFound` | TimeManagement/app/src/main/kotlin/com/ganeeva/d/f/timemanagement/task_view/ui/ViewTaskViewModel.kt:65-70 | a null id raises "task not found" and changes nothing else; in particular no lookup is sent |
| `ViewTaskScreen.TaskIdPresentLoadsIt` | TimeManagement/app/src/main/kotlin/com/ganeeva/d/f/timemanagement/task_view/ui/ViewTaskViewModel.kt:65-70 | a non-null id sends a lookup of exactly that id, sets no error and changes nothing else |
| `ViewTaskScreen.LoadErrorOnlyRaisesNotFound` | TimeManagement/app/src/main/kotlin/com/ganeeva/d/f/timemanagement/task_view/ui/ViewTaskViewModel.kt:141-143 | a failed lookup raises "task not found"; the task and every shown field stay as they were |
| `ViewTaskScreen.LoadSuccessShowsTask` | TimeManagement/app/src/main/kotlin/com/ganeeva/d/f/timemanagement/task_view/ui/ViewTaskViewModel.kt:110-119 | a successful lookup stores the task and shows exactly its name, description and creation date, and its duration when that source has a value (otherwise the duration shown before); it sends nothing and leaves the error and the finish, start and stop signals alone |
| `ViewTaskScreen.LoadStandaloneEnablesToggle` | TimeManagement/app/src/main/kotlin/com/ganeeva/d/f/timemanagement/task_view/ui/ViewTaskViewModel.kt:126-134 | a standalone task enables the toggle; once its gaps are there they are shown and the running flag is set to exactly the running test of them, so no gaps shows it stopped; while the gap source has no value the gaps and flag keep what they showed; the steps list is untouched |
| `ViewTaskScreen.LoadSteppedShowsSteps` | TimeManagement/app/src/main/kotlin/com/ganeeva/d/f/timemanagement/task_view/ui/ViewTaskViewModel.kt:136-139 | a stepped task disables the toggle and shows exactly its steps; the running flag and time gaps are not touched |
| `ViewTaskScreen.RunToggleRequests` | TimeManagement/app/src/main/kotlin/com/ganeeva/d/f/timemanagement/task_view/ui/ViewTaskViewModel.kt:84-171 | the toggle sends a request iff a task is loaded and (checked and the flag is exactly false, or unchecked and the flag is exactly true); the request is a start (id, name) or a stop (id) of the loaded task; in every other case, including an unset flag, the screen is unchanged |
| `ViewTaskScreen.RunToggleMatchingStateIsNoOp` | TimeManagement/app/src/main/kotlin/com/ganeeva/d/f/timemanagement/task_view/ui/ViewTaskViewModel.kt:84-89 | moving the toggle to the state the flag already shows does nothing; on a consistent screen whose standalone task has its gaps, that state is the running test of the gaps |
| `ViewTaskScreen.EnabledToggleTargetsStandaloneTask` | TimeManagement/app/src/main/kotlin/com/ganeeva/d/f/timemanagement/task_view/ui/ViewTaskViewModel.kt:84-89 | while the toggle is enabled, a request it sends is for a loaded standalone task; once that task's gaps are known, a start only when it is not running and a stop only when it is |
| `ViewTaskScreen.StaleRunningFlagAfterSteppedLoad` | TimeManagement/app/src/main/kotlin/com/ganeeva/d/f/timemanagement/task_view/ui/ViewTaskViewModel.kt:84-139 | on any screen whose flag shows a stopped task, loading any stepped task and checking the toggle sends exactly a start of the stepped task |
| `ViewTaskScreen.PendingGapsUseStaleFlag` | TimeManagement/app/src/main/kotlin/com/ganeeva/d/f/timemanagement/task_view/ui/ViewTaskViewModel.kt:84-134 | after a screen whose flag shows a stopped task, a standalone task whose gaps are still pending is sent exactly a start when the toggle is checked |
| `ViewTaskScreen.StartSuccessNotifies` | TimeManagement/app/src/main/kotlin/com/ganeeva/d/f/timemanagement/task_view/ui/ViewTaskViewModel.kt:157-163 | a successful start hands the notification the captured id and name and changes nothing else |
| `ViewTaskScreen.StartOfLoadedTaskNotifiesIt` | TimeManagement/app/src/main/kotlin/com/ganeeva/d/f/timemanagement/task_view/ui/ViewTaskViewModel.kt:157-163 | checking the toggle on a stopped loaded task sends a start whose success notifies with the loaded task's id and name |
| `ViewTaskScreen.StartErrorRaisesRunning` | TimeManagement/app/src/main/kotlin/com/ganeeva/d/f/timemanagement/task_view/ui/ViewTaskViewModel.kt:161 | a failed start raises "start failed" and changes nothing else |
| `ViewTaskScreen.StopSuccessSignalsStop` | TimeManagement/app/src/main/kotlin/com/ganeeva/d/f/timemanagement/task_view/ui/ViewTaskViewModel.kt:168 | a successful stop sets the stop signal and changes nothing else |
| `ViewTaskScreen.StopErrorRaisesStopping` | TimeManagement/app/src/main/kotlin/com/ganeeva/d/f/timemanagement/task_view/ui/ViewTaskViewModel.kt:169 | a failed stop raises "stop failed" and changes nothing else |
| `ViewTaskScreen.RemoveClickedRequests` | TimeManagement/app/src/main/kotlin/com/ganeeva/d/f/timemanagement/task_view/ui/ViewTaskViewModel.kt:76-82 | with no task loaded, remove raises "removal failed" and sends nothing; with a task it sends a removal of that task's id and changes nothing else |
| `ViewTaskScreen.RemoveSuccessFinishes` | TimeManagement/app/src/main/kotlin/com/ganeeva/d/f/timemanagement/task_view/ui/ViewTaskViewModel.kt:145-147 | a successful removal sets the finish signal and changes nothing else |
| `ViewTaskScreen.RemoveErrorKeepsScreen` | TimeManagement/app/src/main/kotlin/com/ganeeva/d/f/timemanagement/task_view/ui/ViewTaskViewModel.kt:149-151 | a failed removal raises "removal failed", does not finish, and leaves everything shown as it was |
| `ViewTaskScreen.BackFinishes` | TimeManagement/app/src/main/kotlin/com/ganeeva/d/f/timemanagement/task_view/ui/ViewTaskViewModel.kt:72-74 | back sets the finish signal and changes nothing else |
| `ViewTaskScreen.SubTaskToggleRequests` | TimeManagement/app/src/main/kotlin/com/ganeeva/d/f/timemanagement/task_view/ui/ViewTaskViewModel.kt:91-96 | checking a step starts it only if it is not running, unchecking stops it only if it is, otherwise nothing changes; the request names the step |
| `ViewTaskScreen.DeleteSubTaskRequests` | TimeManagement/app/src/main/kotlin/com/ganeeva/d/f/timemanagement/task_view/ui/ViewTaskViewModel.kt:98-100 | deleting a step sends a removal of the step's id, with the step-removal replies, and changes nothing else |
| `ViewTaskScreen.SubTaskRemovedReloads` | TimeManagement/app/src/main/kotlin/com/ganeeva/d/f/timemanagement/task_view/ui/ViewTaskViewModel.kt:185-187 | a removed step makes the screen look up the loaded task's id again; with no task loaded nothing happens |
| `ViewTaskScreen.SubTaskRemoveErrorRaisesRemoving` | TimeManagement/app/src/main/kotlin/com/ganeeva/d/f/timemanagement/task_view/ui/ViewTaskViewModel.kt:189-191 | a failed step removal raises "removal failed" and changes nothing else |
| `ViewTaskScreen.TimeGapsRecomputeRunning` | TimeManagement/app/src/main/kotlin/com/ganeeva/d/f/timemanagement/task_view/ui/ViewTaskViewModel.kt:128-133 | a new gap list of the loaded standalone task is recorded in the task and shown, the running flag is recomputed from it, and nothing else changes; without a loaded standalone task nothing changes |
| `ViewTaskScreen.DurationRecorded` | TimeManagement/app/src/main/kotlin/com/ganeeva/d/f/timemanagement/task_view/ui/ViewTaskViewModel.kt:115-119 | a new duration of the loaded task is recorded in the task and shown, and nothing else changes; with no task loaded nothing changes |
| `ViewTaskScreen.NewLatestGapDecidesRunning` | TimeManagement/app/src/main/kotlin/com/ganeeva/d/f/timemanagement/task_view/ui/ViewTaskViewModel.kt:131-133 | after a new gap list arrives, the screen shows the task as running exactly when the list's latest gap is open |
| `ViewTaskScreen.FinishedIsPermanent` | TimeManagement/app/src/main/kotlin/com/ganeeva/d/f/timemanagement/task_view/ui/ViewTaskViewModel.kt:153-155 | no sequence of events takes the finish signal back |
| `ViewTaskScreen.FinishedOnlyByBackOrRemoval` | TimeManagement/app/src/main/kotlin/com/ganeeva/d/f/timemanagement/task_view/ui/ViewTaskViewModel.kt:72-155 | a screen that was not finishing finishes only if the events include a back click or a successful removal of the task |
| `ViewTaskScreen.StepSendsAtMostOne` | TimeManagement/app/src/main/kotlin/com/ganeeva/d/f/timemanagement/task_view/ui/ViewTaskViewModel.kt:76-187 | every handler and reply sends either nothing or exactly one request appended to the log |
| `ViewTaskScreen.SentIsAppendOnly` | TimeManagement/app/src/main/kotlin/com/ganeeva/d/f/timemanagement/task_view/ui/ViewTaskViewModel.kt:76-187 | requests once sent stay in the log in order, and each event sends at most one request |
| `ViewTaskScreen.StepKeepsTaskIdentity` | TimeManagement/app/src/main/kotlin/com/ganeeva/d/f/timemanagement/task_view/ui/ViewTaskViewModel.kt:110-111 | no event other than a successful lookup replaces the loaded task: it stays present or absent and keeps its id and kind |
| `ViewTaskScreen.TaskChangesOnlyByLoad` | TimeManagement/app/src/main/kotlin/com/ganeeva/d/f/timemanagement/task_view/ui/ViewTaskViewModel.kt:110-111 | without a successful lookup the loaded task keeps its presence, id and kind |
| `ViewTaskUi.DefaultViewTaskViewModel.constructor` | TimeManagement/app/src/main/kotlin/com/ganeeva/d/f/timemanagement/task_view/ui/ViewTaskViewModel.kt:42-63 | a new controller has no task, no field set and no request sent, and satisfies the invariant |
| `ViewTaskUi.DefaultViewTaskViewModel.OnTaskId` | TimeManagement/app/src/main/kotlin/com/ganeeva/d/f/timemanagement/task_view/ui/ViewTaskViewModel.kt:65-70 | the fields become one state-machine step on the received id, and the invariant is kept |
| `ViewTaskUi.DefaultViewTaskViewModel.OnBackClicked` | TimeManagement/app/src/main/kotlin/com/ganeeva/d/f/timemanagement/task_view/ui/ViewTaskViewModel.kt:72-74 | the fields become one step on a back click, and the invariant is kept |
| `ViewTaskUi.DefaultViewTaskViewModel.OnRemoveClicked` | TimeManagement/app/src/main/kotlin/com/ganeeva/d/f/timemanagement/task_view/ui/ViewTaskViewModel.kt:76-82 | the fields become one step on a remove click, and the invariant is kept |
| `ViewTaskUi.DefaultViewTaskViewModel.OnRunChecked` | TimeManagement/app/src/main/kotlin/com/ganeeva/d/f/timemanagement/task_view/ui/ViewTaskViewModel.kt:84-89 | the fields become one step on the toggle, and the invariant is kept |
| `ViewTaskUi.DefaultViewTaskViewModel.OnSubTaskChecked` | TimeManagement/app/src/main/kotlin/com/ganeeva/d/f/timemanagement/task_view/ui/ViewTaskViewModel.kt:91-96 | the fields become one step on a step's toggle, and the invariant is kept |
| `ViewTaskUi.DefaultViewTaskViewModel.OnDeleteSubTaskClicked` | TimeManagement/app/src/main/kotlin/com/ganeeva/d/f/timemanagement/task_view/ui/ViewTaskViewModel.kt:98-100 | the fields become one step on a step deletion, and the invariant is kept |
| `ViewTaskUi.DefaultViewTaskViewModel.ShowError` | TimeManagement/app/src/main/kotlin/com/ganeeva/d/f/timemanagement/task_view/ui/ViewTaskViewModel.kt:102-104 | raises "task not found" and touches no other field |
| `ViewTaskUi.DefaultViewTaskViewModel.LoadTask` | TimeManagement/app/src/main/kotlin/com/ganeeva/d/f/timemanagement/task_view/ui/ViewTaskViewModel.kt:106-108 | appends a lookup of the id to the log and touches no other field |
| `ViewTaskUi.DefaultViewTaskViewModel.Finish` | TimeManagement/app/src/main/kotlin/com/ganeeva/d/f/timemanagement/task_view/ui/ViewTaskViewModel.kt:153-155 | sets the finish signal and touches no other field |
| `ViewTaskUi.DefaultViewTaskViewModel.RunCurrentTask` | TimeManagement/app/src/main/kotlin/com/ganeeva/d/f/timemanagement/task_view/ui/ViewTaskViewModel.kt:157-163 | sends a start with the loaded task's id and name, or nothing when no task is loaded |
| `ViewTaskUi.DefaultViewTaskViewModel.StopRunningCurrentTask` | TimeManagement/app/src/main/kotlin/com/ganeeva/d/f/timemanagement/task_view/ui/ViewTaskViewModel.kt:165-171 | sends a stop of the loaded task's id, or nothing when no task is loaded |
| `ViewTaskUi.DefaultViewTaskViewModel.RunSubTask` | TimeManagement/app/src/main/kotlin/com/ganeeva/d/f/timemanagement/task_view/ui/ViewTaskViewModel.kt:173-177 | sends a start with the step's id and name |
| `ViewTaskUi.DefaultViewTaskViewModel.StopRunningSubTask` | TimeManagement/app/src/main/kotlin/com/ganeeva/d/f/timemanagement/task_view/ui/ViewTaskViewModel.kt:179-183 | sends a stop of the step's id |
| `ViewTaskUi.DefaultViewTaskViewModel.ShowCommon` | TimeManagement/app/src/main/kotlin/com/ganeeva/d/f/timemanagement/task_view/ui/ViewTaskViewModel.kt:110-119 | stores the task, shows its name, description and date, and its duration when that source has a value; touches nothing else |
| `ViewTaskUi.DefaultViewTaskViewModel.ShowStandaloneTask` | TimeManagement/app/src/main/kotlin/com/ganeeva/d/f/timemanagement/task_view/ui/ViewTaskViewModel.kt:126-134 | enables the toggle; when the gaps are there, shows them and sets the running flag to their running test; touches nothing else |
| `ViewTaskUi.DefaultViewTaskViewModel.ShowSteppedTask` | TimeManagement/app/src/main/kotlin/com/ganeeva/d/f/timemanagement/task_view/ui/ViewTaskViewModel.kt:136-139 | disables the toggle, shows the steps, and touches nothing else |
| `ViewTaskUi.DefaultViewTaskViewModel.OnTaskLoadSuccess` | TimeManagement/app/src/main/kotlin/com/ganeeva/d/f/timemanagement/task_view/ui/ViewTaskViewModel.kt:110-124 | the fields become one step on the loaded task, and the invariant is kept |
| `ViewTaskUi.DefaultViewTaskViewModel.OnTaskLoadError` | TimeManagement/app/src/main/kotlin/com/ganeeva/d/f/timemanagement/task_view/ui/ViewTaskViewModel.kt:141-143 | the fields become one step on a failed lookup, and the invariant is kept |
| `ViewTaskUi.DefaultViewTaskViewModel.OnTaskRemoveSuccess` | TimeManagement/app/src/main/kotlin/com/ganeeva/d/f/timemanagement/task_view/ui/ViewTaskViewModel.kt:145-147 | the fields become one step on a successful removal, and the invariant is kept |
| `ViewTaskUi.DefaultViewTaskViewModel.OnTaskRemoveError` | TimeManagement/app/src/main/kotlin/com/ganeeva/d/f/timemanagement/task_view/ui/ViewTaskViewModel.kt:149-151 | the fields become one step on a failed removal, and the invariant is kept |
| `ViewTaskUi.DefaultViewTaskViewModel.OnStartSuccess` | TimeManagement/app/src/main/kotlin/com/ganeeva/d/f/timemanagement/task_view/ui/ViewTaskViewModel.kt:160 | the fields become one step on a successful start with the captured id and name, and the invariant is kept |
| `ViewTaskUi.DefaultViewTaskViewModel.OnStartError` | TimeManagement/app/src/main/kotlin/com/ganeeva/d/f/timemanagement/task_view/ui/ViewTaskViewModel.kt:161 | the fields become one step on a failed start, and the invariant is kept |
| `ViewTaskUi.DefaultViewTaskViewModel.OnStopSuccess` | TimeManagement/app/src/main/kotlin/com/ganeeva/d/f/timemanagement/task_view/ui/ViewTaskViewModel.kt:168 | the fields become one step on a successful stop, and the invariant is kept |
| `ViewTaskUi.DefaultViewTaskViewModel.OnStopError` | TimeManagement/app/src/main/kotlin/com/ganeeva/d/f/timemanagement/task_view/ui/ViewTaskViewModel.kt:169 | the fields become one step on a failed stop, and the invariant is kept |
| `ViewTaskUi.DefaultViewTaskViewModel.OnSubTaskRemoveSuccess` | TimeManagement/app/src/main/kotlin/com/ganeeva/d/f/timemanagement/task_view/ui/ViewTaskViewModel.kt:185-187 | the fields become one step on a removed step, and the invariant is kept |
| `ViewTaskUi.DefaultViewTaskViewModel.OnSubTaskRemoveError` | TimeManagement/app/src/main/kotlin/com/ganeeva/d/f/timemanagement/task_view/ui/ViewTaskViewModel.kt:189-191 | the fields become one step on a failed step removal, and the invariant is kept |
| `ViewTaskUi.DefaultViewTaskViewModel.OnTimeGaps` | TimeManagement/app/src/main/kotlin/com/ganeeva/d/f/timemanagement/task_view/ui/ViewTaskViewModel.kt:128-133 | the fields become one step on a new gap list of the loaded task, and the invariant is kept |
| `ViewTaskUi.DefaultViewTaskViewModel.OnDuration` | TimeManagement/app/src/main/kotlin/com/ganeeva/d/f/timemanagement/task_view/ui/ViewTaskViewModel.kt:115-119 | the fields become one step on a new duration of the loaded task, and the invariant is kept |

## Left out

- The Android machinery (`ViewModel`, `MutableLiveData`, `MediatorLiveData`, `SingleLiveEvent`, `viewModelScope`). Each observable field is a plain field holding its current value. Setting a field to the value it already holds notifies observers again in Android; the model cannot tell that apart from not setting it.
- Asynchrony of the collaborators. The task lookup, the removal use case and the time-gap interactor are defined outside the files of this model. Only the request sent to them and the reply handlers are modelled. Nothing ties a reply to an earlier request, so replies may arrive in any order, or never.
- Source subscriptions of earlier tasks. `addSource` adds to the ones already registered, so after a second load the time-gap and duration sources of the first task still update the screen. Adding the same source twice with a different observer fails in Android. The model follows only the sources of the task loaded last.
- `ViewTaskScreen.EnabledToggleTargetsStandaloneTask`: promises that a request matches the task's running state only once its gap source has delivered a value, because until then the flag still holds the previous screen's value (`ViewTaskScreen.PendingGapsUseStaleFlag`).
- `ViewTaskScreen.RunToggleMatchingStateIsNoOp`: ties the shown flag to the task's gaps only once they have arrived, for the same reason.
- The moment at which a source delivers its first value relative to the load. The model treats a source's value as present or absent when the task is loaded, and a later value as a separate event.
- The date and duration formatting with `SimpleDateFormat` (ViewTaskViewModel.kt:114-118) and the `Log.d` call. These are a foreign library and logging. The model keeps the raw values.
- `SubTask.isRunning()`: its definition is outside the files of this model. It is the `running` field of a step.
- ViewTaskModule.kt (dependency-injection wiring), MainActivity.kt (activity start-up), FiltersCache.kt (filter settings whose only behaviour reads the clock) and the unrelated `tmp` data holder StandaloneTask.kt. None of them is part of the screen's logic.
