/** The task-detail screen as a state machine over values: what the screen
    shows, what it has asked its collaborators to do, and how each handler
    and each collaborator reply changes that. */
module ViewTaskScreen {
  import opened Options
  import opened Tasks

  /** The four user-facing messages the screen can raise. */
  datatype ErrorCode = TaskNotFound | TaskRemoving | TaskRunning | TaskStopping

  /** What the screen hands to the running-task notification. */
  datatype NotificationData = NotificationData(id: TaskId, name: string)

  /** Which reply handler a removal request was sent with. */
  datatype Removal = OfTask | OfSubTask

  /** A request sent to a collaborator: the task lookup, the removal use case
      or the time-gap interactor. */
  datatype Request =
    | Load(id: TaskId)
    | Remove(id: TaskId, of: Removal)
    | Start(id: TaskId, name: string)
    | Stop(id: TaskId)

  /** Everything the screen holds: the loaded task, the current value of each
      observable field (None while it has never been set), and the requests
      sent so far, oldest first. `date` and `duration` hold the raw values
      that the screen formats for display. */
  datatype Screen = Screen(
    task: Option<Task>,
    name: Option<string>,
    description: Option<string>,
    date: Option<int>,
    duration: Option<int>,
    isRunEnabled: Option<bool>,
    isRunning: Option<bool>,
    timeGaps: Option<seq<TimeGap>>,
    subtasks: Option<seq<SubTask>>,
    error: Option<ErrorCode>,
    finished: bool,
    run: Option<NotificationData>,
    stopped: bool,
    sent: seq<Request>)

  /** A freshly created screen: nothing loaded, nothing shown, nothing sent. */
  const Initial := Screen(None, None, None, None, None, None, None, None, None,
                          None, false, None, false, [])

  /** The inputs of the screen: user actions first, then collaborator replies,
      then new values of the loaded task's observable sources. */
  datatype Event =
    | TaskIdReceived(id: Option<TaskId>)
    | BackClicked
    | RemoveClicked
    | RunChecked(isChecked: bool)
    | SubTaskChecked(sub: SubTask, isChecked: bool)
    | DeleteSubTaskClicked(sub: SubTask)
    | TaskLoaded(loaded: Task)
    | TaskLoadFailed
    | TaskRemoved
    | TaskRemoveFailed
    | StartSucceeded(startedId: TaskId, startedName: string)
    | StartFailed
    | StopSucceeded
    | StopFailed
    | SubTaskRemoved
    | SubTaskRemoveFailed
    | TimeGapsChanged(gaps: seq<TimeGap>)
    | DurationChanged(value: int)

  function Send(s: Screen, req: Request): (r: Screen) {
    s.(sent := s.sent + [req])
  }

  function Raise(s: Screen, e: ErrorCode): (r: Screen) {
    s.(error := Some(e))
  }

  /** Shows a freshly loaded task: the common fields for every task, then the
      run toggle and time gaps of a standalone task or the steps of a stepped
      one. A subscribed source that has no value yet changes nothing until it
      delivers one, so its fields keep what they showed before. */
  function ShowTask(s: Screen, t: Task): (r: Screen) {
    var common := s.(task := Some(t), name := Some(t.name),
                     description := Some(t.description), date := Some(t.creationDate),
                     duration := if t.duration.Some? then t.duration else s.duration);
    match t
    case Standalone(_, _, _, _, _, gaps) =>
      if gaps.Some? then
        common.(isRunEnabled := Some(true), timeGaps := gaps,
                isRunning := Some(IsRunning(gaps.value)))
      else common.(isRunEnabled := Some(true))
    case Stepped(_, _, _, _, _, steps) =>
      common.(isRunEnabled := Some(false), subtasks := Some(steps))
  }

  /** The run toggle of the screen: start only when the screen shows the task
      as stopped, stop only when it shows it as running, and only for a loaded
      task. */
  function RunToggled(s: Screen, isChecked: bool): (r: Screen) {
    if isChecked && s.isRunning == Some(false) then
      (if s.task.Some? then Send(s, Start(s.task.value.id, s.task.value.name)) else s)
    else if !isChecked && s.isRunning == Some(true) then
      (if s.task.Some? then Send(s, Stop(s.task.value.id)) else s)
    else s
  }

  /** One step of the screen. */
  function Step(s: Screen, e: Event): (r: Screen) {
    match e
    case TaskIdReceived(id) =>
      if id.None? then Raise(s, TaskNotFound) else Send(s, Load(id.value))
    case BackClicked => s.(finished := true)
    case RemoveClicked =>
      if s.task.None? then Raise(s, TaskRemoving) else Send(s, Remove(s.task.value.id, OfTask))
    case RunChecked(isChecked) => RunToggled(s, isChecked)
    case SubTaskChecked(sub, isChecked) =>
      if isChecked && !sub.running then Send(s, Start(sub.id, sub.name))
      else if !isChecked && sub.running then Send(s, Stop(sub.id))
      else s
    case DeleteSubTaskClicked(sub) => Send(s, Remove(sub.id, OfSubTask))
    case TaskLoaded(t) => ShowTask(s, t)
    case TaskLoadFailed => Raise(s, TaskNotFound)
    case TaskRemoved => s.(finished := true)
    case TaskRemoveFailed => Raise(s, TaskRemoving)
    case StartSucceeded(id, name) => s.(run := Some(NotificationData(id, name)))
    case StartFailed => Raise(s, TaskRunning)
    case StopSucceeded => s.(stopped := true)
    case StopFailed => Raise(s, TaskStopping)
    case SubTaskRemoved =>
      if s.task.Some? then Send(s, Load(s.task.value.id)) else s
    case SubTaskRemoveFailed => Raise(s, TaskRemoving)
    case TimeGapsChanged(gaps) =>
      if s.task.Some? && s.task.value.Standalone? then
        s.(task := Some(s.task.value.(timeGaps := Some(gaps))), timeGaps := Some(gaps),
           isRunning := Some(IsRunning(gaps)))
      else s
    case DurationChanged(d) =>
      if s.task.Some? then s.(task := Some(s.task.value.(duration := Some(d))), duration := Some(d))
      else s
  }

  /** The screen after a sequence of events, handled one at a time on the
      main thread. */
  function Run(s: Screen, es: seq<Event>): (r: Screen)
    decreases |es|
  {
    if es == [] then s else Run(Step(s, es[0]), es[1..])
  }

  // ---------------------------------------------------------------------------
  // Frame predicates: which part of the screen a step may change.

  /** `r` is `s` with only the error changed. */
  predicate OnlyErrorChanged(s: Screen, r: Screen) {
    r.(error := s.error) == s
  }

  /** `r` is `s` with only the request log changed. */
  predicate OnlySentChanged(s: Screen, r: Screen) {
    r.(sent := s.sent) == s
  }

  // ---------------------------------------------------------------------------
  // The screen invariant.

  /** What the screen shows agrees with the loaded task: its name, description
      and creation date; its duration once that source has a value; a run
      toggle that is enabled exactly for a standalone task; for a standalone
      task whose gaps have arrived, those gaps and whether it is running; for a
      stepped task its steps. Before any task is loaded none of these fields
      has a value. */
  predicate Displayed(s: Screen) {
    match s.task
    case None =>
      s.name.None? && s.description.None? && s.date.None? && s.duration.None? &&
      s.isRunEnabled.None? && s.isRunning.None? && s.timeGaps.None? && s.subtasks.None?
    case Some(t) =>
      s.name == Some(t.name) && s.description == Some(t.description) &&
      s.date == Some(t.creationDate) && (t.duration.Some? ==> s.duration == t.duration) &&
      s.isRunEnabled == Some(t.Standalone?) &&
      (t.Standalone? && t.timeGaps.Some? ==>
         s.timeGaps == t.timeGaps && s.isRunning == Some(IsRunning(t.timeGaps.value))) &&
      (t.Stepped? ==> s.subtasks == Some(t.subtasks))
  }

  /** `r` shows the same task, in the same way, as `s`. */
  predicate SameDisplay(s: Screen, r: Screen) {
    r.task == s.task && r.name == s.name && r.description == s.description &&
    r.date == s.date && r.duration == s.duration && r.isRunEnabled == s.isRunEnabled &&
    r.isRunning == s.isRunning && r.timeGaps == s.timeGaps && r.subtasks == s.subtasks
  }

  lemma InitialDisplayed()
    ensures Displayed(Initial)
  {}

  /** Showing a task makes the screen consistent with it, whatever the screen
      showed before. */
  lemma ShowTaskDisplayed(s: Screen, t: Task)
    ensures Displayed(ShowTask(s, t))
  {}

  lemma StepPreservesDisplayed(s: Screen, e: Event)
    requires Displayed(s)
    ensures Displayed(Step(s, e))
  {
    if e.TaskLoaded? {
      ShowTaskDisplayed(s, e.loaded);
    } else if !e.TimeGapsChanged? && !e.DurationChanged? {
      OtherEventsKeepDisplay(s, e);
    }
  }

  /** Only a lookup and new source values change what the screen shows. */
  lemma OtherEventsKeepDisplay(s: Screen, e: Event)
    requires !e.TaskLoaded? && !e.TimeGapsChanged? && !e.DurationChanged?
    ensures SameDisplay(s, Step(s, e))
  {}

  lemma {:induction false} RunPreservesDisplayed(s: Screen, es: seq<Event>)
    requires Displayed(s)
    ensures Displayed(Run(s, es))
    decreases |es|
  {
    if es != [] {
      StepPreservesDisplayed(s, es[0]);
      RunPreservesDisplayed(Step(s, es[0]), es[1..]);
    }
  }

  // ---------------------------------------------------------------------------
  // Receiving the task id.

  lemma TaskIdAbsentMeansNotFound(s: Screen)
    ensures Step(s, TaskIdReceived(None)).error == Some(TaskNotFound)
    ensures OnlyErrorChanged(s, Step(s, TaskIdReceived(None)))
  {}

  lemma TaskIdPresentLoadsIt(s: Screen, id: TaskId)
    ensures Step(s, TaskIdReceived(Some(id))).sent == s.sent + [Load(id)]
    ensures OnlySentChanged(s, Step(s, TaskIdReceived(Some(id))))
  {}

  // ---------------------------------------------------------------------------
  // Replies of the task lookup.

  lemma LoadErrorOnlyRaisesNotFound(s: Screen)
    ensures Step(s, TaskLoadFailed).error == Some(TaskNotFound)
    ensures OnlyErrorChanged(s, Step(s, TaskLoadFailed))
  {}

  /** A load success stores the task and shows exactly its name, description
      and date, and its duration once that source has a value; it sends
      nothing, neither raises nor clears an error, and leaves the finish, start
      and stop signals alone. Together with the two lemmas for each kind of
      task this fixes every field of the new screen. */
  lemma LoadSuccessShowsTask(s: Screen, t: Task)
    ensures var r := Step(s, TaskLoaded(t));
      r.task == Some(t) && r.name == Some(t.name) && r.description == Some(t.description) &&
      r.date == Some(t.creationDate) &&
      r.duration == (if t.duration.Some? then t.duration else s.duration) &&
      r.error == s.error && r.sent == s.sent && r.finished == s.finished &&
      r.run == s.run && r.stopped == s.stopped
  {}

  /** After a standalone task is loaded the run toggle is enabled. Once its
      gaps are known the screen shows them, and shows the task as running
      exactly when the running test holds of them (definitely stopped, never
      unset, when there are no gaps). While its gap source has no value yet,
      the gaps and the running flag keep what they showed before. The steps
      list is left as it was. */
  lemma LoadStandaloneEnablesToggle(s: Screen, t: Task)
    requires t.Standalone?
    ensures var r := Step(s, TaskLoaded(t));
      r.isRunEnabled == Some(true) && r.subtasks == s.subtasks &&
      (t.timeGaps.Some? ==>
         r.timeGaps == t.timeGaps && r.isRunning == Some(IsRunning(t.timeGaps.value)) &&
         (t.timeGaps.value == [] ==> r.isRunning == Some(false))) &&
      (t.timeGaps.None? ==> r.timeGaps == s.timeGaps && r.isRunning == s.isRunning)
  {}

  /** After a stepped task is loaded the run toggle is disabled, the steps list
      is the task's, and whether the screen shows a running task is untouched. */
  lemma LoadSteppedShowsSteps(s: Screen, t: Task)
    requires t.Stepped?
    ensures var r := Step(s, TaskLoaded(t));
      r.isRunEnabled == Some(false) && r.subtasks == Some(t.subtasks) &&
      r.isRunning == s.isRunning && r.timeGaps == s.timeGaps
  {}

  // ---------------------------------------------------------------------------
  // The run toggle.

  /** The toggle sends a request exactly when a task is loaded and the toggle
      moves away from the state the screen shows; it then sends a start of the
      loaded task when checked and a stop of it when unchecked. Otherwise (the
      state is unset, already matches the toggle, or no task is loaded) it
      changes nothing. */
  lemma RunToggleRequests(s: Screen, isChecked: bool)
    ensures var r := Step(s, RunChecked(isChecked));
      var sends := s.task.Some? &&
        ((isChecked && s.isRunning == Some(false)) || (!isChecked && s.isRunning == Some(true)));
      (sends ==> OnlySentChanged(s, r) &&
                 r.sent == s.sent + [if isChecked then Start(s.task.value.id, s.task.value.name)
                                     else Stop(s.task.value.id)]) &&
      (!sends ==> r == s)
  {}

  /** Checking the toggle when the screen already shows the task running, or
      unchecking it when it already shows it stopped, does nothing. On a
      consistent screen whose standalone task has its gaps, that is the case
      exactly when the toggle matches the running test of those gaps. */
  lemma RunToggleMatchingStateIsNoOp(s: Screen, isChecked: bool)
    requires s.isRunning == Some(isChecked)
    ensures Step(s, RunChecked(isChecked)) == s
    ensures Displayed(s) && s.task.Some? && s.task.value.Standalone? && s.task.value.timeGaps.Some? ==>
              IsRunning(s.task.value.timeGaps.value) == isChecked
  {}

  /** While the toggle is enabled, every request it sends targets the loaded
      standalone task; once that task's gaps are known, a start is sent only
      for a task that is not running and a stop only for one that is. */
  lemma EnabledToggleTargetsStandaloneTask(s: Screen, isChecked: bool)
    requires Displayed(s)
    requires s.isRunEnabled == Some(true)
    requires Step(s, RunChecked(isChecked)).sent != s.sent
    ensures s.task.Some? && s.task.value.Standalone?
    ensures s.task.value.timeGaps.Some? ==> IsRunning(s.task.value.timeGaps.value) == !isChecked
  {}

  /** Until a freshly loaded standalone task's gaps arrive, the toggle acts on
      the running flag left by the screen before: after a stopped task, a
      newly loaded task (running or not) whose gaps are still pending is sent
      a start when the toggle is checked. */
  lemma PendingGapsUseStaleFlag(s: Screen, t: Task)
    requires s.isRunning == Some(false)
    requires t.Standalone? && t.timeGaps.None?
    ensures Step(Step(s, TaskLoaded(t)), RunChecked(true)).sent == s.sent + [Start(t.id, t.name)]
  {}

  /** The toggle reads the last value of the running flag, and loading a
      stepped task does not reset it: on a screen that shows a stopped task,
      loading any stepped task and checking the toggle sends a start of the
      stepped task. The screen disables the toggle for stepped tasks, so a
      user cannot normally reach this. */
  lemma StaleRunningFlagAfterSteppedLoad(s: Screen, t: Task)
    requires s.isRunning == Some(false)
    requires t.Stepped?
    ensures Step(Step(s, TaskLoaded(t)), RunChecked(true)).sent == s.sent + [Start(t.id, t.name)]
  {}

  // ---------------------------------------------------------------------------
  // Replies of the time-gap interactor.

  lemma StartSuccessNotifies(s: Screen, id: TaskId, name: string)
    ensures Step(s, StartSucceeded(id, name)).run == Some(NotificationData(id, name))
    ensures Step(s, StartSucceeded(id, name)).(run := s.run) == s
  {}

  /** Starting the loaded task and then hearing that the start succeeded
      hands the notification the loaded task's id and name. */
  lemma StartOfLoadedTaskNotifiesIt(s: Screen)
    requires s.task.Some? && s.isRunning == Some(false)
    ensures var r := Step(s, RunChecked(true));
      var req := r.sent[|r.sent| - 1];
      req.Start? &&
      Step(r, StartSucceeded(req.id, req.name)).run ==
        Some(NotificationData(s.task.value.id, s.task.value.name))
  {}

  lemma StartErrorRaisesRunning(s: Screen)
    ensures Step(s, StartFailed).error == Some(TaskRunning)
    ensures OnlyErrorChanged(s, Step(s, StartFailed))
  {}

  lemma StopSuccessSignalsStop(s: Screen)
    ensures Step(s, StopSucceeded).stopped
    ensures Step(s, StopSucceeded).(stopped := s.stopped) == s
  {}

  lemma StopErrorRaisesStopping(s: Screen)
    ensures Step(s, StopFailed).error == Some(TaskStopping)
    ensures OnlyErrorChanged(s, Step(s, StopFailed))
  {}

  // ---------------------------------------------------------------------------
  // Removing the task.

  lemma RemoveClickedRequests(s: Screen)
    ensures var r := Step(s, RemoveClicked);
      (s.task.None? ==> r.error == Some(TaskRemoving) && OnlyErrorChanged(s, r)) &&
      (s.task.Some? ==> r.sent == s.sent + [Remove(s.task.value.id, OfTask)] && OnlySentChanged(s, r))
  {}

  lemma RemoveSuccessFinishes(s: Screen)
    ensures Step(s, TaskRemoved).finished
    ensures Step(s, TaskRemoved).(finished := s.finished) == s
  {}

  /** A failed removal raises the removal error and leaves everything shown,
      including whether the screen is finishing, as it was. */
  lemma RemoveErrorKeepsScreen(s: Screen)
    ensures Step(s, TaskRemoveFailed).error == Some(TaskRemoving)
    ensures OnlyErrorChanged(s, Step(s, TaskRemoveFailed))
    ensures Step(s, TaskRemoveFailed).finished == s.finished
  {}

  lemma BackFinishes(s: Screen)
    ensures Step(s, BackClicked).finished
    ensures Step(s, BackClicked).(finished := s.finished) == s
  {}

  // ---------------------------------------------------------------------------
  // The steps of a stepped task.

  /** Checking a step starts it only if it is not running, unchecking stops it
      only if it is; otherwise nothing happens. The request names the step,
      not the loaded task. */
  lemma SubTaskToggleRequests(s: Screen, sub: SubTask, isChecked: bool)
    ensures var r := Step(s, SubTaskChecked(sub, isChecked));
      (isChecked && !sub.running ==> r == Send(s, Start(sub.id, sub.name))) &&
      (!isChecked && sub.running ==> r == Send(s, Stop(sub.id))) &&
      (isChecked == sub.running ==> r == s)
  {}

  lemma DeleteSubTaskRequests(s: Screen, sub: SubTask)
    ensures Step(s, DeleteSubTaskClicked(sub)).sent == s.sent + [Remove(sub.id, OfSubTask)]
    ensures OnlySentChanged(s, Step(s, DeleteSubTaskClicked(sub)))
  {}

  /** Once a step is removed the loaded task is looked up again; with no task
      loaded nothing happens. */
  lemma SubTaskRemovedReloads(s: Screen)
    ensures var r := Step(s, SubTaskRemoved);
      (s.task.Some? ==> r == Send(s, Load(s.task.value.id))) &&
      (s.task.None? ==> r == s)
  {}

  lemma SubTaskRemoveErrorRaisesRemoving(s: Screen)
    ensures Step(s, SubTaskRemoveFailed).error == Some(TaskRemoving)
    ensures OnlyErrorChanged(s, Step(s, SubTaskRemoveFailed))
  {}

  // ---------------------------------------------------------------------------
  // New values of the loaded task's sources.

  /** A new duration of the loaded task is recorded in the task and shown, and
      nothing else changes. Without a loaded task there is no subscription and
      nothing changes at all. */
  lemma DurationRecorded(s: Screen, d: int)
    ensures s.task.Some? ==>
      Step(s, DurationChanged(d)) ==
        s.(task := Some(s.task.value.(duration := Some(d))), duration := Some(d))
    ensures s.task.None? ==> Step(s, DurationChanged(d)) == s
  {}

  /** A new list of time gaps for the loaded standalone task is recorded in
      the task and shown, the running flag is recomputed from it, and nothing
      else changes. Without a loaded standalone task there is no subscription
      and nothing changes at all. */
  lemma TimeGapsRecomputeRunning(s: Screen, gaps: seq<TimeGap>)
    ensures s.task.Some? && s.task.value.Standalone? ==>
      Step(s, TimeGapsChanged(gaps)) ==
        s.(task := Some(s.task.value.(timeGaps := Some(gaps))), timeGaps := Some(gaps),
           isRunning := Some(IsRunning(gaps)))
    ensures !(s.task.Some? && s.task.value.Standalone?) ==> Step(s, TimeGapsChanged(gaps)) == s
  {}

  /** The interactor recording a new open gap makes the screen show the task
      as running; recording one closed gap last shows it as stopped. */
  lemma NewLatestGapDecidesRunning(s: Screen, earlier: seq<TimeGap>, g: TimeGap)
    requires s.task.Some? && s.task.value.Standalone?
    ensures Step(s, TimeGapsChanged(earlier + [g])).isRunning == Some(g.endTime.None?)
  {
    LatestGapDecides(earlier, g);
  }

  // ---------------------------------------------------------------------------
  // Properties of whole runs.

  predicate Finishes(e: Event) {
    e.BackClicked? || e.TaskRemoved?
  }

  /** Nothing takes the finish signal back. */
  lemma {:induction false} FinishedIsPermanent(s: Screen, es: seq<Event>)
    requires s.finished
    ensures Run(s, es).finished
    decreases |es|
  {
    if es != [] {
      FinishedIsPermanent(Step(s, es[0]), es[1..]);
    }
  }

  /** The screen finishes only after a back click or a successful removal of
      the task; in particular a failed removal never finishes it. */
  lemma {:induction false} FinishedOnlyByBackOrRemoval(s: Screen, es: seq<Event>)
    requires !s.finished
    requires Run(s, es).finished
    ensures exists i :: 0 <= i < |es| && Finishes(es[i])
    decreases |es|
  {
    if es == [] {
    } else if !Finishes(es[0]) {
      FinishedOnlyByBackOrRemoval(Step(s, es[0]), es[1..]);
      var i :| 0 <= i < |es[1..]| && Finishes(es[1..][i]);
      assert Finishes(es[i + 1]);
    }
  }

  /** Each event either sends nothing or appends one request to the log. */
  lemma StepSendsAtMostOne(s: Screen, e: Event)
    ensures Step(s, e).sent == s.sent ||
            (|Step(s, e).sent| == |s.sent| + 1 && Step(s, e).sent[..|s.sent|] == s.sent)
  {}

  /** Requests once sent stay in the log, in order, and each event sends at
      most one, so a run of n events sends at most n. */
  lemma {:induction false} SentIsAppendOnly(s: Screen, es: seq<Event>)
    ensures var r := Run(s, es);
      |s.sent| <= |r.sent| <= |s.sent| + |es| && r.sent[..|s.sent|] == s.sent
    decreases |es|
  {
    if es != [] {
      var n := Step(s, es[0]);
      StepSendsAtMostOne(s, es[0]);
      SentIsAppendOnly(n, es[1..]);
      var r := Run(s, es);
      assert r.sent[..|n.sent|] == n.sent;
      assert r.sent[..|s.sent|] == r.sent[..|n.sent|][..|s.sent|];
    }
  }

  /** Apart from a successful lookup, no event replaces the loaded task; at
      most a new value of one of its sources is recorded in it. */
  lemma StepKeepsTaskIdentity(s: Screen, e: Event)
    requires !e.TaskLoaded?
    ensures Step(s, e).task.Some? == s.task.Some?
    ensures s.task.Some? ==> Step(s, e).task.value.id == s.task.value.id &&
                             Step(s, e).task.value.Standalone? == s.task.value.Standalone?
  {}

  /** The loaded task is replaced only by a successful lookup: without one,
      a run keeps the same task, by identity and variant. */
  lemma {:induction false} TaskChangesOnlyByLoad(s: Screen, es: seq<Event>)
    requires forall i :: 0 <= i < |es| ==> !es[i].TaskLoaded?
    ensures Run(s, es).task.Some? == s.task.Some?
    ensures s.task.Some? ==> Run(s, es).task.value.id == s.task.value.id &&
                             Run(s, es).task.value.Standalone? == s.task.value.Standalone?
    decreases |es|
  {
    if es != [] {
      assert !es[0].TaskLoaded?;
      StepKeepsTaskIdentity(s, es[0]);
      TaskChangesOnlyByLoad(Step(s, es[0]), es[1..]);
    }
  }
}
