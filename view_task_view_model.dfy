/** The task-detail screen controller. Each observable field of the screen is
    a field of the object holding its current value; every handler changes
    those fields in place, and its contract says the new fields are one step
    of the screen state machine from the old ones. */
module ViewTaskUi {
  import opened Options
  import opened Tasks
  import opened ViewTaskScreen

  class DefaultViewTaskViewModel {
    var task: Option<Task>

    var name: Option<string>
    var description: Option<string>
    var date: Option<int>
    var duration: Option<int>
    var isRunEnabled: Option<bool>
    var subtasks: Option<seq<SubTask>>
    var error: Option<ErrorCode>
    var finished: bool
    var isRunning: Option<bool>
    var run: Option<NotificationData>
    var stopped: bool
    var timeGaps: Option<seq<TimeGap>>

    /** The requests sent to the task lookup, the removal use case and the
        time-gap interactor, oldest first. */
    var sent: seq<Request>

    /** The object's fields as a screen value. */
    function Snapshot(): (s: Screen)
      reads this
    {
      Screen(task, name, description, date, duration, isRunEnabled, isRunning,
             timeGaps, subtasks, error, finished, run, stopped, sent)
    }

    ghost predicate Valid()
      reads this
    {
      Displayed(Snapshot())
    }

    constructor ()
      ensures Valid() && Snapshot() == Initial
    {
      task, name, description, date, duration := None, None, None, None, None;
      isRunEnabled, subtasks, error, finished := None, None, None, false;
      isRunning, run, stopped, timeGaps, sent := None, None, false, None, [];
    }

    // -------------------------------------------------------------------------
    // User actions.

    method OnTaskId(id: Option<TaskId>)
      requires Valid()
      modifies this
      ensures Valid()
      ensures Snapshot() == Step(old(Snapshot()), TaskIdReceived(id))
    {
      match id {
        case None => ShowError();
        case Some(i) => LoadTask(i);
      }
    }

    method OnBackClicked()
      requires Valid()
      modifies this
      ensures Valid()
      ensures Snapshot() == Step(old(Snapshot()), BackClicked)
    {
      Finish();
    }

    method OnRemoveClicked()
      requires Valid()
      modifies this
      ensures Valid()
      ensures Snapshot() == Step(old(Snapshot()), RemoveClicked)
    {
      if task == None {
        error := Some(TaskRemoving);
      } else {
        sent := sent + [Remove(task.value.id, OfTask)];
      }
    }

    method OnRunChecked(isChecked: bool)
      requires Valid()
      modifies this
      ensures Valid()
      ensures Snapshot() == Step(old(Snapshot()), RunChecked(isChecked))
    {
      if isChecked && isRunning == Some(false) {
        RunCurrentTask();
      } else if !isChecked && isRunning == Some(true) {
        StopRunningCurrentTask();
      }
    }

    method OnSubTaskChecked(sub: SubTask, isChecked: bool)
      requires Valid()
      modifies this
      ensures Valid()
      ensures Snapshot() == Step(old(Snapshot()), SubTaskChecked(sub, isChecked))
    {
      if isChecked && !sub.running {
        RunSubTask(sub);
      } else if !isChecked && sub.running {
        StopRunningSubTask(sub);
      }
    }

    method OnDeleteSubTaskClicked(sub: SubTask)
      requires Valid()
      modifies this
      ensures Valid()
      ensures Snapshot() == Step(old(Snapshot()), DeleteSubTaskClicked(sub))
    {
      sent := sent + [Remove(sub.id, OfSubTask)];
    }

    // -------------------------------------------------------------------------
    // Helpers shared by the handlers.

    method ShowError()
      modifies this`error
      ensures error == Some(TaskNotFound)
    {
      error := Some(TaskNotFound);
    }

    method LoadTask(id: TaskId)
      modifies this`sent
      ensures sent == old(sent) + [Load(id)]
    {
      sent := sent + [Load(id)];
    }

    method Finish()
      modifies this`finished
      ensures finished
    {
      finished := true;
    }

    /** Starts the loaded task, if there is one. */
    method RunCurrentTask()
      modifies this`sent
      ensures sent == if old(task).Some? then old(sent) + [Start(task.value.id, task.value.name)]
                      else old(sent)
    {
      if task.Some? {
        sent := sent + [Start(task.value.id, task.value.name)];
      }
    }

    /** Stops the loaded task, if there is one. */
    method StopRunningCurrentTask()
      modifies this`sent
      ensures sent == if old(task).Some? then old(sent) + [Stop(task.value.id)] else old(sent)
    {
      if task.Some? {
        sent := sent + [Stop(task.value.id)];
      }
    }

    method RunSubTask(sub: SubTask)
      modifies this`sent
      ensures sent == old(sent) + [Start(sub.id, sub.name)]
    {
      sent := sent + [Start(sub.id, sub.name)];
    }

    method StopRunningSubTask(sub: SubTask)
      modifies this`sent
      ensures sent == old(sent) + [Stop(sub.id)]
    {
      sent := sent + [Stop(sub.id)];
    }

    /** Shows what every task has; a duration source without a value yet
        leaves the duration as it was. */
    method ShowCommon(t: Task)
      modifies this`task, this`name, this`description, this`date, this`duration
      ensures Snapshot() == old(Snapshot()).(task := Some(t), name := Some(t.name),
                                             description := Some(t.description),
                                             date := Some(t.creationDate),
                                             duration := if t.duration.Some? then t.duration
                                                         else old(duration))
    {
      task := Some(t);
      name := Some(t.name);
      description := Some(t.description);
      date := Some(t.creationDate);
      if t.duration.Some? {
        duration := t.duration;
      }
    }

    method ShowStandaloneTask(t: Task)
      requires t.Standalone?
      modifies this`isRunEnabled, this`timeGaps, this`isRunning
      ensures Snapshot() == if t.timeGaps.Some? then
                              old(Snapshot()).(isRunEnabled := Some(true), timeGaps := t.timeGaps,
                                               isRunning := Some(IsRunning(t.timeGaps.value)))
                            else old(Snapshot()).(isRunEnabled := Some(true))
    {
      isRunEnabled := Some(true);
      match t.timeGaps {
        case None =>
        case Some(gaps) =>
          timeGaps := Some(gaps);
          isRunning := Some(gaps != [] && gaps[|gaps| - 1].endTime == None);
      }
    }

    method ShowSteppedTask(t: Task)
      requires t.Stepped?
      modifies this`isRunEnabled, this`subtasks
      ensures Snapshot() == old(Snapshot()).(isRunEnabled := Some(false), subtasks := Some(t.subtasks))
    {
      isRunEnabled := Some(false);
      subtasks := Some(t.subtasks);
    }

    // -------------------------------------------------------------------------
    // Replies of the collaborators.

    method OnTaskLoadSuccess(t: Task)
      requires Valid()
      modifies this
      ensures Valid()
      ensures Snapshot() == Step(old(Snapshot()), TaskLoaded(t))
    {
      ghost var before := Snapshot();
      ShowCommon(t);
      if t.Standalone? {
        ShowStandaloneTask(t);
      } else {
        ShowSteppedTask(t);
      }
      assert Snapshot() == ShowTask(before, t);
      ShowTaskDisplayed(before, t);
    }

    method OnTaskLoadError()
      requires Valid()
      modifies this
      ensures Valid()
      ensures Snapshot() == Step(old(Snapshot()), TaskLoadFailed)
    {
      error := Some(TaskNotFound);
    }

    method OnTaskRemoveSuccess()
      requires Valid()
      modifies this
      ensures Valid()
      ensures Snapshot() == Step(old(Snapshot()), TaskRemoved)
    {
      Finish();
    }

    method OnTaskRemoveError()
      requires Valid()
      modifies this
      ensures Valid()
      ensures Snapshot() == Step(old(Snapshot()), TaskRemoveFailed)
    {
      error := Some(TaskRemoving);
    }

    /** The start reply; `id` and `name` are the values captured when the start
        was requested. */
    method OnStartSuccess(id: TaskId, startedName: string)
      requires Valid()
      modifies this
      ensures Valid()
      ensures Snapshot() == Step(old(Snapshot()), StartSucceeded(id, startedName))
    {
      run := Some(NotificationData(id, startedName));
    }

    method OnStartError()
      requires Valid()
      modifies this
      ensures Valid()
      ensures Snapshot() == Step(old(Snapshot()), StartFailed)
    {
      error := Some(TaskRunning);
    }

    method OnStopSuccess()
      requires Valid()
      modifies this
      ensures Valid()
      ensures Snapshot() == Step(old(Snapshot()), StopSucceeded)
    {
      stopped := true;
    }

    method OnStopError()
      requires Valid()
      modifies this
      ensures Valid()
      ensures Snapshot() == Step(old(Snapshot()), StopFailed)
    {
      error := Some(TaskStopping);
    }

    method OnSubTaskRemoveSuccess()
      requires Valid()
      modifies this
      ensures Valid()
      ensures Snapshot() == Step(old(Snapshot()), SubTaskRemoved)
    {
      if task.Some? {
        LoadTask(task.value.id);
      }
    }

    method OnSubTaskRemoveError()
      requires Valid()
      modifies this
      ensures Valid()
      ensures Snapshot() == Step(old(Snapshot()), SubTaskRemoveFailed)
    {
      error := Some(TaskRemoving);
    }

    // -------------------------------------------------------------------------
    // New values of the loaded task's observable sources.

    /** The time-gap source of the loaded standalone task has a new value. */
    method OnTimeGaps(gaps: seq<TimeGap>)
      requires Valid()
      modifies this
      ensures Valid()
      ensures Snapshot() == Step(old(Snapshot()), TimeGapsChanged(gaps))
    {
      if task.Some? && task.value.Standalone? {
        task := Some(task.value.(timeGaps := Some(gaps)));
        timeGaps := Some(gaps);
        isRunning := Some(gaps != [] && gaps[|gaps| - 1].endTime == None);
      }
    }

    /** The duration source of the loaded task has a new value. */
    method OnDuration(d: int)
      requires Valid()
      modifies this
      ensures Valid()
      ensures Snapshot() == Step(old(Snapshot()), DurationChanged(d))
    {
      if task.Some? {
        task := Some(task.value.(duration := Some(d)));
        duration := Some(d);
      }
    }
  }
}
