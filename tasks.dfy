/** The usual Some/None wrapper; it stands for Kotlin's nullable types and for
    an observable field that has not been given a value yet. */
module Options {
  datatype Option<+T> = None | Some(value: T)
}

/** The domain records the task screen works with. */
module Tasks {
  import opened Options

  /** Task identifiers are Kotlin `Long`s; the screen only passes them on and
      compares nothing about them, so no width is modelled. */
  type TaskId = int

  /** A recorded interval of work; no end time means the interval is still open. */
  datatype TimeGap = TimeGap(startTime: int, endTime: Option<int>)

  /** A step of a stepped task. `running` is the value of the extension
      `SubTask.isRunning()`, whose definition is not part of this model. */
  datatype SubTask = SubTask(id: TaskId, name: string, running: bool)

  /** A task as delivered by the task lookup. `duration` and `timeGaps` are the
      current values of the task's observable sources; each is None while its
      source has not delivered a value yet. */
  datatype Task =
    | Standalone(id: TaskId, name: string, description: string, creationDate: int,
                 duration: Option<int>, timeGaps: Option<seq<TimeGap>>)
    | Stepped(id: TaskId, name: string, description: string, creationDate: int,
              duration: Option<int>, subtasks: seq<SubTask>)

  /** The screen's test for a running standalone task: there is a time gap and
      the most recent one has no end time. */
  predicate IsRunning(gaps: seq<TimeGap>) {
    |gaps| > 0 && gaps[|gaps| - 1].endTime == None
  }

  /** Reference definition, walking the gaps from the front: the task is running
      when the gap that no other gap follows is open. */
  predicate LastGapOpen(gaps: seq<TimeGap>)
    decreases |gaps|
  {
    if |gaps| == 0 then false
    else if |gaps| == 1 then gaps[0].endTime.None?
    else LastGapOpen(gaps[1..])
  }

  lemma {:induction false} IsRunningIsLastGapOpen(gaps: seq<TimeGap>)
    ensures IsRunning(gaps) <==> LastGapOpen(gaps)
    decreases |gaps|
  {
    if |gaps| > 1 {
      IsRunningIsLastGapOpen(gaps[1..]);
      assert gaps[1..][|gaps[1..]| - 1] == gaps[|gaps| - 1];
    }
  }

  /** With no time gaps recorded the task is not running. */
  lemma NoGapsNotRunning()
    ensures !IsRunning([])
  {}

  /** Only the latest gap decides: whatever came before, a task whose latest
      gap is `g` runs exactly when `g` is open. */
  lemma {:induction false} LatestGapDecides(earlier: seq<TimeGap>, g: TimeGap)
    ensures LastGapOpen(earlier + [g]) <==> g.endTime == None
    ensures IsRunning(earlier + [g]) <==> g.endTime == None
    decreases |earlier|
  {
    if |earlier| > 0 {
      assert (earlier + [g])[1..] == earlier[1..] + [g];
      LatestGapDecides(earlier[1..], g);
    }
    IsRunningIsLastGapOpen(earlier + [g]);
  }
}
