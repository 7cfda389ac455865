/** The demo task store (apps/tenant-insurance/lib/task-store.ts): four
    state cells — label, start time, finish time, running flag — and the
    four actions that set them. `Date.now()` is the `now` parameter. */
module TaskStore {
  import opened Wrappers

  const DefaultLabel: string := "Demo Task"

  /** The four cells at one moment. */
  datatype TaskState = TaskState(taskLabel: Option<string>, startedAt: Option<int>, finishedAt: Option<int>, running: bool)

  const Initial: TaskState := TaskState(None, None, None, false)

  /** `a ?? b` */
  function Coalesce<T>(a: Option<T>, b: Option<T>): (r: Option<T>)
    ensures a.Some? ==> r == a
    ensures a.None? ==> r == b
  {
    if a.Some? then a else b
  }

  /** The states the actions can reach: a running task has a label and a
      start and no finish; a finished task has a start and is not running. */
  predicate Consistent(s: TaskState) {
    && (s.running ==> s.taskLabel.Some? && s.startedAt.Some? && s.finishedAt.None?)
    && (s.finishedAt.Some? ==> !s.running && s.startedAt.Some?)
  }

  /** `startAtom` */
  function Started(s: TaskState, newLabel: Option<string>, now: int): (r: TaskState)
    ensures s.running ==> r == s
    ensures !s.running ==> r.running && r.startedAt == Some(now) && r.finishedAt == None
    ensures !s.running && newLabel.Some? ==> r.taskLabel == newLabel
    ensures !s.running && newLabel.None? && s.taskLabel.Some? ==> r.taskLabel == s.taskLabel
    ensures !s.running && newLabel.None? && s.taskLabel.None? ==> r.taskLabel == Some(DefaultLabel)
  {
    if s.running then s
    else TaskState(Some(Coalesce(newLabel, s.taskLabel).GetOr(DefaultLabel)), Some(now), None, true)
  }

  /** `beginAtom` */
  function Begun(s: TaskState, newLabel: string, now: int): (r: TaskState)
    ensures r.running && r.taskLabel == Some(newLabel) && r.startedAt == Some(now) && r.finishedAt == None
  {
    TaskState(Some(newLabel), Some(now), None, true)
  }

  /** `stopAtom` */
  function Stopped(s: TaskState, newLabel: Option<string>, now: int): (r: TaskState)
    ensures !s.running ==> r == s
    ensures s.running ==> !r.running && r.finishedAt == Some(now) && r.startedAt == s.startedAt
    ensures s.running ==> r.taskLabel == if newLabel.Some? then newLabel else s.taskLabel
  {
    if !s.running then s
    else TaskState(Coalesce(newLabel, s.taskLabel), s.startedAt, Some(now), false)
  }

  /** Every action keeps the state consistent. */
  lemma ActionsKeepConsistent(s: TaskState, newLabel: Option<string>, given: string, now: int)
    requires Consistent(s)
    ensures Consistent(Started(s, newLabel, now))
    ensures Consistent(Begun(s, given, now))
    ensures Consistent(Stopped(s, newLabel, now))
    ensures Consistent(Initial)
  {
  }

  /** Starting an idle task and stopping it records both times and keeps the
      label start chose unless stop names one; starting again while it runs
      changes nothing. */
  lemma StartThenStop(s: TaskState, newLabel: Option<string>, t0: int, t1: int)
    requires !s.running
    ensures var a := Started(s, newLabel, t0);
      && Started(a, None, t1) == a
      && Stopped(a, None, t1) == TaskState(a.taskLabel, Some(t0), Some(t1), false)
      && Stopped(Stopped(a, None, t1), newLabel, t1) == Stopped(a, None, t1)
  {
  }

  /** The store: each action is a guarded sequence of writes to the cells. */
  class Store {
    var taskLabel: Option<string>
    var startedAt: Option<int>
    var finishedAt: Option<int>
    var running: bool

    function State(): TaskState
      reads this
    {
      TaskState(taskLabel, startedAt, finishedAt, running)
    }

    predicate Valid()
      reads this
    {
      Consistent(State())
    }

    constructor ()
      ensures State() == Initial && Valid()
    {
      taskLabel, startedAt, finishedAt, running := None, None, None, false;
    }

    /** `startAtom`: no effect while running. */
    method Start(newLabel: Option<string>, now: int)
      requires Valid()
      modifies this
      ensures Valid()
      ensures State() == Started(old(State()), newLabel, now)
    {
      if running {
        return;
      }
      var nextLabel := Coalesce(newLabel, taskLabel).GetOr(DefaultLabel);
      taskLabel := Some(nextLabel);
      startedAt := Some(now);
      finishedAt := None;
      running := true;
    }

    /** `beginAtom`: restarts even a running task. */
    method Begin(newLabel: string, now: int)
      requires Valid()
      modifies this
      ensures Valid()
      ensures State() == Begun(old(State()), newLabel, now)
    {
      taskLabel := Some(newLabel);
      startedAt := Some(now);
      finishedAt := None;
      running := true;
    }

    /** `stopAtom`: no effect unless running. */
    method Stop(newLabel: Option<string>, now: int)
      requires Valid()
      modifies this
      ensures Valid()
      ensures State() == Stopped(old(State()), newLabel, now)
    {
      if !running {
        return;
      }
      running := false;
      finishedAt := Some(now);
      taskLabel := Coalesce(newLabel, taskLabel);
    }

    /** `clearAtom`: back to the initial cells. */
    method Clear()
      modifies this
      ensures Valid()
      ensures State() == Initial
    {
      taskLabel := None;
      startedAt := None;
      finishedAt := None;
      running := false;
    }
  }
}
