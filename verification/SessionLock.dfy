/**
 * infra/session_lock.py: a first-in first-out lock handed over between tasks that may live on
 * different event loops, any of which may be cancelled or closed at any moment.
 *
 * A task is known by its number: every call of `acquire` starts the next one, so the numbers of
 * queued tasks are also their order of arrival.
 */
module SessionLock {

  type Id = nat
  type Loop = nat

  datatype Future = Pending | Resolved | Cancelled

  /** Where a task stands between two atomic steps. */
  datatype Place =
    | Waiting          // at `await waiter.future`
    | Inside           // `acquire` returned
    | Owing            // at the head of `release`, not yet in its guarded section
    | Handing(to: Id)  // `to` is granted, `_complete` is not scheduled yet
    | Gone

  /** A task with its waiter: `mustCancel` is a cancellation that came after the future was resolved. */
  datatype Task = Task(loop: Loop, future: Future, granted: bool, scheduled: bool, mustCancel: bool, place: Place)

  datatype State = State(held: bool, queue: seq<Id>, tasks: seq<Task>, closed: set<Loop>)

  const INITIAL := State(false, [], [], {})

  datatype Step =
    | Acquire(loop: Loop)
    | Guard(task: Id)     // the guarded section of `release`
    | Schedule(task: Id)  // `call_soon_threadsafe`, after the guard was left
    | Complete(task: Id)  // `_complete` runs on the waiter's loop
    | Resume(task: Id)    // `await` returns
    | Cancel(task: Id)    // someone cancels the waiting task
    | Unwind(task: Id)    // its `except CancelledError` section
    | Close(loop: Loop)

  /** `waiter.future.cancelled() or waiter.loop.is_closed()` */
  predicate Dead(t: Task, closed: set<Loop>) {
    t.future == Cancelled || t.loop in closed
  }

  predicate InRange(queue: seq<Id>, tasks: seq<Task>) {
    forall i :: 0 <= i < |queue| ==> queue[i] < |tasks|
  }

  /** How many dead waiters stand before the first live one. */
  function FirstLive(queue: seq<Id>, tasks: seq<Task>, closed: set<Loop>): (n: nat)
    requires InRange(queue, tasks)
    ensures n <= |queue|
    ensures forall i :: 0 <= i < n ==> Dead(tasks[queue[i]], closed)
    ensures n < |queue| ==> !Dead(tasks[queue[n]], closed)
  {
    if queue == [] || !Dead(tasks[queue[0]], closed) then 0
    else 1 + FirstLive(queue[1..], tasks, closed)
  }

  function Removed(queue: seq<Id>, id: Id): seq<Id> {
    if queue == [] then []
    else if queue[0] == id then queue[1..]
    else [queue[0]] + Removed(queue[1..], id)
  }

  lemma RemovedLater(queue: seq<Id>, i: nat, id: Id)
    requires i < |queue| && queue[i] != id
    ensures queue[..i] + Removed(queue[i..], id) == queue[..i + 1] + Removed(queue[i + 1..], id)
  {
    var rest := queue[i..];
    assert rest[1..] == queue[i + 1..] && queue[..i + 1] == queue[..i] + [queue[i]];
    assert Removed(rest, id) == [queue[i]] + Removed(rest[1..], id);
    hide Removed;
  }

  lemma RemovedHere(queue: seq<Id>, i: nat, id: Id)
    requires i < |queue| && queue[i] == id
    ensures Removed(queue[i..], id) == queue[i + 1..]
  {
    assert queue[i..][1..] == queue[i + 1..];
  }

  function At(s: State, id: Id, place: Place): State
    requires id < |s.tasks|
  {
    s.(tasks := s.tasks[id := s.tasks[id].(place := place)])
  }

  predicate Enabled(s: State, step: Step) {
    match step
    case Acquire(loop) => loop !in s.closed
    case Guard(t) => t < |s.tasks| && (s.tasks[t].place == Inside || s.tasks[t].place == Owing)
    case Schedule(t) => t < |s.tasks| && s.tasks[t].place.Handing? && s.tasks[t].place.to < |s.tasks|
    case Complete(t) => t < |s.tasks| && s.tasks[t].scheduled && s.tasks[t].loop !in s.closed
    case Resume(t) =>
      && t < |s.tasks| && s.tasks[t].place == Waiting && s.tasks[t].loop !in s.closed
      && s.tasks[t].future == Resolved && !s.tasks[t].mustCancel
    case Cancel(t) => t < |s.tasks| && s.tasks[t].place == Waiting && s.tasks[t].future != Cancelled
    case Unwind(t) =>
      && t < |s.tasks| && s.tasks[t].place == Waiting && s.tasks[t].loop !in s.closed
      && (s.tasks[t].future == Cancelled || (s.tasks[t].future == Resolved && s.tasks[t].mustCancel))
    case Close(loop) => loop !in s.closed
  }

  function AfterAcquire(s: State, loop: Loop): State {
    if s.held then
      s.(queue := s.queue + [|s.tasks|], tasks := s.tasks + [Task(loop, Pending, false, false, false, Waiting)])
    else
      s.(held := true, tasks := s.tasks + [Task(loop, Pending, false, false, false, Inside)])
  }

  function AfterGuard(s: State, t: Id): State
    requires t < |s.tasks| && InRange(s.queue, s.tasks)
  {
    if !s.held then At(s, t, Gone)  // RuntimeError
    else
      var n := FirstLive(s.queue, s.tasks, s.closed);
      if n == |s.queue| then At(s, t, Gone).(held := false, queue := [])
      else
        var w := s.queue[n];
        var granted := s.(tasks := s.tasks[w := s.tasks[w].(granted := true)], queue := s.queue[n + 1..]);
        At(granted, t, Handing(w))
  }

  /** Scheduling fails when the loop has closed; the lock is then released again, for a task that will never run. */
  function AfterSchedule(s: State, t: Id): State
    requires Enabled(s, Schedule(t))
  {
    var w := s.tasks[t].place.to;
    if s.tasks[w].loop !in s.closed then
      At(s.(tasks := s.tasks[w := s.tasks[w].(scheduled := true)]), t, Gone)
    else if s.tasks[w].place == Waiting then
      At(At(s, w, Gone), t, Owing)
    else
      At(s, t, Owing)
  }

  function AfterComplete(s: State, t: Id): State
    requires t < |s.tasks|
  {
    var task := s.tasks[t].(scheduled := false);
    s.(tasks := s.tasks[t := if task.future == Pending then task.(future := Resolved) else task])
  }

  function AfterCancel(s: State, t: Id): State
    requires t < |s.tasks|
  {
    var task := s.tasks[t];
    s.(tasks := s.tasks[t := if task.future == Pending then task.(future := Cancelled) else task.(mustCancel := true)])
  }

  function AfterUnwind(s: State, t: Id): State
    requires t < |s.tasks|
  {
    if s.tasks[t].granted then At(s, t, Owing)
    else At(s, t, Gone).(queue := Removed(s.queue, t))
  }

  function Next(s: State, step: Step): State
    requires InRange(s.queue, s.tasks) && Enabled(s, step)
  {
    match step
    case Acquire(loop) => AfterAcquire(s, loop)
    case Guard(t) => AfterGuard(s, t)
    case Schedule(t) => AfterSchedule(s, t)
    case Complete(t) => AfterComplete(s, t)
    case Resume(t) => At(s, t, Inside)
    case Cancel(t) => AfterCancel(s, t)
    case Unwind(t) => AfterUnwind(s, t)
    case Close(loop) => s.(closed := s.closed + {loop})
  }

  /** The lock with the world its waiters live in; each method is one atomic step of the source. */
  class Lock {
    var held: bool
    var waiters: seq<Id>
    var tasks: seq<Task>
    var closed: set<Loop>

    ghost function View(): State
      reads this
    {
      State(held, waiters, tasks, closed)
    }

    constructor ()
      ensures View() == INITIAL
    {
      held, waiters, tasks, closed := false, [], [], {};
    }

    method Acquire(loop: Loop)
      requires loop !in closed
      modifies this
      ensures View() == AfterAcquire(old(View()), loop)
    {
      var task := Task(loop, Pending, false, false, false, Inside);
      if !held {
        held := true;
        tasks := tasks + [task];
        return;
      }
      waiters := waiters + [|tasks|];
      tasks := tasks + [task.(place := Waiting)];
    }

    method Release(task: Id)
      requires task < |tasks| && InRange(waiters, tasks)
      modifies this
      ensures View() == AfterGuard(old(View()), task)
    {
      if !held {
        tasks := tasks[task := tasks[task].(place := Gone)];
        return;
      }
      ghost var skipped := 0;
      while waiters != []
        invariant skipped <= |old(waiters)| && waiters == old(waiters)[skipped..]
        invariant held && tasks == old(tasks) && closed == old(closed)
        invariant skipped <= FirstLive(old(waiters), tasks, closed)
      {
        skipped := skipped + 1;
        var w := waiters[0];
        waiters := waiters[1..];
        if Dead(tasks[w], closed) {
          continue;
        }
        tasks := tasks[w := tasks[w].(granted := true)];
        tasks := tasks[task := tasks[task].(place := Handing(w))];
        return;
      }
      held := false;
      tasks := tasks[task := tasks[task].(place := Gone)];
    }

    method HandOver(task: Id)
      requires Enabled(View(), Schedule(task))
      modifies this
      ensures View() == AfterSchedule(old(View()), task)
    {
      var w := tasks[task].place.to;
      if tasks[w].loop !in closed {
        tasks := tasks[w := tasks[w].(scheduled := true)];
        tasks := tasks[task := tasks[task].(place := Gone)];
      } else {
        if tasks[w].place == Waiting {
          tasks := tasks[w := tasks[w].(place := Gone)];
        }
        tasks := tasks[task := tasks[task].(place := Owing)];
      }
    }

    method Complete(task: Id)
      requires task < |tasks|
      modifies this
      ensures View() == AfterComplete(old(View()), task)
    {
      tasks := tasks[task := tasks[task].(scheduled := false)];
      if tasks[task].future == Pending {
        tasks := tasks[task := tasks[task].(future := Resolved)];
      }
    }

    method Unwind(task: Id)
      requires task < |tasks|
      modifies this
      ensures View() == AfterUnwind(old(View()), task)
    {
      if !tasks[task].granted {
        Remove(task);
        tasks := tasks[task := tasks[task].(place := Gone)];
      } else {
        tasks := tasks[task := tasks[task].(place := Owing)];
      }
    }

    /** `deque.remove`, a missing entry ignored. */
    method Remove(task: Id)
      modifies this`waiters
      ensures waiters == Removed(old(waiters), task)
    {
      var i := 0;
      assert waiters[..0] + Removed(waiters[0..], task) == Removed(waiters, task);
      while i < |waiters| && waiters[i] != task
        invariant i <= |waiters| && waiters == old(waiters)
        invariant Removed(waiters, task) == waiters[..i] + Removed(waiters[i..], task)
      {
        RemovedLater(waiters, i, task);
        i := i + 1;
      }
      if i < |waiters| {
        RemovedHere(waiters, i, task);
        waiters := waiters[..i] + waiters[i + 1..];
      } else {
        assert waiters[..i] == waiters;
      }
    }
  }
}
