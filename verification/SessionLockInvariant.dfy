/**
 * The invariant of infra/session_lock.py, kept by every atomic step.
 *
 * It has four parts, each with its own lemma for every step that could break it:
 *
 *   - `OneOwner`: the lock is held exactly while one task owns it;
 *   - `QueueInOrder`: waiters queue in order of arrival, and not at all while the lock is free;
 *   - `NoneForgotten`: whoever still waits is in the queue or has been granted the lock;
 *   - `HandoversFit`, `Underway`: a granted waiter's hand-over is on its way, to it alone.
 *
 * `Allowed` leaves out one step only, the closing of a loop at a moment `SafeClose` does not name.
 */
module SessionLockInvariant {
  import opened SessionLock

  /** The task may, or is about to, pass the lock on: it is inside, or releasing, or granted and not yet resumed. */
  predicate Owns(s: State, t: Id) {
    && t < |s.tasks|
    && (s.tasks[t].place == Inside || s.tasks[t].place == Owing || (s.tasks[t].place == Waiting && s.tasks[t].granted))
  }

  /** The lock is held exactly while somebody owns it, and by one task at a time. */
  ghost predicate OneOwner(s: State) {
    && (forall a, b :: Owns(s, a) && Owns(s, b) ==> a == b)
    && (s.held <==> exists a :: Owns(s, a))
  }

  predicate Queued(s: State, t: Id) {
    && t < |s.tasks|
    && var task := s.tasks[t];
       task.place == Waiting && !task.granted && !task.scheduled && task.future != Resolved
  }

  predicate Increasing(queue: seq<Id>) {
    forall i, j :: 0 <= i < j < |queue| ==> queue[i] < queue[j]
  }

  /** The queue holds waiters in order of arrival and is empty while nobody holds the lock. */
  ghost predicate QueueInOrder(s: State) {
    && (forall i :: 0 <= i < |s.queue| ==> Queued(s, s.queue[i]))
    && Increasing(s.queue)
    && (!s.held ==> s.queue == [])
  }

  /** Nobody who still waits for the lock is forgotten. */
  ghost predicate NoneForgotten(s: State) {
    forall t: Id | t < |s.tasks| && s.tasks[t].place == Waiting && !s.tasks[t].granted ::
      t in s.queue || Dead(s.tasks[t], s.closed)
  }

  predicate FutureFits(task: Task) {
    && (task.scheduled || task.future == Resolved ==> task.granted)
    && (task.mustCancel ==> task.future == Resolved)
  }

  /** A hand-over on its way: its target is granted, unscheduled, and nobody else's target. */
  ghost predicate HandoversFit(s: State) {
    && (forall t: Id :: t < |s.tasks| ==> FutureFits(s.tasks[t]))
    && (forall t: Id :: t < |s.tasks| && s.tasks[t].place.Handing? ==> Target(s, t, s.tasks[t].place.to))
    && (forall a: Id, b: Id | a < |s.tasks| && b < |s.tasks| && s.tasks[a].place.Handing? ::
          s.tasks[a].place == s.tasks[b].place ==> a == b)
  }

  predicate Target(s: State, t: Id, w: Id) {
    && w < |s.tasks| && w != t && s.tasks[w].granted && !s.tasks[w].scheduled && s.tasks[w].future != Resolved
    && s.tasks[w].place != Inside
    && (s.tasks[w].place == Waiting || s.tasks[w].loop !in s.closed)
  }

  /** A granted waiter whose future is untouched has its hand-over on the way. */
  ghost predicate Underway(s: State) {
    forall w: Id | w < |s.tasks| && s.tasks[w].place == Waiting && s.tasks[w].granted && s.tasks[w].future == Pending ::
      s.tasks[w].scheduled || exists t: Id :: HandsTo(s, t, w)
  }

  predicate HandsTo(s: State, t: Id, w: Id) {
    t < |s.tasks| && s.tasks[t].place == Handing(w)
  }

  ghost predicate Core(s: State) {
    OneOwner(s) && QueueInOrder(s) && NoneForgotten(s) && HandoversFit(s)
  }

  ghost predicate Inv(s: State) {
    Core(s) && Underway(s)
  }

  /**
   * Closing `loop` now is harmless: no task is still about to schedule a hand-over to a waiter of
   * that loop which has been cancelled and has already passed the lock on.
   */
  ghost predicate SafeClose(s: State, loop: Loop) {
    forall t: Id | t < |s.tasks| && s.tasks[t].place.Handing? && s.tasks[t].place.to < |s.tasks| ::
      s.tasks[s.tasks[t].place.to].loop == loop ==> s.tasks[s.tasks[t].place.to].place == Waiting
  }

  ghost predicate Allowed(s: State, step: Step) {
    Enabled(s, step) && (step.Close? ==> SafeClose(s, step.loop))
  }

  lemma AcquireKeepsOwner(s: State, loop: Loop)
    requires Core(s)
    ensures OneOwner(AfterAcquire(s, loop))
  {
    hide QueueInOrder, NoneForgotten, HandoversFit;
    var after := AfterAcquire(s, loop);
    assert forall t: Id :: t < |s.tasks| ==> (Owns(s, t) <==> Owns(after, t));
    if !s.held {
      assert Owns(after, |s.tasks|);
    }
  }

  lemma AcquireKeepsQueue(s: State, loop: Loop)
    requires Core(s)
    ensures QueueInOrder(AfterAcquire(s, loop)) && NoneForgotten(AfterAcquire(s, loop))
  {
    hide OneOwner, HandoversFit;
    var after := AfterAcquire(s, loop);
    assert forall t: Id :: t < |s.tasks| ==> after.tasks[t] == s.tasks[t];
    if s.held {
      assert after.queue[|s.queue|] == |s.tasks|;
      assert forall t :: t in s.queue ==> t in after.queue;
    }
  }

  lemma AcquireKeepsInv(s: State, loop: Loop)
    requires Core(s)
    ensures Core(AfterAcquire(s, loop))
  {
    AcquireKeepsOwner(s, loop);
    AcquireKeepsQueue(s, loop);
    assert HandoversFit(AfterAcquire(s, loop)) by {
      hide OneOwner, QueueInOrder, NoneForgotten;
      var after := AfterAcquire(s, loop);
      assert forall t: Id :: t < |s.tasks| ==> after.tasks[t] == s.tasks[t];
    }
  }

  lemma CompleteKeepsInv(s: State, t: Id)
    requires Core(s) && Enabled(s, Complete(t))
    ensures Core(AfterComplete(s, t))
  {
    var after := AfterComplete(s, t);
    assert forall a: Id :: Owns(s, a) <==> Owns(after, a);
  }

  lemma CancelKeepsInv(s: State, t: Id)
    requires Core(s) && Enabled(s, Cancel(t))
    ensures Core(AfterCancel(s, t))
  {
    var after := AfterCancel(s, t);
    assert forall a: Id :: Owns(s, a) <==> Owns(after, a);
  }

  lemma ResumeKeepsInv(s: State, t: Id)
    requires Core(s) && Enabled(s, Resume(t))
    ensures Core(At(s, t, Inside))
  {
    var after := At(s, t, Inside);
    assert forall a: Id :: Owns(s, a) <==> Owns(after, a);
  }

  lemma CloseKeepsInv(s: State, loop: Loop)
    requires Core(s) && SafeClose(s, loop)
    ensures Core(s.(closed := s.closed + {loop}))
  {
    var after := s.(closed := s.closed + {loop});
    assert forall a: Id :: Owns(s, a) <==> Owns(after, a);
  }

  lemma {:induction false} RemovedMembers(queue: seq<Id>, t: Id, x: Id)
    requires Increasing(queue)
    ensures x in Removed(queue, t) <==> x in queue && x != t
  {
    if queue != [] {
      assert x in queue <==> x == queue[0] || x in queue[1..];
      assert queue[0] !in queue[1..];
      RemovedMembers(queue[1..], t, x);
    }
  }

  lemma {:induction false} RemovedIncreasing(queue: seq<Id>, t: Id)
    requires Increasing(queue)
    ensures Increasing(Removed(queue, t))
  {
    if queue != [] {
      var rest := Removed(queue[1..], t);
      RemovedIncreasing(queue[1..], t);
      forall i | 0 <= i < |rest|
        ensures queue[0] < rest[i]
      {
        RemovedMembers(queue[1..], t, rest[i]);
      }
    }
  }

  lemma UnwindKeepsQueue(s: State, t: Id)
    requires Core(s) && Enabled(s, Unwind(t))
    ensures QueueInOrder(AfterUnwind(s, t)) && NoneForgotten(AfterUnwind(s, t))
  {
    hide HandoversFit, OneOwner, Removed;
    if !s.tasks[t].granted {
      var after := AfterUnwind(s, t);
      RemovedIncreasing(s.queue, t);
      forall i | 0 <= i < |after.queue|
        ensures Queued(after, after.queue[i])
      {
        RemovedMembers(s.queue, t, after.queue[i]);
      }
      if !s.held {
        assert Removed([], t) == [] by { RemovedEmpty(t); }
      }
      forall x: Id | x in s.queue && x != t
        ensures x in after.queue
      {
        RemovedMembers(s.queue, t, x);
      }
    }
  }

  lemma RemovedEmpty(t: Id)
    ensures Removed([], t) == []
  {}

  lemma UnwindKeepsInv(s: State, t: Id)
    requires Core(s) && Enabled(s, Unwind(t))
    ensures Core(AfterUnwind(s, t))
  {
    UnwindKeepsQueue(s, t);
    hide QueueInOrder, NoneForgotten;
    assert forall a: Id :: Owns(s, a) <==> Owns(AfterUnwind(s, t), a);
  }

  lemma ScheduleKeepsOwner(s: State, t: Id)
    requires Core(s) && Enabled(s, Schedule(t))
    ensures OneOwner(AfterSchedule(s, t))
  {
    hide QueueInOrder, NoneForgotten;
    var after := AfterSchedule(s, t);
    var w := s.tasks[t].place.to;
    assert Target(s, t, w);
    if s.tasks[w].loop !in s.closed {
      assert forall a: Id :: Owns(s, a) <==> Owns(after, a);
    } else {
      assert forall a: Id :: a != w && a != t ==> (Owns(s, a) <==> Owns(after, a));
      assert Owns(s, w) && Owns(after, t);
    }
  }

  lemma ScheduleKeepsHandovers(s: State, t: Id)
    requires Core(s) && Enabled(s, Schedule(t))
    ensures HandoversFit(AfterSchedule(s, t))
  {
    hide QueueInOrder, NoneForgotten, OneOwner;
    assert Target(s, t, s.tasks[t].place.to);
  }

  lemma ScheduleKeepsInv(s: State, t: Id)
    requires Core(s) && Enabled(s, Schedule(t))
    ensures Core(AfterSchedule(s, t))
  {
    ScheduleKeepsOwner(s, t);
    ScheduleKeepsHandovers(s, t);
    assert Target(s, t, s.tasks[t].place.to);
    hide OneOwner, HandoversFit;
  }

  lemma GuardKeepsOwner(s: State, t: Id)
    requires Core(s) && Enabled(s, Guard(t))
    ensures OneOwner(AfterGuard(s, t))
  {
    hide NoneForgotten, HandoversFit;
    var after := AfterGuard(s, t);
    assert Owns(s, t) && s.held;
    var n := FirstLive(s.queue, s.tasks, s.closed);
    if n < |s.queue| {
      var w := s.queue[n];
      assert Queued(s, w);
      assert forall a: Id :: a != w && a != t ==> (Owns(s, a) <==> Owns(after, a));
      assert Owns(after, w);
    } else {
      assert forall a: Id :: a != t ==> (Owns(s, a) <==> Owns(after, a));
    }
  }

  lemma GuardKeepsQueue(s: State, t: Id)
    requires Core(s) && Enabled(s, Guard(t))
    ensures QueueInOrder(AfterGuard(s, t))
  {
    assert Owns(s, t) && s.held;
    hide HandoversFit, OneOwner, NoneForgotten;
    var n := FirstLive(s.queue, s.tasks, s.closed);
    if n < |s.queue| {
      var after, w := AfterGuard(s, t), s.queue[n];
      assert Queued(s, w);
      forall i | 0 <= i < |after.queue|
        ensures Queued(after, after.queue[i])
      {
        assert after.queue[i] == s.queue[n + 1 + i] && Queued(s, s.queue[n + 1 + i]);
      }
    }
  }

  lemma GuardForgetsNone(s: State, t: Id)
    requires Core(s) && Enabled(s, Guard(t))
    ensures NoneForgotten(AfterGuard(s, t))
  {
    assert Owns(s, t) && s.held;
    hide HandoversFit, OneOwner, QueueInOrder;
    var after := AfterGuard(s, t);
    var n := FirstLive(s.queue, s.tasks, s.closed);
    forall x: Id | x < |after.tasks| && after.tasks[x].place == Waiting && !after.tasks[x].granted
      ensures x in after.queue || Dead(after.tasks[x], after.closed)
    {
      if x in s.queue {
        var i :| 0 <= i < |s.queue| && s.queue[i] == x;
        assert i > n ==> after.queue[i - n - 1] == x;
      }
    }
  }

  lemma GuardKeepsHandovers(s: State, t: Id)
    requires Core(s) && Enabled(s, Guard(t))
    ensures HandoversFit(AfterGuard(s, t))
  {
    assert Owns(s, t) && s.held;
    var n := FirstLive(s.queue, s.tasks, s.closed);
    assert n < |s.queue| ==> Queued(s, s.queue[n]);
    hide NoneForgotten, OneOwner, QueueInOrder, Dead;
  }

  lemma GuardKeepsUnderway(s: State, t: Id)
    requires Inv(s) && Enabled(s, Guard(t))
    ensures Underway(AfterGuard(s, t))
  {
    assert Owns(s, t) && s.held;
    hide OneOwner, NoneForgotten, HandoversFit;
    var after := AfterGuard(s, t);
    var n := FirstLive(s.queue, s.tasks, s.closed);
    assert n < |s.queue| ==> Queued(s, s.queue[n]);
    forall w: Id | w < |after.tasks| && after.tasks[w].place == Waiting && after.tasks[w].granted
                   && after.tasks[w].future == Pending && !after.tasks[w].scheduled
      ensures exists a: Id :: HandsTo(after, a, w)
    {
      if s.tasks[w].granted {
        var a: Id :| HandsTo(s, a, w);
        assert HandsTo(after, a, w);
      } else {
        assert HandsTo(after, t, w);
      }
    }
  }

  lemma StepKeepsUnderway(s: State, step: Step)
    requires Inv(s) && Enabled(s, step) && !step.Guard?
    ensures Underway(Next(s, step))
  {
    hide OneOwner, NoneForgotten, HandoversFit;
    var after := Next(s, step);
    forall w: Id | w < |after.tasks| && after.tasks[w].place == Waiting && after.tasks[w].granted
                   && after.tasks[w].future == Pending && !after.tasks[w].scheduled
      ensures exists t: Id :: HandsTo(after, t, w)
    {
      assert s.tasks[w].place == Waiting && s.tasks[w].future == Pending;
      var t: Id :| HandsTo(s, t, w);
      assert HandsTo(after, t, w);
    }
  }

  /** No step breaks the lock, a harmless closing of a loop included. */
  lemma StepKeepsInv(s: State, step: Step)
    requires Inv(s) && Allowed(s, step)
    ensures Inv(Next(s, step))
  {
    if step.Guard? {
      GuardKeepsUnderway(s, step.task);
    } else {
      StepKeepsUnderway(s, step);
    }
    hide OneOwner, NoneForgotten, HandoversFit, SafeClose, Underway;
    match step
    case Acquire(loop) => AcquireKeepsInv(s, loop);
    case Guard(t) =>
      GuardKeepsOwner(s, t);
      GuardKeepsQueue(s, t);
      GuardForgetsNone(s, t);
      GuardKeepsHandovers(s, t);
    case Schedule(t) => ScheduleKeepsInv(s, t);
    case Complete(t) => CompleteKeepsInv(s, t);
    case Resume(t) => ResumeKeepsInv(s, t);
    case Cancel(t) => CancelKeepsInv(s, t);
    case Unwind(t) => UnwindKeepsInv(s, t);
    case Close(loop) => CloseKeepsInv(s, loop);
  }
}
