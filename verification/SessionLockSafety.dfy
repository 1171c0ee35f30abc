/** What infra/session_lock.py guarantees in every interleaving of its atomic steps. */
module SessionLockSafety {
  import opened SessionLock
  import opened SessionLockInvariant

  // ---------------------------------------------------------------------
  // Whole runs
  // ---------------------------------------------------------------------

  ghost predicate Leads(s: State, step: Step, next: State) {
    InRange(s.queue, s.tasks) && Allowed(s, step) && next == Next(s, step)
  }

  ghost predicate IsRun(states: seq<State>, steps: seq<Step>) {
    && |states| == |steps| + 1 && states[0] == INITIAL
    && forall i :: 0 <= i < |steps| ==> Leads(states[i], steps[i], states[i + 1])
  }

  lemma {:induction false} RunKeepsInv(states: seq<State>, steps: seq<Step>, i: nat)
    requires IsRun(states, steps) && i < |states|
    ensures Inv(states[i]) && OneOwner(states[i])
  {
    if i > 0 {
      RunKeepsInv(states, steps, i - 1);
      assert Leads(states[i - 1], steps[i - 1], states[i]);
      StepKeepsInv(states[i - 1], steps[i - 1]);
    }
  }

  predicate LiveWaiter(s: State, t: Id) {
    t < |s.tasks| && s.tasks[t].place == Waiting && !s.tasks[t].granted && !Dead(s.tasks[t], s.closed)
  }

  /**
   * Two tasks are never inside together, and a lock that is free has nobody alive waiting for it
   * (no lost wake-up).
   */
  lemma MutualExclusion(states: seq<State>, steps: seq<Step>, i: nat, a: Id, b: Id)
    requires IsRun(states, steps) && i < |states|
    ensures Owns(states[i], a) && Owns(states[i], b) ==> a == b && states[i].held
    ensures !states[i].held ==> !LiveWaiter(states[i], a)
  {
    RunKeepsInv(states, steps, i);
  }

  /**
   * Nobody overtakes: whoever enters or is granted the lock at a step came no later than every
   * live waiter, and each grant shortens the queue, so a chain of failed hand-overs ends.
   */
  lemma FirstComeFirstServed(states: seq<State>, steps: seq<Step>, i: nat, earlier: Id, t: Id)
    requires IsRun(states, steps) && i < |steps| && t < |states[i + 1].tasks| && LiveWaiter(states[i], earlier)
    requires Owns(states[i + 1], t)
             && (t < |states[i].tasks| ==> states[i].tasks[t].place == Waiting && !states[i].tasks[t].granted)
    ensures t <= earlier && |states[i + 1].queue| < |states[i].queue|
  {
    RunKeepsInv(states, steps, i);
    assert Leads(states[i], steps[i], states[i + 1]);
    hide IsRun, Inv, OneOwner;
    NobodyOvertakes(states[i], steps[i], earlier, t);
  }

  lemma NobodyOvertakes(s: State, step: Step, earlier: Id, t: Id)
    requires Inv(s) && Enabled(s, step) && LiveWaiter(s, earlier)
    requires Owns(Next(s, step), t) && (t < |s.tasks| ==> s.tasks[t].place == Waiting && !s.tasks[t].granted)
    ensures t <= earlier && |Next(s, step).queue| < |s.queue|
  {
    hide HandoversFit, Underway, OneOwner;
    assert earlier in s.queue && s.held;
    if step.Guard? {
      hide FirstLive;
      assert t == s.queue[FirstLive(s.queue, s.tasks, s.closed)];
      var k :| 0 <= k < |s.queue| && s.queue[k] == earlier;
    } else {
      OnlyGuardGrants(s, step, t);
    }
  }

  lemma OnlyGuardGrants(s: State, step: Step, t: Id)
    requires Inv(s) && Enabled(s, step) && s.held && !step.Guard?
    requires t < |s.tasks| ==> s.tasks[t].place == Waiting && !s.tasks[t].granted
    ensures !Owns(Next(s, step), t)
  {
    hide Underway, OneOwner, NoneForgotten, QueueInOrder;
  }

  // ---------------------------------------------------------------------
  // Cancelled tasks stay out, the others get in
  // ---------------------------------------------------------------------

  /** The task has been cancelled, before or after its future was resolved. */
  predicate CalledOff(task: Task) {
    task.future == Cancelled || task.mustCancel
  }

  lemma StepKeepsOutside(s: State, step: Step, t: Id)
    requires InRange(s.queue, s.tasks) && Enabled(s, step) && t < |s.tasks|
    requires CalledOff(s.tasks[t]) ==> s.tasks[t].place != Inside
    ensures t < |Next(s, step).tasks|
    ensures var before, after := s.tasks[t], Next(s, step).tasks[t];
            && (CalledOff(after) ==> after.place != Inside)
            && (before.future == Cancelled ==> after.future == Cancelled)
            && (before.mustCancel ==> after.mustCancel)
  {
    hide FirstLive, Removed;
  }

  lemma {:induction false} RunKeepsOutside(states: seq<State>, steps: seq<Step>, n: nat, t: Id)
    requires IsRun(states, steps) && n < |states| && t < |states[n].tasks|
    ensures CalledOff(states[n].tasks[t]) ==> states[n].tasks[t].place != Inside
  {
    if n > 0 {
      assert Leads(states[n - 1], steps[n - 1], states[n]);
      hide IsRun, FirstLive, Removed, SafeClose;
      if t < |states[n - 1].tasks| {
        RunKeepsOutside(states, steps, n - 1, t);
        hide CalledOff, Next, Enabled;
        StepKeepsOutside(states[n - 1], steps[n - 1], t);
      }
    }
  }

  /** Whoever is cancelled while waiting stays cancelled, and never enters. */
  lemma {:induction false} CancelledNeverEnters(states: seq<State>, steps: seq<Step>, n: nat, m: nat, t: Id)
    requires IsRun(states, steps) && n <= m < |states| && t < |states[n].tasks| && CalledOff(states[n].tasks[t])
    ensures t < |states[m].tasks|
    ensures var before, after := states[n].tasks[t], states[m].tasks[t];
            && (before.future == Cancelled ==> after.future == Cancelled)
            && (before.mustCancel ==> after.mustCancel)
            && after.place != Inside
  {
    if n < m {
      assert Leads(states[m - 1], steps[m - 1], states[m]);
      hide IsRun, SafeClose, Next, Enabled;
      CancelledNeverEnters(states, steps, n, m - 1, t);
      StepKeepsOutside(states[m - 1], steps[m - 1], t);
    } else {
      RunKeepsOutside(states, steps, m, t);
    }
  }

  /** On an open loop a cancelled task unwinds, and only a resolved one that was not resumes. */
  lemma CancelledUnwinds(states: seq<State>, steps: seq<Step>, n: nat, t: Id)
    requires IsRun(states, steps) && n < |states| && t < |states[n].tasks|
    requires states[n].tasks[t].place == Waiting && states[n].tasks[t].loop !in states[n].closed
    ensures var s := states[n];
            && (Enabled(s, Unwind(t)) <==> CalledOff(s.tasks[t]))
            && (Enabled(s, Resume(t)) <==> s.tasks[t].future == Resolved && !CalledOff(s.tasks[t]))
  {
    RunKeepsInv(states, steps, n);
    assert FutureFits(states[n].tasks[t]);
  }

  /**
   * A release reaches the live waiter who came first: four steps later, if nothing happens in
   * between, it is inside and nobody else.
   */
  lemma HandsOn(s: State, t: Id, w: Id)
    requires Inv(s) && Enabled(s, Guard(t)) && LiveWaiter(s, w)
    requires forall other: Id :: LiveWaiter(s, other) ==> w <= other
    ensures Enabled(s, Guard(t))
    ensures var s1 := AfterGuard(s, t);
            && Enabled(s1, Schedule(t)) && var s2 := AfterSchedule(s1, t);
            && Enabled(s2, Complete(w)) && var s3 := AfterComplete(s2, w);
            && Enabled(s3, Resume(w)) && var s4 := Next(s3, Resume(w));
            && s4.held && s4.tasks[w].place == Inside && s4.tasks[t].place == Gone
            && forall other: Id | other < |s.tasks| && other != t && other != w :: s4.tasks[other] == s.tasks[other]
  {
    FirstIsGranted(s, t, w);
    hide Inv, FirstLive, LiveWaiter;
  }

  lemma FirstIsGranted(s: State, t: Id, w: Id)
    requires Inv(s) && Enabled(s, Guard(t)) && LiveWaiter(s, w)
    requires forall other: Id :: LiveWaiter(s, other) ==> w <= other
    ensures var s1 := AfterGuard(s, t);
            && s1.tasks == s.tasks[w := s.tasks[w].(granted := true)][t := s.tasks[t].(place := Handing(w))]
            && s1.held && s1.closed == s.closed && t != w && InRange(s1.queue, s1.tasks)
    ensures s.tasks[w].future == Pending && !s.tasks[w].mustCancel && s.tasks[w].loop !in s.closed
  {
    hide Underway, HandoversFit;
    assert Owns(s, t) && s.held && w in s.queue;
    hide OneOwner, FirstLive;
    var n := FirstLive(s.queue, s.tasks, s.closed);
    var k :| 0 <= k < |s.queue| && s.queue[k] == w;
    assert n <= k;
    assert Queued(s, s.queue[n]) && LiveWaiter(s, s.queue[n]);
    assert s.queue[n] == w;
    FitsAt(s, w);
  }

  lemma FitsAt(s: State, w: Id)
    requires Inv(s) && LiveWaiter(s, w)
    ensures s.tasks[w].future == Pending && !s.tasks[w].mustCancel
  {
    assert FutureFits(s.tasks[w]);
  }

  // ---------------------------------------------------------------------
  // Exactly when a hand-over to a closed loop is safe
  // ---------------------------------------------------------------------

  lemma RetryIsSafeIff(s: State, t: Id)
    requires OneOwner(s) && Enabled(s, Schedule(t))
    requires var w := s.tasks[t].place.to; w != t && s.tasks[w].granted && s.tasks[w].loop in s.closed
    ensures OneOwner(AfterSchedule(s, t)) <==> s.tasks[s.tasks[t].place.to].place == Waiting
  {
    var after := AfterSchedule(s, t);
    var w := s.tasks[t].place.to;
    assert forall a: Id :: a != w && a != t ==> (Owns(s, a) <==> Owns(after, a));
    assert Owns(after, t) && !Owns(s, t);
    if s.tasks[w].place == Waiting {
      assert Owns(s, w);
    } else if s.held {
      var o: Id :| Owns(s, o);
      assert Owns(after, o) && o != t;
    }
  }

  /**
   * Closing a loop is safe if and only if no hand-over to one of its waiters is still to be
   * scheduled after that waiter, cancelled, has given the lock back: in that case and only then
   * the releaser finds the loop closed and gives the lock away a second time.
   */
  lemma CloseIsSafeIff(s: State, loop: Loop)
    requires Inv(s) && loop !in s.closed
    ensures var closed := s.(closed := s.closed + {loop});
            SafeClose(s, loop) <==>
            forall t: Id, w: Id | HandsTo(s, t, w) && w < |s.tasks| && s.tasks[w].loop == loop ::
              OneOwner(AfterSchedule(closed, t))
  {
    var closed := s.(closed := s.closed + {loop});
    assert forall a: Id :: Owns(s, a) <==> Owns(closed, a);
    assert OneOwner(closed);
    forall t: Id, w: Id | HandsTo(s, t, w) && w < |s.tasks| && s.tasks[w].loop == loop
      ensures OneOwner(AfterSchedule(closed, t)) <==> s.tasks[w].place == Waiting
    {
      assert Target(s, t, w);
      RetryIsSafeIff(closed, t);
    }
    hide OneOwner, QueueInOrder, NoneForgotten, Underway;
    if !SafeClose(s, loop) {
      var t: Id :| t < |s.tasks| && s.tasks[t].place.Handing? && s.tasks[t].place.to < |s.tasks|
        && s.tasks[s.tasks[t].place.to].loop == loop && s.tasks[s.tasks[t].place.to].place != Waiting;
      assert HandsTo(s, t, s.tasks[t].place.to);
    }
  }

  // ---------------------------------------------------------------------
  // The lock can be lost, exactly when a loop closes under a scheduled hand-over
  // ---------------------------------------------------------------------

  /** The owner was granted the lock on a loop that closed before the task resumed, and nobody will notice. */
  ghost predicate Lost(s: State, w: Id) {
    && w < |s.tasks| && s.tasks[w].place == Waiting && s.tasks[w].granted && s.tasks[w].loop in s.closed
    && !exists t: Id :: HandsTo(s, t, w)
  }

  /** A step by which the owner moves on, or is moved on. */
  predicate OwnerStep(s: State, step: Step) {
    match step
    case Guard(t) => Owns(s, t)
    case Complete(t) => Owns(s, t)
    case Resume(t) => Owns(s, t)
    case Unwind(t) => Owns(s, t)
    case Schedule(t) => t < |s.tasks| && s.tasks[t].place.Handing? && Owns(s, s.tasks[t].place.to)
    case _ => false
  }

  lemma OwnerMovesUnlessLost(s: State)
    requires Inv(s) && s.held
    ensures (exists step :: OwnerStep(s, step) && Enabled(s, step)) <==> !exists w: Id :: Lost(s, w)
  {
    var o: Id :| Owns(s, o);
    if exists w: Id :: Lost(s, w) {
      var w: Id :| Lost(s, w);
      assert Owns(s, w) && w == o;
      forall step | OwnerStep(s, step)
        ensures !Enabled(s, step)
      {
        assert step.Schedule? ==> !HandsTo(s, step.task, w);
      }
    } else if s.tasks[o].place != Waiting {
      assert OwnerStep(s, Guard(o)) && Enabled(s, Guard(o));
    } else if t: Id :| HandsTo(s, t, o) {
      assert OwnerStep(s, Schedule(t)) && Enabled(s, Schedule(t));
    } else {
      assert !Lost(s, o);
      assert OwnerStep(s, Complete(o)) && OwnerStep(s, Resume(o)) && OwnerStep(s, Unwind(o));
      assert Enabled(s, Complete(o)) || Enabled(s, Resume(o)) || Enabled(s, Unwind(o));
    }
  }

  /**
   * Only closing a loop loses the lock: that of the owner who was granted it and still waits, with
   * nobody about to schedule the hand-over.
   */
  lemma LostByClosingIff(s: State, step: Step, w: Id)
    requires Inv(s) && Allowed(s, step) && !Lost(s, w)
    ensures Lost(Next(s, step), w) <==>
              && step.Close? && w < |s.tasks| && s.tasks[w].loop == step.loop
              && s.tasks[w].place == Waiting && s.tasks[w].granted && !exists t: Id :: HandsTo(s, t, w)
  {
    var after := Next(s, step);
    forall t: Id
      ensures step.Close? ==> (HandsTo(after, t, w) <==> HandsTo(s, t, w))
    {
    }
    if !step.Close? && Lost(after, w) {
      NotLostOtherwise(s, step, w);
    }
  }

  lemma NotLostOtherwise(s: State, step: Step, w: Id)
    requires Inv(s) && Enabled(s, step) && !Lost(s, w) && !step.Close?
    ensures !Lost(Next(s, step), w)
  {
    if step.Guard? {
      GuardLosesNothing(s, step.task, w);
    } else {
      hide NoneForgotten, Underway, OneOwner, QueueInOrder;
      var after := Next(s, step);
      assert forall t: Id :: HandsTo(s, t, w) ==> HandsTo(after, t, w) || step == Schedule(t);
    }
  }

  lemma GuardLosesNothing(s: State, task: Id, w: Id)
    requires Inv(s) && Enabled(s, Guard(task))
    ensures !Lost(AfterGuard(s, task), w)
  {
    hide NoneForgotten, Underway, FirstLive;
    var after := AfterGuard(s, task);
    assert Owns(s, task);
    assert w != task ==> !Owns(s, w);
    assert w < |s.tasks| && after.tasks[w].granted && !s.tasks[w].granted ==> HandsTo(after, task, w);
  }

  lemma LostStaysLost(s: State, step: Step, w: Id)
    requires Inv(s) && Lost(s, w) && Allowed(s, step)
    ensures Lost(Next(s, step), w) && Next(s, step).held
  {
    hide NoneForgotten, SafeClose;
    assert Owns(s, w) && s.held;
    var after := Next(s, step);
    assert step.Guard? ==> Owns(s, step.task);
    assert !step.Guard?;
    if step.Schedule? {
      assert HandsTo(s, step.task, s.tasks[step.task].place.to);
    }
    forall t: Id
      ensures !HandsTo(after, t, w)
    {
      assert !HandsTo(s, t, w);
    }
  }

  // ---------------------------------------------------------------------
  // The unsafe closing does happen: the lock given away twice
  // ---------------------------------------------------------------------

  function Entered(loop: Loop): Task { Task(loop, Pending, false, false, false, Inside) }

  function Waits(loop: Loop, granted: bool): Task { Task(loop, Pending, granted, false, false, Waiting) }

  function Cancels(place: Place): Task { Task(1, Cancelled, true, false, false, place) }

  function Hands(loop: Loop, granted: bool, to: Id): Task { Task(loop, Pending, granted, false, false, Handing(to)) }

  /** Task 0 hands over to task 1, which is cancelled and hands on to task 2, before 0 has scheduled anything. */
  const HANDED_ON := [
    INITIAL,
    State(true, [], [Entered(0)], {}),
    State(true, [1], [Entered(0), Waits(1, false)], {}),
    State(true, [1, 2], [Entered(0), Waits(1, false), Waits(2, false)], {}),
    State(true, [2], [Hands(0, false, 1), Waits(1, true), Waits(2, false)], {}),
    State(true, [2], [Hands(0, false, 1), Cancels(Waiting), Waits(2, false)], {}),
    State(true, [2], [Hands(0, false, 1), Cancels(Owing), Waits(2, false)], {}),
    State(true, [], [Hands(0, false, 1), Cancels(Handing(2)), Waits(2, true)], {}),
    State(true, [], [Hands(0, false, 1), Cancels(Gone), Waits(2, true).(scheduled := true)], {}),
    State(true, [], [Hands(0, false, 1), Cancels(Gone), Waits(2, true).(future := Resolved)], {}),
    IN_DANGER
  ]

  const HANDING_ON := [Acquire(0), Acquire(1), Acquire(2), Guard(0), Cancel(1), Unwind(1), Guard(1), Schedule(1),
                       Complete(2), Resume(2)]

  const IN_DANGER := State(true, [], [Hands(0, false, 1), Cancels(Gone),
                                      Waits(2, true).(future := Resolved, place := Inside)], {})

  lemma HandedOnFirstHalf(i: nat)
    requires i < 4
    ensures Leads(HANDED_ON[i], HANDING_ON[i], HANDED_ON[i + 1])
  {
    var before, after := HANDED_ON[i], HANDED_ON[i + 1];
    if i < 3 {
      assert Next(before, HANDING_ON[i]).tasks == after.tasks && Next(before, HANDING_ON[i]).queue == after.queue;
    } else {
      assert i == 3;
      assert FirstLive([1, 2], before.tasks, {}) == 0;
      assert [1, 2][1..] == [2];
    }
  }

  lemma HandedOnSecondHalf(i: nat)
    requires 4 <= i < 10
    ensures Leads(HANDED_ON[i], HANDING_ON[i], HANDED_ON[i + 1])
  {
    assert i == 4 || i == 5 || i == 6 || i == 7 || i == 8 || i == 9;
  }

  /** Both tasks 2 and 3 are inside. */
  const TWO_INSIDE := State(true, [], [Hands(0, false, 1).(place := Gone), Cancels(Gone),
                                       Waits(2, true).(future := Resolved, place := Inside), Entered(3)], {1})

  lemma HandedOnIsRun()
    ensures IsRun(HANDED_ON, HANDING_ON) && HANDED_ON[|HANDING_ON|] == IN_DANGER
  {
    forall i | 0 <= i < 10
      ensures Leads(HANDED_ON[i], HANDING_ON[i], HANDED_ON[i + 1])
    {
      if i < 4 {
        HandedOnFirstHalf(i);
      } else {
        HandedOnSecondHalf(i);
      }
    }
    hide Leads;
  }

  /** Loop 1 closes; task 0 takes its hand-over for failed, and releases the lock task 2 holds. */
  lemma ReleasedTwice()
    ensures exists states, steps :: IsRun(states, steps) && states[|steps|] == IN_DANGER
    ensures Enabled(IN_DANGER, Close(1)) && !SafeClose(IN_DANGER, 1)
    ensures var s1 := Next(IN_DANGER, Close(1));
            && Enabled(s1, Schedule(0)) && var s2 := Next(s1, Schedule(0));
            && Enabled(s2, Guard(0)) && var s3 := Next(s2, Guard(0));
            && Enabled(s3, Acquire(3)) && Next(s3, Acquire(3)) == TWO_INSIDE
  {
    hide IsRun;
    HandedOnIsRun();
    assert IN_DANGER.tasks[0].place == Handing(1);
    var s3 := Next(Next(Next(IN_DANGER, Close(1)), Schedule(0)), Guard(0));
    assert s3.tasks == TWO_INSIDE.tasks[..3];
  }

  // ---------------------------------------------------------------------
  // And so does the lock lost
  // ---------------------------------------------------------------------

  /** Task 0 hands over to task 1 and has it scheduled on loop 1, which closes before it runs. */
  const LOSING := [Acquire(0), Acquire(1), Guard(0), Schedule(0), Close(1)]

  const UP_TO_LOST := [
    INITIAL,
    State(true, [], [Entered(0)], {}),
    State(true, [1], [Entered(0), Waits(1, false)], {}),
    State(true, [], [Hands(0, false, 1), Waits(1, true)], {}),
    State(true, [], [Hands(0, false, 1).(place := Gone), Waits(1, true).(scheduled := true)], {}),
    LOST
  ]

  const LOST := State(true, [], [Hands(0, false, 1).(place := Gone), Waits(1, true).(scheduled := true)], {1})

  lemma LosingLeads(i: nat)
    requires i < 5
    ensures Leads(UP_TO_LOST[i], LOSING[i], UP_TO_LOST[i + 1])
  {
    var before, after := UP_TO_LOST[i], UP_TO_LOST[i + 1];
    if i < 2 {
      assert Next(before, LOSING[i]).tasks == after.tasks && Next(before, LOSING[i]).queue == after.queue;
    } else if i == 2 {
      assert FirstLive([1], before.tasks, {}) == 0;
      assert [1][1..] == [];
    } else {
      assert i == 3 || i == 4;
    }
  }

  /** A run of allowed steps after which task 1 has the lock and never wakes, so nobody gets it again. */
  lemma LockIsLost()
    ensures IsRun(UP_TO_LOST, LOSING) && UP_TO_LOST[|LOSING|] == LOST && Lost(LOST, 1)
  {
    forall i | 0 <= i < 5
      ensures Leads(UP_TO_LOST[i], LOSING[i], UP_TO_LOST[i + 1])
    {
      LosingLeads(i);
    }
    hide Leads;
  }
}
