/** What waiting for a person to stop typing comes to over whole runs of reply_flow/listener.py. */
module ListenerProtocol {
  import opened Common
  import opened Listener
  import opened ListenerSteps

  // ---------------------------------------------------------------------
  // Whole runs
  // ---------------------------------------------------------------------

  ghost predicate Leads(cfg: Config, s: State, step: Step, next: State) {
    Enabled(s, step) && next == Next(cfg, s, step)
  }

  ghost predicate IsRun(cfg: Config, states: seq<State>, steps: seq<Step>) {
    && |states| == |steps| + 1 && states[0] == INITIAL
    && forall i :: 0 <= i < |steps| ==> Leads(cfg, states[i], steps[i], states[i + 1])
  }

  lemma {:induction false} RunKeepsInv(cfg: Config, states: seq<State>, steps: seq<Step>, n: nat)
    requires IsRun(cfg, states, steps) && n < |states|
    ensures Inv(cfg, states[n])
  {
    if n > 0 {
      RunKeepsInv(cfg, states, steps, n - 1);
      assert Leads(cfg, states[n - 1], steps[n - 1], states[n]);
      StepKeepsInv(cfg, states[n - 1], steps[n - 1]);
    }
  }

  /**
   * A message that leaves `await_turn` is passed over exactly when a newer one has been noted,
   * unless its sender's record has been dropped meanwhile; and it never leaves without an outcome
   * before it is due.
   */
  lemma ReleasedIffNewest(cfg: Config, states: seq<State>, steps: seq<Step>, n: nat)
    requires IsRun(cfg, states, steps) && n < |steps| && steps[n].Poll?
    ensures var s, next := states[n], states[n + 1];
            && (|next.outcomes| == |s.outcomes| <==>
                  s.entry.Some? && s.handled == |s.sent| - 1 && s.now < Due(cfg, s.entry.value))
            && (|next.outcomes| > |s.outcomes| ==>
                  (next.outcomes[|s.outcomes|].way.Released? <==> s.entry.None? || s.handled == |s.sent| - 1))
  {
    RunKeepsInv(cfg, states, steps, n);
    assert Leads(cfg, states[n], steps[n], states[n + 1]);
    hide PicturesKept, Together, Stashed;
  }

  // ---------------------------------------------------------------------
  // Which messages are released
  // ---------------------------------------------------------------------

  /** Message `k` has entered `await_turn` by one of the first n steps. */
  predicate Entered(states: seq<State>, steps: seq<Step>, n: nat, k: nat)
    requires n <= |steps| <= |states|
  {
    n > 0 && (Entered(states, steps, n - 1, k) || (steps[n - 1].Begin? && states[n - 1].handled == k))
  }

  predicate NothingDropped(steps: seq<Step>, n: nat)
    requires n <= |steps|
  {
    forall m :: 0 <= m < n ==> !steps[m].Evict?
  }

  /** Nothing newer than message `i` had been noted when it was done with. */
  predicate WasNewest(outcomes: seq<Outcome>, i: nat)
    requires i < |outcomes|
  {
    outcomes[i].noted == i + 1
  }

  lemma {:induction false} EnteredIff(cfg: Config, states: seq<State>, steps: seq<Step>, n: nat, k: nat)
    requires IsRun(cfg, states, steps) && n < |states|
    ensures var s := states[n];
            Entered(states, steps, n, k) <==>
              if k < |s.outcomes| then !s.outcomes[k].way.Elsewhere? else s.handler.Waiting? && k == s.handled
  {
    if n > 0 {
      EnteredIff(cfg, states, steps, n - 1, k);
      RunKeepsInv(cfg, states, steps, n - 1);
      assert Leads(cfg, states[n - 1], steps[n - 1], states[n]);
      hide PicturesKept, Together, Stashed, AfterMark, Noted, Due;
    }
  }

  /** While no record is dropped there is one once a message is noted, and it releases only the newest. */
  predicate OnlyNewest(s: State) {
    && (s.sent != [] ==> s.entry.Some?)
    && forall i :: 0 <= i < |s.outcomes| && s.outcomes[i].way.Released? ==> WasNewest(s.outcomes, i)
  }

  lemma {:induction false} RunReleasesOnlyNewest(cfg: Config, states: seq<State>, steps: seq<Step>, n: nat)
    requires IsRun(cfg, states, steps) && n < |states| && NothingDropped(steps, n)
    ensures OnlyNewest(states[n])
  {
    if n > 0 {
      RunReleasesOnlyNewest(cfg, states, steps, n - 1);
      RunKeepsInv(cfg, states, steps, n - 1);
      assert Leads(cfg, states[n - 1], steps[n - 1], states[n]);
      StepReleasesOnlyNewest(cfg, states[n - 1], steps[n - 1]);
    }
  }

  lemma StepReleasesOnlyNewest(cfg: Config, s: State, step: Step)
    requires Inv(cfg, s) && OnlyNewest(s) && Enabled(s, step) && !step.Evict?
    ensures OnlyNewest(Next(cfg, s, step))
  {
    hide PicturesKept, Together, Stashed, Noted, Marked, Due;
    var next := Next(cfg, s, step);
    forall i | 0 <= i < |next.outcomes| && next.outcomes[i].way.Released?
      ensures WasNewest(next.outcomes, i)
    {
      if i < |s.outcomes| {
        assert WasNewest(s.outcomes, i) && next.outcomes[i] == s.outcomes[i];
      }
    }
  }

  /**
   * A message is released exactly when it entered `await_turn` and nothing newer was noted before
   * it left; a record dropped meanwhile can only release others as well.
   */
  lemma ReleasedIffEnteredNewest(cfg: Config, states: seq<State>, steps: seq<Step>, n: nat, i: nat)
    requires IsRun(cfg, states, steps) && n < |states| && i < |states[n].outcomes|
    ensures var outcomes := states[n].outcomes;
            && (WasNewest(outcomes, i) && Entered(states, steps, n, i) ==> outcomes[i].way.Released?)
            && (outcomes[i].way.Released? ==> Entered(states, steps, n, i))
            && (NothingDropped(steps, n) && outcomes[i].way.Released? ==> WasNewest(outcomes, i))
  {
    RunKeepsInv(cfg, states, steps, n);
    assert NewerBehind(states[n].outcomes, i, |states[n].sent|);
    EnteredIff(cfg, states, steps, n, i);
    if NothingDropped(steps, n) {
      RunReleasesOnlyNewest(cfg, states, steps, n);
    }
  }

  /** The message that ends the burst of message `i`: the next one with nothing newer behind it. */
  function BurstEnd(outcomes: seq<Outcome>, i: nat): (end: nat)
    requires i < |outcomes|
    ensures i <= end < |outcomes|
    ensures WasNewest(outcomes, end) || end == |outcomes| - 1
    decreases |outcomes| - i
  {
    if WasNewest(outcomes, i) || i + 1 == |outcomes| then i else BurstEnd(outcomes, i + 1)
  }

  lemma {:induction false} BurstEndIsNext(outcomes: seq<Outcome>, i: nat, j: nat)
    requires i < |outcomes| && i <= j < BurstEnd(outcomes, i)
    ensures !WasNewest(outcomes, j)
    decreases |outcomes| - i
  {
    hide WasNewest;
    if j > i {
      assert BurstEnd(outcomes, i) == BurstEnd(outcomes, i + 1);
      BurstEndIsNext(outcomes, i + 1, j);
    }
  }

  /**
   * Once all messages are handled, a burst has had an answer released exactly if its newest message
   * entered `await_turn`: then to that message alone, and otherwise to none.
   */
  lemma BurstAnsweredIff(cfg: Config, states: seq<State>, steps: seq<Step>, n: nat, i: nat, j: nat)
    requires IsRun(cfg, states, steps) && n < |states| && NothingDropped(steps, n)
    requires |states[n].outcomes| == |states[n].sent| && i < |states[n].outcomes|
    requires i <= j <= BurstEnd(states[n].outcomes, i)
    ensures var outcomes := states[n].outcomes;
            var end := BurstEnd(outcomes, i);
            && end < |outcomes| && WasNewest(outcomes, end)
            && (outcomes[j].way.Released? <==> j == end && Entered(states, steps, n, end))
  {
    var outcomes := states[n].outcomes;
    var end := BurstEnd(outcomes, i);
    if j < end {
      BurstEndIsNext(outcomes, i, j);
    }
    RunKeepsInv(cfg, states, steps, n);
    assert NewerBehind(outcomes, end, |states[n].sent|);
    hide BurstEnd, Entered, NothingDropped;
    ReleasedIffEnteredNewest(cfg, states, steps, n, j);
  }

  /**
   * A released message goes out with the newest four pictures among its own and those of the
   * messages passed over since the last release; more only if it has more itself.
   */
  lemma ReleasedWithBurstPictures(cfg: Config, states: seq<State>, steps: seq<Step>, n: nat, i: nat)
    requires IsRun(cfg, states, steps) && n < |states| && i < |states[n].outcomes|
    requires states[n].outcomes[i].way.Released?
    ensures |states[n].outcomes| <= |states[n].sent|
    ensures var s := states[n];
            s.outcomes[i].images
              == LastN(Burst(s.sent, s.outcomes, i) + s.sent[i], Max(STASHED_IMAGES_MAX, |s.sent[i]|))
  {
    RunKeepsInv(cfg, states, steps, n);
    assert PicturesFit(states[n].sent, states[n].outcomes, i);
  }

  /**
   * The newest message is released the moment it enters, if it is due by then, and otherwise
   * within a hundredth of a second after it falls due: at the latest that much after its record's
   * `first_at` plus the longest wait.
   */
  lemma ReleasedOnTime(cfg: Config, states: seq<State>, steps: seq<Step>, n: nat)
    requires IsRun(cfg, states, steps) && n < |steps| && steps[n].Poll?
    requires states[n].entry.Some? && states[n].handled == |states[n].sent| - 1
    ensures var s, next := states[n], states[n + 1];
            |next.outcomes| > |s.outcomes| ==>
              && s.now >= Due(cfg, s.entry.value)
              && (s.now == s.handler.began || s.now < Due(cfg, s.entry.value) + 0.01)
              && (s.now == s.handler.began || s.now < s.entry.value.firstAt + cfg.maxWait + 0.01)
  {
    RunKeepsInv(cfg, states, steps, n);
    assert Leads(cfg, states[n], steps[n], states[n + 1]);
    hide PicturesKept, Together, Stashed;
  }

  /**
   * The newest message leaves `await_turn` exactly once its sender has been quiet for long enough
   * since it came, or the longest wait is over; else it sleeps for a quarter of a second at most.
   */
  lemma WaitsForQuiet(cfg: Config, states: seq<State>, steps: seq<Step>, n: nat)
    requires IsRun(cfg, states, steps) && n < |steps| && steps[n].Poll?
    requires states[n].entry.Some? && states[n].handled == |states[n].sent| - 1
    ensures |states[n].came| == |states[n].sent|
    ensures var s, next := states[n], states[n + 1];
            var left := s.now >= s.came[|s.sent| - 1] + cfg.quiet || s.now >= s.entry.value.firstAt + cfg.maxWait;
            && (left ==> |next.outcomes| > |s.outcomes| && next.outcomes[|s.outcomes|].way.Released?)
            && (!left ==> next.handler.Waiting? && next.outcomes == s.outcomes
                          && s.now + 0.01 <= next.handler.wakeAt <= s.now + 0.25)
  {
    RunKeepsInv(cfg, states, steps, n);
    assert Leads(cfg, states[n], steps[n], states[n + 1]);
    hide PicturesKept, Together, Stashed;
  }

  // ---------------------------------------------------------------------
  // The longest wait
  // ---------------------------------------------------------------------

  /** The longest wait of the record runs from when the first message not answered yet came. */
  predicate Promise(s: State)
    requires RecordFits(s) && InOrder(s)
  {
    s.entry.Some? && !s.entry.value.answered ==> s.entry.value.firstAt == s.came[s.open]
  }

  /** Whether a step leaves the longest wait where it belongs. */
  predicate Fine(s: State, step: Step)
    requires RecordFits(s) && InOrder(s) && Enabled(s, step)
  {
    match step
    case Note(_) => s.entry.Some? || s.open == |s.sent| || s.came[s.open] == s.now
    case Mark(id) => s.entry.None? || s.entry.value.answered || MarkIsFine(s, id)
    case _ => true
  }

  /** The reply is to the newest message, or the first one it leaves unanswered came with the newest, or is it. */
  predicate MarkIsFine(s: State, id: Id)
    requires |s.came| == |s.sent| && |s.outcomes| <= |s.sent| && s.open < |s.sent| && Enabled(s, Mark(id))
  {
    var last := |s.sent| - 1;
    id == last || s.came[AfterMark(s, id).open] == s.came[last]
  }

  /** A step keeps the promise exactly when it is a fine one. */
  lemma StepKeepsPromiseIff(cfg: Config, s: State, step: Step)
    requires Inv(cfg, s) && Enabled(s, step) && Promise(s)
    ensures Inv(cfg, Next(cfg, s, step))
    ensures Promise(Next(cfg, s, step)) <==> Fine(s, step)
  {
    StepKeepsInv(cfg, s, step);
    hide PicturesKept, Together, Stashed, Due;
  }

  /** One message waiting behind the reply is no harm. */
  lemma OneBehindIsFine(cfg: Config, s: State, id: Id)
    requires Inv(cfg, s) && s.entry.Some? && !s.entry.value.answered && Enabled(s, Mark(id))
    requires s.open == |s.sent| - 1 || id == |s.sent| - 2
    ensures Fine(s, Mark(id))
  {
    hide PicturesKept;
  }

  ghost predicate AllFine(cfg: Config, states: seq<State>, steps: seq<Step>, n: nat)
    requires IsRun(cfg, states, steps) && n <= |steps|
  {
    forall m :: 0 <= m < n ==> Inv(cfg, states[m]) && Enabled(states[m], steps[m]) && Fine(states[m], steps[m])
  }

  lemma {:induction false} RunKeepsPromise(cfg: Config, states: seq<State>, steps: seq<Step>, n: nat)
    requires IsRun(cfg, states, steps) && n <= |steps| && AllFine(cfg, states, steps, n)
    ensures Inv(cfg, states[n]) && Promise(states[n])
  {
    RunKeepsInv(cfg, states, steps, n);
    if n > 0 {
      RunKeepsPromise(cfg, states, steps, n - 1);
      RunKeepsInv(cfg, states, steps, n - 1);
      assert Leads(cfg, states[n - 1], steps[n - 1], states[n]);
      hide Promise;
      StepKeepsPromiseIff(cfg, states[n - 1], steps[n - 1]);
    }
  }

  /**
   * In a run of fine steps the newest message is released when it enters or at the latest the
   * longest wait after the first unanswered message came, give or take a hundredth of a second.
   */
  lemma ReleasedInTime(cfg: Config, states: seq<State>, steps: seq<Step>, n: nat)
    requires IsRun(cfg, states, steps) && n < |steps| && steps[n].Poll? && AllFine(cfg, states, steps, n)
    requires states[n].entry.Some? && states[n].handled == |states[n].sent| - 1
    requires |states[n + 1].outcomes| > |states[n].outcomes|
    ensures var s := states[n];
            s.open < |s.came| && (s.now == s.handler.began || s.now < s.came[s.open] + cfg.maxWait + 0.01)
  {
    RunKeepsPromise(cfg, states, steps, n);
    RunKeepsInv(cfg, states, steps, n);
    assert Leads(cfg, states[n], steps[n], states[n + 1]);
    ReleasedOnTime(cfg, states, steps, n);
    hide PicturesKept, Together, Stashed, Due, AllFine;
  }

  // ---------------------------------------------------------------------
  // Runs that fail
  // ---------------------------------------------------------------------

  ghost predicate ReachedBy(cfg: Config, steps: seq<Step>, s: State) {
    exists states :: IsRun(cfg, states, steps) && states[|steps|] == s
  }

  lemma OneStepOn(cfg: Config, steps: seq<Step>, n: nat, s: State, next: State)
    requires n < |steps| && Leads(cfg, s, steps[n], next)
    requires if n == 0 then s == INITIAL else ReachedBy(cfg, steps[..n], s)
    ensures ReachedBy(cfg, steps[..n + 1], next)
  {
    var earlier := steps[..n];
    if n == 0 {
      assert IsRun(cfg, [INITIAL], earlier) && [INITIAL][|earlier|] == s;
    }
    assert ReachedBy(cfg, earlier, s);
    var states :| IsRun(cfg, states, earlier) && states[|earlier|] == s;
    var more, longer := states + [next], steps[..n + 1];
    assert longer == earlier + [steps[n]];
    forall i | 0 <= i < |longer|
      ensures Leads(cfg, more[i], longer[i], more[i + 1])
    {
      if i < n {
        assert Leads(cfg, states[i], earlier[i], states[i + 1]);
      }
    }
    assert IsRun(cfg, more, longer) && more[|longer|] == next;
  }

  /** A reply to the first message goes out after two more have come, the first of them long ago. */
  function LongWait(cfg: Config): seq<Step> {
    [Note([]), Tick(MinReal(cfg.quiet, cfg.maxWait)), Begin, Poll, Note([]), Tick(cfg.maxWait), Note([]),
     Mark(0), Finish, Begin, Poll, Begin]
  }

  /** The first message released, the second noted; then the third just noted. */
  function OneReleased(cfg: Config, more: bool): State {
    var m, w := MinReal(cfg.quiet, cfg.maxWait), cfg.maxWait;
    var s := State(m, [[], []], [0.0, m], 0, Some(Arrival(1, m, 0.0, false)), 0, Replying, [],
                   [Outcome(Way.Released, m, m, [], 1)]);
    if more
    then s.(now := m + w, sent := [[], [], []], came := [0.0, m, m + w], entry := Some(Arrival(2, m + w, 0.0, false)))
    else s
  }

  /** The second message passed over, the third just come into `await_turn`. */
  function StillWaiting(cfg: Config): State {
    var m, w := MinReal(cfg.quiet, cfg.maxWait), cfg.maxWait;
    OneReleased(cfg, true).(
      open := 1, entry := Some(Arrival(2, m + w, m + w, false)), handled := 2, handler := Waiting(m + w, m + w),
      outcomes := [Outcome(Way.Released, m, m, [], 1), Outcome(PassedOver, m + w, m + w, [], 3)])
  }

  /**
   * The longest wait after the first unanswered message is over, and the sender is made to wait
   * further: the reply that went out meanwhile has started the wait again at the newest message.
   */
  lemma LongestWaitRestarts(cfg: Config)
    requires cfg.quiet > 0.0 && cfg.maxWait > 0.0
    ensures ReachedBy(cfg, LongWait(cfg), StillWaiting(cfg))
    ensures var s := StillWaiting(cfg);
            && RecordFits(s) && InOrder(s) && s.handled == |s.sent| - 1 && s.now == s.came[s.open] + cfg.maxWait
            && Due(cfg, s.entry.value) == s.now + MinReal(cfg.quiet, cfg.maxWait)
            && Enabled(s, Poll) && Next(cfg, s, Poll).outcomes == s.outcomes
  {
    FirstReleased(cfg);
    SecondWaits(cfg);
    SecondPassedOver(cfg);
    assert LongWait(cfg)[..12] == LongWait(cfg);
  }

  lemma FirstReleased(cfg: Config)
    requires cfg.quiet > 0.0 && cfg.maxWait > 0.0
    ensures ReachedBy(cfg, LongWait(cfg)[..5], OneReleased(cfg, false))
  {
    hide ReachedBy;
    var steps, m := LongWait(cfg), MinReal(cfg.quiet, cfg.maxWait);
    var s1 := State(0.0, [[]], [0.0], 0, Some(Arrival(0, 0.0, 0.0, false)), 0, Idle, [], []);
    var s2 := s1.(now := m);
    var s3 := s2.(handler := Waiting(m, m));
    var s4 := s2.(handler := Replying, outcomes := [Outcome(Way.Released, m, m, [], 1)]);
    OneStepOn(cfg, steps, 0, INITIAL, s1);
    OneStepOn(cfg, steps, 1, s1, s2);
    OneStepOn(cfg, steps, 2, s2, s3);
    OneStepOn(cfg, steps, 3, s3, s4);
    OneStepOn(cfg, steps, 4, s4, OneReleased(cfg, false));
  }

  lemma SecondWaits(cfg: Config)
    requires cfg.quiet > 0.0 && cfg.maxWait > 0.0
    requires ReachedBy(cfg, LongWait(cfg)[..5], OneReleased(cfg, false))
    ensures ReachedBy(cfg, LongWait(cfg)[..7], OneReleased(cfg, true))
  {
    hide ReachedBy;
    var steps, m, w := LongWait(cfg), MinReal(cfg.quiet, cfg.maxWait), cfg.maxWait;
    var s5 := OneReleased(cfg, false);
    var s6 := s5.(now := m + w);
    OneStepOn(cfg, steps, 5, s5, s6);
    OneStepOn(cfg, steps, 6, s6, OneReleased(cfg, true));
  }

  lemma SecondPassedOver(cfg: Config)
    requires cfg.quiet > 0.0 && cfg.maxWait > 0.0
    requires ReachedBy(cfg, LongWait(cfg)[..7], OneReleased(cfg, true))
    ensures ReachedBy(cfg, LongWait(cfg)[..12], StillWaiting(cfg))
  {
    hide ReachedBy;
    var steps, m, w := LongWait(cfg), MinReal(cfg.quiet, cfg.maxWait), cfg.maxWait;
    var s7 := OneReleased(cfg, true);
    var s8 := s7.(open := 1, entry := Some(Arrival(2, m + w, m + w, false)));
    var s9 := s8.(handler := Idle, handled := 1);
    var s10 := s9.(handler := Waiting(m + w, m + w));
    var s11 := StillWaiting(cfg).(handler := Idle);
    OneStepOn(cfg, steps, 7, s7, s8);
    OneStepOn(cfg, steps, 8, s8, s9);
    OneStepOn(cfg, steps, 9, s9, s10);
    OneStepOn(cfg, steps, 10, s10, s11);
    OneStepOn(cfg, steps, 11, s11, StillWaiting(cfg));
  }

  /** A picture with a question, at once a line for somebody else, and much later something unrelated. */
  function QuestionThenAside(cfg: Config, picture: Image): seq<Step> {
    [Note([picture]), Note([]), Begin, Poll, Bypass, Tick(cfg.maxWait), Note([]), Begin, Poll]
  }

  /** Both are handled: the question was passed over for a line that never entered `await_turn`. */
  function Unanswered(picture: Image): State {
    State(0.0, [[picture], []], [0.0, 0.0], 0, Some(Arrival(1, 0.0, 0.0, false)), 2, Idle, [picture],
          [Outcome(PassedOver, 0.0, 0.0, [], 2), Outcome(Elsewhere, 0.0, 0.0, [], 2)])
  }

  function AnsweredUnrelated(cfg: Config, picture: Image): State {
    var w := cfg.maxWait;
    var s := Unanswered(picture);
    s.(now := w, sent := s.sent + [[]], came := s.came + [w], entry := Some(Arrival(2, w, 0.0, false)),
       handler := Replying, stash := [], outcomes := s.outcomes + [Outcome(Way.Released, w, w, [picture], 3)])
  }

  /**
   * A burst that ends in such a line gets no answer; its picture goes out with the next message
   * however much later that comes, and that one is released at once, without any wait.
   */
  lemma BurstLost(cfg: Config, picture: Image)
    requires cfg.maxWait > 0.0
    ensures ReachedBy(cfg, QuestionThenAside(cfg, picture)[..5], Unanswered(picture))
    ensures ReachedBy(cfg, QuestionThenAside(cfg, picture)[..9], AnsweredUnrelated(cfg, picture))
  {
    hide ReachedBy;
    QuestionPassedOver(cfg, picture);
    var steps, w, s5 := QuestionThenAside(cfg, picture), cfg.maxWait, Unanswered(picture);
    var s6 := s5.(now := w);
    var s7 := s6.(sent := s5.sent + [[]], came := s5.came + [w], entry := Some(Arrival(2, w, 0.0, false)));
    var s8 := s7.(handler := Waiting(w, w));
    OneStepOn(cfg, steps, 5, s5, s6);
    OneStepOn(cfg, steps, 6, s6, s7);
    OneStepOn(cfg, steps, 7, s7, s8);
    assert Together([picture], []) == [picture];
    OneStepOn(cfg, steps, 8, s8, AnsweredUnrelated(cfg, picture));
  }

  lemma QuestionPassedOver(cfg: Config, picture: Image)
    ensures ReachedBy(cfg, QuestionThenAside(cfg, picture)[..5], Unanswered(picture))
  {
    hide ReachedBy;
    var steps := QuestionThenAside(cfg, picture);
    var s1 := State(0.0, [[picture]], [0.0], 0, Some(Arrival(0, 0.0, 0.0, false)), 0, Idle, [], []);
    var s2 := s1.(sent := [[picture], []], came := [0.0, 0.0], entry := Some(Arrival(1, 0.0, 0.0, false)));
    var s3 := s2.(handler := Waiting(0.0, 0.0));
    var s4 := s2.(handled := 1, stash := [picture], outcomes := [Outcome(PassedOver, 0.0, 0.0, [], 2)]);
    OneStepOn(cfg, steps, 0, INITIAL, s1);
    OneStepOn(cfg, steps, 1, s1, s2);
    OneStepOn(cfg, steps, 2, s2, s3);
    OneStepOn(cfg, steps, 3, s3, s4);
    OneStepOn(cfg, steps, 4, s4, Unanswered(picture));
  }

  /** Two messages noted at once, handled only after their record was dropped. */
  const LATE := [Note([]), Note([]), Tick(601.0), Evict, Begin, Poll]

  const FORGOTTEN := State(601.0, [[], []], [0.0, 0.0], 0, None, 0, Waiting(601.0, 601.0), [], [])

  /** A record dropped as stale lets the older of two messages be released although a newer one waits. */
  lemma DroppedRecordReleasesOlder(cfg: Config)
    ensures ReachedBy(cfg, LATE[..5], FORGOTTEN)
    ensures Enabled(FORGOTTEN, Poll)
    ensures Next(cfg, FORGOTTEN, Poll).outcomes == [Outcome(Way.Released, 601.0, 601.0, [], 2)]
  {
    hide ReachedBy;
    var s1 := State(0.0, [[]], [0.0], 0, Some(Arrival(0, 0.0, 0.0, false)), 0, Idle, [], []);
    var s2 := s1.(sent := [[], []], came := [0.0, 0.0], entry := Some(Arrival(1, 0.0, 0.0, false)));
    var s3 := s2.(now := 601.0);
    var s4 := s3.(entry := None);
    OneStepOn(cfg, LATE, 0, INITIAL, s1);
    OneStepOn(cfg, LATE, 1, s1, s2);
    OneStepOn(cfg, LATE, 2, s2, s3);
    OneStepOn(cfg, LATE, 3, s3, s4);
    OneStepOn(cfg, LATE, 4, s4, FORGOTTEN);
  }

  // ---------------------------------------------------------------------
  // When a record is dropped
  // ---------------------------------------------------------------------

  /** Noting a message drops exactly the stale records of others, and only from a table that is too long. */
  lemma DroppedIff(arrivals: Keyed<Arrival>, key: Key, id: Id, now: real, other: Key)
    requires other in arrivals
    ensures other !in AfterNote(arrivals, key, id, now) <==>
              other != key && now - arrivals[other].at > STALE_SECONDS && |arrivals.Keys + {key}| > ARRIVALS_MAX
  {
    var noted := arrivals[key := Noted(Lookup(arrivals, key), id, now)];
    assert noted.Keys == arrivals.Keys + {key};
    assert |noted| == |noted.Keys|;
  }

  /** The table after each of n further senders has sent a message. */
  function Crowd(key: Key, e: Arrival, n: nat, now: real): Keyed<Arrival> {
    if n == 0 then map[key := e] else AfterNote(Crowd(key, e, n - 1, now), Stranger(key, n), 0, now)
  }

  function Stranger(key: Key, n: nat): (name: Key)
    ensures |name| == |key| + n
  {
    key + seq(n, i => 'x')
  }

  lemma {:induction false} CrowdGrows(key: Key, e: Arrival, n: nat, now: real)
    requires n < ARRIVALS_MAX
    ensures key in Crowd(key, e, n, now) && Crowd(key, e, n, now)[key] == e
    ensures |Crowd(key, e, n, now)| == n + 1
    ensures forall name <- Crowd(key, e, n, now) :: |name| <= |key| + n
  {
    if n > 0 {
      hide Stranger, Noted;
      CrowdGrows(key, e, n - 1, now);
      var before := Crowd(key, e, n - 1, now);
      assert Stranger(key, n) !in before;
    }
  }

  /** Four thousand and ninety-six others are enough to have a stale record dropped; one fewer is not. */
  lemma CrowdDropsRecord(key: Key, e: Arrival, n: nat, now: real)
    requires 0 < n <= ARRIVALS_MAX && now - e.at > STALE_SECONDS
    ensures key !in Crowd(key, e, n, now) <==> n == ARRIVALS_MAX
  {
    var before := Crowd(key, e, n - 1, now);
    CrowdGrows(key, e, n - 1, now);
    hide Stranger, AfterNote;
    DroppedIff(before, Stranger(key, n), 0, now, key);
    assert |before.Keys| == |before| && Stranger(key, n) !in before.Keys;
    assert |before.Keys + {Stranger(key, n)}| == |before.Keys| + 1;
  }
}
