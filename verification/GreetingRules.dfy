/** What the rules of reply_flow/companion.py amount to over whole runs. */
module GreetingRules {
  import opened Common
  import opened GreetingLog
  import opened Greetings

  // ---------------------------------------------------------------------------------------
  // Whole runs
  // ---------------------------------------------------------------------------------------

  ghost predicate Leads(cfg: Config, s: State, step: Step, next: State) {
    Enabled(cfg, s, step) && next == Next(cfg, s, step)
  }

  ghost predicate IsRun(cfg: Config, states: seq<State>, steps: seq<Step>) {
    && |states| == |steps| + 1 && states[0] == INITIAL
    && forall i :: 0 <= i < |steps| ==> Leads(cfg, states[i], steps[i], states[i + 1])
  }

  lemma StepKeepsInv(cfg: Config, s: State, step: Step)
    requires Inv(cfg, s) && Enabled(cfg, s, step)
    ensures Inv(cfg, Next(cfg, s, step))
  {
    StepKeepsTimely(cfg, s, step);
    StepKeepsAnswerRule(cfg, s, step);
    match step
    case Hear(key, at) =>
      HearKeeps(cfg, s, key, at);
      HearKeepsChecked(cfg, s, key, at);
    case Begin(_, _, _) =>
      BeginChecks(cfg, s, step);
    case Finish(sent) =>
      FinishKeeps(cfg, s, sent);
  }

  lemma BeginChecks(cfg: Config, s: State, step: Step)
    requires Kept(s) && step.Begin? && Enabled(cfg, s, step)
    ensures Kept(Next(cfg, s, step)) && Checked(cfg, Next(cfg, s, step))
  {
    hide CountSince, OpenedSince, Times, Unanswered, Find, Faithful;
  }

  lemma {:induction false} RunKeepsInv(cfg: Config, states: seq<State>, steps: seq<Step>, n: nat)
    requires IsRun(cfg, states, steps) && n < |states|
    ensures Inv(cfg, states[n])
  {
    if n > 0 {
      RunKeepsInv(cfg, states, steps, n - 1);
      assert Leads(cfg, states[n - 1], steps[n - 1], states[n]);
      hide Inv, Enabled, Next;
      StepKeepsInv(cfg, states[n - 1], steps[n - 1]);
    }
  }

  lemma {:induction false} RunKeepsChatRule(cfg: Config, states: seq<State>, steps: seq<Step>, n: nat, key: Key)
    requires IsRun(cfg, states, steps) && n < |states| && ChatLimit(cfg, key.kind) <= OPENED_KEPT
    ensures ChatRule(cfg, states[n].log, key)
  {
    if n > 0 {
      RunKeepsChatRule(cfg, states, steps, n - 1, key);
      assert Leads(cfg, states[n - 1], steps[n - 1], states[n]);
      hide Inv, ChatRule, ChatLimit, Enabled, Next;
      RunKeepsInv(cfg, states, steps, n - 1);
      StepKeepsChatRule(cfg, states[n - 1], steps[n - 1], key);
    }
  }

  lemma {:induction false} RunKeepsHours(cfg: Config, states: seq<State>, steps: seq<Step>, n: nat)
    requires IsRun(cfg, states, steps) && n < |states|
    ensures OnHours(cfg, states[n])
  {
    if n > 0 {
      RunKeepsHours(cfg, states, steps, n - 1);
      assert Leads(cfg, states[n - 1], steps[n - 1], states[n]);
      hide Enabled, Next, OnHours;
      RunKeepsInv(cfg, states, steps, n - 1);
      StepKeepsHours(cfg, states[n - 1], steps[n - 1]);
    }
  }

  lemma {:induction false} RunKeepsDayRule(cfg: Config, states: seq<State>, steps: seq<Step>, n: nat)
    requires IsRun(cfg, states, steps) && n < |states| && DayCountable(cfg)
    ensures DayRule(cfg, states[n].log)
  {
    NothingOpened(cfg);
    hide *;
    FirstState(cfg, states, steps);
    if n > 0 {
      LastStep(cfg, states, steps, n);
      RunKeepsDayRule(cfg, states, steps, n - 1);
      RunKeepsInv(cfg, states, steps, n - 1);
      RunKeepsHours(cfg, states, steps, n - 1);
      RunKeepsChatRules(cfg, states, steps, n - 1);
      StepKeepsDayRule(cfg, states[n - 1], steps[n - 1]);
    }
  }

  lemma NothingOpened(cfg: Config)
    ensures DayRule(cfg, INITIAL.log)
  {}

  lemma FirstState(cfg: Config, states: seq<State>, steps: seq<Step>)
    requires IsRun(cfg, states, steps)
    ensures states != [] && states[0] == INITIAL
  {}

  lemma LastStep(cfg: Config, states: seq<State>, steps: seq<Step>, n: nat)
    requires IsRun(cfg, states, steps) && 0 < n < |states|
    ensures |states| == |steps| + 1 && Enabled(cfg, states[n - 1], steps[n - 1])
    ensures states[n] == Next(cfg, states[n - 1], steps[n - 1])
  {
    assert Leads(cfg, states[n - 1], steps[n - 1], states[n]);
  }

  lemma RunKeepsChatRules(cfg: Config, states: seq<State>, steps: seq<Step>, n: nat)
    requires IsRun(cfg, states, steps) && n < |states|
    ensures forall key: Key :: ChatLimit(cfg, key.kind) <= OPENED_KEPT ==> ChatRule(cfg, states[n].log, key)
  {
    hide *;
    forall key: Key | ChatLimit(cfg, key.kind) <= OPENED_KEPT
      ensures ChatRule(cfg, states[n].log, key)
    {
      RunKeepsChatRule(cfg, states, steps, n, key);
    }
  }

  // ---------------------------------------------------------------------------------------
  // The promises
  // ---------------------------------------------------------------------------------------

  /**
   * Twenty openings are enough to check a limit on exactly the limits up to twenty: then, and only
   * then, the short log answers as the full one would, whatever happened.
   */
  lemma KeptLogSufficesIff(limit: nat)
    ensures limit <= OPENED_KEPT <==>
              forall times: seq<real>, since: real :: Ascending(times) ==>
                (CountSince(LastN(times, OPENED_KEPT), since) < limit <==> CountSince(times, since) < limit)
  {
    if limit <= OPENED_KEPT {
      forall times: seq<real>, since: real | Ascending(times)
        ensures CountSince(LastN(times, OPENED_KEPT), since) < limit <==> CountSince(times, since) < limit
      {
        KeptCount(times, since, OPENED_KEPT);
      }
    } else {
      var times := seq(limit, i => 0.0);
      CountBelow(times, 0.0, limit);
      KeptCount(times, 0.0, OPENED_KEPT);
      assert Ascending(times);
    }
  }

  lemma {:induction false} AnswerRuleAt(cfg: Config, log: seq<Event>, j: nat)
    requires AnswerRule(cfg, log) && j < |log| && log[j].Opening?
    ensures Unanswered(log[..j], log[j].key) < UnansweredStop(cfg)
    ensures Unanswered(log[..j], log[j].key) > 0 ==>
              log[j].at - LastOpened(Times(log[..j], log[j].key)) >= cfg.unansweredWait
  {
    if j < |log| - 1 {
      var front := log[..|log| - 1];
      AnswerRuleAt(cfg, front, j);
      assert front[..j] == log[..j];
    }
  }

  /**
   * Nobody answers: at most `unanswered_stop` openings in a row are said in a chat, and each waits
   * `unanswered_wait_hours` after the one before, although someone may be heard at any moment.
   */
  lemma StopsWhenUnanswered(cfg: Config, states: seq<State>, steps: seq<Step>, n: nat, j: nat)
    requires IsRun(cfg, states, steps) && n < |states| && j < |states[n].log| && states[n].log[j].Opening?
    ensures var log, key := states[n].log, states[n].log[j].key;
            && Unanswered(log[..j + 1], key) <= UnansweredStop(cfg)
            && (Unanswered(log[..j], key) > 0 ==> log[j].at - LastOpened(Times(log[..j], key)) >= cfg.unansweredWait)
  {
    RunKeepsInv(cfg, states, steps, n);
    var log, key := states[n].log, states[n].log[j].key;
    AnswerRuleAt(cfg, log, j);
    assert log[..j + 1] == log[..j] + [log[j]];
    hide *;
    UnansweredSnoc(log[..j], log[j], key);
  }

  /** Two openings of a private chat are more than 24 hours apart. */
  lemma PrivateOpenedOnceADay(cfg: Config, states: seq<State>, steps: seq<Step>, n: nat, key: Key, i: nat, j: nat)
    requires IsRun(cfg, states, steps) && n < |states| && key.kind == Person
    requires i < j < |Times(states[n].log, key)|
    ensures Times(states[n].log, key)[j] - Times(states[n].log, key)[i] > DAY
  {
    RunKeepsInv(cfg, states, steps, n);
    RunKeepsChatRule(cfg, states, steps, n, key);
    var times := Times(states[n].log, key);
    assert Within(times, states[n].now);
    assert times[j - 1] < DayBefore()(times[j]);
  }

  /**
   * Whether a chat is a candidate, by the log of everything and the settings alone: unanswered
   * openings below the stop and the last of them long enough ago, idle for long enough, a private
   * chat not opened in the last 24 hours, a group less often than its limit.
   */
  lemma EligibleByLog(cfg: Config, s: State, i: nat, now: real, outside: Key -> bool)
    requires Inv(cfg, s) && i < |s.chats| && cfg.groupDailyLimit <= OPENED_KEPT
    ensures var c := s.chats[i];
            var times, unanswered := Times(s.log, c.key), Unanswered(s.log, c.key);
            Eligible(cfg, c, now, outside) <==>
              && c.heardAt != 0.0 && outside(c.key)
              && (unanswered == 0 || (unanswered < cfg.unansweredStop && now >= LastOpened(times) + cfg.unansweredWait))
              && match c.key.kind
                 case Person => now >= c.heardAt + cfg.personIdle && CountSince(times, now - DAY) == 0
                 case Group =>
                   now >= c.heardAt + cfg.groupQuiet && CountSince(times, now - DAY) < cfg.groupDailyLimit
                 case Unknown => false
  {
    var c := s.chats[i];
    assert Faithful(c, s.log) && Within(Times(s.log, c.key), s.now);
    hide Inv, CountSince, Times, Unanswered, LastN;
    KeptCount(Times(s.log, c.key), now - DAY, OPENED_KEPT);
    LastOfKept(Times(s.log, c.key));
  }

  /** With no openings allowed on a day there are none. */
  lemma {:induction false} NoneWithoutLimit(cfg: Config, states: seq<State>, steps: seq<Step>, n: nat)
    requires IsRun(cfg, states, steps) && n < |states| && cfg.dailyLimit <= 0
    ensures AllTimes(states[n].log) == [] && states[n].pending.None?
  {
    FirstState(cfg, states, steps);
    if n > 0 {
      LastStep(cfg, states, steps, n);
      hide IsRun;
      NoneWithoutLimit(cfg, states, steps, n - 1);
      NoneBegins(cfg, states[n - 1], steps[n - 1]);
    }
  }

  lemma NoneBegins(cfg: Config, s: State, step: Step)
    requires cfg.dailyLimit <= 0 && Enabled(cfg, s, step) && s.pending.None? && AllTimes(s.log) == []
    ensures AllTimes(Next(cfg, s, step).log) == [] && Next(cfg, s, step).pending.None?
  {
    if step.Hear? {
      TimesSnoc(s.log, Inbound(step.key), step.key);
    }
    hide AllTimes, OpenedSince, Find, Eligible;
  }

  /** When somebody was last heard in a chat, by the first n steps. */
  function LastHeard(steps: seq<Step>, n: nat, key: Key): Option<real>
    requires n <= |steps|
  {
    if n == 0 then None
    else match steps[n - 1]
      case Hear(k, at) => if k == key then Some(at) else LastHeard(steps, n - 1, key)
      case _ => LastHeard(steps, n - 1, key)
  }

  predicate HeardLast(steps: seq<Step>, n: nat, c: Chat)
    requires n <= |steps|
  {
    LastHeard(steps, n, c.key) == Some(c.heardAt)
  }

  lemma {:induction false} RunKeepsHeard(cfg: Config, states: seq<State>, steps: seq<Step>, n: nat)
    requires IsRun(cfg, states, steps) && n < |states|
    ensures forall i :: 0 <= i < |states[n].chats| ==> HeardLast(steps, n, states[n].chats[i])
  {
    FirstState(cfg, states, steps);
    if n > 0 {
      LastStep(cfg, states, steps, n);
      hide IsRun;
      RunKeepsHeard(cfg, states, steps, n - 1);
      RunKeepsInv(cfg, states, steps, n - 1);
      StepKeepsHeard(cfg, states[n - 1], steps, n);
    }
  }

  lemma StepKeepsHeard(cfg: Config, s: State, steps: seq<Step>, n: nat)
    requires 0 < n <= |steps| && Enabled(cfg, s, steps[n - 1]) && DistinctKeys(s.chats)
    requires forall i :: 0 <= i < |s.chats| ==> HeardLast(steps, n - 1, s.chats[i])
    ensures var next := Next(cfg, s, steps[n - 1]);
            forall i :: 0 <= i < |next.chats| ==> HeardLast(steps, n, next.chats[i])
  {
    hide Find, Eligible, UnderDailyLimit, IsGreetingHour, LastN;
    var next := Next(cfg, s, steps[n - 1]);
    forall i | 0 <= i < |next.chats|
      ensures HeardLast(steps, n, next.chats[i])
    {
      if i < |s.chats| {
        assert HeardLast(steps, n - 1, s.chats[i]);
      }
    }
  }

  /**
   * She opens a chat only when nobody has been heard there for as long as chats of its kind are to
   * be idle, and only where somebody has been heard at all.
   */
  lemma OpensOnlyWhenIdle(cfg: Config, states: seq<State>, steps: seq<Step>, n: nat)
    requires IsRun(cfg, states, steps) && n < |steps| && steps[n].Begin?
    ensures steps[n].n < |states[n].chats|
    ensures var key := states[n].chats[steps[n].n].key;
            var heard := LastHeard(steps, n, key);
            && heard.Some? && (key.kind == Person || key.kind == Group) && steps[n].outside(key)
            && (key.kind == Person ==> steps[n].now - heard.value >= cfg.personIdle)
            && (key.kind == Group ==> steps[n].now - heard.value >= cfg.groupQuiet)
  {
    RunKeepsHeard(cfg, states, steps, n);
    LastStep(cfg, states, steps, n + 1);
    hide IsRun;
    assert HeardLast(steps, n, states[n].chats[steps[n].n]);
  }

  function CountWithin(times: seq<real>, from: real, to: real): nat {
    if times == [] then 0
    else CountWithin(times[..|times| - 1], from, to) + if from <= times[|times| - 1] <= to then 1 else 0
  }

  lemma {:induction false} WithinIsSince(times: seq<real>, from: real, to: real)
    requires Ascending(times) && (times != [] ==> times[|times| - 1] <= to)
    ensures CountWithin(times, from, to) == CountSince(times, from)
  {
    if times != [] {
      WithinIsSince(times[..|times| - 1], from, to);
    }
  }

  lemma {:induction false} SpacedWindow(times: seq<real>, limit: nat, to: real)
    requires Ascending(times) && Spaced(times, limit, DayBefore())
    ensures CountWithin(times, to - DAY, to) <= limit
  {
    if times != [] {
      var last := times[|times| - 1];
      if last > to {
        SpacedWindow(times[..|times| - 1], limit, to);
      } else {
        WithinIsSince(times, to - DAY, to);
        CountBelow(times, to - DAY, limit + 1);
        assert |times| > limit ==> times[|times| - 1 - limit] < DayBefore()(last);
      }
    }
  }

  /** Any 24 hours hold at most as many openings of a group as its limit, when that is at most twenty. */
  lemma GroupLimitHolds(cfg: Config, states: seq<State>, steps: seq<Step>, n: nat, key: Key, to: real)
    requires IsRun(cfg, states, steps) && n < |states| && key.kind == Group
    requires cfg.groupDailyLimit <= OPENED_KEPT
    ensures CountWithin(Times(states[n].log, key), to - DAY, to) <= Max(0, cfg.groupDailyLimit)
  {
    RunKeepsInv(cfg, states, steps, n);
    RunKeepsChatRule(cfg, states, steps, n, key);
    assert Within(Times(states[n].log, key), states[n].now);
    SpacedWindow(Times(states[n].log, key), ChatLimit(cfg, Group), to);
  }

  /** The openings of the local day that begins at `day`. */
  function CountOfDay(times: seq<real>, midnight: real -> real, day: real): nat {
    if times == [] then 0
    else CountOfDay(times[..|times| - 1], midnight, day) + if midnight(times[|times| - 1]) == day then 1 else 0
  }

  lemma {:induction false} DayIsSince(times: seq<real>, midnight: real -> real, day: real)
    requires forall t :: midnight(t) <= t
    ensures CountOfDay(times, midnight, day) <= CountSince(times, day)
  {
    if times != [] {
      DayIsSince(times[..|times| - 1], midnight, day);
      assert midnight(times[|times| - 1]) <= times[|times| - 1];
    }
  }

  lemma {:induction false} SpacedDay(times: seq<real>, limit: nat, midnight: real -> real, day: real)
    requires Ascending(times) && Spaced(times, limit, midnight) && forall t :: midnight(t) <= t
    ensures CountOfDay(times, midnight, day) <= limit
  {
    if times != [] {
      if midnight(times[|times| - 1]) != day {
        SpacedDay(times[..|times| - 1], limit, midnight, day);
      } else {
        DayIsSince(times, midnight, day);
        CountBelow(times, day, limit + 1);
      }
    }
  }

  /** No local day has more than `daily_limit` openings, when the openings kept can tell. */
  lemma DailyLimitHolds(cfg: Config, states: seq<State>, steps: seq<Step>, n: nat, day: real)
    requires IsRun(cfg, states, steps) && n < |states| && DayCountable(cfg)
    requires forall t :: cfg.midnight(t) <= t
    ensures CountOfDay(AllTimes(states[n].log), cfg.midnight, day) <= DailyLimit(cfg)
  {
    RunKeepsInv(cfg, states, steps, n);
    RunKeepsDayRule(cfg, states, steps, n);
    SpacedDay(AllTimes(states[n].log), DailyLimit(cfg), cfg.midnight, day);
  }
}
