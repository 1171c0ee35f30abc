/** When the limits of reply_flow/companion.py hold of every run, and runs that break them when they do not. */
module GreetingLimits {
  import opened Common
  import opened GreetingLog
  import opened GreetingRules
  import opened Greetings

  // ---------------------------------------------------------------------------------------
  // The rule of the log and the days and hours of a clock
  // ---------------------------------------------------------------------------------------

  lemma {:induction false} CountOfBlock(times: seq<real>, midnight: real -> real, day: real, from: nat, to: nat)
    requires from <= to <= |times| && forall i :: from <= i < to ==> midnight(times[i]) == day
    ensures CountOfDay(times, midnight, day) >= to - from
  {
    if from < to {
      var n := |times| - 1;
      CountOfBlock(times[..n], midnight, day, if from < n then from else n, if to < n then to else n);
    }
  }

  lemma {:induction false} CountOfWindow(times: seq<real>, from: real, to: real, i: nat, j: nat)
    requires i <= j <= |times| && forall k :: i <= k < j ==> from <= times[k] <= to
    ensures CountWithin(times, from, to) >= j - i
  {
    if i < j {
      var n := |times| - 1;
      CountOfWindow(times[..n], from, to, if i < n then i else n, if j < n then j else n);
    }
  }

  /** Local days follow each other without a gap. */
  ghost predicate IsCalendar(midnight: real -> real) {
    && (forall t :: midnight(t) <= t)
    && forall t, later :: midnight(later) <= t <= later ==> midnight(t) == midnight(later)
  }

  /** The openings of the local day that begins at `day`. */
  function OfDay(times: seq<real>, midnight: real -> real, day: real): nat {
    CountOfDay(times, midnight, day)
  }

  lemma DayRuleIsDays(times: seq<real>, limit: nat, midnight: real -> real)
    requires Ascending(times) && IsCalendar(midnight)
    ensures Spaced(times, limit, midnight) <==> forall day :: OfDay(times, midnight, day) <= limit
  {
    if Spaced(times, limit, midnight) {
      forall day
        ensures OfDay(times, midnight, day) <= limit
      {
        SpacedDay(times, limit, midnight, day);
      }
    } else {
      var j :| limit <= j < |times| && !(times[j - limit] < midnight(times[j]));
      CountOfBlock(times, midnight, midnight(times[j]), j - limit, j + 1);
      assert OfDay(times, midnight, midnight(times[j])) > limit;
    }
  }

  /** The openings in the 24 hours up to a time. */
  function In24Hours(times: seq<real>, to: real): nat {
    CountWithin(times, to - DAY, to)
  }

  lemma ChatRuleIsHours(times: seq<real>, limit: nat)
    requires Ascending(times)
    ensures Spaced(times, limit, DayBefore()) <==> forall to :: In24Hours(times, to) <= limit
  {
    if Spaced(times, limit, DayBefore()) {
      forall to
        ensures In24Hours(times, to) <= limit
      {
        SpacedWindow(times, limit, to);
      }
    } else {
      var j :| limit <= j < |times| && !(times[j - limit] < DayBefore()(times[j]));
      var to := times[j];
      CountOfWindow(times, to - DAY, to, j - limit, j + 1);
      assert In24Hours(times, to) > limit;
    }
  }

  // ---------------------------------------------------------------------------------------
  // Reaching states
  // ---------------------------------------------------------------------------------------

  ghost predicate IsReached(cfg: Config, s: State) {
    exists states, steps :: IsRun(cfg, states, steps) && states[|steps|] == s
  }

  lemma ReachedKeeps(cfg: Config, s: State)
    requires IsReached(cfg, s)
    ensures Inv(cfg, s) && OnHours(cfg, s) && (DayCountable(cfg) ==> DayRule(cfg, s.log))
    ensures forall key: Key :: ChatLimit(cfg, key.kind) <= OPENED_KEPT ==> ChatRule(cfg, s.log, key)
  {
    var states, steps :| IsRun(cfg, states, steps) && states[|steps|] == s;
    assert |states| == |steps| + 1;
    var n: nat := |steps|;
    hide IsRun, Inv, OnHours, DayRule, ChatRule, ChatLimit, DayCountable;
    RunKeepsInv(cfg, states, steps, n);
    RunKeepsHours(cfg, states, steps, n);
    RunKeepsChatRules(cfg, states, steps, n);
    if DayCountable(cfg) {
      RunKeepsDayRule(cfg, states, steps, n);
    }
  }

  lemma StartReached(cfg: Config)
    ensures IsReached(cfg, INITIAL)
  {
    var states, steps: seq<Step> := [INITIAL], [];
    assert IsRun(cfg, states, steps) && states[|steps|] == INITIAL;
  }

  lemma GoesOn(cfg: Config, s: State, step: Step)
    requires IsReached(cfg, s) && Enabled(cfg, s, step)
    ensures IsReached(cfg, Next(cfg, s, step))
  {
    hide Enabled, Next;
    var before, done :| IsRun(cfg, before, done) && before[|done|] == s;
    var states, steps := before + [Next(cfg, s, step)], done + [step];
    forall i | 0 <= i < |steps|
      ensures Leads(cfg, states[i], steps[i], states[i + 1])
    {
      assert i < |done| ==> Leads(cfg, before[i], done[i], before[i + 1]);
    }
    assert IsRun(cfg, states, steps) && states[|steps|] == Next(cfg, s, step);
  }

  /** A chat heard once and then opened at some times, with nothing said. */
  function Opened(key: Key, heard: real, times: seq<real>): State {
    State([Chat(key, heard, LastN(times, OPENED_KEPT), 0)], None, LastOpened(times), OpenedLog(key, times))
  }

  function OpenedLog(key: Key, times: seq<real>): seq<Event> {
    if times == [] then [Inbound(key)]
    else OpenedLog(key, times[..|times| - 1]) + [Opening(key, times[|times| - 1], false)]
  }

  lemma {:induction false} TimesOfLog(key: Key, times: seq<real>)
    ensures Times(OpenedLog(key, times), key) == times == AllTimes(OpenedLog(key, times))
  {
    var log := OpenedLog(key, times);
    if times == [] {
      assert log[..|log| - 1] == [];
    } else {
      var front, last := times[..|times| - 1], times[|times| - 1];
      TimesOfLog(key, front);
      hide Times, AllTimes;
      TimesSnoc(OpenedLog(key, front), Opening(key, last, false), key);
      assert front + [last] == times;
    }
  }

  /** A time long enough before `t` for any chat to have been idle. */
  function LongBefore(cfg: Config, t: real): (heard: real)
    ensures heard != 0.0 && forall kind :: t - heard >= IdleNeeded(cfg, kind)
  {
    var heard := t - MaxReal(0.0, MaxReal(cfg.personIdle, cfg.groupQuiet));
    if heard == 0.0 then -1.0 else heard
  }

  /** Whether such a chat is opened again at `t`: at most twenty of the earlier openings are counted. */
  predicate OpensAt(cfg: Config, kind: Kind, heard: real, times: seq<real>, t: real) {
    && LastOpened(times) <= t && IsGreetingHour(cfg, t) && t - heard >= IdleNeeded(cfg, kind)
    && CountSince(LastN(times, OPENED_KEPT), t - DAY) < ChatLimit(cfg, kind)
    && CountSince(LastN(times, OPENED_KEPT), cfg.midnight(t)) < DailyLimit(cfg)
  }

  lemma OpensAgain(cfg: Config, key: Key, heard: real, times: seq<real>, t: real)
    requires heard != 0.0 && OpensAt(cfg, key.kind, heard, times, t)
    ensures var begin := Begin(0, t, _ => true);
            && Enabled(cfg, Opened(key, heard, times), begin)
            && Enabled(cfg, Next(cfg, Opened(key, heard, times), begin), Finish(false))
            && Next(cfg, Next(cfg, Opened(key, heard, times), begin), Finish(false)) == Opened(key, heard, times + [t])
  {
    var s := Opened(key, heard, times);
    assert s.chats[..0] == [] && OpenedSince(s.chats[..0], cfg.midnight(t)) == 0;
    KeptTimesSnoc(times, t);
    assert (times + [t])[..|times|] == times;
    hide CountSince, LastN;
  }

  ghost predicate OpensAll(cfg: Config, kind: Kind, heard: real, times: seq<real>) {
    forall k: nat :: k < |times| ==> OpensAt(cfg, kind, heard, times[..k], times[k])
  }

  lemma {:induction false} OpenedIsReached(cfg: Config, key: Key, heard: real, times: seq<real>)
    requires heard != 0.0 && OpensAll(cfg, key.kind, heard, times)
    ensures IsReached(cfg, Opened(key, heard, times))
  {
    hide *;
    if times == [] {
      JustHeard(cfg, key, heard, times);
    } else {
      var n: nat := |times| - 1;
      FrontOpens(cfg, key.kind, heard, times);
      assert times[..n] + [times[n]] == times;
      OpensAgain(cfg, key, heard, times[..n], times[n]);
      OpenedIsReached(cfg, key, heard, times[..n]);
      var begin: Step := Begin(0, times[n], _ => true);
      var before := Opened(key, heard, times[..n]);
      GoesOn(cfg, before, begin);
      GoesOn(cfg, Next(cfg, before, begin), Finish(false));
    }
  }

  lemma JustHeard(cfg: Config, key: Key, heard: real, times: seq<real>)
    requires times == []
    ensures IsReached(cfg, Opened(key, heard, times))
  {
    StartReached(cfg);
    hide IsReached;
    GoesOn(cfg, INITIAL, Hear(key, heard));
    assert Heard([], key, heard) == [Chat(key, heard, times, 0)];
    assert Next(cfg, INITIAL, Hear(key, heard)) == Opened(key, heard, times);
  }

  lemma FrontOpens(cfg: Config, kind: Kind, heard: real, times: seq<real>)
    requires times != [] && OpensAll(cfg, kind, heard, times)
    ensures var n := |times| - 1;
            OpensAll(cfg, kind, heard, times[..n]) && OpensAt(cfg, kind, heard, times[..n], times[n])
  {
    hide OpensAt;
    var n: nat := |times| - 1;
    assert OpensAt(cfg, kind, heard, times[..n], times[n]);
    forall k: nat | k < n
      ensures OpensAt(cfg, kind, heard, times[..n][..k], times[..n][k])
    {
      assert times[..n][..k] == times[..k];
    }
  }

  // ---------------------------------------------------------------------------------------
  // So many openings at each of some times
  // ---------------------------------------------------------------------------------------

  function Repeated(times: seq<real>, n: nat): (r: seq<real>)
    ensures |r| == |times| * n
  {
    if times == [] then []
    else
      OneMore(|times| - 1, n);
      Repeated(times[..|times| - 1], n) + seq(n, _ => times[|times| - 1])
  }

  lemma {:induction false} RepeatedFits(times: seq<real>, n: nat, i: nat)
    requires i < |Repeated(times, n)|
    ensures Repeated(times, n)[i] in times
  {
    var front := Repeated(times[..|times| - 1], n);
    if i < |front| {
      RepeatedFits(times[..|times| - 1], n, i);
    }
  }

  lemma {:induction false} RepeatedAscends(times: seq<real>, n: nat)
    requires Ascending(times)
    ensures Ascending(Repeated(times, n))
    ensures var r := Repeated(times, n); r != [] ==> times != [] && r[|r| - 1] <= times[|times| - 1]
  {
    if times != [] {
      var front := times[..|times| - 1];
      RepeatedAscends(front, n);
    }
  }

  lemma {:induction false} CountOfSum(times: seq<real>, more: seq<real>, since: real)
    ensures CountSince(times + more, since) <= CountSince(times, since) + |more|
  {
    if more == [] {
      assert times + more == times;
    } else {
      assert (times + more)[..|times + more| - 1] == times + more[..|more| - 1];
      CountOfSum(times, more[..|more| - 1], since);
    }
  }

  /** Of those before, fewer than `n` count from the start that belongs to each. */
  lemma {:induction false} RepeatedCount(times: seq<real>, n: nat, start: real -> real, k: nat)
    requires Ascending(times) && Apart(times, start) && k < |Repeated(times, n)|
    ensures CountSince(Repeated(times, n)[..k], start(Repeated(times, n)[k])) < n
  {
    var m := |times| - 1;
    var all, front := Repeated(times, n), Repeated(times[..m], n);
    if k < |front| {
      assert all[..k] == front[..k];
      RepeatedCount(times[..m], n, start, k);
    } else {
      assert all[..k] == front + seq(k - |front|, _ => times[m]);
      RepeatedAscends(times[..m], n);
      NoneSince(front, start(times[m]));
      CountOfSum(front, seq(k - |front|, _ => times[m]), start(times[m]));
    }
  }

  lemma {:induction false} CountAtMost(times: seq<real>, since: real)
    ensures CountSince(times, since) <= |times|
  {
    if times != [] {
      CountAtMost(times[..|times| - 1], since);
    }
  }

  /** Of the openings kept no more count than of all, nor more than twenty. */
  lemma KeptCountAtMost(times: seq<real>, since: real)
    requires Ascending(times)
    ensures CountSince(LastN(times, OPENED_KEPT), since) <= OPENED_KEPT
    ensures CountSince(LastN(times, OPENED_KEPT), since) <= CountSince(times, since)
  {
    KeptCount(times, since, OPENED_KEPT);
    hide CountSince, LastN;
  }

  lemma InOrder(cfg: Config, times: seq<real>, k: nat)
    requires Ascending(times) && AllOnHours(cfg, times) && k < |times|
    ensures Ascending(times[..k]) && LastOpened(times[..k]) <= times[k] && IsGreetingHour(cfg, times[k])
    ensures times[0] <= times[k] && times[k] >= 0.0
  {}

  lemma RepeatedOnHours(cfg: Config, times: seq<real>, n: nat, count: nat)
    requires Ascending(times) && AllOnHours(cfg, times) && count <= |times| * n
    ensures var r := Repeated(times, n)[..count];
            Ascending(r) && AllOnHours(cfg, r) && (r != [] ==> times != [] && times[0] <= r[0])
  {
    hide Repeated;
    RepeatedAscends(times, n);
    forall i | 0 <= i < count
      ensures Repeated(times, n)[i] in times
    {
      RepeatedFits(times, n, i);
    }
    ElementsOnHours(cfg, times, Repeated(times, n)[..count]);
  }

  // ---------------------------------------------------------------------------------------
  // The daily limit
  // ---------------------------------------------------------------------------------------

  lemma ApartAscends(times: seq<real>)
    requires Apart(times, DayBefore())
    ensures Ascending(times)
  {
    forall i, j | 0 <= i <= j < |times|
      ensures times[i] <= times[j]
    {
      LaterLater(times, i, j);
    }
  }

  lemma {:induction false} LaterLater(times: seq<real>, i: nat, j: nat)
    requires Apart(times, DayBefore()) && i <= j < |times|
    ensures times[j] - times[i] >= (j - i) as real * DAY
    ensures i < j ==> times[j] - times[i] > (j - i) as real * DAY
  {
    if i < j {
      LaterLater(times, i, j - 1);
      assert times[j - 1] < DayBefore()(times[j]);
    }
  }

  /** A chat opened as often as its limit at each of some times of a day: more than twenty in all. */
  lemma TwentyOneInADay(cfg: Config, key: Key, times: seq<real>, now: real) returns (plan: seq<real>)
    requires WithinDay(cfg, times, now) && |times| * ChatLimit(cfg, key.kind) > OPENED_KEPT
    requires DailyLimit(cfg) > OPENED_KEPT
    ensures |plan| == OPENED_KEPT + 1 && cfg.midnight(now) <= plan[0] && plan[|plan| - 1] <= now
    ensures Ascending(plan) && OpensAll(cfg, key.kind, LongBefore(cfg, plan[0]), plan)
  {
    var limit := ChatLimit(cfg, key.kind);
    var count := OPENED_KEPT + 1;
    var all := Repeated(times, limit);
    TimesWithinDay(cfg, times, now);
    hide WithinDay, ChatLimit, DailyLimit, IsGreetingHour, AllOnHours, LongBefore, Ascending, Apart;
    hide CountSince, LastN, Repeated, LastOpened;
    RepeatedAscends(times, limit);
    RepeatedOnHours(cfg, times, limit, count);
    plan := all[..count];
    Later(times, plan, all);
    var heard := LongBefore(cfg, plan[0]);
    forall k: nat | k < count
      ensures OpensAt(cfg, key.kind, heard, plan[..k], plan[k])
    {
      assert plan[..k] == all[..k] && plan[k] == all[k];
      InOrder(cfg, plan, k);
      RepeatedCount(times, limit, DayBefore(), k);
      KeptCountAtMost(plan[..k], plan[k] - DAY);
      KeptCountAtMost(plan[..k], cfg.midnight(plan[k]));
    }
  }

  lemma TimesWithinDay(cfg: Config, times: seq<real>, now: real)
    requires WithinDay(cfg, times, now)
    ensures times != [] && AllOnHours(cfg, times) && Ascending(times) && Apart(times, DayBefore())
    ensures cfg.midnight(now) <= times[0] && times[|times| - 1] <= now
  {
    ApartAscends(times);
  }

  lemma Later(times: seq<real>, plan: seq<real>, all: seq<real>)
    requires Ascending(all) && plan != [] && plan <= all && times != [] && all[|all| - 1] <= times[|times| - 1]
    ensures plan[|plan| - 1] <= times[|times| - 1]
  {}

  /** Another chat of that kind. */
  function Other(key: Key, n: nat): (other: Key)
    ensures other.kind == key.kind && |other.id| == |key.id| + n
  {
    Key(key.kind, key.id + seq(n, i => 'x'))
  }

  /** And then `n` other chats opened once each. */
  function Joined(key: Key, heard: real, times: seq<real>, now: real, n: nat): State {
    if n == 0 then Opened(key, heard, times)
    else
      var s := Joined(key, heard, times, now, n - 1);
      State(s.chats + [Chat(Other(key, n), heard, [now], 0)], None, now,
            s.log + [Inbound(Other(key, n))] + [Opening(Other(key, n), now, false)])
  }

  lemma {:induction false} JoinedShape(key: Key, heard: real, times: seq<real>, now: real, n: nat, since: real)
    requires Ascending(times) && LastOpened(times) <= now
    ensures var s := Joined(key, heard, times, now, n);
            && s.pending.None? && s.now <= now && |s.chats| == n + 1
            && OpenedSince(s.chats, since) <= OPENED_KEPT + n
            && forall i :: 0 <= i < |s.chats| ==> |s.chats[i].key.id| <= |key.id| + n
  {
    if n == 0 {
      KeptCountAtMost(times, since);
      var chats := Opened(key, heard, times).chats;
      assert chats[..0] == [] && OpenedSince(chats[..0], since) == 0;
      hide CountSince, LastN;
    } else {
      JoinedShape(key, heard, times, now, n - 1, since);
      var before, after := Joined(key, heard, times, now, n - 1).chats, Joined(key, heard, times, now, n).chats;
      assert after[..n] == before;
      CountAtMost([now], since);
      hide CountSince, LastN;
    }
  }

  lemma {:induction false} JoinedTimes(key: Key, heard: real, times: seq<real>, now: real, n: nat)
    ensures AllTimes(Joined(key, heard, times, now, n).log) == times + seq(n, _ => now)
  {
    LogOfJoined(key, heard, times, now, n);
    hide *;
    if n == 0 {
      TimesOfLog(key, times);
      assert times + seq(n, _ => now) == times;
    } else {
      JoinedTimes(key, heard, times, now, n - 1);
      var log, other := Joined(key, heard, times, now, n - 1).log, Other(key, n);
      TimesSnoc(log, Inbound(other), other);
      TimesSnoc(log + [Inbound(other)], Opening(other, now, false), other);
      assert times + seq(n - 1, _ => now) + [now] == times + seq(n, _ => now);
    }
  }

  lemma LogOfJoined(key: Key, heard: real, times: seq<real>, now: real, n: nat)
    ensures var log := Joined(key, heard, times, now, n).log;
            if n == 0 then log == OpenedLog(key, times)
            else log == Joined(key, heard, times, now, n - 1).log + [Inbound(Other(key, n))]
                        + [Opening(Other(key, n), now, false)]
  {}

  lemma FindNew(chats: seq<Chat>, key: Key)
    requires forall i :: 0 <= i < |chats| ==> chats[i].key != key
    ensures Find(chats, key) == |chats|
  {}

  lemma OneJoins(cfg: Config, s: State, other: Key, heard: real, now: real)
    requires IsReached(cfg, s) && s.pending.None? && s.now <= now
    requires forall i :: 0 <= i < |s.chats| ==> s.chats[i].key != other
    requires heard != 0.0 && now - heard >= IdleNeeded(cfg, other.kind) && ChatLimit(cfg, other.kind) > 0
    requires IsGreetingHour(cfg, now) && OpenedSince(s.chats, cfg.midnight(now)) < DailyLimit(cfg)
    ensures IsReached(cfg, State(s.chats + [Chat(other, heard, [now], 0)], None, now,
                                 s.log + [Inbound(other)] + [Opening(other, now, false)]))
  {
    var known := s.(chats := s.chats + [Chat(other, heard, [], 0)], log := s.log + [Inbound(other)]);
    var begin: Step := Begin(|s.chats|, now, _ => true);
    var chosen := known.(pending := Some((|s.chats|, now)), now := now);
    hide IsReached, IsGreetingHour, ChatLimit, DailyLimit, IdleNeeded;
    OtherHeard(cfg, s, other, heard);
    MayJoin(cfg, known, s.chats, other, heard, now);
    hide Enabled, Find, OpenedSince;
    GoesOn(cfg, s, Hear(other, heard));
    GoesOn(cfg, known, begin);
    HasJoined(cfg, chosen, s.chats, other, heard);
    GoesOn(cfg, chosen, Finish(false));
  }

  lemma OtherHeard(cfg: Config, s: State, other: Key, heard: real)
    requires forall i :: 0 <= i < |s.chats| ==> s.chats[i].key != other
    ensures Enabled(cfg, s, Hear(other, heard))
    ensures Next(cfg, s, Hear(other, heard))
         == s.(chats := s.chats + [Chat(other, heard, [], 0)], log := s.log + [Inbound(other)])
  {
    FindNew(s.chats, other);
    hide Find;
  }

  lemma MayJoin(cfg: Config, known: State, chats: seq<Chat>, other: Key, heard: real, now: real)
    requires known.chats == chats + [Chat(other, heard, [], 0)] && known.pending.None? && known.now <= now
    requires heard != 0.0 && now - heard >= IdleNeeded(cfg, other.kind) && ChatLimit(cfg, other.kind) > 0
    requires IsGreetingHour(cfg, now) && OpenedSince(chats, cfg.midnight(now)) < DailyLimit(cfg)
    ensures Enabled(cfg, known, Begin(|chats|, now, _ => true))
  {
    assert known.chats[..|chats|] == chats;
    hide IsGreetingHour;
  }

  lemma HasJoined(cfg: Config, chosen: State, chats: seq<Chat>, other: Key, heard: real)
    requires chosen.chats == chats + [Chat(other, heard, [], 0)] && chosen.pending == Some((|chats|, chosen.now))
    ensures Enabled(cfg, chosen, Finish(false))
    ensures Next(cfg, chosen, Finish(false))
         == State(chats + [Chat(other, heard, [chosen.now], 0)], None, chosen.now,
                  chosen.log + [Opening(other, chosen.now, false)])
  {
    assert [] + [chosen.now] == [chosen.now];
    assert Recorded(chosen.chats, |chats|, chosen.now, false) == chats + [Chat(other, heard, [chosen.now], 0)];
  }

  lemma {:induction false} JoinedIsReached(cfg: Config, key: Key, heard: real, times: seq<real>, now: real, n: nat)
    requires IsReached(cfg, Opened(key, heard, times)) && Ascending(times) && LastOpened(times) <= now
    requires heard != 0.0 && now - heard >= IdleNeeded(cfg, key.kind) && ChatLimit(cfg, key.kind) > 0
    requires IsGreetingHour(cfg, now) && OPENED_KEPT + n <= DailyLimit(cfg)
    ensures IsReached(cfg, Joined(key, heard, times, now, n))
  {
    hide IsReached, OpenedSince, IsGreetingHour, Opened, IdleNeeded, ChatLimit, DailyLimit;
    if n > 0 {
      JoinedIsReached(cfg, key, heard, times, now, n - 1);
      JoinedShape(key, heard, times, now, n - 1, cfg.midnight(now));
      OneJoins(cfg, Joined(key, heard, times, now, n - 1), Other(key, n), heard, now);
    }
  }

  /** Where the openings kept cannot tell, the daily limit is exceeded in some reachable state. */
  lemma OverDailyLimit(cfg: Config, kind: Kind, times: seq<real>, now: real) returns (s: State)
    requires WithinDay(cfg, times, now) && |times| * ChatLimit(cfg, kind) > OPENED_KEPT
    requires DailyLimit(cfg) > OPENED_KEPT
    ensures IsReached(cfg, s) && !DayRule(cfg, s.log)
  {
    var key, n := Key(kind, ""), DailyLimit(cfg) - OPENED_KEPT;
    var plan := TwentyOneInADay(cfg, key, times, now);
    assert ChatLimit(cfg, kind) > 0;
    assert IsGreetingHour(cfg, now);
    hide WithinDay, ChatLimit, DailyLimit, IsGreetingHour, IsReached, OpensAll, Opened, Joined, AllTimes;
    var heard := LongBefore(cfg, plan[0]);
    hide LongBefore, IdleNeeded;
    OpenedIsReached(cfg, key, heard, plan);
    JoinedIsReached(cfg, key, heard, plan, now, n);
    s := Joined(key, heard, plan, now, n);
    JoinedTimes(key, heard, plan, now, n);
    var all := AllTimes(s.log);
    assert all[0] == plan[0] && all[DailyLimit(cfg)] == now;
  }

  /** No local day has more openings than the daily limit. */
  ghost predicate DaysWithin(cfg: Config, log: seq<Event>) {
    forall day :: OfDay(AllTimes(log), cfg.midnight, day) <= DailyLimit(cfg)
  }

  lemma DaysWithinIff(cfg: Config, s: State)
    requires IsReached(cfg, s) && IsCalendar(cfg.midnight)
    ensures DayRule(cfg, s.log) <==> DaysWithin(cfg, s.log)
  {
    ReachedKeeps(cfg, s);
    var times := AllTimes(s.log);
    assert Within(times, s.now);
    hide IsReached, IsCalendar, AllTimes, Inv;
    DayRuleIsDays(times, DailyLimit(cfg), cfg.midnight);
  }

  /**
   * In every run each opening is among the first `daily_limit` of its local day, and so no day has
   * more, exactly if the openings kept can tell how many the day has had.
   */
  lemma DailyLimitIff(cfg: Config)
    ensures DayCountable(cfg) <==> forall s :: IsReached(cfg, s) ==> DayRule(cfg, s.log)
    ensures IsCalendar(cfg.midnight) ==>
              (DayCountable(cfg) <==> forall s :: IsReached(cfg, s) ==> DaysWithin(cfg, s.log))
  {
    if DayCountable(cfg) {
      hide IsReached, DayCountable, DayRule;
      forall s | IsReached(cfg, s)
        ensures DayRule(cfg, s.log)
      {
        ReachedKeeps(cfg, s);
      }
    } else {
      var kind, times, now :| WithinDay(cfg, times, now) && |times| * ChatLimit(cfg, kind) > OPENED_KEPT;
      var s := OverDailyLimit(cfg, kind, times, now);
      assert IsReached(cfg, s) && !DayRule(cfg, s.log);
    }
    if IsCalendar(cfg.midnight) {
      hide IsReached, DaysWithin, DayRule, IsCalendar;
      forall s | IsReached(cfg, s)
        ensures DayRule(cfg, s.log) <==> DaysWithin(cfg, s.log)
      {
        DaysWithinIff(cfg, s);
      }
    }
  }

  /** No greeting hour is more than so many times 24 hours into its local day. */
  ghost predicate ShortDays(cfg: Config, n: nat) {
    forall t :: IsGreetingHour(cfg, t) ==> t - cfg.midnight(t) <= n as real * DAY
  }

  /** With days of at most `n` times 24 hours, chats of up to twenty openings in as many are told. */
  lemma CountableOnShortDays(cfg: Config, n: nat)
    requires ShortDays(cfg, n) && n > 0 && n * Max(1, cfg.groupDailyLimit) <= OPENED_KEPT
    ensures DayCountable(cfg)
  {
    forall kind, times, now | WithinDay(cfg, times, now)
      ensures |times| * ChatLimit(cfg, kind) <= OPENED_KEPT
    {
      LaterLater(times, 0, |times| - 1);
      assert now - cfg.midnight(now) <= n as real * DAY;
      assert |times| <= n;
      AtMost(|times|, n, ChatLimit(cfg, kind), Max(1, cfg.groupDailyLimit));
    }
  }

  lemma AtMost(a: nat, n: nat, limit: nat, most: nat)
    requires a <= n && limit <= most
    ensures a * limit <= n * most
  {}

  /** Hours that end before the day's last, on a clock shifted by an hour at most, are such a day's. */
  lemma GreetingHoursAreShort(cfg: Config)
    requires GreetingHours(cfg).0 <= GreetingHours(cfg).1 <= 23
    requires forall t :: t - cfg.midnight(t) < (cfg.hour(t) + 2) as real * 3600.0
    ensures ShortDays(cfg, 1)
    ensures cfg.groupDailyLimit <= OPENED_KEPT ==> DayCountable(cfg)
  {
    if cfg.groupDailyLimit <= OPENED_KEPT {
      CountableOnShortDays(cfg, 1);
    }
  }

  // ---------------------------------------------------------------------------------------
  // The limit of a group
  // ---------------------------------------------------------------------------------------

  /** Greeting hours of as many local days, all within 24 hours. */
  ghost predicate AcrossDays(cfg: Config, times: seq<real>) {
    && times != [] && AllOnHours(cfg, times) && Ascending(times) && Apart(times, cfg.midnight)
    && times[|times| - 1] - times[0] <= DAY
  }

  /** Either twenty openings reach the group's limit, or the limits of the days within 24 hours are within it. */
  ghost predicate GroupCountable(cfg: Config) {
    || cfg.groupDailyLimit <= OPENED_KEPT
    || forall times :: AcrossDays(cfg, times) ==>
         DailyLimit(cfg) <= OPENED_KEPT && |times| * DailyLimit(cfg) <= cfg.groupDailyLimit
  }

  /** A chat's openings are some of all. */
  lemma {:induction false} OfOneChat(log: seq<Event>, key: Key, since: real)
    ensures CountSince(Times(log, key), since) <= CountSince(AllTimes(log), since)
  {
    if log != [] {
      var front, e := log[..|log| - 1], log[|log| - 1];
      assert front + [e] == log;
      hide *;
      OfOneChat(front, key, since);
      TimesSnoc(front, e, key);
      if e.Opening? {
        CountSnoc(Times(front, key), e.at, since);
        CountSnoc(AllTimes(front), e.at, since);
      }
    }
  }

  /** So what holds of the days of all holds of the days of one. */
  lemma {:induction false} ChatKeepsDayRule(cfg: Config, log: seq<Event>, key: Key)
    requires DayRule(cfg, log) && Ascending(AllTimes(log)) && Ascending(Times(log, key)) && DailyLimit(cfg) > 0
    ensures Spaced(Times(log, key), DailyLimit(cfg), cfg.midnight)
  {
    if log != [] {
      var front, e := log[..|log| - 1], log[|log| - 1];
      assert front + [e] == log;
      TimesSnoc(front, e, key);
      hide Times, AllTimes, CountSince, DailyLimit;
      FrontSpaced(AllTimes(front), AllTimes(log), DailyLimit(cfg), cfg.midnight);
      FrontAscending(Times(front, key), Times(log, key));
      ChatKeepsDayRule(cfg, front, key);
      if e.Opening? && e.key == key {
        var since := cfg.midnight(e.at);
        LastSpaced(AllTimes(front), e.at, DailyLimit(cfg), cfg.midnight);
        OfOneChat(front, key, since);
        SpacedSnoc(Times(front, key), DailyLimit(cfg), cfg.midnight, e.at);
      }
    }
  }

  lemma FrontAscending(front: seq<real>, times: seq<real>)
    requires front <= times && Ascending(times)
    ensures Ascending(front)
  {}

  lemma FrontSpaced(front: seq<real>, times: seq<real>, limit: nat, start: real -> real)
    requires front <= times && Spaced(times, limit, start) && Ascending(times)
    ensures Spaced(front, limit, start) && Ascending(front)
  {
    forall j | limit <= j < |front|
      ensures front[j - limit] < start(front[j])
    {
      assert times[j - limit] < start(times[j]);
    }
  }

  lemma LastSpaced(times: seq<real>, at: real, limit: nat, start: real -> real)
    requires Spaced(times + [at], limit, start) && Ascending(times) && limit > 0
    ensures CountSince(times, start(at)) < limit
  {
    CountBelow(times, start(at), limit);
    if |times| >= limit {
      var longer := times + [at];
      assert longer[|times| - limit] < start(longer[|times|]);
    }
  }

  lemma GroupLimitKept(cfg: Config, s: State, key: Key)
    requires IsReached(cfg, s) && key.kind == Group && GroupCountable(cfg) && forall t :: cfg.midnight(t) <= t
    ensures ChatRule(cfg, s.log, key)
  {
    hide IsReached, Inv, Times, AllTimes, OnHours, DayCountable, DayRule;
    ReachedKeeps(cfg, s);
    var times, limit := Times(s.log, key), cfg.groupDailyLimit;
    if limit > OPENED_KEPT {
      hide GroupCountable;
      forall j | limit <= j < |times|
        ensures times[j - limit] < DayBefore()(times[j])
      {
        if times[j - limit] >= times[j] - DAY {
          ManyDays(cfg, s, key, j);
        }
      }
    }
  }

  lemma ReachedChat(cfg: Config, s: State, key: Key)
    requires IsReached(cfg, s)
    ensures AllOnHours(cfg, Times(s.log, key)) && Ascending(Times(s.log, key)) && Ascending(AllTimes(s.log))
    ensures DailyLimit(cfg) <= OPENED_KEPT ==> DayRule(cfg, s.log)
  {
    hide IsReached, Times, AllTimes, DayRule;
    ReachedKeeps(cfg, s);
    ChatOnHours(cfg, s.log, key);
    assert Within(Times(s.log, key), s.now);
  }

  lemma OneDay(cfg: Config, times: seq<real>, j: nat)
    requires AllOnHours(cfg, times) && j < |times|
    ensures AcrossDays(cfg, [times[j]])
  {
    hide IsGreetingHour;
  }

  /** An opening with as many others of its group in the 24 hours before takes more days than there are. */
  lemma ManyDays(cfg: Config, s: State, key: Key, j: nat)
    requires IsReached(cfg, s) && key.kind == Group && cfg.groupDailyLimit > OPENED_KEPT
    requires forall t :: cfg.midnight(t) <= t
    requires cfg.groupDailyLimit <= j < |Times(s.log, key)|
    requires Times(s.log, key)[j - cfg.groupDailyLimit] >= Times(s.log, key)[j] - DAY
    ensures !GroupCountable(cfg)
  {
    hide IsReached, Times, AllTimes, IsGreetingHour, AllOnHours, DailyLimit, DayRule, ChatRule;
    var times, limit := Times(s.log, key), cfg.groupDailyLimit;
    ReachedChat(cfg, s, key);
    hide DayCountable, Ascending, Apart;
    OneDay(cfg, times, j);
    assert |[times[j]]| == 1;
    if DailyLimit(cfg) <= OPENED_KEPT {
      SomeDailyLimit(cfg, s.log, key);
      ChatKeepsDayRule(cfg, s.log, key);
      FrontSpaced(times[..j + 1], times, DailyLimit(cfg), cfg.midnight);
      var r := ThinnedOut(times[..j + 1], DailyLimit(cfg), cfg.midnight, limit + 1);
      ElementsOnHours(cfg, times, r);
      ApartByDay(cfg, r);
      assert AcrossDays(cfg, r);
    }
  }

  lemma {:induction false} ApartByDay(cfg: Config, times: seq<real>)
    requires Apart(times, cfg.midnight) && forall t :: cfg.midnight(t) <= t
    ensures Ascending(times)
  {
    if times != [] {
      var n := |times| - 1;
      ApartByDay(cfg, times[..n]);
      assert n > 0 ==> times[n - 1] < cfg.midnight(times[n]) <= times[n];
    }
  }

  lemma SomeDailyLimit(cfg: Config, log: seq<Event>, key: Key)
    requires DayRule(cfg, log) && Times(log, key) != [] && forall t :: cfg.midnight(t) <= t
    ensures DailyLimit(cfg) > 0
  {
    OfOneChat(log, key, Times(log, key)[0]);
    SomeCount(Times(log, key), 0);
    var times := AllTimes(log);
    assert Spaced(times, 0, cfg.midnight) ==> forall t <- times :: t < cfg.midnight(t);
    assert times != [];
    assert times[0] in times;
  }

  lemma {:induction false} SomeCount(times: seq<real>, i: nat)
    requires i < |times|
    ensures CountSince(times, times[i]) > 0
  {
    if i < |times| - 1 {
      SomeCount(times[..|times| - 1], i);
    }
  }

  /** Where that is not so, some group has more openings in 24 hours than its limit. */
  lemma OverGroupLimit(cfg: Config, times: seq<real>, key: Key) returns (s: State)
    requires AcrossDays(cfg, times) && key.kind == Group && cfg.groupDailyLimit > OPENED_KEPT
    requires DailyLimit(cfg) > OPENED_KEPT || |times| * DailyLimit(cfg) > cfg.groupDailyLimit
    ensures IsReached(cfg, s) && !ChatRule(cfg, s.log, key)
  {
    hide IsReached, Opened, OpensAll, Times, LongBefore, DailyLimit, IsGreetingHour, Ascending, Apart;
    var limit, heard := cfg.groupDailyLimit, LongBefore(cfg, times[0]);
    var plan: seq<real>;
    if DailyLimit(cfg) > OPENED_KEPT {
      plan := AtOnce(cfg, times[0], limit + 1);
    } else {
      plan := DayByDay(cfg, times);
    }
    hide AcrossDays;
    assert heard != 0.0;
    s := Opened(key, heard, plan);
    OpenedIsReached(cfg, key, heard, plan);
    TimesOfOpened(key, heard, plan);
    TooMany(cfg, s.log, key, limit);
  }

  lemma TimesOfOpened(key: Key, heard: real, times: seq<real>)
    ensures Times(Opened(key, heard, times).log, key) == times
  {
    TimesOfLog(key, times);
    hide Times;
  }

  lemma TooMany(cfg: Config, log: seq<Event>, key: Key, limit: nat)
    requires limit == ChatLimit(cfg, key.kind) < |Times(log, key)| && Times(log, key)[limit] - Times(log, key)[0] <= DAY
    ensures !ChatRule(cfg, log, key)
  {
    hide Times;
    var times := Times(log, key);
    var j := limit;
    assert !(times[j - limit] < DayBefore()(times[j]));
  }

  /** Limits above twenty do not stop a group from being opened any number of times at once. */
  lemma AtOnce(cfg: Config, at: real, n: nat) returns (plan: seq<real>)
    requires at >= 0.0 && IsGreetingHour(cfg, at) && cfg.groupDailyLimit > OPENED_KEPT && DailyLimit(cfg) > OPENED_KEPT
    ensures plan == seq(n, _ => at) && OpensAll(cfg, Group, LongBefore(cfg, at), plan)
  {
    plan := seq(n, _ => at);
    hide CountSince, LastN, IsGreetingHour, LongBefore;
    forall k: nat | k < n
      ensures OpensAt(cfg, Group, LongBefore(cfg, at), plan[..k], plan[k])
    {
      KeptCountAtMost(plan[..k], at - DAY);
      KeptCountAtMost(plan[..k], cfg.midnight(at));
    }
  }

  /** Nor does one above twenty keep it from the whole limit of each day. */
  lemma DayByDay(cfg: Config, times: seq<real>) returns (plan: seq<real>)
    requires AcrossDays(cfg, times) && cfg.groupDailyLimit > OPENED_KEPT
    ensures |plan| == |times| * DailyLimit(cfg) && OpensAll(cfg, Group, LongBefore(cfg, times[0]), plan)
    ensures forall i :: 0 <= i < |plan| ==> plan[i] - plan[0] <= DAY
  {
    var limit, heard := DailyLimit(cfg), LongBefore(cfg, times[0]);
    plan := Repeated(times, limit);
    var count := |times| * limit;
    assert plan[..count] == plan;
    RepeatedOnHours(cfg, times, limit, count);
    RepeatedAscends(times, limit);
    hide DailyLimit, IsGreetingHour, CountSince, LastN, Repeated, LongBefore, AllOnHours, LastOpened;
    forall k: nat | k < count
      ensures OpensAt(cfg, Group, heard, plan[..k], plan[k])
    {
      InOrder(cfg, plan, k);
      RepeatedCount(times, limit, cfg.midnight, k);
      KeptCountAtMost(plan[..k], plan[k] - DAY);
      KeptCountAtMost(plan[..k], cfg.midnight(plan[k]));
    }
  }

  /** Any 24 hours hold at most the group limit of a group's openings. */
  ghost predicate HoursWithin(cfg: Config, log: seq<Event>, key: Key) {
    forall to :: In24Hours(Times(log, key), to) <= Max(0, cfg.groupDailyLimit)
  }

  lemma HoursWithinIff(cfg: Config, s: State, key: Key)
    requires IsReached(cfg, s) && key.kind == Group
    ensures ChatRule(cfg, s.log, key) <==> HoursWithin(cfg, s.log, key)
  {
    ReachedKeeps(cfg, s);
    var times := Times(s.log, key);
    assert Within(times, s.now);
    hide IsReached, Times, In24Hours, Inv;
    ChatRuleIsHours(times, ChatLimit(cfg, Group));
  }

  /** In every run any 24 hours hold at most the group limit of a group's openings exactly if that can be told. */
  lemma GroupLimitIff(cfg: Config)
    requires forall t :: cfg.midnight(t) <= t
    ensures GroupCountable(cfg) <==>
              forall s, key: Key :: IsReached(cfg, s) && key.kind == Group ==> HoursWithin(cfg, s.log, key)
  {
    hide IsReached, HoursWithin, ChatRule;
    if GroupCountable(cfg) {
      hide GroupCountable;
      forall s, key: Key | IsReached(cfg, s) && key.kind == Group
        ensures HoursWithin(cfg, s.log, key)
      {
        GroupLimitKept(cfg, s, key);
        HoursWithinIff(cfg, s, key);
      }
    } else {
      var times :| AcrossDays(cfg, times)
        && !(DailyLimit(cfg) <= OPENED_KEPT && |times| * DailyLimit(cfg) <= cfg.groupDailyLimit);
      var key := Key(Group, "");
      hide GroupCountable, AcrossDays;
      var s := OverGroupLimit(cfg, times, key);
      HoursWithinIff(cfg, s, key);
    }
  }

  /** Local days that begin at different times begin at least so far apart. */
  ghost predicate LongDays(cfg: Config, length: real) {
    && (forall t :: cfg.midnight(t) <= t)
    && forall t, later :: cfg.midnight(t) < cfg.midnight(later) ==> cfg.midnight(later) - cfg.midnight(t) >= length
  }

  /** So many times a length. */
  function Lengths(n: nat, length: real): real {
    if n == 0 then 0.0 else Lengths(n - 1, length) + length
  }

  lemma {:induction false} MoreLengths(a: nat, b: nat, length: real)
    requires b <= a && length > 0.0
    ensures Lengths(b, length) <= Lengths(a, length)
  {
    if b < a {
      MoreLengths(a - 1, b, length);
    }
  }

  lemma NextDay(cfg: Config, length: real, t: real, later: real)
    requires LongDays(cfg, length) && t < cfg.midnight(later)
    ensures cfg.midnight(later) - cfg.midnight(t) >= length
  {
    assert cfg.midnight(t) <= t;
  }

  lemma {:induction false} DaysBetween(cfg: Config, times: seq<real>, length: real, i: nat)
    requires LongDays(cfg, length) && Apart(times, cfg.midnight) && 0 < i < |times|
    ensures cfg.midnight(times[i]) - cfg.midnight(times[1]) >= Lengths(i - 1, length)
  {
    if i > 1 {
      DaysBetween(cfg, times, length, i - 1);
      assert times[i - 1] < cfg.midnight(times[i]);
      NextDay(cfg, length, times[i - 1], times[i]);
      assert Lengths(i - 1, length) == Lengths(i - 2, length) + length;
    }
  }

  lemma FewDays(cfg: Config, times: seq<real>, length: real, n: nat)
    requires LongDays(cfg, length) && length > 0.0 && n > 0 && Lengths(n - 1, length) >= DAY
    requires AcrossDays(cfg, times)
    ensures |times| <= n
  {
    if |times| > 1 {
      var last := |times| - 1;
      hide AllOnHours, Ascending;
      DaysBetween(cfg, times, length, last);
      assert times[0] < cfg.midnight(times[1]);
      assert cfg.midnight(times[last]) <= times[last];
      if n <= last {
        MoreLengths(last - 1, n - 1, length);
      }
    }
  }

  /**
   * A group limit of at least `n` daily limits can be told when 24 hours touch at most `n` days: two
   * if no day is shorter than 24 hours, three if none is shorter than twelve.
   */
  lemma GroupLimitByDays(cfg: Config, length: real, n: nat)
    requires LongDays(cfg, length) && length > 0.0 && n > 0 && Lengths(n - 1, length) >= DAY
    requires DailyLimit(cfg) <= OPENED_KEPT && n * DailyLimit(cfg) <= cfg.groupDailyLimit
    ensures GroupCountable(cfg)
  {
    hide DailyLimit, LongDays, AcrossDays;
    forall times | AcrossDays(cfg, times)
      ensures |times| * DailyLimit(cfg) <= cfg.groupDailyLimit
    {
      FewDays(cfg, times, length, n);
      AtMost(|times|, n, DailyLimit(cfg), DailyLimit(cfg));
    }
  }

  /**
   * With both limits above twenty there is no limit: for every `n` some run opens a group `n`
   * times at a single moment.
   */
  lemma NoLimitAboveTwenty(cfg: Config, key: Key, at: real, n: nat)
    requires cfg.groupDailyLimit > OPENED_KEPT && cfg.dailyLimit > OPENED_KEPT && key.kind == Group
    requires at >= 0.0 && IsGreetingHour(cfg, at)
    ensures exists s :: IsReached(cfg, s) && CountWithin(Times(s.log, key), at, at) >= n
  {
    var plan := AtOnce(cfg, at, n);
    var heard := LongBefore(cfg, at);
    OpenedIsReached(cfg, key, heard, plan);
    var s := Opened(key, heard, plan);
    TimesOfLog(key, plan);
    CountOfWindow(plan, at, at, 0, n);
    assert IsReached(cfg, s) && CountWithin(Times(s.log, key), at, at) >= n;
  }
}
