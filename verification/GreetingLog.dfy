/**
 * The openings of reply_flow/companion.py, of which each chat keeps only the last twenty, against
 * the log of all of them.
 *
 * A tick picks a chat by what is kept; the log says what a checker that forgets nothing would have
 * seen:
 *
 *   - `Kept` ties the two, whoever is heard at whatever moment;
 *   - `Checked` is what was found when a chat was picked, and still holds when she has written;
 *   - each rule is a property of the log alone, and every step keeps it.
 *
 * The counting comes down to ascending times, where a limit holds just when the opening that many
 * places back is too old.
 */
module GreetingLog {
  import opened Common
  import opened Greetings

  /** Everything that happened: someone was heard, or she opened a chat in the tick of `at`. */
  datatype Event = Inbound(key: Key) | Opening(key: Key, at: real, sent: bool)

  /** `pending` is the chat being opened, with the tick's time. */
  datatype State = State(chats: seq<Chat>, pending: Option<(nat, real)>, now: real, log: seq<Event>)

  /** Ticks are timed from zero on; somebody may have been heard before. */
  const INITIAL := State([], None, 0.0, [])

  /** `outside` is what is decided elsewhere when a tick picks a chat. */
  datatype Step =
    | Hear(key: Key, at: real)                       // at any moment, also while she is writing
    | Begin(n: nat, now: real, outside: Key -> bool)  // a tick picks chat `n`
    | Finish(sent: bool)                             // and she has written, or chosen not to

  predicate Enabled(cfg: Config, s: State, step: Step) {
    match step
    case Hear(_, _) => true
    case Begin(n, now, outside) =>
      && s.pending.None? && s.now <= now && n < |s.chats|
      && IsGreetingHour(cfg, now) && UnderDailyLimit(cfg, s.chats, now)
      && Eligible(cfg, s.chats[n], now, outside)
    case Finish(_) => s.pending.Some? && s.pending.value.0 < |s.chats|
  }

  function Next(cfg: Config, s: State, step: Step): State
    requires Enabled(cfg, s, step)
  {
    match step
    case Hear(key, at) => s.(chats := Heard(s.chats, key, at), log := s.log + [Inbound(key)])
    case Begin(n, now, _) => s.(pending := Some((n, now)), now := now)
    case Finish(sent) =>
      var (n, now) := s.pending.value;
      State(Recorded(s.chats, n, now, sent), None, s.now, s.log + [Opening(s.chats[n].key, now, sent)])
  }

  // ---------------------------------------------------------------------------------------
  // Reading the log
  // ---------------------------------------------------------------------------------------

  /** When a chat was opened. */
  function Times(log: seq<Event>, key: Key): seq<real> {
    if log == [] then []
    else
      var e := log[|log| - 1];
      Times(log[..|log| - 1], key) + if e.Opening? && e.key == key then [e.at] else []
  }

  /** When any chat was. */
  function AllTimes(log: seq<Event>): seq<real> {
    if log == [] then []
    else
      var e := log[|log| - 1];
      AllTimes(log[..|log| - 1]) + if e.Opening? then [e.at] else []
  }

  /** Openings of a chat that were said and that nobody there answered since. */
  function Unanswered(log: seq<Event>, key: Key): nat {
    if log == [] then 0
    else
      var e := log[|log| - 1];
      if e.key != key then Unanswered(log[..|log| - 1], key)
      else if e.Inbound? then 0
      else Unanswered(log[..|log| - 1], key) + if e.sent then 1 else 0
  }

  predicate Ascending(times: seq<real>) {
    forall i, j :: 0 <= i <= j < |times| ==> times[i] <= times[j]
  }

  /** No more than `limit` openings from `start(t)` to any opening `t`. */
  ghost predicate Spaced(times: seq<real>, limit: nat, start: real -> real) {
    forall j :: limit <= j < |times| ==> times[j - limit] < start(times[j])
  }

  ghost function DayBefore(): real -> real {
    t => t - DAY
  }

  // ---------------------------------------------------------------------------------------
  // Counting in ascending times
  // ---------------------------------------------------------------------------------------

  lemma {:induction false} NoneSince(times: seq<real>, since: real)
    requires Ascending(times) && (times != [] ==> times[|times| - 1] < since)
    ensures CountSince(times, since) == 0
  {
    if times != [] {
      NoneSince(times[..|times| - 1], since);
    }
  }

  /** The count is below a limit just when the opening `limit` places back is too old. */
  lemma {:induction false} CountBelow(times: seq<real>, since: real, limit: nat)
    requires Ascending(times) && limit > 0
    ensures CountSince(times, since) < limit <==> |times| < limit || times[|times| - limit] < since
  {
    if times != [] {
      var n := |times| - 1;
      if times[n] < since {
        NoneSince(times, since);
      } else if limit > 1 {
        CountBelow(times[..n], since, limit - 1);
      }
    }
  }

  lemma CountSnoc(times: seq<real>, at: real, since: real)
    ensures CountSince(times + [at], since) == CountSince(times, since) + if at >= since then 1 else 0
  {
    assert (times + [at])[..|times|] == times;
  }

  /** Of the last `kept` times, as many count as of all, up to `kept`. */
  lemma {:induction false} KeptCount(times: seq<real>, since: real, kept: nat)
    requires Ascending(times)
    ensures CountSince(LastN(times, kept), since) ==
            if CountSince(times, since) < kept then CountSince(times, since) else kept
  {
    hide *;
    if times != [] && kept > 0 {
      var n := |times| - 1;
      var front, last := times[..n], times[n];
      FrontAscends(times);
      LastOfFront(times, kept);
      CountSnoc(front, last, since);
      CountSnoc(LastN(front, kept - 1), last, since);
      KeptCount(front, since, kept - 1);
      if last < since {
        NoneSince(front, since);
      }
    } else {
      NothingKept(times, since, kept);
    }
  }

  lemma FrontAscends(times: seq<real>)
    requires times != [] && Ascending(times)
    ensures var front, last := times[..|times| - 1], times[|times| - 1];
            Ascending(front) && times == front + [last] && (front != [] ==> front[|front| - 1] <= last)
  {}

  lemma NothingKept(times: seq<real>, since: real, kept: nat)
    requires times == [] || kept == 0
    ensures CountSince(LastN(times, kept), since) == 0 && (kept > 0 ==> CountSince(times, since) == 0)
  {
    assert LastN(times, kept) == [];
  }

  lemma LastOfFront(times: seq<real>, kept: nat)
    requires times != [] && kept > 0
    ensures LastN(times, kept) == LastN(times[..|times| - 1], kept - 1) + [times[|times| - 1]]
  {}

  lemma SpacedSnoc(times: seq<real>, limit: nat, start: real -> real, at: real)
    requires Spaced(times, limit, start) && Ascending(times) && CountSince(times, start(at)) < limit
    ensures Spaced(times + [at], limit, start)
  {
    CountBelow(times, start(at), limit);
    var longer := times + [at];
    forall j | limit <= j < |longer|
      ensures longer[j - limit] < start(longer[j])
    {
      assert j < |times| ==> longer[j] == times[j];
    }
  }

  // ---------------------------------------------------------------------------------------
  // What every step keeps
  // ---------------------------------------------------------------------------------------

  predicate Known(chats: seq<Chat>, log: seq<Event>) {
    forall i :: 0 <= i < |log| ==> Find(chats, log[i].key) < |chats|
  }

  /** A chat's record says of the log what it can. */
  predicate Faithful(c: Chat, log: seq<Event>) {
    c.openings == LastN(Times(log, c.key), OPENED_KEPT) && c.unanswered == Unanswered(log, c.key)
  }

  predicate Kept(s: State) {
    && DistinctKeys(s.chats) && Known(s.chats, s.log)
    && forall i :: 0 <= i < |s.chats| ==> Faithful(s.chats[i], s.log)
  }

  predicate Within(times: seq<real>, now: real) {
    Ascending(times) && (times != [] ==> times[|times| - 1] <= now)
  }

  ghost predicate Timely(s: State) {
    && (forall key :: Within(Times(s.log, key), s.now))
    && Within(AllTimes(s.log), s.now)
    && (s.pending.Some? ==> s.pending.value.0 < |s.chats| && s.pending.value.1 == s.now)
  }

  /** What was checked of the chat being opened still holds. */
  predicate Checked(cfg: Config, s: State) {
    s.pending.Some? && s.pending.value.0 < |s.chats| ==>
      var c := s.chats[s.pending.value.0];
      && MayOpenAgain(cfg, c, s.now)
      && CountSince(c.openings, s.now - DAY) < ChatLimit(cfg, c.key.kind)
      && UnderDailyLimit(cfg, s.chats, s.now)
  }

  lemma TimesSnoc(log: seq<Event>, e: Event, key: Key)
    ensures Times(log + [e], key) == if e.Opening? && e.key == key then Times(log, key) + [e.at] else Times(log, key)
    ensures AllTimes(log + [e]) == if e.Opening? then AllTimes(log) + [e.at] else AllTimes(log)
  {
    assert (log + [e])[..|log|] == log;
    hide Unanswered;
  }

  lemma UnansweredSnoc(log: seq<Event>, e: Event, key: Key)
    ensures Unanswered(log + [e], key) ==
            if e.key != key then Unanswered(log, key)
            else if e.Inbound? then 0
            else Unanswered(log, key) + if e.sent then 1 else 0
  {
    assert (log + [e])[..|log|] == log;
  }

  lemma {:induction false} UnknownHasNoEvents(log: seq<Event>, key: Key)
    requires forall i :: 0 <= i < |log| ==> log[i].key != key
    ensures Times(log, key) == [] && Unanswered(log, key) == 0
  {
    if log != [] {
      UnknownHasNoEvents(log[..|log| - 1], key);
    }
  }

  lemma KeptTimesSnoc(times: seq<real>, at: real)
    ensures LastN(LastN(times, OPENED_KEPT) + [at], OPENED_KEPT) == LastN(times + [at], OPENED_KEPT)
  {}

  lemma HearKeeps(cfg: Config, s: State, key: Key, at: real)
    requires Kept(s)
    ensures Kept(Next(cfg, s, Hear(key, at)))
  {
    var t := Next(cfg, s, Hear(key, at));
    var n := Find(s.chats, key);
    hide Times, Unanswered, Find, LastN;
    forall i | 0 <= i < |t.chats|
      ensures Faithful(t.chats[i], t.log)
    {
      TimesSnoc(s.log, Inbound(key), t.chats[i].key);
      UnansweredSnoc(s.log, Inbound(key), t.chats[i].key);
      if i == |s.chats| {
        UnknownHere(s, key);
      }
    }
    HearKnown(s, key, at);
  }

  lemma UnknownHere(s: State, key: Key)
    requires Kept(s) && Find(s.chats, key) == |s.chats|
    ensures LastN(Times(s.log, key), OPENED_KEPT) == [] && Unanswered(s.log, key) == 0
  {
    forall i | 0 <= i < |s.log|
      ensures s.log[i].key != key
    {
      assert Find(s.chats, s.log[i].key) < |s.chats|;
    }
    UnknownHasNoEvents(s.log, key);
  }

  lemma HearKnown(s: State, key: Key, at: real)
    requires Kept(s)
    ensures DistinctKeys(Heard(s.chats, key, at)) && Known(Heard(s.chats, key, at), s.log + [Inbound(key)])
  {
    var chats, log := Heard(s.chats, key, at), s.log + [Inbound(key)];
    hide Faithful;
    forall i | 0 <= i < |log|
      ensures Find(chats, log[i].key) < |chats|
    {
      var m := Find(s.chats, log[i].key);
      assert chats[if i < |s.log| then m else Find(s.chats, key)].key == log[i].key;
    }
  }

  lemma FinishKeeps(cfg: Config, s: State, sent: bool)
    requires Kept(s) && Enabled(cfg, s, Finish(sent))
    ensures Kept(Next(cfg, s, Finish(sent)))
  {
    var t := Next(cfg, s, Finish(sent));
    var (n, now) := s.pending.value;
    var e := Opening(s.chats[n].key, now, sent);
    hide Times, Unanswered, Find, LastN;
    forall i | 0 <= i < |t.chats|
      ensures Faithful(t.chats[i], t.log)
    {
      assert Faithful(s.chats[i], s.log);
      TimesSnoc(s.log, e, t.chats[i].key);
      UnansweredSnoc(s.log, e, t.chats[i].key);
      KeptTimesSnoc(Times(s.log, t.chats[i].key), now);
    }
    SameKeysFind(s.chats, t.chats, s.log, e);
  }

  lemma SameKeysFind(chats: seq<Chat>, after: seq<Chat>, log: seq<Event>, e: Event)
    requires Known(chats, log) && |after| == |chats| && forall i :: 0 <= i < |chats| ==> after[i].key == chats[i].key
    requires exists n :: 0 <= n < |chats| && chats[n].key == e.key
    ensures Known(after, log + [e])
  {
    forall i | 0 <= i < |log + [e]|
      ensures Find(after, (log + [e])[i].key) < |after|
    {
      if i < |log| {
        assert after[Find(chats, log[i].key)].key == log[i].key;
      }
    }
  }

  lemma TimelySnoc(s: State, e: Event)
    requires Timely(s) && (e.Opening? ==> e.at == s.now)
    ensures Timely(s.(log := s.log + [e], pending := None))
    ensures e.Inbound? ==> Timely(s.(log := s.log + [e]))
  {
    hide Times, AllTimes;
    forall key
      ensures Within(Times(s.log + [e], key), s.now)
    {
      TimesSnoc(s.log, e, key);
      assert Within(Times(s.log, key), s.now);
    }
    TimesSnoc(s.log, e, e.key);
  }

  lemma StepKeepsTimely(cfg: Config, s: State, step: Step)
    requires Timely(s) && Enabled(cfg, s, step)
    ensures Timely(Next(cfg, s, step))
  {
    var t := Next(cfg, s, step);
    hide Times, AllTimes, CountSince, OpenedSince;
    match step
    case Hear(key, _) =>
      TimelySnoc(s, Inbound(key));
    case Begin(_, now, _) =>
      forall key
        ensures Within(Times(s.log, key), now)
      {
        assert Within(Times(s.log, key), s.now);
      }
    case Finish(sent) =>
      TimelySnoc(s, Opening(s.chats[s.pending.value.0].key, s.now, sent));
  }

  lemma {:induction false} OpenedSinceHeard(chats: seq<Chat>, after: seq<Chat>, since: real)
    requires |after| == |chats| && forall i :: 0 <= i < |chats| ==> after[i].openings == chats[i].openings
    ensures OpenedSince(after, since) == OpenedSince(chats, since)
  {
    if chats != [] {
      OpenedSinceHeard(chats[..|chats| - 1], after[..|chats| - 1], since);
    }
  }

  lemma HearKeepsChecked(cfg: Config, s: State, key: Key, at: real)
    requires Checked(cfg, s) && (s.pending.Some? ==> s.pending.value.0 < |s.chats|)
    ensures Checked(cfg, Next(cfg, s, Hear(key, at)))
  {
    var chats, after := s.chats, Heard(s.chats, key, at);
    var since := cfg.midnight(s.now);
    if |after| == |chats| {
      OpenedSinceHeard(chats, after, since);
    } else {
      assert after[..|chats|] == chats;
    }
    hide OpenedSince, CountSince, Find;
  }

  // ---------------------------------------------------------------------------------------
  // The rules, on the log of everything
  // ---------------------------------------------------------------------------------------

  /** Unanswered openings stay below the stop, and one is followed by the wait. */
  predicate AnswerRule(cfg: Config, log: seq<Event>) {
    log == []
    || var front, e := log[..|log| - 1], log[|log| - 1];
       AnswerRule(cfg, front)
       && (e.Opening? ==>
             Unanswered(front, e.key) < UnansweredStop(cfg)
             && (Unanswered(front, e.key) > 0 ==> e.at - LastOpened(Times(front, e.key)) >= cfg.unansweredWait))
  }

  /** A chat is opened at most as often as its limit says in the 24 hours before an opening. */
  ghost predicate ChatRule(cfg: Config, log: seq<Event>, key: Key) {
    Spaced(Times(log, key), ChatLimit(cfg, key.kind), DayBefore())
  }

  /** All chats together are opened at most as often as the daily limit says from midnight on. */
  ghost predicate DayRule(cfg: Config, log: seq<Event>) {
    Spaced(AllTimes(log), DailyLimit(cfg), cfg.midnight)
  }

  ghost predicate Inv(cfg: Config, s: State) {
    Kept(s) && Timely(s) && Checked(cfg, s) && AnswerRule(cfg, s.log)
  }

  lemma LastOfKept(times: seq<real>)
    ensures LastOpened(LastN(times, OPENED_KEPT)) == LastOpened(times)
  {}

  lemma StepKeepsAnswerRule(cfg: Config, s: State, step: Step)
    requires Kept(s) && Timely(s) && Checked(cfg, s) && Enabled(cfg, s, step) && AnswerRule(cfg, s.log)
    ensures AnswerRule(cfg, Next(cfg, s, step).log)
  {
    var t := Next(cfg, s, step);
    if t.log != s.log {
      assert t.log[..|s.log|] == s.log;
    }
    if step.Finish? {
      var c := s.chats[s.pending.value.0];
      assert Faithful(c, s.log);
      LastOfKept(Times(s.log, c.key));
    }
    hide Times, Unanswered, Kept, OpenedSince, CountSince, LastN;
  }

  lemma FinishKeepsChatRule(cfg: Config, log: seq<Event>, c: Chat, now: real, sent: bool, key: Key)
    requires ChatRule(cfg, log, key) && Within(Times(log, key), now)
    requires c.key == key ==> Faithful(c, log) && CountSince(c.openings, now - DAY) < ChatLimit(cfg, key.kind)
    requires ChatLimit(cfg, key.kind) <= OPENED_KEPT
    ensures ChatRule(cfg, log + [Opening(c.key, now, sent)], key)
  {
    hide Times, CountSince, LastN, ChatLimit, Unanswered, Spaced, Ascending;
    TimesSnoc(log, Opening(c.key, now, sent), key);
    if c.key == key {
      KeptCount(Times(log, key), now - DAY, OPENED_KEPT);
      SpacedSnoc(Times(log, key), ChatLimit(cfg, key.kind), DayBefore(), now);
    }
  }

  lemma StepKeepsChatRule(cfg: Config, s: State, step: Step, key: Key)
    requires Inv(cfg, s) && Enabled(cfg, s, step) && ChatRule(cfg, s.log, key)
    requires ChatLimit(cfg, key.kind) <= OPENED_KEPT
    ensures ChatRule(cfg, Next(cfg, s, step).log, key)
  {
    hide Times, CountSince, OpenedSince, Spaced, Find, ChatRule, AnswerRule;
    var t := Next(cfg, s, step);
    if step.Finish? {
      var c := s.chats[s.pending.value.0];
      assert Faithful(c, s.log) && Within(Times(s.log, key), s.now);
      assert t.log == s.log + [Opening(c.key, s.now, step.sent)];
      hide *;
      FinishKeepsChatRule(cfg, s.log, c, s.now, step.sent, key);
    } else if step.Hear? {
      assert t.log == s.log + [Inbound(step.key)];
      hide *;
      TimesSnoc(s.log, Inbound(step.key), key);
      SameTimes(cfg, s.log, t.log, key);
    }
  }

  lemma SameTimes(cfg: Config, log: seq<Event>, after: seq<Event>, key: Key)
    requires ChatRule(cfg, log, key) && Times(after, key) == Times(log, key)
    ensures ChatRule(cfg, after, key)
  {}

  // ---------------------------------------------------------------------------------------
  // The day's openings, chat by chat
  // ---------------------------------------------------------------------------------------

  /** The day's openings of some chats, by the full log. */
  function FullSince(chats: seq<Chat>, log: seq<Event>, since: real): nat {
    if chats == [] then 0
    else FullSince(chats[..|chats| - 1], log, since) + CountSince(Times(log, chats[|chats| - 1].key), since)
  }

  lemma CountOfSnoc(log: seq<Event>, e: Event, key: Key, since: real)
    ensures CountSince(Times(log + [e], key), since) ==
            CountSince(Times(log, key), since) + if e.Opening? && e.at >= since && e.key == key then 1 else 0
  {
    TimesSnoc(log, e, key);
    hide CountSince, Times;
    if e.Opening? && e.key == key {
      CountSnoc(Times(log, key), e.at, since);
    }
  }

  lemma FindIn(chats: seq<Chat>, key: Key)
    requires chats != [] && DistinctKeys(chats)
    ensures var n := |chats| - 1;
            && (Find(chats, key) < |chats| <==> Find(chats[..n], key) < n || chats[n].key == key)
            && !(Find(chats[..n], key) < n && chats[n].key == key)
  {
    var n := |chats| - 1;
    assert Find(chats[..n], key) < n ==> chats[Find(chats[..n], key)].key == key;
  }

  lemma {:induction false} FullSnoc(chats: seq<Chat>, log: seq<Event>, e: Event, since: real)
    requires DistinctKeys(chats)
    ensures FullSince(chats, log + [e], since) ==
            FullSince(chats, log, since)
            + if e.Opening? && e.at >= since && Find(chats, e.key) < |chats| then 1 else 0
  {
    if chats != [] {
      var front, key := chats[..|chats| - 1], chats[|chats| - 1].key;
      FullSnoc(front, log, e, since);
      FindIn(chats, e.key);
      CountOfSnoc(log, e, key, since);
      hide CountSince, Times, Find;
    }
  }

  lemma {:induction false} FullOfNothing(chats: seq<Chat>, since: real)
    ensures FullSince(chats, [], since) == 0
  {
    if chats != [] {
      FullOfNothing(chats[..|chats| - 1], since);
    }
  }

  /** Chat by chat or all together, the same openings are counted. */
  lemma {:induction false} FullIsAll(chats: seq<Chat>, log: seq<Event>, since: real)
    requires DistinctKeys(chats) && Known(chats, log)
    ensures FullSince(chats, log, since) == CountSince(AllTimes(log), since)
  {
    if log == [] {
      FullOfNothing(chats, since);
    } else {
      var front, e := log[..|log| - 1], log[|log| - 1];
      assert Known(chats, front) && Find(chats, e.key) < |chats|;
      FullIsAll(chats, front, since);
      FullIsAllSnoc(chats, front, e, since);
      assert front + [e] == log;
      hide *;
    }
  }

  lemma FullIsAllSnoc(chats: seq<Chat>, log: seq<Event>, e: Event, since: real)
    requires DistinctKeys(chats) && Find(chats, e.key) < |chats|
    requires FullSince(chats, log, since) == CountSince(AllTimes(log), since)
    ensures FullSince(chats, log + [e], since) == CountSince(AllTimes(log + [e]), since)
  {
    hide CountSince, FullSince, AllTimes, Find, Times;
    FullSnoc(chats, log, e, since);
    TimesSnoc(log, e, e.key);
    if e.Opening? {
      CountSnoc(AllTimes(log), e.at, since);
    }
  }

  /** What the chats keep counts in full, unless twenty of one chat count already. */
  lemma {:induction false} KeptOrTwenty(chats: seq<Chat>, log: seq<Event>, since: real)
    requires forall i :: 0 <= i < |chats| ==> Faithful(chats[i], log) && Ascending(Times(log, chats[i].key))
    ensures OpenedSince(chats, since) == FullSince(chats, log, since)
            || (OpenedSince(chats, since) >= OPENED_KEPT
                && exists i :: 0 <= i < |chats| && CountSince(Times(log, chats[i].key), since) > OPENED_KEPT)
  {
    if chats != [] {
      var n := |chats| - 1;
      KeptOrTwenty(chats[..n], log, since);
      assert Faithful(chats[n], log);
      KeptCount(Times(log, chats[n].key), since, OPENED_KEPT);
      hide CountSince, Times, LastN;
      if OpenedSince(chats[..n], since) != FullSince(chats[..n], log, since) {
        var i :| 0 <= i < n && CountSince(Times(log, chats[..n][i].key), since) > OPENED_KEPT;
        assert chats[i] == chats[..n][i];
      }
    }
  }

  /** Every opening was made in the greeting hours, and so is one that is being made. */
  ghost predicate OnHours(cfg: Config, s: State) {
    && s.now >= 0.0 && (s.pending.Some? ==> IsGreetingHour(cfg, s.now))
    && AllOnHours(cfg, AllTimes(s.log))
  }

  ghost predicate AllOnHours(cfg: Config, times: seq<real>) {
    forall i :: 0 <= i < |times| ==> times[i] >= 0.0 && IsGreetingHour(cfg, times[i])
  }

  lemma {:induction false} ChatOnHours(cfg: Config, log: seq<Event>, key: Key)
    requires AllOnHours(cfg, AllTimes(log))
    ensures AllOnHours(cfg, Times(log, key))
  {
    if log != [] {
      var front, e := log[..|log| - 1], log[|log| - 1];
      assert front + [e] == log;
      TimesSnoc(front, e, key);
      hide AllTimes, Times, IsGreetingHour;
      assert forall i :: 0 <= i < |AllTimes(front)| ==> AllTimes(log)[i] == AllTimes(front)[i];
      assert e.Opening? ==> AllTimes(log)[|AllTimes(front)|] == e.at;
      ChatOnHours(cfg, front, key);
    }
  }

  lemma StepKeepsHours(cfg: Config, s: State, step: Step)
    requires OnHours(cfg, s) && Timely(s) && Enabled(cfg, s, step)
    ensures OnHours(cfg, Next(cfg, s, step))
  {
    hide AllTimes, Times, IsGreetingHour, CountSince, OpenedSince, Find;
    match step
    case Hear(key, _) =>
      TimesSnoc(s.log, Inbound(key), key);
    case Begin(_, _, _) =>
    case Finish(sent) =>
      var e := Opening(s.chats[s.pending.value.0].key, s.now, sent);
      TimesSnoc(s.log, e, e.key);
  }

  // ---------------------------------------------------------------------------------------
  // Places so many openings apart
  // ---------------------------------------------------------------------------------------

  /** Every `limit`-th of some times, counted from the last. */
  function EveryNth(times: seq<real>, limit: nat): (r: seq<real>)
    requires limit > 0
    ensures times == [] <==> r == []
    ensures r != [] ==> r[|r| - 1] == times[|times| - 1]
  {
    if times == [] then []
    else EveryNth(times[..Max(0, |times| - limit)], limit) + [times[|times| - 1]]
  }

  /** Each of some times is before the start that belongs to the next. */
  ghost predicate Apart(times: seq<real>, start: real -> real) {
    forall i :: 0 < i < |times| ==> times[i - 1] < start(times[i])
  }

  lemma {:induction false} EveryNthFits(times: seq<real>, limit: nat, i: nat)
    requires limit > 0 && i < |EveryNth(times, limit)|
    ensures EveryNth(times, limit)[i] in times
  {
    if i < |EveryNth(times, limit)| - 1 {
      EveryNthFits(times[..Max(0, |times| - limit)], limit, i);
    }
  }

  lemma {:induction false} EveryNthReaches(times: seq<real>, limit: nat)
    requires limit > 0
    ensures |EveryNth(times, limit)| * limit >= |times|
  {
    if times != [] {
      var rest := times[..Max(0, |times| - limit)];
      EveryNthReaches(rest, limit);
      OneMore(|EveryNth(rest, limit)|, limit);
      hide EveryNth;
    }
  }

  lemma OneMore(n: nat, limit: nat)
    ensures (n + 1) * limit == n * limit + limit
  {}

  lemma {:induction false} EveryNthApart(times: seq<real>, limit: nat, start: real -> real)
    requires limit > 0 && Spaced(times, limit, start)
    ensures Apart(EveryNth(times, limit), start)
  {
    if |times| > limit {
      var rest := times[..|times| - limit];
      assert Spaced(rest, limit, start);
      EveryNthApart(rest, limit, start);
      assert times[|times| - 1 - limit] < start(times[|times| - 1]);
    } else if times != [] {
      assert EveryNth(times[..0], limit) == [];
    }
  }

  /** The last `count` of some times, thinned out. */
  lemma ThinnedOut(times: seq<real>, limit: nat, start: real -> real, count: nat) returns (r: seq<real>)
    requires limit > 0 && Spaced(times, limit, start) && Ascending(times) && 0 < count <= |times|
    ensures |r| * limit >= count && Apart(r, start) && r != []
    ensures times[|times| - count] <= r[0] && r[|r| - 1] == times[|times| - 1]
    ensures forall i :: 0 <= i < |r| ==> r[i] in times
  {
    var last := times[|times| - count..];
    SpacedLater(times, limit, start, |times| - count);
    r := EveryNth(last, limit);
    hide EveryNth, Spaced, Apart;
    EveryNthReaches(last, limit);
    EveryNthApart(last, limit, start);
    forall i | 0 <= i < |r|
      ensures r[i] in last
    {
      EveryNthFits(last, limit, i);
    }
    assert r[0] in last;
    assert forall t <- last :: t in times;
  }

  lemma SpacedLater(times: seq<real>, limit: nat, start: real -> real, from: nat)
    requires Spaced(times, limit, start) && from <= |times|
    ensures Spaced(times[from..], limit, start)
  {
    var later := times[from..];
    forall j | limit <= j < |later|
      ensures later[j - limit] < start(later[j])
    {
      assert times[from + j - limit] < start(times[from + j]);
    }
  }

  // ---------------------------------------------------------------------------------------
  // When the openings kept can tell how many the day has had
  // ---------------------------------------------------------------------------------------

  /** Greeting hours more than 24 hours apart, all in the local day of `now` so far. */
  ghost predicate WithinDay(cfg: Config, times: seq<real>, now: real) {
    && times != [] && AllOnHours(cfg, times) && Apart(times, DayBefore())
    && IsGreetingHour(cfg, now) && cfg.midnight(now) <= times[0] && times[|times| - 1] <= now
  }

  /** Either twenty openings reach the daily limit, or no chat can have more than twenty in one local day. */
  ghost predicate DayCountable(cfg: Config) {
    || DailyLimit(cfg) <= OPENED_KEPT
    || forall kind, times, now :: WithinDay(cfg, times, now) ==> |times| * ChatLimit(cfg, kind) <= OPENED_KEPT
  }

  lemma OneIsWithinDay(cfg: Config, now: real)
    requires now >= 0.0 && IsGreetingHour(cfg, now) && cfg.midnight(now) <= now
    ensures WithinDay(cfg, [now], now)
  {}

  lemma FewInADay(cfg: Config, log: seq<Event>, key: Key, now: real)
    requires Within(Times(log, key), now) && AllOnHours(cfg, AllTimes(log)) && now >= 0.0 && IsGreetingHour(cfg, now)
    requires ChatLimit(cfg, key.kind) <= OPENED_KEPT ==> ChatRule(cfg, log, key)
    requires DayCountable(cfg) && DailyLimit(cfg) > OPENED_KEPT
    ensures CountSince(Times(log, key), cfg.midnight(now)) <= OPENED_KEPT
  {
    var times, limit, since := Times(log, key), ChatLimit(cfg, key.kind), cfg.midnight(now);
    hide Times, AllTimes, ChatLimit, DailyLimit, IsGreetingHour, AllOnHours;
    ChatOnHours(cfg, log, key);
    CountBelow(times, since, OPENED_KEPT + 1);
    if CountSince(times, since) > OPENED_KEPT {
      OneIsWithinDay(cfg, now);
      assert |[now]| * limit <= OPENED_KEPT;
      SomeLimit(cfg, times, key.kind);
      var r := DayOfMany(cfg, times, limit, now, OPENED_KEPT + 1);
    }
  }

  /** Many openings of a chat in one day take many times more than 24 hours apart. */
  lemma DayOfMany(cfg: Config, times: seq<real>, limit: nat, now: real, count: nat) returns (r: seq<real>)
    requires limit > 0 && Spaced(times, limit, DayBefore()) && Within(times, now) && AllOnHours(cfg, times)
    requires 0 < count <= |times| && cfg.midnight(now) <= times[|times| - count] && IsGreetingHour(cfg, now)
    ensures WithinDay(cfg, r, now) && |r| * limit >= count
  {
    hide IsGreetingHour, AllOnHours, Spaced, Apart;
    r := ThinnedOut(times, limit, DayBefore(), count);
    ElementsOnHours(cfg, times, r);
  }

  lemma ElementsOnHours(cfg: Config, times: seq<real>, some: seq<real>)
    requires AllOnHours(cfg, times) && forall i :: 0 <= i < |some| ==> some[i] in times
    ensures AllOnHours(cfg, some)
  {
    hide IsGreetingHour;
  }

  /** A chat that is never to be opened has not been. */
  lemma SomeLimit(cfg: Config, times: seq<real>, kind: Kind)
    requires Spaced(times, ChatLimit(cfg, kind), DayBefore()) && times != []
    ensures ChatLimit(cfg, kind) > 0
  {
    assert Spaced(times, 0, DayBefore()) ==> forall t <- times :: t < t - DAY;
    assert times[0] in times;
  }

  /** The day's check on what is kept is the check on the whole log. */
  lemma DayCheckIsFull(cfg: Config, s: State)
    requires Kept(s) && Timely(s) && OnHours(cfg, s) && s.pending.Some?
    requires DayCountable(cfg) && UnderDailyLimit(cfg, s.chats, s.now)
    requires forall key: Key :: ChatLimit(cfg, key.kind) <= OPENED_KEPT ==> ChatRule(cfg, s.log, key)
    ensures CountSince(AllTimes(s.log), cfg.midnight(s.now)) < DailyLimit(cfg)
  {
    var since := cfg.midnight(s.now);
    FullIsAll(s.chats, s.log, since);
    hide AllOnHours, ChatRule, ChatLimit, IsGreetingHour;
    forall i | 0 <= i < |s.chats|
      ensures Faithful(s.chats[i], s.log) && Ascending(Times(s.log, s.chats[i].key))
    {
      assert Within(Times(s.log, s.chats[i].key), s.now);
    }
    KeptOrTwenty(s.chats, s.log, since);
    if DailyLimit(cfg) > OPENED_KEPT {
      forall i | 0 <= i < |s.chats|
        ensures CountSince(Times(s.log, s.chats[i].key), since) <= OPENED_KEPT
      {
        assert Within(Times(s.log, s.chats[i].key), s.now);
        FewInADay(cfg, s.log, s.chats[i].key, s.now);
      }
    }
  }

  lemma {:induction false} OpenedAtMostFull(chats: seq<Chat>, log: seq<Event>, since: real)
    requires forall i :: 0 <= i < |chats| ==> Faithful(chats[i], log) && Ascending(Times(log, chats[i].key))
    ensures OpenedSince(chats, since) <= FullSince(chats, log, since)
  {
    if chats != [] {
      var n := |chats| - 1;
      OpenedAtMostFull(chats[..n], log, since);
      assert Faithful(chats[n], log);
      KeptCount(Times(log, chats[n].key), since, OPENED_KEPT);
      hide CountSince, Times, LastN;
    }
  }

  /** And where it can tell, it forbids nothing the whole log would allow. */
  lemma DayCheckIff(cfg: Config, s: State)
    requires Kept(s) && Timely(s) && OnHours(cfg, s) && s.pending.Some? && DayCountable(cfg)
    requires forall key: Key :: ChatLimit(cfg, key.kind) <= OPENED_KEPT ==> ChatRule(cfg, s.log, key)
    ensures UnderDailyLimit(cfg, s.chats, s.now)
       <==> CountSince(AllTimes(s.log), cfg.midnight(s.now)) < DailyLimit(cfg)
  {
    if UnderDailyLimit(cfg, s.chats, s.now) {
      DayCheckIsFull(cfg, s);
    } else {
      hide OnHours, DayCountable, ChatRule, ChatLimit;
      FullIsAll(s.chats, s.log, cfg.midnight(s.now));
      forall i | 0 <= i < |s.chats|
        ensures Faithful(s.chats[i], s.log) && Ascending(Times(s.log, s.chats[i].key))
      {
        assert Within(Times(s.log, s.chats[i].key), s.now);
      }
      OpenedAtMostFull(s.chats, s.log, cfg.midnight(s.now));
    }
  }

  lemma StepKeepsDayRule(cfg: Config, s: State, step: Step)
    requires Inv(cfg, s) && OnHours(cfg, s) && Enabled(cfg, s, step)
    requires DayRule(cfg, s.log) && DayCountable(cfg)
    requires forall key: Key :: ChatLimit(cfg, key.kind) <= OPENED_KEPT ==> ChatRule(cfg, s.log, key)
    ensures DayRule(cfg, Next(cfg, s, step).log)
  {
    if step.Finish? {
      var key := s.chats[s.pending.value.0].key;
      TimesSnoc(s.log, Opening(key, s.now, step.sent), key);
      DayCheckIsFull(cfg, s);
      SpacedSnoc(AllTimes(s.log), DailyLimit(cfg), cfg.midnight, s.now);
    } else if step.Hear? {
      TimesSnoc(s.log, Inbound(step.key), step.key);
    }
  }
}
