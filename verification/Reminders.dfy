/** reply_flow/companion.py: what she was asked to say at a time, said once, in time order, and never early. */
module Reminders {
  import opened Common

  type ChatId = string

  datatype Reminder = Reminder(id: string, chat: ChatId, note: string, dueAt: real)

  datatype Outcome = MissingNote | BadTime | Past | TooFar | Already(id: string) | Full | Added

  const MAX_AHEAD := 366.0 * 86400.0
  const LATE_LIMIT := 12.0 * 3600.0
  const SAME_WITHIN := 300.0

  // ---------------------------------------------------------------------------------------
  // What is kept
  // ---------------------------------------------------------------------------------------

  function InChat(rs: seq<Reminder>, chat: ChatId): nat {
    if rs == [] then 0
    else InChat(rs[..|rs| - 1], chat) + if rs[|rs| - 1].chat == chat then 1 else 0
  }

  /** The same thing asked again: a retried request must not make her say it twice. */
  predicate Same(r: Reminder, chat: ChatId, note: string, dueAt: real) {
    r.chat == chat && r.note == note && -SAME_WITHIN < r.dueAt - dueAt < SAME_WITHIN
  }

  predicate NoneSame(rs: seq<Reminder>, chat: ChatId, note: string, dueAt: real) {
    forall i :: 0 <= i < |rs| ==> !Same(rs[i], chat, note, dueAt)
  }

  function PerChat(limit: int): nat {
    Max(1, limit)
  }

  /** Whether a reminder is taken; the time is absent when it could not be read. */
  predicate Taken(rs: seq<Reminder>, chat: ChatId, note: string, dueAt: Option<real>, now: real, limit: int) {
    && note != "" && dueAt.Some?
    && now < dueAt.value <= now + MAX_AHEAD
    && NoneSame(rs, chat, note, dueAt.value)
    && InChat(rs, chat) < PerChat(limit)
  }

  /**
   * A reminder is taken exactly if it says something, its time was read and lies ahead by at most 366
   * days, nothing like it is kept for the chat within five minutes, and the chat has room.
   */
  lemma TakenIff(rs: seq<Reminder>, chat: ChatId, note: string, dueAt: Option<real>, now: real, limit: int)
    ensures Taken(rs, chat, note, dueAt, now, limit) <==>
              && note != "" && dueAt.Some? && 0.0 < dueAt.value - now <= 366.0 * 86400.0
              && (forall i :: 0 <= i < |rs| ==>
                    rs[i].chat != chat || rs[i].note != note
                    || rs[i].dueAt >= dueAt.value + 300.0 || rs[i].dueAt <= dueAt.value - 300.0)
              && (if limit > 1 then InChat(rs, chat) < limit else InChat(rs, chat) == 0)
  {}

  function Without(rs: seq<Reminder>, n: nat): seq<Reminder>
    requires n < |rs|
  {
    rs[..n] + rs[n + 1..]
  }

  /** Those due, or those not yet. */
  function Split(rs: seq<Reminder>, now: real, due: bool): seq<Reminder> {
    if rs == [] then []
    else
      var last := rs[|rs| - 1];
      Split(rs[..|rs| - 1], now, due) + if (last.dueAt <= now) == due then [last] else []
  }

  function Inserted(r: Reminder, rs: seq<Reminder>): seq<Reminder> {
    if rs == [] || rs[|rs| - 1].dueAt <= r.dueAt then rs + [r]
    else Inserted(r, rs[..|rs| - 1]) + [rs[|rs| - 1]]
  }

  /** Python's stable `sorted` by time. */
  function ByTime(rs: seq<Reminder>): seq<Reminder> {
    if rs == [] then [] else Inserted(rs[|rs| - 1], ByTime(rs[..|rs| - 1]))
  }

  /** The reminders of all chats, in the order they were asked for. */
  class Book {
    const limit: int
    var reminders: seq<Reminder>

    constructor (limit: int)
      ensures this.limit == limit && reminders == []
    {
      this.limit, reminders := limit, [];
    }

    /** The add branch of the tool; `id` is the new reminder's. */
    method Add(chat: ChatId, note: string, dueAt: Option<real>, now: real, id: string) returns (outcome: Outcome)
      modifies this
      ensures outcome.Added? <==> Taken(old(reminders), chat, note, dueAt, now, limit)
      ensures reminders ==
              if outcome.Added? then old(reminders) + [Reminder(id, chat, note, dueAt.value)] else old(reminders)
      ensures outcome.Already? ==>
                dueAt.Some?
                && exists i :: 0 <= i < |reminders| && reminders[i].id == outcome.id
                            && Same(reminders[i], chat, note, dueAt.value)
      ensures outcome.Full? ==> InChat(reminders, chat) >= PerChat(limit)
    {
      if note == "" {
        return MissingNote;
      }
      if dueAt.None? {
        return BadTime;
      }
      if dueAt.value <= now {
        return Past;
      }
      if dueAt.value - now > MAX_AHEAD {
        return TooFar;
      }
      var mine := 0;
      var same: Option<string> := None;
      for i := 0 to |reminders|
        invariant mine == InChat(reminders[..i], chat)
        invariant same.None? ==> NoneSame(reminders[..i], chat, note, dueAt.value)
        invariant same.Some? ==> exists j :: 0 <= j < i && reminders[j].id == same.value
                                             && Same(reminders[j], chat, note, dueAt.value)
      {
        var r := reminders[i];
        assert reminders[..i + 1] == reminders[..i] + [r];
        if r.chat == chat {
          mine := mine + 1;
          if same.None? && r.note == note && -SAME_WITHIN < r.dueAt - dueAt.value < SAME_WITHIN {
            same := Some(r.id);
          }
        }
      }
      assert reminders[..|reminders|] == reminders;
      if same.Some? {
        return Already(same.value);
      }
      if mine >= PerChat(limit) {
        return Full;
      }
      reminders := reminders + [Reminder(id, chat, note, dueAt.value)];
      return Added;
    }

    /** Takes the first reminder of the chat with that number. */
    method Cancel(chat: ChatId, id: string) returns (taken: Option<Reminder>)
      modifies this
      ensures taken.None? ==> reminders == old(reminders)
                              && forall i :: 0 <= i < |reminders| ==> reminders[i].chat != chat || reminders[i].id != id
      ensures taken.Some? ==> exists n :: 0 <= n < |old(reminders)| && old(reminders)[n] == taken.value
                                          && taken.value.chat == chat && taken.value.id == id
                                          && reminders == Without(old(reminders), n)
    {
      for n := 0 to |reminders|
        invariant reminders == old(reminders)
        invariant forall i :: 0 <= i < n ==> reminders[i].chat != chat || reminders[i].id != id
      {
        if reminders[n].chat == chat && reminders[n].id == id {
          taken := Some(reminders[n]);
          reminders := reminders[..n] + reminders[n + 1..];
          return;
        }
      }
      return None;
    }

    /** Takes what is due, in time order. */
    method Due(now: real) returns (due: seq<Reminder>)
      modifies this
      ensures due == ByTime(Split(old(reminders), now, true))
      ensures reminders == Split(old(reminders), now, false)
    {
      due := [];
      var kept: seq<Reminder> := [];
      for i := 0 to |reminders|
        invariant reminders == old(reminders)
        invariant due == Split(reminders[..i], now, true) && kept == Split(reminders[..i], now, false)
      {
        assert reminders[..i + 1][..i] == reminders[..i];
        if reminders[i].dueAt <= now {
          due := due + [reminders[i]];
        } else {
          kept := kept + [reminders[i]];
        }
      }
      assert reminders[..|reminders|] == reminders;
      reminders := kept;
      due := ByTime(due);
    }
  }

  // ---------------------------------------------------------------------------------------
  // Splitting and sorting keep every reminder
  // ---------------------------------------------------------------------------------------

  predicate InTimeOrder(rs: seq<Reminder>) {
    forall i, j :: 0 <= i <= j < |rs| ==> rs[i].dueAt <= rs[j].dueAt
  }

  predicate AllBy(rs: seq<Reminder>, time: real) {
    forall i :: 0 <= i < |rs| ==> rs[i].dueAt <= time
  }

  predicate AllAfter(rs: seq<Reminder>, time: real) {
    forall i :: 0 <= i < |rs| ==> rs[i].dueAt > time
  }

  lemma {:induction false} SplitKeeps(rs: seq<Reminder>, now: real)
    ensures multiset(rs) == multiset(Split(rs, now, true)) + multiset(Split(rs, now, false))
  {
    if rs != [] {
      var front, last := rs[..|rs| - 1], rs[|rs| - 1];
      SplitKeeps(front, now);
      assert rs == front + [last];
      assert Split(front, now, false) + [] == Split(front, now, false);
      assert Split(front, now, true) + [] == Split(front, now, true);
    }
  }

  lemma {:induction false} SplitParts(rs: seq<Reminder>, now: real)
    ensures AllBy(Split(rs, now, true), now) && AllAfter(Split(rs, now, false), now)
  {
    if rs != [] {
      SplitParts(rs[..|rs| - 1], now);
    }
  }

  lemma {:induction false} InsertedBy(r: Reminder, rs: seq<Reminder>, time: real)
    requires AllBy(rs, time) && r.dueAt <= time
    ensures AllBy(Inserted(r, rs), time)
  {
    if rs != [] {
      InsertedBy(r, rs[..|rs| - 1], time);
    }
  }

  lemma {:induction false} InsertedKeeps(r: Reminder, rs: seq<Reminder>)
    requires InTimeOrder(rs)
    ensures InTimeOrder(Inserted(r, rs)) && multiset(Inserted(r, rs)) == multiset(rs) + multiset{r}
  {
    if rs == [] || rs[|rs| - 1].dueAt <= r.dueAt {
      LaterInOrder(rs, r);
    } else {
      var front, last := rs[..|rs| - 1], rs[|rs| - 1];
      assert rs == front + [last] && AllBy(front, last.dueAt);
      InsertedKeeps(r, front);
      InsertedBy(r, front, last.dueAt);
      hide InTimeOrder;
      LaterInOrder(Inserted(r, front), last);
    }
  }

  lemma LaterInOrder(rs: seq<Reminder>, r: Reminder)
    requires InTimeOrder(rs) && (AllBy(rs, r.dueAt) || (rs != [] && rs[|rs| - 1].dueAt <= r.dueAt))
    ensures InTimeOrder(rs + [r])
  {}

  /** Sorted by time, with nothing lost or added. */
  lemma {:induction false} ByTimeSorts(rs: seq<Reminder>)
    ensures InTimeOrder(ByTime(rs)) && multiset(ByTime(rs)) == multiset(rs)
  {
    if rs != [] {
      ByTimeSorts(rs[..|rs| - 1]);
      InsertedKeeps(rs[|rs| - 1], ByTime(rs[..|rs| - 1]));
      assert rs == rs[..|rs| - 1] + [rs[|rs| - 1]];
    }
  }

  /** Those of one time, in their order. */
  function At(rs: seq<Reminder>, time: real): seq<Reminder> {
    if rs == [] then []
    else At(rs[..|rs| - 1], time) + if rs[|rs| - 1].dueAt == time then [rs[|rs| - 1]] else []
  }

  lemma {:induction false} InsertedAt(r: Reminder, rs: seq<Reminder>, time: real)
    requires InTimeOrder(rs)
    ensures At(Inserted(r, rs), time) == At(rs + [r], time)
  {
    assert (rs + [r])[..|rs|] == rs;
    if rs != [] && rs[|rs| - 1].dueAt > r.dueAt {
      var front, last := rs[..|rs| - 1], rs[|rs| - 1];
      InsertedAt(r, front, time);
      assert (front + [r])[..|front|] == front;
      assert (Inserted(r, front) + [last])[..|Inserted(r, front)|] == Inserted(r, front);
    }
  }

  /** Sorting is stable: what is due at one time is said in the order it was asked for. */
  lemma {:induction false} ByTimeIsStable(rs: seq<Reminder>, time: real)
    ensures At(ByTime(rs), time) == At(rs, time)
  {
    if rs != [] {
      var sorted, last := ByTime(rs[..|rs| - 1]), rs[|rs| - 1];
      ByTimeIsStable(rs[..|rs| - 1], time);
      ByTimeSorts(rs[..|rs| - 1]);
      InsertedAt(last, sorted, time);
      assert (sorted + [last])[..|sorted|] == sorted;
    }
  }

  // ---------------------------------------------------------------------------------------
  // Runs
  // ---------------------------------------------------------------------------------------

  /** A reminder that was said, by the tick of `at`; `before` is the time of the tick before that one. */
  datatype Said = Said(reminder: Reminder, at: real, before: real)

  /** `due` is what the running tick has still to say; `lost` what it had when it was cancelled. */
  datatype State = State(reminders: seq<Reminder>, due: seq<Reminder>, tickAt: real, before: real, now: real,
                         added: multiset<Reminder>, said: seq<Said>, late: multiset<Reminder>,
                         cancelled: multiset<Reminder>, lost: multiset<Reminder>)

  const INITIAL := State([], [], 0.0, 0.0, 0.0, multiset{}, [], multiset{}, multiset{}, multiset{})

  datatype Step =
    | Ask(r: Reminder, now: real)  // the add branch, at any moment
    | Forget(n: nat)               // a cancellation
    | Tick(now: real)
    | Say                          // the running tick takes its next one
    | Stop                         // the running tick is cancelled

  predicate Enabled(s: State, step: Step, limit: int) {
    match step
    case Ask(r, now) => s.now <= now && Taken(s.reminders, r.chat, r.note, Some(r.dueAt), now, limit)
    case Forget(n) => n < |s.reminders|
    case Tick(now) => s.now <= now && s.due == []
    case Say => s.due != []
    case Stop => true
  }

  function Next(s: State, step: Step, limit: int): State
    requires Enabled(s, step, limit)
  {
    match step
    case Ask(r, now) => s.(reminders := s.reminders + [r], now := now, added := s.added + multiset{r})
    case Forget(n) =>
      s.(reminders := Without(s.reminders, n), cancelled := s.cancelled + multiset{s.reminders[n]})
    case Tick(now) =>
      s.(reminders := Split(s.reminders, now, false), due := ByTime(Split(s.reminders, now, true)),
         tickAt := now, before := s.tickAt, now := now)
    case Say =>
      var r := s.due[0];
      if s.tickAt - r.dueAt > LATE_LIMIT then s.(due := s.due[1..], late := s.late + multiset{r})
      else s.(due := s.due[1..], said := s.said + [Said(r, s.tickAt, s.before)])
    case Stop => s.(due := [], lost := s.lost + multiset(s.due))
  }

  function SaidOf(said: seq<Said>): multiset<Reminder> {
    if said == [] then multiset{}
    else SaidOf(said[..|said| - 1]) + multiset{said[|said| - 1].reminder}
  }

  /** Every reminder is kept, or being said, or was said, dropped as late, cancelled or lost: once each. */
  ghost predicate Accounted(s: State) {
    forall r :: s.added[r] == multiset(s.reminders)[r] + multiset(s.due)[r] + SaidOf(s.said)[r]
                              + s.late[r] + s.cancelled[r] + s.lost[r]
  }

  /** Said by the first tick from its time on, and at most twelve hours late. */
  predicate OnTime(said: Said) {
    said.before < said.reminder.dueAt <= said.at <= said.reminder.dueAt + LATE_LIMIT
  }

  predicate Timely(s: State) {
    && s.before <= s.tickAt <= s.now
    && AllAfter(s.reminders, s.tickAt)
    && AllBy(s.due, s.tickAt) && AllAfter(s.due, s.before) && InTimeOrder(s.due)
    && forall i :: 0 <= i < |s.said| ==> OnTime(s.said[i])
  }

  /** No chat has more than its share, nor the same thing twice within five minutes. */
  ghost predicate Modest(s: State, limit: int) {
    && (forall chat :: InChat(s.reminders, chat) <= PerChat(limit))
    && Apart(s.reminders)
  }

  predicate Apart(rs: seq<Reminder>) {
    forall i, j :: 0 <= i < j < |rs| ==> !Same(rs[i], rs[j].chat, rs[j].note, rs[j].dueAt)
  }

  lemma StepAccounts(s: State, step: Step, limit: int)
    requires Accounted(s) && Enabled(s, step, limit)
    ensures Accounted(Next(s, step, limit))
  {
    hide Split, ByTime, NoneSame, InChat, Same, SaidOf;
    match step
    case Ask(_, _) =>
    case Forget(n) =>
      ForgetAccounts(s, n, limit);
    case Tick(now) =>
      TickAccounts(s, now, limit);
    case Say =>
      SayAccounts(s, limit);
    case Stop =>
  }

  lemma ForgetAccounts(s: State, n: nat, limit: int)
    requires Accounted(s) && Enabled(s, Forget(n), limit)
    ensures Accounted(Next(s, Forget(n), limit))
  {
    hide SaidOf;
    assert s.reminders == s.reminders[..n] + ([s.reminders[n]] + s.reminders[n + 1..]);
    assert multiset(s.reminders) == multiset(Without(s.reminders, n)) + multiset{s.reminders[n]};
  }

  lemma TickAccounts(s: State, now: real, limit: int)
    requires Accounted(s) && Enabled(s, Tick(now), limit)
    ensures Accounted(Next(s, Tick(now), limit))
  {
    hide Split, ByTime, SaidOf;
    SplitKeeps(s.reminders, now);
    ByTimeSorts(Split(s.reminders, now, true));
  }

  lemma SayAccounts(s: State, limit: int)
    requires Accounted(s) && Enabled(s, Say, limit)
    ensures Accounted(Next(s, Say, limit))
  {
    var t := Next(s, Say, limit);
    assert s.due == [s.due[0]] + s.due[1..];
    assert t.said != s.said ==> t.said[..|s.said|] == s.said;
  }

  lemma PartOf(part: seq<Reminder>, whole: seq<Reminder>, time: real)
    requires multiset(part) <= multiset(whole)
    ensures AllAfter(whole, time) ==> AllAfter(part, time)
    ensures AllBy(whole, time) ==> AllBy(part, time)
  {
    forall i | 0 <= i < |part|
      ensures exists j :: 0 <= j < |whole| && whole[j] == part[i]
    {
      assert part[i] in multiset(part);
      assert part[i] in multiset(whole);
      assert part[i] in whole;
    }
  }

  lemma TickIsTimely(s: State, now: real, limit: int)
    requires Timely(s) && Enabled(s, Tick(now), limit)
    ensures Timely(Next(s, Tick(now), limit))
  {
    var due, kept := Split(s.reminders, now, true), Split(s.reminders, now, false);
    SplitKeeps(s.reminders, now);
    SplitParts(s.reminders, now);
    ByTimeSorts(due);
    hide Split, ByTime;
    PartOf(due, s.reminders, s.tickAt);
    PartOf(ByTime(due), due, s.tickAt);
    PartOf(ByTime(due), due, now);
  }

  lemma StepKeepsTimely(s: State, step: Step, limit: int)
    requires Timely(s) && Enabled(s, step, limit)
    ensures Timely(Next(s, step, limit))
  {
    hide Split, ByTime, NoneSame, InChat;
    match step
    case Ask(_, _) =>
    case Forget(_) =>
    case Tick(now) =>
      TickIsTimely(s, now, limit);
    case Say =>
    case Stop =>
  }

  lemma {:induction false} InChatAdds(a: seq<Reminder>, b: seq<Reminder>, chat: ChatId)
    ensures InChat(a + b, chat) == InChat(a, chat) + InChat(b, chat)
  {
    if b == [] {
      assert a + b == a;
    } else {
      assert (a + b)[..|a + b| - 1] == a + b[..|b| - 1];
      InChatAdds(a, b[..|b| - 1], chat);
    }
  }

  lemma {:induction false} SplitInChat(rs: seq<Reminder>, now: real, chat: ChatId)
    ensures InChat(Split(rs, now, false), chat) <= InChat(rs, chat)
  {
    if rs != [] {
      var n := |rs| - 1;
      SplitInChat(rs[..n], now, chat);
      var kept := Split(rs[..n], now, false);
      assert rs[n].dueAt > now ==> (kept + [rs[n]])[..|kept|] == kept;
      assert kept + [] == kept;
    }
  }

  lemma {:induction false} SplitApart(rs: seq<Reminder>, now: real)
    requires Apart(rs)
    ensures Apart(Split(rs, now, false))
    ensures forall i :: 0 <= i < |Split(rs, now, false)| ==> Split(rs, now, false)[i] in rs
  {
    if rs != [] {
      var n := |rs| - 1;
      SplitApart(rs[..n], now);
      var kept := Split(rs[..n], now, false);
      forall i | 0 <= i < |kept|
        ensures kept[i] in rs && !Same(kept[i], rs[n].chat, rs[n].note, rs[n].dueAt)
      {
        var j :| 0 <= j < n && rs[..n][j] == kept[i];
        assert rs[j] == kept[i];
      }
      hide Same;
    }
  }

  lemma ForgetInChat(rs: seq<Reminder>, n: nat, chat: ChatId)
    requires n < |rs|
    ensures InChat(Without(rs, n), chat) <= InChat(rs, chat)
  {
    InChatAdds(rs[..n], rs[n + 1..], chat);
    InChatAdds([rs[n]], rs[n + 1..], chat);
    InChatAdds(rs[..n], [rs[n]] + rs[n + 1..], chat);
    assert rs == rs[..n] + ([rs[n]] + rs[n + 1..]);
    hide InChat;
  }

  lemma StepKeepsModest(s: State, step: Step, limit: int)
    requires Modest(s, limit) && Enabled(s, step, limit)
    ensures Modest(Next(s, step, limit), limit)
  {
    var t := Next(s, step, limit);
    forall chat
      ensures InChat(t.reminders, chat) <= PerChat(limit)
    {
      assert InChat(s.reminders, chat) <= PerChat(limit);
      match step
      case Ask(r, _) =>
        assert t.reminders[..|s.reminders|] == s.reminders;
      case Forget(n) =>
        ForgetInChat(s.reminders, n, chat);
      case Tick(now) =>
        SplitInChat(s.reminders, now, chat);
      case Say =>
      case Stop =>
    }
    StepKeepsApart(s, step, limit);
  }

  lemma StepKeepsApart(s: State, step: Step, limit: int)
    requires Apart(s.reminders) && Enabled(s, step, limit)
    ensures Apart(Next(s, step, limit).reminders)
  {
    hide Same, InChat, Split, ByTime;
    if step.Tick? {
      SplitApart(s.reminders, step.now);
    }
  }

  ghost predicate Leads(s: State, step: Step, next: State, limit: int) {
    Enabled(s, step, limit) && next == Next(s, step, limit)
  }

  ghost predicate IsRun(states: seq<State>, steps: seq<Step>, limit: int) {
    && |states| == |steps| + 1 && states[0] == INITIAL
    && forall i :: 0 <= i < |steps| ==> Leads(states[i], steps[i], states[i + 1], limit)
  }

  /**
   * Over any run nothing is lost silently, each reminder is said at most as often as it was asked
   * for, by the first tick from its time on, and the reminders of a chat stay few and different.
   */
  lemma {:induction false} RunKeepsPromises(states: seq<State>, steps: seq<Step>, limit: int, n: nat)
    requires IsRun(states, steps, limit) && n < |states|
    ensures Accounted(states[n]) && Timely(states[n]) && Modest(states[n], limit)
    ensures SaidOf(states[n].said) <= states[n].added
  {
    if n > 0 {
      RunKeepsPromises(states, steps, limit, n - 1);
      assert Leads(states[n - 1], steps[n - 1], states[n], limit);
      hide Timely, Modest, Next, Enabled, SaidOf;
      StepAccounts(states[n - 1], steps[n - 1], limit);
      StepKeepsTimely(states[n - 1], steps[n - 1], limit);
      StepKeepsModest(states[n - 1], steps[n - 1], limit);
    }
  }

  /** In every run two reminders of a chat with one note are five minutes apart, and no chat has more than its share. */
  lemma NothingTwice(states: seq<State>, steps: seq<Step>, limit: int, n: nat, i: nat, j: nat)
    requires IsRun(states, steps, limit) && n < |states| && i < j < |states[n].reminders|
    ensures var a, b := states[n].reminders[i], states[n].reminders[j];
            a.chat == b.chat && a.note == b.note ==> a.dueAt >= b.dueAt + 300.0 || a.dueAt <= b.dueAt - 300.0
    ensures InChat(states[n].reminders, states[n].reminders[i].chat) <= if limit > 1 then limit else 1
  {
    RunKeepsPromises(states, steps, limit, n);
    var rs := states[n].reminders;
    assert !Same(rs[i], rs[j].chat, rs[j].note, rs[j].dueAt);
  }

  /** What the running tick takes next is said unless it is more than twelve hours late, and then dropped. */
  lemma SaidUnlessLate(s: State, limit: int)
    requires s.due != []
    ensures var r, next := s.due[0], Next(s, Say, limit);
            if s.tickAt <= r.dueAt + 43200.0 then
              next.said == s.said + [Said(r, s.tickAt, s.before)] && next.late == s.late
            else
              next.said == s.said && next.late == s.late + multiset{r}
  {}

  /** The time of the last tick among the first n steps, 0.0 before any; and of the one before it. */
  function LastTick(steps: seq<Step>, n: nat): real
    requires n <= |steps|
  {
    if n == 0 then 0.0 else if steps[n - 1].Tick? then steps[n - 1].now else LastTick(steps, n - 1)
  }

  function TickBefore(steps: seq<Step>, n: nat): real
    requires n <= |steps|
  {
    if n == 0 then 0.0 else if steps[n - 1].Tick? then LastTick(steps, n - 1) else TickBefore(steps, n - 1)
  }

  lemma LedTo(states: seq<State>, steps: seq<Step>, limit: int, n: nat)
    requires IsRun(states, steps, limit) && n < |states|
    ensures |states| == |steps| + 1 && states[0] == INITIAL
    ensures n > 0 ==> Leads(states[n - 1], steps[n - 1], states[n], limit)
  {}

  lemma StepTicks(s: State, step: Step, next: State, limit: int)
    requires Leads(s, step, next, limit)
    ensures next.tickAt == if step.Tick? then step.now else s.tickAt
    ensures next.before == if step.Tick? then s.tickAt else s.before
  {}

  /** What is said is said by the last tick, and `before` is the tick before that. */
  lemma {:induction false} RunKeepsTicks(states: seq<State>, steps: seq<Step>, limit: int, n: nat)
    requires IsRun(states, steps, limit) && n < |states|
    ensures n <= |steps| && states[n].tickAt == LastTick(steps, n) && states[n].before == TickBefore(steps, n)
  {
    hide IsRun, Leads;
    LedTo(states, steps, limit, n);
    if n > 0 {
      RunKeepsTicks(states, steps, limit, n - 1);
      StepTicks(states[n - 1], steps[n - 1], states[n], limit);
    }
  }
}
