/**
 * reply_flow/companion.py: the chats she opens herself, kept within limits by a short log of when
 * she did so.
 */
module Greetings {
  import opened Common

  datatype Kind = Person | Group | Unknown

  datatype Key = Key(kind: Kind, id: string)

  /** `heardAt` is 0.0 before anyone spoke; `openings` is when she spoke first, newest last. */
  datatype Chat = Chat(key: Key, heardAt: real, openings: seq<real>, unanswered: nat)

  /**
   * `midnight` gives the start of the local day of a time, and `hour` its hour. Times are in
   * seconds. `hours` are the first two greeting hours of the settings that are not blank.
   */
  datatype Config = Config(dailyLimit: int, groupDailyLimit: int, unansweredStop: int, unansweredWait: real,
                           personIdle: real, groupQuiet: real, hours: seq<int>,
                           midnight: real -> real, hour: real -> int)

  const DAY := 86400.0
  const OPENED_KEPT := 20

  // ---------------------------------------------------------------------------------------
  // The rules, as they are checked
  // ---------------------------------------------------------------------------------------

  /** The hours she greets in: from ten to twenty-two unless set, and to the end of the day with one of them set. */
  function GreetingHours(cfg: Config): (int, int) {
    if cfg.hours == [] then (10, 22)
    else if |cfg.hours| == 1 then (cfg.hours[0], 24)
    else (cfg.hours[0], cfg.hours[1])
  }

  /** Whether a time is within them; they may run past midnight. */
  predicate IsGreetingHour(cfg: Config, t: real) {
    var (start, end) := GreetingHours(cfg);
    var hour := cfg.hour(t);
    if start <= end then start <= hour < end else hour >= start || hour < end
  }

  /**
   * The greeting hours go round the clock from the first of the two to before the second; with none
   * set they are those from ten to twenty-two, with one they last to the end of the day.
   */
  lemma HoursGoRound(cfg: Config, t: real)
    requires 0 <= cfg.hour(t) < 24 && forall hour <- cfg.hours :: 0 <= hour < 24
    ensures cfg.hours == [] ==> (IsGreetingHour(cfg, t) <==> 10 <= cfg.hour(t) < 22)
    ensures |cfg.hours| == 1 ==> (IsGreetingHour(cfg, t) <==> cfg.hours[0] <= cfg.hour(t))
    ensures |cfg.hours| > 1 ==>
              (IsGreetingHour(cfg, t) <==>
               (cfg.hour(t) - cfg.hours[0]) % 24 < (cfg.hours[1] - cfg.hours[0]) % 24)
  {
    if cfg.hours != [] {
      assert cfg.hours[0] in cfg.hours;
      if |cfg.hours| > 1 {
        assert cfg.hours[1] in cfg.hours;
        RoundTheClock(cfg.hour(t), cfg.hours[0]);
        RoundTheClock(cfg.hours[1], cfg.hours[0]);
      }
    }
  }

  lemma RoundTheClock(hour: int, start: int)
    requires 0 <= hour < 24 && 0 <= start < 24
    ensures (hour - start) % 24 == if hour >= start then hour - start else hour - start + 24
  {}

  function CountSince(times: seq<real>, since: real): nat {
    if times == [] then 0
    else CountSince(times[..|times| - 1], since) + if times[|times| - 1] >= since then 1 else 0
  }

  function OpenedSince(chats: seq<Chat>, since: real): nat {
    if chats == [] then 0
    else OpenedSince(chats[..|chats| - 1], since) + CountSince(chats[|chats| - 1].openings, since)
  }

  /** The openings of a chat in 24 hours, by its kind. */
  function ChatLimit(cfg: Config, kind: Kind): nat {
    match kind
    case Person => 1
    case Group => Max(0, cfg.groupDailyLimit)
    case Unknown => 0
  }

  function DailyLimit(cfg: Config): nat {
    Max(0, cfg.dailyLimit)
  }

  function UnansweredStop(cfg: Config): nat {
    Max(1, cfg.unansweredStop)
  }

  function LastOpened(times: seq<real>): real {
    if times == [] then 0.0 else times[|times| - 1]
  }

  predicate MayOpenAgain(cfg: Config, chat: Chat, now: real) {
    && chat.unanswered < UnansweredStop(cfg)
    && !(chat.unanswered > 0 && now - LastOpened(chat.openings) < cfg.unansweredWait)
  }

  function IdleNeeded(cfg: Config, kind: Kind): real {
    if kind == Person then cfg.personIdle else cfg.groupQuiet
  }

  /**
   * Whether a chat is a candidate; `outside` stands for what is decided elsewhere: settings that
   * leave the chat out, a running game, a stage of acquaintance, a request to be quiet.
   */
  predicate Eligible(cfg: Config, chat: Chat, now: real, outside: Key -> bool) {
    && chat.heardAt != 0.0
    && MayOpenAgain(cfg, chat, now)
    && outside(chat.key)
    && now - chat.heardAt >= IdleNeeded(cfg, chat.key.kind)
    && CountSince(chat.openings, now - DAY) < ChatLimit(cfg, chat.key.kind)
  }

  predicate UnderDailyLimit(cfg: Config, chats: seq<Chat>, now: real) {
    OpenedSince(chats, cfg.midnight(now)) < DailyLimit(cfg)
  }

  // ---------------------------------------------------------------------------------------
  // What changes
  // ---------------------------------------------------------------------------------------

  predicate DistinctKeys(chats: seq<Chat>) {
    forall i, j :: 0 <= i < j < |chats| ==> chats[i].key != chats[j].key
  }

  /** The place of a key, or the length when it has none. */
  function Find(chats: seq<Chat>, key: Key): (n: nat)
    ensures n <= |chats| && (n < |chats| ==> chats[n].key == key)
    ensures forall i :: 0 <= i < n ==> chats[i].key != key
  {
    if chats == [] then 0
    else
      var n := Find(chats[..|chats| - 1], key);
      if n < |chats| - 1 || chats[|chats| - 1].key == key then n else |chats|
  }

  function Heard(chats: seq<Chat>, key: Key, at: real): seq<Chat> {
    var n := Find(chats, key);
    if n < |chats| then chats[n := chats[n].(heardAt := at, unanswered := 0)]
    else chats + [Chat(key, at, [], 0)]
  }

  function Recorded(chats: seq<Chat>, n: nat, now: real, sent: bool): seq<Chat>
    requires n < |chats|
  {
    var c := chats[n];
    chats[n := c.(openings := LastN(c.openings + [now], OPENED_KEPT),
                  unanswered := c.unanswered + if sent then 1 else 0)]
  }

  /** The companion's chats, in the order they were first heard from. */
  class Companion {
    const cfg: Config
    var chats: seq<Chat>

    ghost predicate Valid() reads this {
      DistinctKeys(chats)
    }

    constructor (cfg: Config)
      ensures Valid() && this.cfg == cfg && chats == []
    {
      this.cfg, chats := cfg, [];
    }

    /** Someone other than her spoke: it answers her last opening. */
    method NoteInbound(key: Key, at: real)
      requires Valid()
      modifies this
      ensures Valid() && chats == Heard(old(chats), key, at)
    {
      var n := 0;
      while n < |chats| && chats[n].key != key
        invariant n <= |chats| && forall i :: 0 <= i < n ==> chats[i].key != key
      {
        n := n + 1;
      }
      FoundAt(chats, key, n);
      if n == |chats| {
        chats := chats + [Chat(key, 0.0, [], 0)];
      }
      chats := chats[n := chats[n].(heardAt := at, unanswered := 0)];
    }

    method OpenedToday(now: real) returns (total: nat)
      ensures total == OpenedSince(chats, cfg.midnight(now))
    {
      total := 0;
      for i := 0 to |chats|
        invariant total == OpenedSince(chats[..i], cfg.midnight(now))
      {
        assert chats[..i + 1][..i] == chats[..i];
        var count := Count(chats[i].openings, cfg.midnight(now));
        total := total + count;
      }
      assert chats[..|chats|] == chats;
    }

    method Count(times: seq<real>, since: real) returns (count: nat)
      ensures count == CountSince(times, since)
    {
      count := 0;
      for i := 0 to |times|
        invariant count == CountSince(times[..i], since)
      {
        assert times[..i + 1][..i] == times[..i];
        if times[i] >= since {
          count := count + 1;
        }
      }
      assert times[..|times|] == times;
    }

    /**
     * The chat a tick opens within the greeting hours: the first candidate that is `lucky`, if the
     * day has openings left. The message is then written and sent without the state being held.
     */
    method Choose(now: real, outside: Key -> bool, lucky: Key -> bool) returns (chosen: Option<nat>)
      ensures chosen.Some? ==>
                && chosen.value < |chats|
                && IsGreetingHour(cfg, now) && UnderDailyLimit(cfg, chats, now)
                && Eligible(cfg, chats[chosen.value], now, outside) && lucky(chats[chosen.value].key)
                && forall i :: 0 <= i < chosen.value ==> !(Eligible(cfg, chats[i], now, outside) && lucky(chats[i].key))
      ensures chosen.None? && IsGreetingHour(cfg, now) && UnderDailyLimit(cfg, chats, now) ==>
                forall i :: 0 <= i < |chats| ==> !(Eligible(cfg, chats[i], now, outside) && lucky(chats[i].key))
    {
      hide CountSince, OpenedSince, LastOpened, GreetingHours;
      if !IsGreetingHour(cfg, now) {
        return None;
      }
      var today := OpenedToday(now);
      if today >= DailyLimit(cfg) {
        return None;
      }
      for n := 0 to |chats|
        invariant forall i :: 0 <= i < n ==> !(Eligible(cfg, chats[i], now, outside) && lucky(chats[i].key))
      {
        var chat := chats[n];
        if chat.heardAt == 0.0 || !MayOpenAgain(cfg, chat, now) || !outside(chat.key) {
          continue;
        }
        if now - chat.heardAt < IdleNeeded(cfg, chat.key.kind) {
          continue;
        }
        var recent := Count(chat.openings, now - DAY);
        if recent < ChatLimit(cfg, chat.key.kind) && lucky(chat.key) {
          return Some(n);
        }
      }
      return None;
    }

    /** She spoke, or chose not to: either way the opening is noted. */
    method Record(n: nat, now: real, sent: bool)
      requires Valid() && n < |chats|
      modifies this
      ensures Valid() && chats == Recorded(old(chats), n, now, sent)
    {
      var chat := chats[n];
      chat := chat.(openings := LastN(chat.openings + [now], OPENED_KEPT));
      if sent {
        chat := chat.(unanswered := chat.unanswered + 1);
      }
      chats := chats[n := chat];
    }
  }

  /** A key is found at its first place. */
  lemma FoundAt(chats: seq<Chat>, key: Key, n: nat)
    requires n <= |chats| && (n < |chats| ==> chats[n].key == key)
    requires forall i :: 0 <= i < n ==> chats[i].key != key
    ensures Find(chats, key) == n
  {}
}
