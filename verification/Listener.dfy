/**
 * "Listening before answering" in reply_flow/listener.py: of the messages one sender types in a
 * row only the last is answered, once the sender has been quiet for a while.
 *
 * A sender's messages are known by their numbers in order of arrival.
 */
module Listener {
  import opened Common

  type Id = nat
  type Image = string

  const STASHED_IMAGES_MAX: nat := 4
  const ARRIVALS_MAX: nat := 4096
  const STALE_SECONDS := 600.0
  const CHIME_IN_CONTINUATION_SECONDS := 20.0

  datatype Config = Config(quiet: real, maxWait: real, continuation: real)

  /** The sender's latest message, when it came, when the first one not answered yet came. */
  datatype Arrival = Arrival(id: Id, at: real, firstAt: real, answered: bool)

  /** What one turn of `await_turn`'s loop comes to. */
  datatype Turn = Released | Superseded | Sleep(seconds: real)

  function Noted(entry: Option<Arrival>, id: Id, now: real): Arrival {
    if entry.None? || entry.value.answered then Arrival(id, now, now, false)
    else entry.value.(id := id, at := now)
  }

  function Due(cfg: Config, e: Arrival): real {
    MinReal(e.at + cfg.quiet, e.firstAt + cfg.maxWait)
  }

  function TurnOf(cfg: Config, entry: Option<Arrival>, id: Id, now: real): Turn {
    match entry
    case None => Released
    case Some(e) =>
      if e.id != id then (if e.answered then Released else Superseded)
      else if now >= Due(cfg, e) then Released
      else Sleep(MaxReal(0.01, MinReal(0.25, Due(cfg, e) - now)))
  }

  function Marked(e: Arrival, id: Id): Arrival {
    if e.id == id then e.(answered := true) else e.(firstAt := e.at)
  }

  function Stashed(stash: seq<Image>, images: seq<Image>): seq<Image> {
    LastN(stash + images, STASHED_IMAGES_MAX)
  }

  /** The pictures a released message goes out with. */
  function Together(stash: seq<Image>, own: seq<Image>): seq<Image> {
    var room := Max(0, STASHED_IMAGES_MAX - |own|);
    if stash == [] || room == 0 then own else LastN(stash, room) + own
  }

  type Key = string

  type Keyed<T> = map<Key, T>

  function Lookup<T>(m: Keyed<T>, key: Key): Option<T> {
    if key in m then Some(m[key]) else None
  }

  function StashOf(m: Keyed<seq<Image>>, key: Key): seq<Image> {
    if key in m then m[key] else []
  }

  /** The talk with a person lasts until the later of what it lasted to and `until`. */
  function Extended(m: Keyed<real>, key: Key, until: real): Keyed<real> {
    m[key := MaxReal(until, if key in m then m[key] else 0.0)]
  }

  /** Extending a talk never shortens it, and concerns nobody else's. */
  lemma TalkNeverShortens(m: Keyed<real>, key: Key, until: real)
    requires until > 0.0
    ensures var after := Extended(m, key, until);
            && key in after && after[key] >= until && (key in m ==> after[key] >= m[key])
            && (after[key] == until || (key in m && after[key] == m[key]))
            && forall other :: other != key ==> Lookup(after, other) == Lookup(m, other)
  {}

  function AfterNote(arrivals: Keyed<Arrival>, key: Key, id: Id, now: real): Keyed<Arrival> {
    var noted := arrivals[key := Noted(Lookup(arrivals, key), id, now)];
    if |noted| <= ARRIVALS_MAX then noted
    else map k | k in noted && now - noted[k].at <= STALE_SECONDS :: noted[k]
  }

  class Listener {
    const cfg: Config
    var arrivals: Keyed<Arrival>
    var stashed: Keyed<seq<Image>>
    var continuation: Keyed<real>

    constructor (cfg: Config)
      ensures this.cfg == cfg && arrivals == map[] && stashed == map[] && continuation == map[]
    {
      this.cfg, arrivals, stashed, continuation := cfg, map[], map[], map[];
    }

    method NoteInbound(key: Key, id: Id, now: real)
      modifies this`arrivals
      ensures arrivals == AfterNote(old(arrivals), key, id, now)
    {
      if key !in arrivals || arrivals[key].answered {
        arrivals := arrivals[key := Arrival(id, now, now, false)];
      } else {
        arrivals := arrivals[key := arrivals[key].(id := id, at := now)];
      }
      if |arrivals| > ARRIVALS_MAX {
        arrivals := map k | k in arrivals && now - arrivals[k].at <= STALE_SECONDS :: arrivals[k];
      }
    }

    /** One turn of the loop in `await_turn`, between two sleeps. */
    method PollTurn(key: Key, id: Id, images: seq<Image>, group: bool, now: real) returns (turn: Turn)
      modifies this`stashed, this`continuation
      ensures turn == TurnOf(cfg, Lookup(arrivals, key), id, now)
      ensures stashed == if turn.Superseded? && images != []
                         then old(stashed)[key := Stashed(StashOf(old(stashed), key), images)] else old(stashed)
      ensures continuation == if turn.Superseded? && group
                              then Extended(old(continuation), key, now + cfg.maxWait + cfg.quiet)
                              else old(continuation)
    {
      if key !in arrivals {
        return Released;
      }
      var entry := arrivals[key];
      if entry.id != id {
        if entry.answered {
          return Released;
        }
        if images != [] {
          stashed := stashed[key := LastN(StashOf(stashed, key) + images, STASHED_IMAGES_MAX)];
        }
        if group {
          var hold := now + cfg.maxWait + cfg.quiet;
          continuation := continuation[key := MaxReal(hold, if key in continuation then continuation[key] else 0.0)];
        }
        return Superseded;
      }
      var due := MinReal(entry.at + cfg.quiet, entry.firstAt + cfg.maxWait);
      if now >= due {
        return Released;
      }
      return Sleep(MaxReal(0.01, MinReal(0.25, due - now)));
    }

    method WithEarlierImages(key: Key, own: seq<Image>) returns (images: seq<Image>)
      modifies this`stashed
      ensures images == Together(StashOf(old(stashed), key), own)
      ensures stashed == old(stashed) - {key}
    {
      var stash := StashOf(stashed, key);
      stashed := stashed - {key};
      if stash == [] {
        return own;
      }
      var room := Max(0, STASHED_IMAGES_MAX - |own|);
      return if room != 0 then LastN(stash, room) + own else own;
    }

    /** `chimedIn`: nobody asked for the reply; `addressed`: the message was plainly for the character. */
    method MarkAnswered(key: Key, id: Id, group: bool, chimedIn: bool, addressed: bool, now: real)
      modifies this`arrivals, this`continuation
      ensures arrivals == if key in old(arrivals) then old(arrivals)[key := Marked(old(arrivals)[key], id)]
                          else old(arrivals)
      ensures var hold := if chimedIn then CHIME_IN_CONTINUATION_SECONDS
                          else if addressed then cfg.continuation
                          else 0.0;
              continuation == if group && hold > 0.0 then Extended(old(continuation), key, now + hold)
                              else old(continuation)
    {
      if key in arrivals {
        var entry := arrivals[key];
        if entry.id == id {
          arrivals := arrivals[key := entry.(answered := true)];
        } else {
          arrivals := arrivals[key := entry.(firstAt := entry.at)];
        }
      }
      if group {
        var hold := 0.0;
        if chimedIn {
          hold := CHIME_IN_CONTINUATION_SECONDS;
        } else if addressed {
          hold := cfg.continuation;
        }
        if hold > 0.0 {
          var until := if key in continuation then continuation[key] else 0.0;
          continuation := continuation[key := MaxReal(until, now + hold)];
        }
      }
    }
  }
}
