/**
 * One sender's messages through reply_flow/listener.py: each is noted when it arrives and later,
 * one at a time and in order under the chat's lock, waits in `await_turn` and is answered or not.
 * A command, a card switch and a line for somebody else are noted as well, but never get there.
 *
 * Every step keeps four things:
 *
 *   - the record is of the newest message, and says answered only when nothing is left to handle;
 *   - messages are handled in order, each with an outcome when it is done;
 *   - a message passed over had a newer one behind it;
 *   - the pictures of the messages passed over are kept for the one that is released, and a
 *     sleeper wakes when it is due.
 */
module ListenerSteps {
  import opened Common
  import opened Listener

  datatype Handler =
    | Idle
    | Waiting(began: real, wakeAt: real)  // asleep in `await_turn` until `wakeAt`
    | Replying

  /** How a message was handled: released or passed over by `await_turn`, or without going there. */
  datatype Way = Released | PassedOver | Elsewhere

  /**
   * How a message was handled and when, when its handling began, with which pictures it was
   * released, and how many messages had been noted by then.
   */
  datatype Outcome = Outcome(way: Way, began: real, at: real, images: seq<Image>, noted: nat)

  /**
   * `sent` and `came` hold the pictures and the time of every message noted, and `open` is the number
   * of the first of them that comes after all messages replied to.
   */
  datatype State = State(now: real, sent: seq<seq<Image>>, came: seq<real>, open: nat, entry: Option<Arrival>,
                         handled: nat, handler: Handler, stash: seq<Image>, outcomes: seq<Outcome>)

  const INITIAL := State(0.0, [], [], 0, None, 0, Idle, [], [])

  datatype Step =
    | Note(images: seq<Image>)  // the sender's next message arrives
    | Begin                     // the next message gets the chat's lock and enters `await_turn`
    | Bypass                    // the next message is handled without entering `await_turn`
    | Poll                      // its sleep is over
    | Finish                    // the message released is done with, whether a reply was sent or not
    | Mark(id: Id)              // a reply goes out: to a message that is let through, or to one never noted
    | Tick(dt: real)            // time passes; nobody oversleeps
    | Evict                     // the record of the sender is dropped as stale

  predicate Enabled(s: State, step: Step) {
    match step
    case Note(_) => true
    case Begin => s.handler.Idle? && s.handled < |s.sent|
    case Bypass => s.handler.Idle? && s.handled < |s.sent|
    case Poll => s.handler.Waiting? && s.now >= s.handler.wakeAt && s.handled < |s.sent|
    case Finish => s.handler.Replying?
    case Mark(id) => id < |s.outcomes| || id >= |s.sent|
    case Tick(dt) => dt > 0.0 && (s.handler.Waiting? ==> s.now + dt <= s.handler.wakeAt)
    case Evict => s.entry.Some? && s.now - s.entry.value.at > STALE_SECONDS
  }

  function AfterMark(s: State, id: Id): State {
    s.(entry := if s.entry.None? then None else Some(Marked(s.entry.value, id)),
       open := if id < |s.sent| then Max(s.open, id + 1) else s.open)
  }

  function AfterPoll(cfg: Config, s: State): State
    requires Enabled(s, Poll)
  {
    var own := s.sent[s.handled];
    match TurnOf(cfg, s.entry, s.handled, s.now)
    case Released =>
      var images := Together(s.stash, own);
      s.(handler := Replying, stash := [],
         outcomes := s.outcomes + [Outcome(Way.Released, s.handler.began, s.now, images, |s.sent|)])
    case Superseded =>
      s.(handler := Idle, handled := s.handled + 1, stash := Stashed(s.stash, own),
         outcomes := s.outcomes + [Outcome(PassedOver, s.handler.began, s.now, [], |s.sent|)])
    case Sleep(seconds) =>
      s.(handler := s.handler.(wakeAt := s.now + seconds))
  }

  function AfterBypass(s: State): State {
    s.(handled := s.handled + 1, outcomes := s.outcomes + [Outcome(Elsewhere, s.now, s.now, [], |s.sent|)])
  }

  function Next(cfg: Config, s: State, step: Step): State
    requires Enabled(s, step)
  {
    match step
    case Note(images) =>
      s.(sent := s.sent + [images], came := s.came + [s.now], entry := Some(Noted(s.entry, |s.sent|, s.now)))
    case Begin => s.(handler := Waiting(s.now, s.now))
    case Bypass => AfterBypass(s)
    case Poll => AfterPoll(cfg, s)
    case Finish => s.(handler := Idle, handled := s.handled + 1)
    case Mark(id) => AfterMark(s, id)
    case Tick(dt) => s.(now := s.now + dt)
    case Evict => s.(entry := None)
  }

  // ---------------------------------------------------------------------
  // What every step keeps
  // ---------------------------------------------------------------------

  /** The record is of the newest message, and says answered exactly when nothing is open. */
  predicate RecordFits(s: State) {
    && |s.came| == |s.sent|
    && s.open <= |s.outcomes|
    && (s.entry.Some? ==>
          var e := s.entry.value;
          && |s.sent| > 0 && e.id == |s.sent| - 1
          && e.firstAt <= e.at <= s.now && e.at == s.came[e.id]
          && (e.answered <==> s.open == |s.sent|))
  }

  predicate InOrder(s: State) {
    && s.handled <= |s.sent|
    && (!s.handler.Idle? ==> s.handled < |s.sent|)
    && |s.outcomes| == s.handled + (if s.handler.Replying? then 1 else 0)
  }

  /** A message passed over had a newer one behind it. */
  predicate NewerBehind(outcomes: seq<Outcome>, i: nat, noted: nat)
    requires i < |outcomes|
  {
    && i < outcomes[i].noted <= noted
    && (outcomes[i].way.PassedOver? ==> i + 1 < outcomes[i].noted)
  }

  predicate NewestReleased(s: State) {
    forall i :: 0 <= i < |s.outcomes| ==> NewerBehind(s.outcomes, i, |s.sent|)
  }

  /** The pictures of the messages passed over since one was released. */
  function Burst(sent: seq<seq<Image>>, outcomes: seq<Outcome>, n: nat): seq<Image>
    requires n <= |outcomes| && n <= |sent|
  {
    if n == 0 then []
    else match outcomes[n - 1].way
      case Released => []
      case PassedOver => Burst(sent, outcomes, n - 1) + sent[n - 1]
      case Elsewhere => Burst(sent, outcomes, n - 1)
  }

  /** Outcome `i` carries the pictures of its burst. */
  predicate PicturesFit(sent: seq<seq<Image>>, outcomes: seq<Outcome>, i: nat)
    requires i < |outcomes| && i < |sent|
  {
    outcomes[i].way.Released? ==>
      outcomes[i].images == LastN(Burst(sent, outcomes, i) + sent[i], Max(STASHED_IMAGES_MAX, |sent[i]|))
  }

  predicate PicturesKept(sent: seq<seq<Image>>, outcomes: seq<Outcome>, stash: seq<Image>) {
    && |outcomes| <= |sent|
    && stash == LastN(Burst(sent, outcomes, |outcomes|), STASHED_IMAGES_MAX)
    && AllPicturesFit(sent, outcomes)
  }

  predicate AllPicturesFit(sent: seq<seq<Image>>, outcomes: seq<Outcome>)
    requires |outcomes| <= |sent|
  {
    forall i :: 0 <= i < |outcomes| ==> PicturesFit(sent, outcomes, i)
  }

  /** A sleeper wakes at its due time, give or take the shortest sleep. */
  predicate OnTime(cfg: Config, s: State) {
    s.handler.Waiting? ==>
      && s.handler.began <= s.now <= s.handler.wakeAt
      && (s.handler.wakeAt == s.handler.began
          || (s.entry.Some? && s.entry.value.id == s.handled ==> s.handler.wakeAt < Due(cfg, s.entry.value) + 0.01))
  }

  predicate Inv(cfg: Config, s: State) {
    RecordFits(s) && InOrder(s) && NewestReleased(s) && PicturesKept(s.sent, s.outcomes, s.stash) && OnTime(cfg, s)
  }

  lemma {:induction false} BurstPrefix(sent: seq<seq<Image>>, more: seq<Image>, outcomes: seq<Outcome>, n: nat)
    requires n <= |outcomes| && n <= |sent|
    ensures Burst(sent + [more], outcomes, n) == Burst(sent, outcomes, n)
  {
    if n > 0 {
      BurstPrefix(sent, more, outcomes, n - 1);
    }
  }

  lemma {:induction false} BurstExtended(sent: seq<seq<Image>>, outcomes: seq<Outcome>, o: Outcome, n: nat)
    requires n <= |outcomes| && n <= |sent|
    ensures Burst(sent, outcomes + [o], n) == Burst(sent, outcomes, n)
  {
    if n > 0 {
      BurstExtended(sent, outcomes, o, n - 1);
    }
  }

  lemma LastOfLast(burst: seq<Image>, own: seq<Image>, n: nat)
    ensures LastN(LastN(burst, n) + own, n) == LastN(burst + own, n)
  {
    var all := burst + own;
    if |burst| > n {
      assert LastN(burst, n) + own == all[|burst| - n..];
    }
  }

  lemma LastOfSum(burst: seq<Image>, own: seq<Image>, n: nat)
    requires n >= |own|
    ensures LastN(burst + own, n) == LastN(burst, n - |own|) + own
  {
    var all, room := burst + own, n - |own|;
    if |burst| > room {
      assert burst[|burst| - room..] + own == all[|all| - n..];
    }
  }

  lemma TogetherIsLast(burst: seq<Image>, own: seq<Image>)
    ensures Together(LastN(burst, STASHED_IMAGES_MAX), own) == LastN(burst + own, Max(STASHED_IMAGES_MAX, |own|))
  {
    var stash := LastN(burst, STASHED_IMAGES_MAX);
    if |own| >= STASHED_IMAGES_MAX {
      assert (burst + own)[|burst|..] == own;
    } else {
      var room := STASHED_IMAGES_MAX - |own|;
      LastOfSum(burst, own, STASHED_IMAGES_MAX);
      assert LastN(stash, room) == LastN(burst, room);
      if stash == [] {
        assert LastN(burst, room) + own == own;
      }
    }
  }

  lemma NoteKeepsPictures(sent: seq<seq<Image>>, more: seq<Image>, outcomes: seq<Outcome>, stash: seq<Image>)
    requires PicturesKept(sent, outcomes, stash)
    ensures PicturesKept(sent + [more], outcomes, stash)
  {
    hide LastN, Burst;
    BurstPrefix(sent, more, outcomes, |outcomes|);
    forall i | 0 <= i < |outcomes|
      ensures PicturesFit(sent + [more], outcomes, i)
    {
      assert PicturesFit(sent, outcomes, i);
      BurstPrefix(sent, more, outcomes, i);
    }
  }

  lemma EarlierPicturesKept(sent: seq<seq<Image>>, outcomes: seq<Outcome>, o: Outcome, i: nat)
    requires i < |outcomes| <= |sent| && PicturesFit(sent, outcomes, i)
    ensures PicturesFit(sent, outcomes + [o], i)
  {
    hide LastN, Burst;
    BurstExtended(sent, outcomes, o, i);
  }

  /** An outcome added at the end: what it has to carry, and what is kept then. */
  lemma OutcomeKeepsPictures(sent: seq<seq<Image>>, outcomes: seq<Outcome>, stash: seq<Image>, o: Outcome,
                             after: seq<Image>)
    requires PicturesKept(sent, outcomes, stash) && |outcomes| < |sent|
    requires match o.way
             case Released => after == [] && o.images == Together(stash, sent[|outcomes|])
             case PassedOver => after == Stashed(stash, sent[|outcomes|])
             case Elsewhere => after == stash
    ensures PicturesKept(sent, outcomes + [o], after)
  {
    hide Together, Stashed, Burst, LastN, AllPicturesFit;
    AllPicturesStillFit(sent, outcomes, stash, o);
    var more := outcomes + [o];
    assert |more| == |outcomes| + 1;
    BurstStep(sent, outcomes, o);
    StashStep(Burst(sent, outcomes, |outcomes|), sent[|outcomes|]);
  }

  lemma AllPicturesStillFit(sent: seq<seq<Image>>, outcomes: seq<Outcome>, stash: seq<Image>, o: Outcome)
    requires PicturesKept(sent, outcomes, stash) && |outcomes| < |sent|
    requires o.way.Released? ==> o.images == Together(stash, sent[|outcomes|])
    ensures AllPicturesFit(sent, outcomes + [o])
  {
    hide Together, PicturesFit, LastN, Burst;
    forall i | 0 <= i < |outcomes + [o]|
      ensures PicturesFit(sent, outcomes + [o], i)
    {
      if i < |outcomes| {
        EarlierPicturesKept(sent, outcomes, o, i);
      } else {
        LastPicturesFit(sent, outcomes, stash, o);
      }
    }
  }

  lemma BurstStep(sent: seq<seq<Image>>, outcomes: seq<Outcome>, o: Outcome)
    requires |outcomes| < |sent|
    ensures Burst(sent, outcomes + [o], |outcomes| + 1)
         == match o.way
            case Released => []
            case PassedOver => Burst(sent, outcomes, |outcomes|) + sent[|outcomes|]
            case Elsewhere => Burst(sent, outcomes, |outcomes|)
  {
    BurstExtended(sent, outcomes, o, |outcomes|);
  }

  lemma StashStep(burst: seq<Image>, own: seq<Image>)
    ensures Stashed(LastN(burst, STASHED_IMAGES_MAX), own) == LastN(burst + own, STASHED_IMAGES_MAX)
    ensures LastN<Image>([], STASHED_IMAGES_MAX) == []
  {
    LastOfLast(burst, own, STASHED_IMAGES_MAX);
  }

  lemma LastPicturesFit(sent: seq<seq<Image>>, outcomes: seq<Outcome>, stash: seq<Image>, o: Outcome)
    requires |outcomes| < |sent| && stash == LastN(Burst(sent, outcomes, |outcomes|), STASHED_IMAGES_MAX)
    requires o.way.Released? ==> o.images == Together(stash, sent[|outcomes|])
    ensures PicturesFit(sent, outcomes + [o], |outcomes|)
  {
    hide Together, LastN, Burst;
    BurstExtended(sent, outcomes, o, |outcomes|);
    TogetherIsLast(Burst(sent, outcomes, |outcomes|), sent[|outcomes|]);
  }

  lemma PollKeepsPictures(cfg: Config, s: State)
    requires Inv(cfg, s) && Enabled(s, Poll)
    ensures PicturesKept(AfterPoll(cfg, s).sent, AfterPoll(cfg, s).outcomes, AfterPoll(cfg, s).stash)
  {
    hide PicturesKept, Together, Stashed;
    var after := AfterPoll(cfg, s);
    if |after.outcomes| > |s.outcomes| {
      OutcomeKeepsPictures(s.sent, s.outcomes, s.stash, after.outcomes[|s.outcomes|], after.stash);
    }
  }

  lemma PollKeepsInv(cfg: Config, s: State)
    requires Inv(cfg, s) && Enabled(s, Poll)
    ensures Inv(cfg, AfterPoll(cfg, s))
  {
    hide PicturesKept, Together, Stashed;
    PollKeepsPictures(cfg, s);
    var after := AfterPoll(cfg, s);
    if |after.outcomes| > |s.outcomes| {
      KeepsNewestReleased(s.outcomes, after.outcomes[|s.outcomes|], |s.sent|);
    }
  }

  lemma BypassKeepsInv(cfg: Config, s: State)
    requires Inv(cfg, s) && Enabled(s, Bypass)
    ensures Inv(cfg, AfterBypass(s))
  {
    hide PicturesKept, Due;
    var o := Outcome(Elsewhere, s.now, s.now, [], |s.sent|);
    OutcomeKeepsPictures(s.sent, s.outcomes, s.stash, o, s.stash);
    KeepsNewestReleased(s.outcomes, o, |s.sent|);
  }

  lemma KeepsNewestReleased(outcomes: seq<Outcome>, o: Outcome, noted: nat)
    requires forall i :: 0 <= i < |outcomes| ==> NewerBehind(outcomes, i, noted)
    requires |outcomes| < o.noted <= noted && (o.way.PassedOver? ==> |outcomes| + 1 < o.noted)
    ensures forall i :: 0 <= i < |outcomes + [o]| ==> NewerBehind(outcomes + [o], i, noted)
  {
    assert forall i :: 0 <= i < |outcomes| ==> (outcomes + [o])[i] == outcomes[i];
    assert forall i :: 0 <= i < |outcomes| ==>
      NewerBehind(outcomes, i, noted) ==> NewerBehind(outcomes + [o], i, noted);
  }

  lemma NoteKeepsInv(cfg: Config, s: State, images: seq<Image>)
    requires Inv(cfg, s)
    ensures Inv(cfg, Next(cfg, s, Note(images)))
  {
    hide PicturesKept, Due;
    NoteKeepsPictures(s.sent, images, s.outcomes, s.stash);
    forall i | 0 <= i < |s.outcomes|
      ensures NewerBehind(s.outcomes, i, |s.sent + [images]|)
    {
      assert NewerBehind(s.outcomes, i, |s.sent|);
    }
  }

  lemma StepKeepsInv(cfg: Config, s: State, step: Step)
    requires Inv(cfg, s) && Enabled(s, step)
    ensures Inv(cfg, Next(cfg, s, step))
  {
    hide PicturesKept, AfterPoll, AfterBypass;
    match step
    case Poll => PollKeepsInv(cfg, s);
    case Bypass => BypassKeepsInv(cfg, s);
    case Note(images) => NoteKeepsInv(cfg, s, images);
    case _ =>
  }
}
