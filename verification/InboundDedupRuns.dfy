/** When gateways/inbound_dedup.py lets the same message through twice. */
module InboundDedupRuns {
  import opened InboundDedup
  import opened InboundDedupEntries

  datatype Step =
    | Claim(key: Key, ttl: real, now: real)
    | Deliver(key: Key)
    | Release(key: Key)

  function Next(s: State, step: Step, bound: nat): State {
    match step
    case Claim(key, ttl, now) => AfterClaim(s, key, ttl, now, bound)
    case Deliver(key) => AfterDelivered(s, key)
    case Release(key) => AfterRelease(s, key)
  }

  /** The state before step `n`. */
  function Before(steps: seq<Step>, bound: nat, n: nat): State
    requires n <= |steps|
  {
    if n == 0 then State([], {}) else Next(Before(steps, bound, n - 1), steps[n - 1], bound)
  }

  /** The clock never runs backwards. */
  predicate Ordered(steps: seq<Step>) {
    forall i, j :: 0 <= i <= j < |steps| && steps[i].Claim? && steps[j].Claim? ==> steps[i].now <= steps[j].now
  }

  /** Step `n` is a claim that is granted. */
  predicate Granted(steps: seq<Step>, bound: nat, n: nat)
    requires n < |steps|
  {
    steps[n].Claim? && Claimed(Before(steps, bound, n), steps[n].key, steps[n].now)
  }

  /** Granted claims among the steps after `i` and before `j`. */
  function GrantsBetween(steps: seq<Step>, bound: nat, i: nat, j: nat): nat
    requires i < j <= |steps|
  {
    if j == i + 1 then 0
    else GrantsBetween(steps, bound, i, j - 1) + if Granted(steps, bound, j - 1) then 1 else 0
  }

  /** Step `n` releases the key while no reply to it is known to have gone out. */
  predicate ReleasedAt(steps: seq<Step>, bound: nat, key: Key, n: nat)
    requires n < |steps|
  {
    steps[n] == Release(key) && key !in Before(steps, bound, n).delivered
  }

  ghost predicate ReleasedBetween(steps: seq<Step>, bound: nat, key: Key, i: nat, j: nat)
    requires j <= |steps|
  {
    exists n :: i < n < j && ReleasedAt(steps, bound, key, n)
  }

  // ---------------------------------------------------------------------
  // What every step keeps
  // ---------------------------------------------------------------------

  lemma {:induction false} FittedValid(s: State, bound: nat)
    requires DistinctKeys(s.entries) && s.delivered <= Keys(s.entries)
    ensures Valid(Fitted(s, bound), bound)
    decreases |s.entries|
  {
    if |s.entries| > bound {
      var rest := State(s.entries[1..], s.delivered - {s.entries[0].key});
      assert Keys(s.entries) == {s.entries[0].key} + Keys(rest.entries);
      FittedValid(rest, bound);
    }
  }

  lemma PrunedValid(s: State, now: real, bound: nat)
    requires Valid(s, bound)
    ensures Valid(Pruned(s, now), bound)
  {
    UnexpiredShorter(s.entries, now);
    forall k | k in s.delivered && k !in ExpiredKeys(s.entries, now)
      ensures k in Keys(Unexpired(s.entries, now))
    {
      var e :| e in s.entries && e.key == k;
      assert e in Unexpired(s.entries, now);
    }
  }

  lemma StepKeepsValid(s: State, step: Step, bound: nat)
    requires Valid(s, bound)
    ensures Valid(Next(s, step, bound), bound)
  {
    match step
    case Claim(key, ttl, now) =>
      PrunedValid(s, now, bound);
      if Claimed(s, key, now) {
        var p, more := Pruned(s, now), Pruned(s, now).entries + [Entry(key, now + ttl)];
        AppendedDistinct(p.entries, Entry(key, now + ttl));
        FittedValid(p.(entries := more), bound);
      }
    case Deliver(key) =>
    case Release(key) =>
      WithoutShorter(s.entries, key);
      forall k | k in s.delivered && k != key
        ensures k in Keys(WithoutKey(s.entries, key))
      {
        var e :| e in s.entries && e.key == k;
        assert e in WithoutKey(s.entries, key);
      }
  }

  /** The table never holds more than its bound, and remembers a delivery only of a message it holds. */
  lemma {:induction false} RunKeepsValid(steps: seq<Step>, bound: nat, n: nat)
    requires n <= |steps|
    ensures Valid(Before(steps, bound, n), bound)
  {
    if n > 0 {
      RunKeepsValid(steps, bound, n - 1);
      StepKeepsValid(Before(steps, bound, n - 1), steps[n - 1], bound);
    }
  }

  // ---------------------------------------------------------------------
  // A granted claim is remembered
  // ---------------------------------------------------------------------

  ghost predicate Remembered(s: State, e: Entry, grants: nat) {
    e in s.entries && Behind(s.entries, e.key) <= grants
  }

  lemma {:induction false} LastBehind(entries: seq<Entry>, e: Entry)
    requires e.key !in Keys(entries)
    ensures Behind(entries + [e], e.key) == 0
  {
    if entries != [] {
      assert entries[0] in entries;
      assert (entries + [e])[1..] == entries[1..] + [e];
      LastBehind(entries[1..], e);
    }
  }

  /** The table right after the claim that made the entry. */
  lemma ClaimRemembers(s: State, key: Key, ttl: real, now: real, bound: nat)
    requires Valid(s, bound) && bound > 0 && Claimed(s, key, now)
    ensures Remembered(AfterClaim(s, key, ttl, now, bound), Entry(key, now + ttl), 0)
  {
    PrunedValid(s, now, bound);
    var p, e := Pruned(s, now), Entry(key, now + ttl);
    LastBehind(p.entries, e);
    AppendedDistinct(p.entries, e);
    assert e in p.entries + [e];
    FittedKeeps(p.(entries := p.entries + [e]), bound, e);
  }

  /** Another claim pushes the entry back by one at most, or finds a full table of newer ones behind it. */
  lemma OtherClaimRemembers(s: State, e: Entry, grants: nat, step: Step, bound: nat)
    requires Valid(s, bound) && Remembered(s, e, grants) && step.Claim? && step.now < e.expiresAt
    ensures if Claimed(s, step.key, step.now)
            then Remembered(Next(s, step, bound), e, grants + 1) || grants + 1 >= bound
            else Remembered(Next(s, step, bound), e, grants)
  {
    hide Behind, Fitted, Unexpired, ExpiredKeys;
    PrunedValid(s, step.now, bound);
    UnexpiredKeeps(s.entries, e, step.now);
    var p := Pruned(s, step.now);
    if Claimed(s, step.key, step.now) {
      var last := Entry(step.key, step.now + step.ttl);
      SnocBehind(p.entries, last, e.key);
      AppendedDistinct(p.entries, last);
      hide DistinctKeys, Valid, Keys;
      FittedKeeps(p.(entries := p.entries + [last]), bound, e);
    }
  }

  lemma AppendedDistinct(entries: seq<Entry>, e: Entry)
    requires DistinctKeys(entries) && e.key !in Keys(entries)
    ensures DistinctKeys(entries + [e]) && Keys(entries + [e]) == Keys(entries) + {e.key}
  {
    assert forall i :: 0 <= i < |entries| ==> entries[i] in entries && entries[i].key in Keys(entries);
  }

  lemma {:induction false} RunRemembers(steps: seq<Step>, bound: nat, i: nat, n: nat)
    requires i < n <= |steps| && bound > 0 && Granted(steps, bound, i)
    requires forall m :: i < m < n && steps[m].Claim? ==> steps[m].now < steps[i].now + steps[i].ttl
    ensures || ReleasedBetween(steps, bound, steps[i].key, i, n)
            || GrantsBetween(steps, bound, i, n) >= bound
            || Remembered(Before(steps, bound, n), Entry(steps[i].key, steps[i].now + steps[i].ttl),
                          GrantsBetween(steps, bound, i, n))
  {
    hide Valid, AfterClaim, Claimed;
    var last := n - 1;
    var s := Before(steps, bound, last);
    var e := Entry(steps[i].key, steps[i].now + steps[i].ttl);
    RunKeepsValid(steps, bound, last);
    if last == i {
      ClaimRemembers(s, steps[i].key, steps[i].ttl, steps[i].now, bound);
    } else {
      RunRemembers(steps, bound, i, last);
      if ReleasedBetween(steps, bound, e.key, i, last) {
        var r :| i < r < last && ReleasedAt(steps, bound, e.key, r);
        assert i < r < n;
      } else if GrantsBetween(steps, bound, i, last) < bound {
        match steps[last]
        case Claim(_, _, _) => OtherClaimRemembers(s, e, GrantsBetween(steps, bound, i, last), steps[last], bound);
        case Deliver(_) =>
        case Release(key) =>
          if key != e.key {
            WithoutKeeps(s.entries, e, key);
          } else {
            assert ReleasedAt(steps, bound, key, last) || key in s.delivered;
          }
      }
    }
  }

  /**
   * The same message is let through a second time within its time to live only if it was released
   * in between while no reply to it was known to be out, or if at least as many other claims were
   * granted in between as the table holds.
   */
  lemma ClaimedTwice(steps: seq<Step>, bound: nat, i: nat, j: nat)
    requires i < j < |steps| && bound > 0 && Ordered(steps)
    requires Granted(steps, bound, i) && Granted(steps, bound, j) && steps[i].key == steps[j].key
    requires steps[j].now < steps[i].now + steps[i].ttl
    ensures ReleasedBetween(steps, bound, steps[i].key, i, j) || GrantsBetween(steps, bound, i, j) >= bound
  {
    RunRemembers(steps, bound, i, j);
    var s, e := Before(steps, bound, j), Entry(steps[i].key, steps[i].now + steps[i].ttl);
    if Remembered(s, e, GrantsBetween(steps, bound, i, j)) {
      RunKeepsValid(steps, bound, j);
      UnexpiredKeeps(s.entries, e, steps[j].now);
    }
  }

  // ---------------------------------------------------------------------
  // Nothing else is refused
  // ---------------------------------------------------------------------

  /** Step `i` granted this very entry, and nothing before step `n` has released it. */
  predicate HoldsSince(steps: seq<Step>, bound: nat, n: nat, e: Entry, i: nat)
    requires n <= |steps|
  {
    && i < n && Granted(steps, bound, i) && steps[i].key == e.key && steps[i].now + steps[i].ttl == e.expiresAt
    && forall r :: i < r < n ==> !ReleasedAt(steps, bound, e.key, r)
  }

  lemma {:induction false} EntryWasGranted(steps: seq<Step>, bound: nat, n: nat, e: Entry) returns (i: nat)
    requires n <= |steps| && e in Before(steps, bound, n).entries && e.key != ""
    ensures HoldsSince(steps, bound, n, e, i)
  {
    hide Granted, ReleasedAt, Valid, Next, Claimed;
    var s := Before(steps, bound, n - 1);
    if e in s.entries {
      RunKeepsValid(steps, bound, n - 1);
      i := EntryWasGranted(steps, bound, n - 1, e);
      StaysUnreleased(steps, bound, n, e);
    } else {
      i := n - 1;
      NewEntryIsClaimed(s, steps[i], bound, e);
      assert Granted(steps, bound, i) by { GrantedIs(steps, bound, i); }
    }
  }

  lemma GrantedIs(steps: seq<Step>, bound: nat, n: nat)
    requires n < |steps|
    ensures Granted(steps, bound, n) <==>
              steps[n].Claim? && Claimed(Before(steps, bound, n), steps[n].key, steps[n].now)
  {}

  lemma StaysUnreleased(steps: seq<Step>, bound: nat, n: nat, e: Entry)
    requires 0 < n <= |steps| && e.key != "" && e in Before(steps, bound, n).entries
    requires Valid(Before(steps, bound, n - 1), bound)
    ensures !ReleasedAt(steps, bound, e.key, n - 1)
  {
    if ReleasedAt(steps, bound, e.key, n - 1) {
      KeyIsGone(Before(steps, bound, n - 1).entries, e);
    }
  }

  /** The one entry of a key is taken out. */
  lemma {:induction false} KeyIsGone(entries: seq<Entry>, e: Entry)
    requires DistinctKeys(entries)
    ensures e !in WithoutKey(entries, e.key)
  {
    if entries != [] {
      if entries[0].key == e.key {
        assert forall i :: 0 < i < |entries| ==> entries[i].key != entries[0].key;
      } else {
        KeyIsGone(entries[1..], e);
      }
    }
  }

  lemma NewEntryIsClaimed(s: State, step: Step, bound: nat, e: Entry)
    requires e in Next(s, step, bound).entries && e !in s.entries
    ensures step.Claim? && Claimed(s, step.key, step.now) && e == Entry(step.key, step.now + step.ttl)
  {
    match step
    case Claim(key, ttl, now) =>
      UnexpiredShorter(s.entries, now);
      var p := Pruned(s, now);
      if Claimed(s, key, now) {
        FittedIsPart(p.(entries := p.entries + [Entry(key, now + ttl)]), bound, e);
      }
    case Deliver(_) =>
    case Release(key) =>
      WithoutShorter(s.entries, key);
  }

  lemma {:induction false} FittedIsPart(s: State, bound: nat, e: Entry)
    requires e in Fitted(s, bound).entries
    ensures e in s.entries
    decreases |s.entries|
  {
    if |s.entries| > bound {
      FittedIsPart(State(s.entries[1..], s.delivered - {s.entries[0].key}), bound, e);
    }
  }

  /**
   * A claim is refused only for a claim of the same message granted before, within its time to live,
   * that nothing has released since.
   */
  lemma RefusedWasGranted(steps: seq<Step>, bound: nat, j: nat) returns (i: nat)
    requires j < |steps| && steps[j].Claim? && !Granted(steps, bound, j) && steps[j].key != ""
    ensures i < j && Granted(steps, bound, i) && steps[i].key == steps[j].key
    ensures steps[j].now < steps[i].now + steps[i].ttl && !ReleasedBetween(steps, bound, steps[j].key, i, j)
  {
    var s := Before(steps, bound, j);
    UnexpiredShorter(s.entries, steps[j].now);
    var e :| e in Unexpired(s.entries, steps[j].now) && e.key == steps[j].key;
    i := EntryWasGranted(steps, bound, j, e);
  }

  /** A key counts as delivered only once a reply to its latest granted claim has gone out. */
  predicate DeliveredSince(steps: seq<Step>, bound: nat, n: nat, key: Key, m: nat)
    requires n <= |steps|
  {
    && m < n && steps[m] == Deliver(key)
    && forall r :: m < r < n ==> !(Granted(steps, bound, r) && steps[r].key == key)
  }

  lemma {:induction false} DeliveredHasReply(steps: seq<Step>, bound: nat, n: nat, key: Key) returns (m: nat)
    requires n <= |steps| && key in Before(steps, bound, n).delivered
    ensures DeliveredSince(steps, bound, n, key, m)
  {
    hide Valid, Next, Claimed;
    var s, step := Before(steps, bound, n - 1), steps[n - 1];
    RunKeepsValid(steps, bound, n - 1);
    DeliveredGrows(s, step, bound, key);
    if step == Deliver(key) {
      m := n - 1;
    } else {
      m := DeliveredHasReply(steps, bound, n - 1, key);
    }
  }

  lemma DeliveredGrows(s: State, step: Step, bound: nat, key: Key)
    requires Valid(s, bound) && key in Next(s, step, bound).delivered
    ensures key in s.delivered || step == Deliver(key)
    ensures step.Claim? && step.key == key ==> !Claimed(s, key, step.now)
  {
    if step.Claim? {
      PrunedValid(s, step.now, bound);
      var p := Pruned(s, step.now);
      if Claimed(s, step.key, step.now) {
        FittedDelivered(p.(entries := p.entries + [Entry(step.key, step.now + step.ttl)]), bound);
      }
    }
  }

  lemma {:induction false} FittedDelivered(s: State, bound: nat)
    ensures Fitted(s, bound).delivered <= s.delivered
    decreases |s.entries|
  {
    if |s.entries| > bound {
      FittedDelivered(State(s.entries[1..], s.delivered - {s.entries[0].key}), bound);
    }
  }

  /** And a reply that has gone out keeps the claim from being released. */
  lemma DeliveredIsKept(s: State, key: Key)
    ensures key in Keys(s.entries) ==> AfterRelease(AfterDelivered(s, key), key) == AfterDelivered(s, key)
  {}
}
