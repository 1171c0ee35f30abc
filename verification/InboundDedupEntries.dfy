/**
 * One claim in the table of gateways/inbound_dedup.py, through the changes the table goes through.
 *
 * A claim can leave in four ways:
 *
 *   - it expires, which no change before its time brings about;
 *   - it is released;
 *   - it is pushed out by newer claims, and then the table is full of them;
 *   - its key is claimed again, which its being there prevents.
 *
 * `Behind` counts the claims newer than it, on which the third depends.
 */
module InboundDedupEntries {
  import opened InboundDedup

  // ---------------------------------------------------------------------
  // One entry through one step
  // ---------------------------------------------------------------------

  /** How many claims are newer than the key's. */
  function Behind(entries: seq<Entry>, key: Key): nat {
    if entries == [] then 0
    else if entries[0].key == key then |entries| - 1
    else Behind(entries[1..], key)
  }

  lemma {:induction false} UnexpiredKeeps(entries: seq<Entry>, e: Entry, now: real)
    requires e in entries && e.expiresAt > now && DistinctKeys(entries)
    ensures e in Unexpired(entries, now) && Behind(Unexpired(entries, now), e.key) <= Behind(entries, e.key)
  {
    UnexpiredShorter(entries[1..], now);
    if entries[0] != e {
      assert e in entries[1..] && entries[0].key != e.key;
      UnexpiredKeeps(entries[1..], e, now);
      var rest := Unexpired(entries[1..], now);
      assert ([entries[0]] + rest)[1..] == rest && [] + rest == rest;
    }
  }

  lemma {:induction false} UnexpiredShorter(entries: seq<Entry>, now: real)
    ensures |Unexpired(entries, now)| <= |entries|
    ensures forall e :: e in Unexpired(entries, now) <==> e in entries && e.expiresAt > now
    ensures DistinctKeys(entries) ==> DistinctKeys(Unexpired(entries, now))
  {
    if entries != [] {
      UnexpiredShorter(entries[1..], now);
      var rest := Unexpired(entries[1..], now);
      assert forall i :: 0 <= i < |rest| ==> rest[i] in entries[1..];
    }
  }

  lemma {:induction false} SnocBehind(entries: seq<Entry>, last: Entry, key: Key)
    requires key in Keys(entries)
    ensures Behind(entries + [last], key) == Behind(entries, key) + 1
  {
    if entries[0].key != key {
      assert (entries + [last])[1..] == entries[1..] + [last];
      SnocBehind(entries[1..], last, key);
    }
  }

  /** Dropping old claims reaches the key's only past a full table of newer ones. */
  lemma {:induction false} FittedKeeps(s: State, bound: nat, e: Entry)
    requires e in s.entries && DistinctKeys(s.entries)
    ensures || (e in Fitted(s, bound).entries && Behind(Fitted(s, bound).entries, e.key) == Behind(s.entries, e.key))
            || Behind(s.entries, e.key) >= bound
    decreases |s.entries|
  {
    if |s.entries| > bound && s.entries[0] != e {
      assert e in s.entries[1..];
      FittedKeeps(State(s.entries[1..], s.delivered - {s.entries[0].key}), bound, e);
    }
  }

  lemma {:induction false} WithoutKeeps(entries: seq<Entry>, e: Entry, key: Key)
    requires e in entries && e.key != key
    ensures e in WithoutKey(entries, key) && Behind(WithoutKey(entries, key), e.key) <= Behind(entries, e.key)
  {
    if entries[0].key == key {
      assert e in entries[1..];
    } else {
      WithoutShorter(entries[1..], key);
      var rest := WithoutKey(entries[1..], key);
      assert ([entries[0]] + rest)[1..] == rest;
      if entries[0] != e {
        WithoutKeeps(entries[1..], e, key);
      }
    }
  }

  lemma {:induction false} WithoutShorter(entries: seq<Entry>, key: Key)
    ensures |WithoutKey(entries, key)| <= |entries|
    ensures forall e :: e in WithoutKey(entries, key) ==> e in entries
    ensures forall e :: e in entries && e.key != key ==> e in WithoutKey(entries, key)
    ensures DistinctKeys(entries) ==> DistinctKeys(WithoutKey(entries, key))
  {
    if entries != [] && entries[0].key != key {
      WithoutShorter(entries[1..], key);
      var rest := WithoutKey(entries[1..], key);
      assert forall i :: 0 <= i < |rest| ==> rest[i] in entries[1..];
    }
  }
}
