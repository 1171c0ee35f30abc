/** gateways/inbound_dedup.py: which inbound messages were seen lately, in a table of bounded size. */
module InboundDedup {
  import opened Common

  type Key = string

  datatype Entry = Entry(key: Key, expiresAt: real)

  /** The claims in order of their making, and the keys whose reply went out. */
  datatype State = State(entries: seq<Entry>, delivered: set<Key>)

  function Keys(entries: seq<Entry>): set<Key> {
    set e <- entries :: e.key
  }

  predicate DistinctKeys(entries: seq<Entry>) {
    forall i, j :: 0 <= i < j < |entries| ==> entries[i].key != entries[j].key
  }

  predicate Valid(s: State, bound: nat) {
    DistinctKeys(s.entries) && s.delivered <= Keys(s.entries) && |s.entries| <= bound
  }

  function Unexpired(entries: seq<Entry>, now: real): seq<Entry> {
    if entries == [] then []
    else (if entries[0].expiresAt <= now then [] else [entries[0]]) + Unexpired(entries[1..], now)
  }

  function ExpiredKeys(entries: seq<Entry>, now: real): set<Key> {
    set e <- entries | e.expiresAt <= now :: e.key
  }

  function Pruned(s: State, now: real): State {
    State(Unexpired(s.entries, now), s.delivered - ExpiredKeys(s.entries, now))
  }

  function WithoutKey(entries: seq<Entry>, key: Key): seq<Entry> {
    if entries == [] then []
    else if entries[0].key == key then entries[1..]
    else [entries[0]] + WithoutKey(entries[1..], key)
  }

  /** Drops the oldest claims until at most `bound` are left. */
  function Fitted(s: State, bound: nat): State
    decreases |s.entries|
  {
    if |s.entries| <= bound then s
    else Fitted(State(s.entries[1..], s.delivered - {s.entries[0].key}), bound)
  }

  lemma ExpiredNone(now: real)
    ensures ExpiredKeys([], now) == {} && Unexpired([], now) == []
  {}

  lemma ExpiredSnoc(entries: seq<Entry>, i: nat, now: real)
    requires i < |entries|
    ensures ExpiredKeys(entries[..i + 1], now)
         == ExpiredKeys(entries[..i], now) + if entries[i].expiresAt <= now then {entries[i].key} else {}
  {
    assert entries[..i + 1] == entries[..i] + [entries[i]];
  }

  lemma UnexpiredHead(entries: seq<Entry>, now: real)
    requires entries != []
    ensures Unexpired(entries, now)
         == (if entries[0].expiresAt <= now then [] else [entries[0]]) + Unexpired(entries[1..], now)
  {}

  predicate Claimed(s: State, key: Key, now: real) {
    key !in Keys(Pruned(s, now).entries)
  }

  function AfterClaim(s: State, key: Key, ttl: real, now: real, bound: nat): State {
    var p := Pruned(s, now);
    if !Claimed(s, key, now) then p
    else Fitted(p.(entries := p.entries + [Entry(key, now + ttl)]), bound)
  }

  function AfterDelivered(s: State, key: Key): State {
    if key in Keys(s.entries) then s.(delivered := s.delivered + {key}) else s
  }

  function AfterRelease(s: State, key: Key): State {
    if key == "" || key in s.delivered then s else s.(entries := WithoutKey(s.entries, key))
  }

  class InboundDeduplicator {
    const maxEntries: nat
    var entries: seq<Entry>
    var delivered: set<Key>

    ghost function View(): State
      reads this
    {
      State(entries, delivered)
    }

    constructor (bound: int)
      ensures maxEntries == Max(1, bound) && View() == State([], {})
    {
      maxEntries := Max(1, bound);
      entries, delivered := [], {};
    }

    /** `claimed` is false when the message was seen recently. */
    method Claim(key: Key, ttl: real, now: real) returns (claimed: bool)
      modifies this
      ensures claimed == Claimed(old(View()), key, now)
      ensures View() == AfterClaim(old(View()), key, ttl, now, maxEntries)
    {
      Prune(now);
      var i := Find(key);
      if i < |entries| {
        return false;
      }
      entries := entries + [Entry(key, now + ttl)];
      while |entries| > maxEntries
        invariant Fitted(View(), maxEntries) == AfterClaim(old(View()), key, ttl, now, maxEntries)
      {
        delivered := delivered - {entries[0].key};
        entries := entries[1..];
      }
      return true;
    }

    method Prune(now: real)
      modifies this
      ensures View() == Pruned(old(View()), now)
    {
      hide ExpiredKeys, Unexpired;
      var left: seq<Entry> := [];
      ExpiredNone(now);
      for i := 0 to |entries|
        invariant entries == old(entries)
        invariant left + Unexpired(entries[i..], now) == Unexpired(entries, now)
        invariant delivered == old(delivered) - ExpiredKeys(entries[..i], now)
      {
        var e := entries[i];
        ExpiredSnoc(entries, i, now);
        UnexpiredHead(entries[i..], now);
        assert entries[i..][1..] == entries[i + 1..];
        if e.expiresAt <= now {
          delivered := delivered - {e.key};
        } else {
          left := left + [e];
        }
      }
      assert entries[..|entries|] == entries && entries[|entries|..] == [];
      entries := left;
    }

    method Find(key: Key) returns (i: nat)
      ensures i <= |entries|
      ensures i < |entries| <==> key in Keys(entries)
      ensures i < |entries| ==> entries[i].key == key
    {
      i := 0;
      while i < |entries| && entries[i].key != key
        invariant i <= |entries|
        invariant forall j :: 0 <= j < i ==> entries[j].key != key
      {
        i := i + 1;
      }
      if i < |entries| {
        assert entries[i] in entries;
      }
    }

    method MarkDelivered(key: Key)
      modifies this`delivered
      ensures View() == AfterDelivered(old(View()), key)
    {
      var i := Find(key);
      if i < |entries| {
        delivered := delivered + {key};
      }
    }

    method Release(key: Key)
      modifies this`entries
      ensures View() == AfterRelease(old(View()), key)
    {
      if key == "" || key in delivered {
        return;
      }
      var i := 0;
      while i < |entries| && entries[i].key != key
        invariant i <= |entries|
        invariant WithoutKey(entries, key) == entries[..i] + WithoutKey(entries[i..], key)
      {
        assert entries[..i + 1] == entries[..i] + [entries[i]];
        i := i + 1;
      }
      if i < |entries| {
        entries := entries[..i] + entries[i + 1..];
      } else {
        assert entries[..i] == entries;
      }
    }
  }
}
