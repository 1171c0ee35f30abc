/** infra/rate_limit.py: token buckets kept in a bounded, least-recently-used table. */
module RateLimit {
  import opened Common

  type Key = string

  datatype Rule = Rule(key: Key, capacity: real, rate: real)

  datatype Bucket = Bucket(tokens: real, at: real)

  /** The seconds `acquire` returns; `Never` is `math.inf`. */
  datatype Wait = Finite(seconds: real) | Never

  function Longer(a: Wait, b: Wait): Wait {
    if a.Never? || b.Never? then Never else Finite(MaxReal(a.seconds, b.seconds))
  }

  type Buckets = map<Key, Bucket>

  // ---------------------------------------------------------------------
  // One call on the table alone, without the size bound
  // ---------------------------------------------------------------------

  /** What the rule's bucket holds at `now`; a missing bucket starts full. */
  function TokensAt(m: Buckets, rule: Rule, now: real): real {
    Refilled(if rule.key in m then m[rule.key] else Bucket(rule.capacity, now), rule, now)
  }

  function Refilled(b: Bucket, rule: Rule, now: real): real {
    MinReal(rule.capacity, b.tokens + MaxReal(0.0, now - b.at) * MaxReal(0.0, rule.rate))
  }

  function Active(rules: seq<Rule>): seq<Rule> {
    if rules == [] then []
    else (if rules[0].capacity <= 0.0 then [] else [rules[0]]) + Active(rules[1..])
  }

  predicate Granted(m: Buckets, rules: seq<Rule>, now: real) {
    forall rule <- Active(rules) :: TokensAt(m, rule, now) >= 1.0
  }

  function RuleWait(m: Buckets, rule: Rule, now: real): Wait {
    var tokens := TokensAt(m, rule, now);
    if tokens >= 1.0 then Finite(0.0) else RefillWait(1.0 - tokens, rule.rate)
  }

  function RefillWait(missing: real, rate: real): Wait {
    if rate > 0.0 then Finite(missing / rate) else Never
  }

  function WaitFor(m: Buckets, rules: seq<Rule>, now: real): Wait {
    if rules == [] then Finite(0.0)
    else Longer(WaitFor(m, rules[..|rules| - 1], now), RuleWait(m, rules[|rules| - 1], now))
  }

  /** Each rule's key with what its bucket holds, all read from the same table. */
  function Readings(m: Buckets, rules: seq<Rule>, now: real): (r: seq<(Key, real)>)
    ensures |r| == |rules|
  {
    if rules == [] then []
    else
      var last := rules[|rules| - 1];
      Readings(m, rules[..|rules| - 1], now) + [(last.key, TokensAt(m, last, now))]
  }

  /** The buckets after every reading is written back less `spend`. */
  function Charged(m: Buckets, readings: seq<(Key, real)>, now: real, spend: real): Buckets {
    if readings == [] then m
    else
      var (key, tokens) := readings[|readings| - 1];
      Charged(m, readings[..|readings| - 1], now, spend)[key := Bucket(tokens - spend, now)]
  }

  function Spend(m: Buckets, rules: seq<Rule>, now: real): real {
    if Granted(m, rules, now) then 1.0 else 0.0
  }

  datatype Call = Call(rules: seq<Rule>, now: real)

  /** One call on the simple limiter that never forgets a bucket. */
  function Unbounded(m: Buckets, call: Call): Buckets {
    Charged(m, Readings(m, Active(call.rules), call.now), call.now, Spend(m, call.rules, call.now))
  }

  // ---------------------------------------------------------------------
  // The ordered table
  // ---------------------------------------------------------------------

  /** `OrderedDict`: the buckets, and their keys from least to most recently used. */
  datatype Table = Table(buckets: Buckets, order: seq<Key>)

  predicate ValidTable(t: Table) {
    Distinct(t.order) && Elements(t.order) == t.buckets.Keys
  }

  function Without(order: seq<Key>, key: Key): (r: seq<Key>)
    ensures key !in r && forall x :: x in order && x != key <==> x in r
    ensures Distinct(order) ==> Distinct(r)
  {
    if order == [] then []
    else
      var rest := Without(order[1..], key);
      assert Distinct(order) ==> Distinct(order[1..]) && order[0] !in order[1..];
      if order[0] == key then rest else [order[0]] + rest
  }

  /** `move_to_end`. */
  function Touched(order: seq<Key>, key: Key): seq<Key> {
    Without(order, key) + [key]
  }

  function TouchedAll(order: seq<Key>, readings: seq<(Key, real)>): seq<Key> {
    if readings == [] then order
    else Touched(TouchedAll(order, readings[..|readings| - 1]), readings[|readings| - 1].0)
  }

  /** Drops the least recently used keys until at most `bound` are left. */
  function Evicted(t: Table, bound: nat): (r: Table)
    decreases |t.order|
    ensures |r.order| <= bound
  {
    if |t.order| <= bound then t
    else Evicted(Table(t.buckets - {t.order[0]}, t.order[1..]), bound)
  }

  lemma {:induction false} EvictedValid(t: Table, bound: nat)
    requires ValidTable(t)
    ensures ValidTable(Evicted(t, bound))
    decreases |t.order|
  {
    if |t.order| > bound {
      var rest := Table(t.buckets - {t.order[0]}, t.order[1..]);
      assert t.order == [t.order[0]] + rest.order;
      assert rest.buckets.Keys == Elements(rest.order);
      EvictedValid(rest, bound);
    }
  }

  function Written(t: Table, call: Call): (r: Table)
    requires ValidTable(t)
    ensures ValidTable(r)
  {
    var readings := Readings(t.buckets, Active(call.rules), call.now);
    WrittenValid(t, readings, call.now, Spend(t.buckets, call.rules, call.now));
    Table(Unbounded(t.buckets, call), TouchedAll(t.order, readings))
  }

  lemma {:induction false} WrittenValid(t: Table, readings: seq<(Key, real)>, now: real, spend: real)
    requires ValidTable(t)
    ensures ValidTable(Table(Charged(t.buckets, readings, now, spend), TouchedAll(t.order, readings)))
  {
    if readings != [] {
      var init := readings[..|readings| - 1];
      WrittenValid(t, init, now, spend);
      var order := TouchedAll(t.order, init);
      var key := readings[|readings| - 1].0;
      assert Elements(Touched(order, key)) == Elements(order) + {key};
    }
  }

  /** One call of `acquire` on a table bounded to `bound` keys. */
  function Step(t: Table, call: Call, bound: nat): (r: Table)
    requires ValidTable(t)
    ensures ValidTable(r) && |r.order| <= bound
  {
    EvictedValid(Written(t, call), bound);
    Evicted(Written(t, call), bound)
  }

  class TokenBucketLimiter {
    const maxBuckets: nat
    var buckets: Buckets
    var order: seq<Key>

    ghost function Contents(): Table
      reads this
    {
      Table(buckets, order)
    }

    ghost predicate Valid()
      reads this
    {
      ValidTable(Contents()) && |order| <= maxBuckets && maxBuckets >= 1
    }

    constructor (bound: int)
      ensures Valid() && buckets == map[] && order == [] && maxBuckets == Max(1, bound)
    {
      maxBuckets := Max(1, bound);
      buckets, order := map[], [];
    }

    /** Takes a token from every bucket the rules name, or from none. */
    method Acquire(rules: seq<Rule>, now: real) returns (wait: Wait)
      requires Valid()
      modifies this
      ensures Valid()
      ensures wait == WaitFor(old(buckets), Active(rules), now)
      ensures wait == Finite(0.0) <==> Granted(old(buckets), rules, now)
      ensures Contents() == Step(old(Contents()), Call(rules, now), maxBuckets)
    {
      ghost var before := Contents();
      var refreshed;
      refreshed, wait := Refresh(rules, now);
      WaitNonNegative(before.buckets, Active(rules), now);
      WaitZeroIffGranted(before.buckets, Active(rules), now);
      var spend := if wait.Never? || wait.seconds > 0.0 then 0.0 else 1.0;
      Store(refreshed, now, spend);
      ghost var call := Call(rules, now);
      assert Contents() == Written(before, call);
      Evict();
      assert Contents() == Step(before, call, maxBuckets);
    }

    /** Reads every named bucket, brought up to `now`, before any is written. */
    method Refresh(rules: seq<Rule>, now: real) returns (refreshed: seq<(Key, real)>, wait: Wait)
      ensures wait == WaitFor(buckets, Active(rules), now)
      ensures refreshed == Readings(buckets, Active(rules), now)
    {
      refreshed, wait := [], Finite(0.0);
      for i := 0 to |rules|
        invariant refreshed == Readings(buckets, Active(rules[..i]), now)
        invariant wait == WaitFor(buckets, Active(rules[..i]), now)
      {
        var rule := rules[i];
        RefreshSnoc(buckets, rules, i, now);
        if rule.capacity <= 0.0 {
          continue;
        }
        var bucket := if rule.key in buckets then buckets[rule.key] else Bucket(rule.capacity, now);
        var tokens := Refilled(bucket, rule, now);
        refreshed := refreshed + [(rule.key, tokens)];
        if tokens < 1.0 {
          wait := Longer(wait, RefillWait(1.0 - tokens, rule.rate));
        }
      }
      assert rules[..|rules|] == rules;
    }

    method Store(refreshed: seq<(Key, real)>, now: real, spend: real)
      modifies this
      ensures buckets == Charged(old(buckets), refreshed, now, spend)
      ensures order == TouchedAll(old(order), refreshed)
    {
      for i := 0 to |refreshed|
        invariant buckets == Charged(old(buckets), refreshed[..i], now, spend)
        invariant order == TouchedAll(old(order), refreshed[..i])
      {
        assert refreshed[..i + 1][..i] == refreshed[..i];
        var (key, tokens) := refreshed[i];
        buckets := buckets[key := Bucket(tokens - spend, now)];
        order := Touched(order, key);
      }
      assert refreshed[..|refreshed|] == refreshed;
    }

    method Evict()
      modifies this
      ensures Contents() == Evicted(old(Contents()), maxBuckets)
    {
      while |order| > maxBuckets
        invariant Evicted(Contents(), maxBuckets) == old(Evicted(Contents(), maxBuckets))
      {
        buckets := buckets - {order[0]};
        order := order[1..];
      }
    }
  }

  lemma {:induction false} ActiveSnoc(rules: seq<Rule>, rule: Rule)
    ensures Active(rules + [rule]) == Active(rules) + Active([rule])
  {
    if rules != [] {
      assert (rules + [rule])[1..] == rules[1..] + [rule];
      ActiveSnoc(rules[1..], rule);
    } else {
      assert [] + [rule] == [rule];
    }
  }

  lemma RefreshSnoc(m: Buckets, rules: seq<Rule>, i: nat, now: real)
    requires i < |rules|
    ensures var (some, more, rule) := (Active(rules[..i]), Active(rules[..i + 1]), rules[i]);
            if rule.capacity <= 0.0 then more == some
            else
              && Readings(m, more, now) == Readings(m, some, now) + [(rule.key, TokensAt(m, rule, now))]
              && WaitFor(m, more, now) == if TokensAt(m, rule, now) >= 1.0 then WaitFor(m, some, now)
                                          else Longer(WaitFor(m, some, now), RuleWait(m, rule, now))
  {
    var some, rule := Active(rules[..i]), rules[i];
    ActiveSnoc(rules[..i], rule);
    assert rules[..i + 1] == rules[..i] + [rule];
    if rule.capacity > 0.0 {
      assert Active(rules[..i + 1]) == some + [rule];
      assert (some + [rule])[..|some|] == some;
      WaitNonNegative(m, some, now);
    }
  }

  lemma {:induction false} WaitNonNegative(m: Buckets, rules: seq<Rule>, now: real)
    ensures WaitFor(m, rules, now).Finite? ==> WaitFor(m, rules, now).seconds >= 0.0
  {
    if rules != [] {
      WaitNonNegative(m, rules[..|rules| - 1], now);
    }
  }

  lemma {:induction false} WaitZeroIffGranted(m: Buckets, rules: seq<Rule>, now: real)
    ensures WaitFor(m, rules, now) == Finite(0.0) <==> forall rule <- rules :: TokensAt(m, rule, now) >= 1.0
  {
    hide TokensAt, RefillWait;
    if rules != [] {
      var init, last := rules[..|rules| - 1], rules[|rules| - 1];
      WaitZeroIffGranted(m, init, now);
      WaitNonNegative(m, init, now);
      assert rules == init + [last];
      if TokensAt(m, last, now) < 1.0 {
        SomeWait(1.0 - TokensAt(m, last, now), last.rate);
      }
    }
  }

  lemma SomeWait(missing: real, rate: real)
    requires missing > 0.0
    ensures RefillWait(missing, rate).Never? || RefillWait(missing, rate).seconds > 0.0
  {
    if rate > 0.0 {
      assert missing / rate > 0.0;
    }
  }
}
