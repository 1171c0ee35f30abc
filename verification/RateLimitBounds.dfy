/** What the limiter of infra/rate_limit.py guarantees over whole runs of calls. */
module RateLimitBounds {
  import opened Common
  import opened RateLimit

  const EMPTY := Table(map[], [])

  /** The bounded table after the first `n` calls of a run from a fresh limiter. */
  function After(calls: seq<Call>, bound: nat, n: nat): (t: Table)
    requires n <= |calls|
    ensures ValidTable(t)
  {
    if n == 0 then EMPTY else Step(After(calls, bound, n - 1), calls[n - 1], bound)
  }

  /** The same run on a limiter that never forgets a bucket. */
  function AfterUnbounded(calls: seq<Call>, n: nat): Buckets
    requires n <= |calls|
  {
    if n == 0 then map[] else Unbounded(AfterUnbounded(calls, n - 1), calls[n - 1])
  }

  predicate Uses(call: Call, rule: Rule) {
    rule in Active(call.rules)
  }

  /** 1 when the call, made on buckets `m`, is granted and takes a token from the rule's bucket. */
  function Grant(m: Buckets, call: Call, rule: Rule): (r: nat)
    ensures r <= 1
  {
    if Uses(call, rule) && Granted(m, call.rules, call.now) then 1 else 0
  }

  /** Grants of the rule among the first `n` calls. */
  function Grants(calls: seq<Call>, bound: nat, rule: Rule, n: nat): nat
    requires n <= |calls|
  {
    if n == 0 then 0
    else Grants(calls, bound, rule, n - 1) + Grant(After(calls, bound, n - 1).buckets, calls[n - 1], rule)
  }

  function GrantsUnbounded(calls: seq<Call>, rule: Rule, n: nat): nat
    requires n <= |calls|
  {
    if n == 0 then 0
    else GrantsUnbounded(calls, rule, n - 1) + Grant(AfterUnbounded(calls, n - 1), calls[n - 1], rule)
  }

  /** The clock never runs backwards. */
  predicate Ordered(calls: seq<Call>) {
    forall i, j :: 0 <= i <= j < |calls| ==> calls[i].now <= calls[j].now
  }

  predicate DistinctKeys(rules: seq<Rule>) {
    forall i, j :: 0 <= i < j < |rules| ==> rules[i].key != rules[j].key
  }

  /** The rule is the only one the call has for that key. */
  predicate Fixed(call: Call, rule: Rule) {
    && DistinctKeys(Active(call.rules))
    && forall r <- Active(call.rules) :: r.key == rule.key ==> r == rule
  }

  predicate FixedIn(calls: seq<Call>, rule: Rule) {
    forall i :: 0 <= i < |calls| ==> Fixed(calls[i], rule)
  }

  // ---------------------------------------------------------------------
  // The level of one bucket
  // ---------------------------------------------------------------------

  predicate NotAhead(m: Buckets, key: Key, now: real) {
    key in m ==> m[key].at <= now
  }

  function Refill(rule: Rule, elapsed: real): real {
    elapsed * MaxReal(0.0, rule.rate)
  }

  lemma RefillAdds(rule: Rule, a: real, b: real)
    ensures Refill(rule, a) + Refill(rule, b) == Refill(rule, a + b)
    ensures a >= 0.0 ==> Refill(rule, a) >= 0.0
  {}

  /** Refilling in two steps is refilling in one: the cap does not lose anything in between. */
  lemma RefillComposes(m: Buckets, rule: Rule, t0: real, t1: real)
    requires t0 <= t1 && NotAhead(m, rule.key, t0)
    ensures TokensAt(m, rule, t1) == MinReal(rule.capacity, TokensAt(m, rule, t0) + Refill(rule, t1 - t0))
  {
    RefillAdds(rule, 0.0, t1 - t0);
    if rule.key in m {
      var b := m[rule.key];
      RefillAdds(rule, t0 - b.at, t1 - t0);
      assert MaxReal(0.0, t0 - b.at) == t0 - b.at && MaxReal(0.0, t1 - b.at) == t1 - b.at;
      assert TokensAt(m, rule, t0) == MinReal(rule.capacity, b.tokens + Refill(rule, t0 - b.at));
      assert TokensAt(m, rule, t1) == MinReal(rule.capacity, b.tokens + Refill(rule, t1 - b.at));
    }
  }

  lemma {:induction false} ReadingsAt(m: Buckets, rules: seq<Rule>, now: real, i: nat)
    requires i < |rules|
    ensures Readings(m, rules, now)[i] == (rules[i].key, TokensAt(m, rules[i], now))
  {
    if i < |rules| - 1 {
      ReadingsAt(m, rules[..|rules| - 1], now, i);
    }
  }

  lemma {:induction false} ChargedElsewhere(m: Buckets, readings: seq<(Key, real)>, now: real, spend: real, key: Key)
    requires forall r <- readings :: r.0 != key
    ensures var after := Charged(m, readings, now, spend);
            (key in after <==> key in m) && (key in m ==> after[key] == m[key])
  {
    if readings != [] {
      ChargedElsewhere(m, readings[..|readings| - 1], now, spend, key);
    }
  }

  lemma {:induction false} ChargedAt(m: Buckets, readings: seq<(Key, real)>, now: real, spend: real, i: nat)
    requires i < |readings|
    requires forall j :: i < j < |readings| ==> readings[j].0 != readings[i].0
    ensures var after := Charged(m, readings, now, spend);
            readings[i].0 in after && after[readings[i].0] == Bucket(readings[i].1 - spend, now)
  {
    if i < |readings| - 1 {
      ChargedAt(m, readings[..|readings| - 1], now, spend, i);
    }
  }

  /** All or nothing: a granted call takes exactly one token from each of its buckets, a denied call none. */
  lemma CallSpends(m: Buckets, call: Call, rule: Rule)
    requires Fixed(call, rule)
    ensures var after := Unbounded(m, call);
            if Uses(call, rule)
            then rule.key in after
                 && var spent := if Granted(m, call.rules, call.now) then 1.0 else 0.0;
                    after[rule.key] == Bucket(TokensAt(m, rule, call.now) - spent, call.now)
            else (rule.key in after <==> rule.key in m) && (rule.key in m ==> after[rule.key] == m[rule.key])
  {
    var rules := Active(call.rules);
    var readings := Readings(m, rules, call.now);
    var spend := Spend(m, call.rules, call.now);
    forall i | 0 <= i < |rules|
      ensures readings[i] == (rules[i].key, TokensAt(m, rules[i], call.now))
    {
      ReadingsAt(m, rules, call.now, i);
    }
    if Uses(call, rule) {
      var i :| 0 <= i < |rules| && rules[i] == rule;
      ChargedAt(m, readings, call.now, spend, i);
    } else {
      ChargedElsewhere(m, readings, call.now, spend, rule.key);
    }
  }

  /** The same seen through the level: the call lowers it by what it spends and nothing else. */
  lemma CallLevel(m: Buckets, call: Call, rule: Rule)
    requires Fixed(call, rule) && NotAhead(m, rule.key, call.now)
    ensures var after := Unbounded(m, call);
            && NotAhead(after, rule.key, call.now)
            && TokensAt(after, rule, call.now) == TokensAt(m, rule, call.now)
               - Grant(m, call, rule) as real
  {
    CallSpends(m, call, rule);
    if Uses(call, rule) {
      RefillComposes(Unbounded(m, call), rule, call.now, call.now);
    }
  }

  lemma {:induction false} EvictedAt(t: Table, bound: nat, key: Key)
    requires ValidTable(t)
    ensures key in Evicted(t, bound).buckets ==> key in t.buckets && Evicted(t, bound).buckets[key] == t.buckets[key]
    decreases |t.order|
  {
    if |t.order| > bound {
      EvictedValid(t, |t.order| - 1);
      EvictedAt(Table(t.buckets - {t.order[0]}, t.order[1..]), bound, key);
    }
  }

  // ---------------------------------------------------------------------
  // Any interval grants at most the capacity and what refills in it
  // ---------------------------------------------------------------------

  /** The call leaves the key's bucket in the bounded table. */
  predicate Keeps(t: Table, call: Call, bound: nat, key: Key)
    requires ValidTable(t)
  {
    key in Written(t, call).buckets ==> key in Step(t, call, bound).buckets
  }

  /** One call on the bounded table, seen from one rule: eviction can only fill its bucket. */
  lemma StepLevel(t: Table, call: Call, bound: nat, rule: Rule)
    requires ValidTable(t) && Fixed(call, rule) && NotAhead(t.buckets, rule.key, call.now)
    ensures NotAhead(Step(t, call, bound).buckets, rule.key, call.now)
    ensures var level := TokensAt(t.buckets, rule, call.now) - Grant(t.buckets, call, rule) as real;
            var after := TokensAt(Step(t, call, bound).buckets, rule, call.now);
            && (after == level || after == rule.capacity)
            && (Keeps(t, call, bound, rule.key) ==> after == level)
  {
    CallLevel(t.buckets, call, rule);
    EvictedAt(Written(t, call), bound, rule.key);
  }

  /** Calls i..j of the run leave the key's bucket in the table. */
  predicate Retained(calls: seq<Call>, bound: nat, key: Key, i: nat, j: nat)
    requires j <= |calls|
  {
    forall n :: i <= n < j ==> Keeps(After(calls, bound, n), calls[n], bound, key)
  }

  /**
   * How far the clock rose from call to call. A call reads the clock before it gets the table, so
   * the times of a run are in any order; in order this is the time between the first and the last.
   */
  function Rise(calls: seq<Call>, i: nat, j: nat): real
    requires i < j <= |calls|
  {
    if j == i + 1 then 0.0 else Rise(calls, i, j - 1) + MaxReal(0.0, calls[j - 1].now - calls[j - 2].now)
  }

  lemma {:induction false} RiseNonNegative(calls: seq<Call>, i: nat, j: nat)
    requires i < j <= |calls|
    ensures Rise(calls, i, j) >= 0.0
  {
    if j > i + 1 {
      RiseNonNegative(calls, i, j - 1);
    }
  }

  lemma {:induction false} RiseInOrder(calls: seq<Call>, i: nat, j: nat)
    requires Ordered(calls) && i < j <= |calls|
    ensures Rise(calls, i, j) == calls[j - 1].now - calls[i].now
  {
    if j > i + 1 {
      RiseInOrder(calls, i, j - 1);
    }
  }

  /** What one call leaves in the bounded table under a key, whatever the time of the call. */
  lemma StepLeaves(t: Table, call: Call, bound: nat, rule: Rule)
    requires ValidTable(t) && Fixed(call, rule)
    ensures var after := Step(t, call, bound).buckets;
            var tokens := TokensAt(t.buckets, rule, call.now) - Grant(t.buckets, call, rule) as real;
            && (rule.key in after ==>
                  if Uses(call, rule) then after[rule.key] == Bucket(tokens, call.now)
                  else rule.key in t.buckets && after[rule.key] == t.buckets[rule.key])
            && (rule.key !in after && Keeps(t, call, bound, rule.key) ==> rule.key !in t.buckets && !Uses(call, rule))
  {
    hide TokensAt, ValidTable, Evicted;
    CallSpends(t.buckets, call, rule);
    EvictedAt(Written(t, call), bound, rule.key);
  }

  /** A bucket read later than it was written has refilled, and one read earlier has not. */
  lemma LevelOf(m: Buckets, rule: Rule, t: real)
    ensures TokensAt(m, rule, t) <= rule.capacity
    ensures rule.key !in m ==> TokensAt(m, rule, t) == rule.capacity
    ensures rule.key in m ==>
              TokensAt(m, rule, t)
              == MinReal(rule.capacity, m[rule.key].tokens + Refill(rule, MaxReal(0.0, t - m[rule.key].at)))
  {}

  lemma RefillGrows(rule: Rule, a: real, b: real)
    requires 0.0 <= a && 0.0 <= b
    ensures Refill(rule, a) + Refill(rule, b) == Refill(rule, a + b)
    ensures Refill(rule, a) >= 0.0 && Refill(rule, 0.0) == 0.0
  {}

  lemma RefillMonotonic(rule: Rule, a: real, b: real)
    requires a <= b
    ensures Refill(rule, a) <= Refill(rule, b)
  {}

  /** An earlier reading, and what can have refilled since, bound a later one. */
  lemma LaterLevel(m: Buckets, rule: Rule, now: real, t: real)
    ensures TokensAt(m, rule, t) <= TokensAt(m, rule, now) + Refill(rule, MaxReal(0.0, t - now))
  {
    var at := if rule.key in m then m[rule.key].at else now;
    LevelOf(m, rule, t);
    LevelOf(m, rule, now);
    hide TokensAt, Refill;
    RefillGrows(rule, MaxReal(0.0, now - at), MaxReal(0.0, t - now));
    RefillGrows(rule, MaxReal(0.0, t - now), 0.0);
    RefillMonotonic(rule, MaxReal(0.0, t - at), MaxReal(0.0, now - at) + MaxReal(0.0, t - now));
  }

  /** A token is only taken where there is one. */
  lemma GrantNeedsToken(m: Buckets, call: Call, rule: Rule)
    ensures Grant(m, call, rule) == 1 ==> Uses(call, rule) && TokensAt(m, rule, call.now) >= 1.0
  {}

  lemma {:induction false} TokensNonNegative(calls: seq<Call>, bound: nat, rule: Rule, n: nat, t: real)
    requires n <= |calls| && FixedIn(calls, rule) && rule.capacity > 0.0
    ensures TokensAt(After(calls, bound, n).buckets, rule, t) >= 0.0
  {
    hide TokensAt, Refill, Step, Grant, Uses;
    var m := After(calls, bound, n).buckets;
    LevelOf(m, rule, t);
    if n > 0 && rule.key in m {
      var before := After(calls, bound, n - 1);
      StepLeaves(before, calls[n - 1], bound, rule);
      GrantNeedsToken(before.buckets, calls[n - 1], rule);
      TokensNonNegative(calls, bound, rule, n - 1, if Uses(calls[n - 1], rule) then calls[n - 1].now else t);
      RefillGrows(rule, MaxReal(0.0, t - m[rule.key].at), 0.0);
      LevelOf(before.buckets, rule, t);
    }
  }

  /** Potential argument: what was granted and what is left never exceed the capacity and what came in. */
  lemma {:induction false} GrantedAndLeft(calls: seq<Call>, bound: nat, rule: Rule, i: nat, j: nat, t: real)
    requires i < j <= |calls| && FixedIn(calls, rule) && Retained(calls, bound, rule.key, i, j)
    ensures (Grants(calls, bound, rule, j) - Grants(calls, bound, rule, i)) as real
            + TokensAt(After(calls, bound, j).buckets, rule, t)
            <= rule.capacity + Refill(rule, Rise(calls, i, j)) + Refill(rule, MaxReal(0.0, t - calls[j - 1].now))
  {
    hide TokensAt, Refill, Step, Grant, Uses, Keeps, Rise, Retained;
    var call, before := calls[j - 1], After(calls, bound, j - 1);
    LastKept(calls, bound, rule, i, j);
    RiseAdds(calls, rule, i, j);
    if j > i + 1 {
      GrantedAndLeft(calls, bound, rule, i, j - 1, call.now);
    } else {
      LevelOf(before.buckets, rule, call.now);
    }
    CallLeaves(before, call, bound, rule, t);
  }

  lemma LastKept(calls: seq<Call>, bound: nat, rule: Rule, i: nat, j: nat)
    requires i < j <= |calls| && Retained(calls, bound, rule.key, i, j)
    ensures Keeps(After(calls, bound, j - 1), calls[j - 1], bound, rule.key)
    ensures Retained(calls, bound, rule.key, i, j - 1)
  {
    hide Keeps, After;
  }

  lemma RiseAdds(calls: seq<Call>, rule: Rule, i: nat, j: nat)
    requires i < j <= |calls|
    ensures j == i + 1 ==> Refill(rule, Rise(calls, i, j)) == 0.0
    ensures j > i + 1 ==>
              var rise := MaxReal(0.0, calls[j - 1].now - calls[j - 2].now);
              Refill(rule, Rise(calls, i, j)) == Refill(rule, Rise(calls, i, j - 1)) + Refill(rule, rise)
  {
    hide Refill;
    if j > i + 1 {
      RiseNonNegative(calls, i, j - 1);
      RefillGrows(rule, Rise(calls, i, j - 1), MaxReal(0.0, calls[j - 1].now - calls[j - 2].now));
    } else {
      RefillGrows(rule, 0.0, 0.0);
    }
  }

  /** One call grants what it takes from the level found, and from then on the bucket refills. */
  lemma CallLeaves(t: Table, call: Call, bound: nat, rule: Rule, later: real)
    requires ValidTable(t) && Fixed(call, rule) && Keeps(t, call, bound, rule.key)
    ensures Grant(t.buckets, call, rule) as real + TokensAt(Step(t, call, bound).buckets, rule, later)
            <= TokensAt(t.buckets, rule, call.now) + Refill(rule, MaxReal(0.0, later - call.now))
  {
    hide TokensAt, Refill, Grant, Uses, Keeps, Step, ValidTable;
    var after := Step(t, call, bound).buckets;
    StepLeaves(t, call, bound, rule);
    GrantNeedsToken(t.buckets, call, rule);
    LevelOf(after, rule, later);
    LevelOf(t.buckets, rule, later);
    if !Uses(call, rule) {
      LaterLevel(t.buckets, rule, call.now, later);
    }
  }

  /**
   * Calls i..j of any run, in whatever order of time and whatever other buckets they name, take from
   * a bucket that stays in the table at most its capacity and what refills while the clock rises.
   */
  lemma WindowBound(calls: seq<Call>, bound: nat, rule: Rule, i: nat, j: nat)
    requires i < j <= |calls| && FixedIn(calls, rule) && rule.capacity > 0.0
    requires Retained(calls, bound, rule.key, i, j)
    ensures (Grants(calls, bound, rule, j) - Grants(calls, bound, rule, i)) as real
            <= rule.capacity + Refill(rule, Rise(calls, i, j))
    ensures Ordered(calls) ==> Rise(calls, i, j) == calls[j - 1].now - calls[i].now
  {
    hide TokensAt, Refill, Grants, Retained;
    GrantedAndLeft(calls, bound, rule, i, j, calls[j - 1].now);
    TokensNonNegative(calls, bound, rule, j, calls[j - 1].now);
    RefillGrows(rule, 0.0, 0.0);
    if Ordered(calls) {
      RiseInOrder(calls, i, j);
    }
  }

  // ---------------------------------------------------------------------
  // Forgetting buckets only grants more
  // ---------------------------------------------------------------------

  /** The rule is never asked for together with another. */
  predicate AloneIn(calls: seq<Call>, rule: Rule) {
    forall i :: 0 <= i < |calls| ==> Alone(calls[i], rule)
  }

  predicate Alone(call: Call, rule: Rule) {
    Active(call.rules) == [rule] || (forall r <- Active(call.rules) :: r.key != rule.key)
  }

  /** A call on one rule alone is decided by that rule's level. */
  lemma AloneDecides(m: Buckets, call: Call, rule: Rule)
    requires Alone(call, rule)
    ensures Grant(m, call, rule) == if Uses(call, rule) && TokensAt(m, rule, call.now) >= 1.0 then 1 else 0
  {}

  /** What one call leaves to the limiter that never forgets. */
  lemma UnboundedLeaves(m: Buckets, call: Call, rule: Rule)
    requires Fixed(call, rule)
    ensures var after := Unbounded(m, call);
            if Uses(call, rule)
            then rule.key in after
                 && after[rule.key] == Bucket(TokensAt(m, rule, call.now) - Grant(m, call, rule) as real, call.now)
            else (rule.key in after <==> rule.key in m) && (rule.key in m ==> after[rule.key] == m[rule.key])
  {
    hide TokensAt;
    CallSpends(m, call, rule);
  }

  /** Grants the bounded limiter is ahead by. */
  function Lead(calls: seq<Call>, bound: nat, rule: Rule, n: nat): int
    requires n <= |calls|
  {
    Grants(calls, bound, rule, n) - GrantsUnbounded(calls, rule, n)
  }

  /** The simulation, read at any time: what the bounded limiter lacks in tokens it has already granted. */
  lemma {:induction false} LeadCovers(calls: seq<Call>, bound: nat, rule: Rule, n: nat, t: real)
    requires n <= |calls| && FixedIn(calls, rule) && AloneIn(calls, rule)
    ensures Lead(calls, bound, rule, n) >= 0
    ensures TokensAt(After(calls, bound, n).buckets, rule, t) + Lead(calls, bound, rule, n) as real
            >= TokensAt(AfterUnbounded(calls, n), rule, t)
  {
    hide TokensAt, Step, Unbounded, Grant, Uses, Alone, ValidTable;
    LevelOf(AfterUnbounded(calls, n), rule, t);
    LevelOf(After(calls, bound, n).buckets, rule, t);
    if n > 0 {
      var call, lead := calls[n - 1], Lead(calls, bound, rule, n - 1);
      LeadCovers(calls, bound, rule, n - 1, if Uses(call, rule) then call.now else t);
      LeadStep(After(calls, bound, n - 1), AfterUnbounded(calls, n - 1), call, bound, rule, lead, t);
    }
  }

  lemma LeadStep(b: Table, u: Buckets, call: Call, bound: nat, rule: Rule, lead: int, t: real)
    requires ValidTable(b) && Fixed(call, rule) && Alone(call, rule) && lead >= 0
    requires var at := if Uses(call, rule) then call.now else t;
             TokensAt(b.buckets, rule, at) + lead as real >= TokensAt(u, rule, at)
    ensures var next := lead + Grant(b.buckets, call, rule) - Grant(u, call, rule);
            && next >= 0
            && TokensAt(Step(b, call, bound).buckets, rule, t) + next as real >= TokensAt(Unbounded(u, call), rule, t)
  {
    hide TokensAt, Refill, Step, Unbounded, Grant, Uses, Alone, Keeps, ValidTable;
    AloneDecides(b.buckets, call, rule);
    AloneDecides(u, call, rule);
    StepLeaves(b, call, bound, rule);
    UnboundedLeaves(u, call, rule);
    LevelOf(Step(b, call, bound).buckets, rule, t);
    LevelOf(Unbounded(u, call), rule, t);
    LevelOf(b.buckets, rule, t);
    LevelOf(u, rule, t);
  }

  /**
   * At every point of every run, its times in any order, a key asked for alone has had at least as
   * many grants from the bounded limiter as from one that never forgets.
   */
  lemma EvictionOnlyGrantsMore(calls: seq<Call>, bound: nat, rule: Rule, n: nat)
    requires FixedIn(calls, rule) && AloneIn(calls, rule) && n <= |calls|
    ensures Grants(calls, bound, rule, n) >= GrantsUnbounded(calls, rule, n)
  {
    LeadCovers(calls, bound, rule, n, 0.0);
  }

  // ---------------------------------------------------------------------
  // While every key fits, the bounded limiter is the simple one
  // ---------------------------------------------------------------------

  function KeysOf(calls: seq<Call>, n: nat): set<Key>
    requires n <= |calls|
  {
    if n == 0 then {}
    else KeysOf(calls, n - 1) + RuleKeys(Active(calls[n - 1].rules))
  }

  lemma {:induction false} DistinctSize(s: seq<Key>)
    requires Distinct(s)
    ensures |Elements(s)| == |s|
  {
    if s != [] {
      var init, last := s[..|s| - 1], s[|s| - 1];
      DistinctSize(init);
      assert Elements(s) == Elements(init) + {last};
    } else {
      assert Elements(s) == {};
    }
  }

  lemma {:induction false} ReadingsKeys(m: Buckets, rules: seq<Rule>, now: real, key: Key)
    ensures (exists r <- Readings(m, rules, now) :: r.0 == key) <==> (exists r <- rules :: r.key == key)
  {
    if rules != [] {
      var init, last := rules[..|rules| - 1], rules[|rules| - 1];
      ReadingsKeys(m, init, now, key);
      assert rules == init + [last];
    }
  }

  lemma {:induction false} ChargedKeys(m: Buckets, readings: seq<(Key, real)>, now: real, spend: real)
    ensures Charged(m, readings, now, spend).Keys == m.Keys + set r <- readings :: r.0
  {
    if readings != [] {
      var init, last := readings[..|readings| - 1], readings[|readings| - 1];
      ChargedKeys(m, init, now, spend);
      assert readings == init + [last];
      assert (set r <- readings :: r.0) == (set r <- init :: r.0) + {last.0};
    }
  }

  function RuleKeys(rules: seq<Rule>): set<Key> {
    set r <- rules :: r.key
  }

  lemma UnboundedKeys(m: Buckets, call: Call)
    ensures Unbounded(m, call).Keys == m.Keys + RuleKeys(Active(call.rules))
  {
    var readings := Readings(m, Active(call.rules), call.now);
    ChargedKeys(m, readings, call.now, Spend(m, call.rules, call.now));
    var keys := set r <- readings :: r.0;
    forall key | key in keys + RuleKeys(Active(call.rules))
      ensures key in keys <==> key in RuleKeys(Active(call.rules))
    {
      ReadingsKeys(m, Active(call.rules), call.now, key);
    }
  }

  lemma FittingStep(t: Table, call: Call, bound: nat)
    requires ValidTable(t) && |Unbounded(t.buckets, call).Keys| <= bound
    ensures Step(t, call, bound).buckets == Unbounded(t.buckets, call)
  {
    hide Unbounded;
    DistinctSize(Written(t, call).order);
  }

  /** A run whose keys all fit is answered exactly as by the limiter that never forgets. */
  lemma {:induction false} FittingRunsAgree(calls: seq<Call>, bound: nat, n: nat)
    requires n <= |calls| && |KeysOf(calls, n)| <= bound
    ensures After(calls, bound, n).buckets == AfterUnbounded(calls, n)
    ensures AfterUnbounded(calls, n).Keys == KeysOf(calls, n)
  {
    hide Unbounded, ValidTable, Step, RuleKeys;
    if n > 0 {
      SubsetSize(KeysOf(calls, n - 1), KeysOf(calls, n));
      FittingRunsAgree(calls, bound, n - 1);
      UnboundedKeys(AfterUnbounded(calls, n - 1), calls[n - 1]);
      FittingStep(After(calls, bound, n - 1), calls[n - 1], bound);
    }
  }

  lemma {:induction false} SubsetSize<T>(a: set<T>, b: set<T>)
    requires a <= b
    ensures |a| <= |b|
  {
    if a != {} {
      var x :| x in a;
      SubsetSize(a - {x}, b - {x});
    }
  }

  // ---------------------------------------------------------------------
  // The wait a denied call returns is exact
  // ---------------------------------------------------------------------

  predicate Within(wait: Wait, elapsed: real) {
    wait.Finite? && wait.seconds <= elapsed
  }

  lemma {:induction false} WaitIsLongest(m: Buckets, rules: seq<Rule>, now: real, elapsed: real)
    requires elapsed >= 0.0
    ensures Within(WaitFor(m, rules, now), elapsed) <==> forall rule <- rules :: Within(RuleWait(m, rule, now), elapsed)
  {
    hide RuleWait;
    if rules != [] {
      var init, last := rules[..|rules| - 1], rules[|rules| - 1];
      WaitIsLongest(m, init, now, elapsed);
      assert rules == init + [last];
    }
  }

  lemma RefillReaches(rule: Rule, missing: real, elapsed: real)
    requires missing > 0.0 && elapsed >= 0.0
    ensures Within(RefillWait(missing, rule.rate), elapsed) <==> Refill(rule, elapsed) >= missing
  {
    if rule.rate > 0.0 {
      var wait := missing / rule.rate;
      assert wait * rule.rate == missing;
      if elapsed >= wait {
        assert elapsed * rule.rate >= wait * rule.rate;
      } else {
        assert elapsed * rule.rate < wait * rule.rate;
      }
    }
  }

  lemma RuleWaitExact(m: Buckets, after: Buckets, rule: Rule, now: real, later: real)
    requires rule.capacity >= 1.0 && now <= later && NotAhead(after, rule.key, now)
    requires TokensAt(after, rule, now) == TokensAt(m, rule, now)
    ensures TokensAt(after, rule, later) >= 1.0 <==> Within(RuleWait(m, rule, now), later - now)
  {
    hide TokensAt, RefillWait, Refill;
    var tokens := TokensAt(m, rule, now);
    assert TokensAt(after, rule, later) == MinReal(rule.capacity, tokens + Refill(rule, later - now)) by {
      RefillComposes(after, rule, now, later);
    }
    if tokens < 1.0 {
      RefillReaches(rule, 1.0 - tokens, later - now);
    } else {
      RefillAdds(rule, later - now, 0.0);
    }
  }

  lemma DeniedLevel(m: Buckets, after: Buckets, call: Call, rule: Rule)
    requires !Granted(m, call.rules, call.now) && rule.key in after
    requires after[rule.key] == Bucket(TokensAt(m, rule, call.now) - Grant(m, call, rule) as real, call.now)
    ensures NotAhead(after, rule.key, call.now) && TokensAt(after, rule, call.now) == TokensAt(m, rule, call.now)
  {
    LevelOf(m, rule, call.now);
    hide Granted;
  }

  predicate KeepsAll(t: Table, call: Call, bound: nat, rules: seq<Rule>)
    requires ValidTable(t)
  {
    forall rule <- rules :: Keeps(t, call, bound, rule.key)
  }

  predicate NoneAhead(t: Table, rules: seq<Rule>, now: real) {
    forall rule <- rules :: NotAhead(t.buckets, rule.key, now)
  }

  /**
   * After a denial, with nothing granted in between, the same call is denied at every instant
   * before the returned wait is over and granted from then on; `Never` means never.
   */
  lemma WaitIsExact(t: Table, call: Call, bound: nat, later: real)
    requires ValidTable(t) && !Granted(t.buckets, call.rules, call.now) && call.now <= later
    requires DistinctKeys(Active(call.rules)) && forall rule <- Active(call.rules) :: rule.capacity >= 1.0
    requires KeepsAll(t, call, bound, Active(call.rules))
    ensures Granted(Step(t, call, bound).buckets, call.rules, later)
       <==> Within(WaitFor(t.buckets, Active(call.rules), call.now), later - call.now)
  {
    hide Step, TokensAt, WaitFor, RuleWait, Keeps;
    var after := Step(t, call, bound).buckets;
    forall rule <- Active(call.rules)
      ensures TokensAt(after, rule, later) >= 1.0 <==> Within(RuleWait(t.buckets, rule, call.now), later - call.now)
    {
      assert Fixed(call, rule) && Uses(call, rule);
      StepLeaves(t, call, bound, rule);
      DeniedLevel(t.buckets, after, call, rule);
      RuleWaitExact(t.buckets, after, rule, call.now, later);
    }
    WaitIsLongest(t.buckets, Active(call.rules), call.now, later - call.now);
  }

  /** Asking again too early costs nothing: any later call gets the answer it would have got. */
  lemma DeniedCallLeavesNoTrace(t: Table, denied: Call, bound: nat, next: Call)
    requires ValidTable(t) && !Granted(t.buckets, denied.rules, denied.now) && denied.now <= next.now
    requires forall rule <- Active(next.rules) :: Fixed(denied, rule)
    requires NoneAhead(t, Active(next.rules), denied.now) && KeepsAll(t, denied, bound, Active(next.rules))
    ensures WaitFor(Step(t, denied, bound).buckets, Active(next.rules), next.now)
         == WaitFor(t.buckets, Active(next.rules), next.now)
    ensures Granted(Step(t, denied, bound).buckets, next.rules, next.now) <==> Granted(t.buckets, next.rules, next.now)
  {
    hide Step, TokensAt, WaitFor, Fixed, Keeps;
    var after := Step(t, denied, bound).buckets;
    forall rule <- Active(next.rules)
      ensures TokensAt(after, rule, next.now) == TokensAt(t.buckets, rule, next.now)
    {
      StepLevel(t, denied, bound, rule);
      RefillComposes(t.buckets, rule, denied.now, next.now);
      RefillComposes(after, rule, denied.now, next.now);
    }
    SameLevelsSameWait(t.buckets, after, Active(next.rules), next.now);
  }

  lemma {:induction false} SameLevelsSameWait(a: Buckets, b: Buckets, rules: seq<Rule>, now: real)
    requires forall rule <- rules :: TokensAt(a, rule, now) == TokensAt(b, rule, now)
    ensures WaitFor(a, rules, now) == WaitFor(b, rules, now)
  {
    hide TokensAt;
    if rules != [] {
      SameLevelsSameWait(a, b, rules[..|rules| - 1], now);
    }
  }

  // ---------------------------------------------------------------------
  // What forgetting does not promise
  // ---------------------------------------------------------------------

  const Y := Rule("y", 1.0, 1.0)
  const Z := Rule("z", 1.0, 1.0)
  const X := Rule("x", 5.0, 0.0)

  /** "z" pushes "y" out of a table of one; "y" is then granted early, and short later. */
  function Forgetful(last: Call): seq<Call> {
    [Call([Y], 0.0), Call([Z], 0.5), Call([Y], 0.5), last]
  }

  lemma OneRule(m: Buckets, rule: Rule, now: real)
    requires rule.capacity > 0.0
    ensures Active([rule]) == [rule]
    ensures Readings(m, [rule], now) == [(rule.key, TokensAt(m, rule, now))]
  {
    assert [rule][1..] == [] && [rule][..0] == [] && [rule] + [] == [rule];
  }

  function Paid(m: Buckets, rule: Rule, now: real): Bucket {
    var tokens := TokensAt(m, rule, now);
    Bucket(if tokens >= 1.0 then tokens - 1.0 else tokens, now)
  }

  lemma OneRuleCall(m: Buckets, rule: Rule, now: real)
    requires rule.capacity > 0.0
    ensures Granted(m, [rule], now) == (TokensAt(m, rule, now) >= 1.0)
    ensures Unbounded(m, Call([rule], now)) == m[rule.key := Paid(m, rule, now)]
  {
    hide TokensAt;
    OneRule(m, rule, now);
    var readings := [(rule.key, TokensAt(m, rule, now))];
    var spend := Spend(m, [rule], now);
    assert readings[..0] == [] && Charged(m, readings[..0], now, spend) == m;
    assert Charged(m, readings, now, spend) == m[rule.key := Bucket(TokensAt(m, rule, now) - spend, now)];
  }

  lemma OneRuleStep(t: Table, rule: Rule, now: real)
    requires ValidTable(t) && rule.capacity > 0.0
    ensures Written(t, Call([rule], now))
         == Table(t.buckets[rule.key := Paid(t.buckets, rule, now)], Touched(t.order, rule.key))
  {
    hide TokensAt, Unbounded, Paid;
    OneRuleCall(t.buckets, rule, now);
    OneRule(t.buckets, rule, now);
    var readings := [(rule.key, TokensAt(t.buckets, rule, now))];
    assert readings[..0] == [];
    assert TouchedAll(t.order, readings) == Touched(t.order, rule.key);
  }

  function Only(key: Key, tokens: real, now: real): Table {
    Table(map[key := Bucket(tokens, now)], [key])
  }

  lemma OnlyValid(key: Key, tokens: real, now: real)
    ensures ValidTable(Only(key, tokens, now))
  {
    assert Elements([key]) == {key};
  }

  /** In a table of one, a call on another key starts that key full and forgets the first. */
  lemma Displaced(key: Key, tokens: real, at: real, rule: Rule, now: real)
    requires key != rule.key && rule.capacity >= 1.0
    requires ValidTable(Only(key, tokens, at))
    ensures Step(Only(key, tokens, at), Call([rule], now), 1) == Only(rule.key, rule.capacity - 1.0, now)
  {
    hide Unbounded, ValidTable;
    var t := Only(key, tokens, at);
    OneRuleStep(t, rule, now);
    var w := Written(t, Call([rule], now));
    assert Without([key], rule.key) == [key];
    assert w.order == [key, rule.key];
    assert w.order[1..] == [rule.key];
    assert w.buckets - {key} == map[rule.key := Bucket(rule.capacity - 1.0, now)];
    assert Evicted(Only(rule.key, rule.capacity - 1.0, now), 1) == Only(rule.key, rule.capacity - 1.0, now);
  }

  lemma ForgetfulBounded(last: Call)
    ensures After(Forgetful(last), 1, 3) == Only("y", 0.0, 0.5)
  {
    hide Step;
    OnlyValid("y", 0.0, 0.0);
    OnlyValid("z", 0.0, 0.5);
    FirstCall();
    assert After(Forgetful(last), 1, 1) == Only("y", 0.0, 0.0);
    Displaced("y", 0.0, 0.0, Z, 0.5);
    Displaced("z", 0.0, 0.5, Y, 0.5);
  }

  lemma FirstCall()
    ensures Step(EMPTY, Call([Y], 0.0), 1) == Only("y", 0.0, 0.0)
  {
    OneRuleStep(EMPTY, Y, 0.0);
    assert Touched([], "y") == ["y"];
  }

  lemma ForgetfulUnbounded(last: Call)
    ensures AfterUnbounded(Forgetful(last), 3) == map["y" := Bucket(0.5, 0.5), "z" := Bucket(0.0, 0.5)]
  {
    hide Unbounded;
    var m1 := map["y" := Bucket(0.0, 0.0)];
    var m2 := map["y" := Bucket(0.0, 0.0), "z" := Bucket(0.0, 0.5)];
    assert AfterUnbounded(Forgetful(last), 1) == m1 by { OneRuleCall(map[], Y, 0.0); }
    assert Unbounded(m1, Call([Z], 0.5)) == m2 by { OneRuleCall(m1, Z, 0.5); }
    assert AfterUnbounded(Forgetful(last), 2) == m2;
    OneRuleCall(m2, Y, 0.5);
  }

  /** Ahead in total, the bounded limiter can still deny a single call the simple one grants. */
  lemma NotCallByCall()
    ensures var calls := Forgetful(Call([Y], 1.0));
            && !Granted(After(calls, 1, 3).buckets, calls[3].rules, calls[3].now)
            && Granted(AfterUnbounded(calls, 3), calls[3].rules, calls[3].now)
  {
    hide After, AfterUnbounded;
    var last := Call([Y], 1.0);
    ForgetfulBounded(last);
    ForgetfulUnbounded(last);
    OneRuleCall(Only("y", 0.0, 0.5).buckets, Y, 1.0);
    OneRuleCall(AfterUnbounded(Forgetful(last), 3), Y, 1.0);
  }

  lemma PairGrant(m: Buckets)
    requires "x" !in m && "y" in m && 0.0 <= m["y"].tokens <= 1.0 && m["y"].at == 0.5
    ensures Grant(m, Call([X, Y], 1.0), X) == if m["y"].tokens >= 0.5 then 1 else 0
  {
    OneRule(m, Y, 1.0);
    assert [X, Y][1..] == [Y];
    assert Active([X, Y]) == [X] + Active([Y]);
    assert X in Active([X, Y]) && Y in Active([X, Y]);
  }

  lemma NoEarlierGrants(last: Call)
    ensures Grants(Forgetful(last), 1, X, 3) == 0 && GrantsUnbounded(Forgetful(last), X, 3) == 0
  {
    hide After, AfterUnbounded, Granted;
    OneRule(map[], Y, 0.0);
    OneRule(map[], Z, 0.0);
    assert Grants(Forgetful(last), 1, X, 1) == 0 && GrantsUnbounded(Forgetful(last), X, 1) == 0;
  }

  /**
   * And a key asked for together with another can end up with fewer grants: forgetting "y"
   * early costs "x" a grant, although "x" itself is never forgotten.
   */
  lemma SharedCallsCanLoseGrants()
    ensures var calls := Forgetful(Call([X, Y], 1.0));
            && Ordered(calls) && FixedIn(calls, X)
            && Grants(calls, 1, X, 4) < GrantsUnbounded(calls, X, 4)
  {
    hide After, AfterUnbounded, Granted, Grant;
    var last := Call([X, Y], 1.0);
    var calls := Forgetful(last);
    ForgetfulBounded(last);
    ForgetfulUnbounded(last);
    NoEarlierGrants(last);
    PairGrant(Only("y", 0.0, 0.5).buckets);
    PairGrant(AfterUnbounded(calls, 3));
    OneRule(map[], Y, 0.0);
    OneRule(map[], Z, 0.0);
    assert [X, Y][1..] == [Y];
  }

  /** Rules told apart by the length of their keys. */
  function Nth(n: nat): (rule: Rule)
    ensures |rule.key| == n && rule.capacity == 1.0
  {
    Rule(seq(n, i => 'k'), 1.0, 1.0)
  }

  /** One call on each of `bound + 1` keys and then the first again, all at one moment. */
  function OneTooMany(bound: nat): (calls: seq<Call>)
    ensures |calls| == bound + 2 && calls[bound + 1] == Call([Nth(0)], 0.0)
    ensures forall n :: 0 <= n <= bound ==> calls[n] == Call([Nth(n)], 0.0)
  {
    seq(bound + 2, i requires 0 <= i => Call([Nth(if i <= bound then i else 0)], 0.0))
  }

  lemma {:induction false} WithoutAbsent(order: seq<Key>, key: Key)
    requires key !in order
    ensures Without(order, key) == order
  {
    if order != [] {
      WithoutAbsent(order[1..], key);
      assert [order[0]] + order[1..] == order;
    }
  }

  /** A new key joins at the end, and pushes out the oldest one when the table was full. */
  lemma Joins(t: Table, rule: Rule, now: real, bound: nat)
    requires ValidTable(t) && rule.capacity > 0.0 && rule.key !in t.order && 0 < |t.order| <= bound
    ensures var order := Step(t, Call([rule], now), bound).order;
            order == if |t.order| < bound then t.order + [rule.key] else t.order[1..] + [rule.key]
  {
    OneRuleStep(t, rule, now);
    WithoutAbsent(t.order, rule.key);
    hide Unbounded, Paid;
    var w := Written(t, Call([rule], now));
    assert w.order == t.order + [rule.key];
    if |t.order| == bound {
      assert w.order[1..] == t.order[1..] + [rule.key];
      assert Evicted(w, bound) == Evicted(Table(w.buckets - {w.order[0]}, w.order[1..]), bound);
    }
  }

  lemma {:induction false} FillsUp(bound: nat, n: nat)
    requires 1 <= n <= bound
    ensures var order := After(OneTooMany(bound), bound, n).order;
            |order| == n && order[0] == Nth(0).key && forall i :: 0 < i < n ==> order[i] == Nth(i).key
  {
    hide Step, ValidTable, Nth;
    var calls := OneTooMany(bound);
    if n == 1 {
      FirstFills(bound);
    } else {
      FillsUp(bound, n - 1);
      Joins(After(calls, bound, n - 1), Nth(n - 1), 0.0, bound);
    }
  }

  lemma FirstFills(bound: nat)
    requires bound >= 1
    ensures After(OneTooMany(bound), bound, 1).order == [Nth(0).key]
  {
    hide Nth, OneTooMany, Unbounded, Paid, Active;
    var n := 1;
    OneRuleStep(EMPTY, Nth(0), 0.0);
    assert Touched([], Nth(0).key) == [Nth(0).key];
    assert After(OneTooMany(bound), bound, n - 1) == EMPTY;
    hide Touched, Written;
  }

  lemma {:induction false} FirstIsSpent(bound: nat, n: nat)
    requires 1 <= n <= bound + 1
    ensures var m := AfterUnbounded(OneTooMany(bound), n);
            Nth(0).key in m && m[Nth(0).key] == Bucket(0.0, 0.0)
  {
    hide Unbounded, Nth;
    var calls := OneTooMany(bound);
    OneRuleCall(AfterUnbounded(calls, n - 1), Nth(n - 1), 0.0);
    if n > 1 {
      FirstIsSpent(bound, n - 1);
    }
  }

  lemma {:induction false} KeysTooMany(bound: nat, n: nat)
    requires n <= bound + 1
    ensures |KeysOf(OneTooMany(bound), n)| == n && forall key <- KeysOf(OneTooMany(bound), n) :: |key| < n
  {
    hide Nth, OneTooMany, RuleKeys, Active;
    if n > 0 {
      KeysTooMany(bound, n - 1);
      KeyOfOne(Nth(n - 1));
      assert Nth(n - 1).key !in KeysOf(OneTooMany(bound), n - 1);
    }
  }

  lemma KeyOfOne(rule: Rule)
    requires rule.capacity > 0.0
    ensures RuleKeys(Active([rule])) == {rule.key}
  {
    OneRule(map[], rule, 0.0);
    hide Active;
    assert rule in [rule];
  }

  lemma FirstForgotten(bound: nat, n: nat)
    requires bound >= 1 && n == bound + 1
    ensures Granted(After(OneTooMany(bound), bound, n).buckets, [Nth(0)], 0.0)
  {
    hide Nth, Step, Unbounded, OneTooMany, ValidTable;
    FillsUp(bound, bound);
    var before, after := After(OneTooMany(bound), bound, bound), After(OneTooMany(bound), bound, n);
    Joins(before, Nth(bound), 0.0, bound);
    assert after.order == before.order[1..] + [Nth(bound).key];
    forall i | 0 <= i < |after.order|
      ensures after.order[i] == Nth(i + 1).key
    {
      assert i < bound - 1 ==> after.order[i] == before.order[i + 1];
    }
    hide After;
    Missing(after, Nth(0));
    OneRuleCall(after.buckets, Nth(0), 0.0);
  }

  lemma Missing(t: Table, rule: Rule)
    requires ValidTable(t) && rule.key !in t.order
    ensures TokensAt(t.buckets, rule, 0.0) == rule.capacity
  {
    assert rule.key !in Elements(t.order);
  }

  lemma FirstRemembered(bound: nat, n: nat)
    requires bound >= 1 && n == bound + 1
    ensures !Granted(AfterUnbounded(OneTooMany(bound), n), [Nth(0)], 0.0)
  {
    hide Nth, Unbounded, OneTooMany, AfterUnbounded;
    FirstIsSpent(bound, n);
    OneRuleCall(AfterUnbounded(OneTooMany(bound), n), Nth(0), 0.0);
  }

  /**
   * One key more than fits is enough to be answered otherwise: of `bound + 1` keys the first is
   * forgotten and then granted at once, while the limiter that never forgets denies it.
   */
  lemma OneKeyTooMany(bound: nat, n: nat)
    requires bound >= 1 && n == bound + 1
    ensures var calls := OneTooMany(bound);
            && |KeysOf(calls, n)| == |KeysOf(calls, n + 1)| == n
            && Granted(After(calls, bound, n).buckets, calls[n].rules, calls[n].now)
            && !Granted(AfterUnbounded(calls, n), calls[n].rules, calls[n].now)
  {
    KeysAgain(bound, n);
    hide *;
    FirstForgotten(bound, n);
    FirstRemembered(bound, n);
  }

  lemma KeysAgain(bound: nat, n: nat)
    requires n == bound + 1
    ensures |KeysOf(OneTooMany(bound), n)| == |KeysOf(OneTooMany(bound), n + 1)| == n
  {
    hide Nth, OneTooMany, RuleKeys, Active;
    KeysTooMany(bound, n);
    KeyOfOne(Nth(0));
    FirstKey(bound, n);
    assert KeysOf(OneTooMany(bound), n + 1) == KeysOf(OneTooMany(bound), n) + {Nth(0).key};
    assert KeysOf(OneTooMany(bound), n + 1) == KeysOf(OneTooMany(bound), n);
  }

  lemma {:induction false} FirstKey(bound: nat, n: nat)
    requires 1 <= n <= bound + 1
    ensures Nth(0).key in KeysOf(OneTooMany(bound), n)
  {
    hide Nth, OneTooMany, RuleKeys, Active;
    KeyOfOne(Nth(n - 1));
    if n > 1 {
      FirstKey(bound, n - 1);
    }
  }
}
