/** Which buckets the limiter of infra/rate_limit.py forgets: never one asked for later than one it keeps. */
module RateLimitRecency {
  import opened Common
  import opened RateLimit
  import opened RateLimitBounds

  /** The number of the last of the first `n` calls that names the key, -1 if none does. */
  function LastUse(calls: seq<Call>, n: nat, key: Key): (last: int)
    requires n <= |calls|
    ensures -1 <= last < n
  {
    if n == 0 then -1
    else if key in RuleKeys(Active(calls[n - 1].rules)) then n - 1
    else LastUse(calls, n - 1, key)
  }

  /** The same once call `n` has used some of its keys. */
  function UseSoFar(calls: seq<Call>, n: nat, used: set<Key>, key: Key): int
    requires n <= |calls|
  {
    if key in used then n else LastUse(calls, n, key)
  }

  predicate OldestFirst(order: seq<Key>, calls: seq<Call>, n: nat, used: set<Key>)
    requires n <= |calls|
  {
    forall i, j :: 0 <= i < j < |order| ==> UseSoFar(calls, n, used, order[i]) <= UseSoFar(calls, n, used, order[j])
  }

  lemma {:induction false} WithoutKeepsOrder(order: seq<Key>, key: Key, calls: seq<Call>, n: nat, used: set<Key>)
    requires n <= |calls| && OldestFirst(order, calls, n, used)
    ensures OldestFirst(Without(order, key), calls, n, used)
  {
    hide UseSoFar;
    if order != [] {
      WithoutKeepsOrder(order[1..], key, calls, n, used);
      forall x | x in Without(order[1..], key)
        ensures UseSoFar(calls, n, used, order[0]) <= UseSoFar(calls, n, used, x)
      {
        var i :| 0 <= i < |order[1..]| && order[1..][i] == x;
        assert order[i + 1] == x;
      }
    }
  }

  lemma TouchedKeepsOrder(order: seq<Key>, key: Key, calls: seq<Call>, n: nat, used: set<Key>)
    requires n <= |calls| && OldestFirst(order, calls, n, used)
    ensures OldestFirst(Touched(order, key), calls, n, used + {key})
  {
    WithoutKeepsOrder(order, key, calls, n, used);
    hide Without;
  }

  function KeysRead(readings: seq<(Key, real)>): set<Key> {
    set r <- readings :: r.0
  }

  lemma {:induction false} TouchedAllKeepsOrder(order: seq<Key>, readings: seq<(Key, real)>, calls: seq<Call>, n: nat)
    requires n <= |calls| && OldestFirst(order, calls, n, {})
    ensures OldestFirst(TouchedAll(order, readings), calls, n, KeysRead(readings))
    ensures forall x :: x in TouchedAll(order, readings) <==> x in order || x in KeysRead(readings)
  {
    hide OldestFirst;
    if readings != [] {
      var front, last := readings[..|readings| - 1], readings[|readings| - 1];
      TouchedAllKeepsOrder(order, front, calls, n);
      TouchedKeepsOrder(TouchedAll(order, front), last.0, calls, n, KeysRead(front));
      assert readings == front + [last];
      assert KeysRead(readings) == KeysRead(front) + {last.0};
    } else {
      assert KeysRead(readings) == {};
    }
  }

  /** What is forgotten was last asked for no later than anything kept. */
  ghost predicate ForgottenOlder(order: seq<Key>, calls: seq<Call>, n: nat)
    requires n <= |calls|
  {
    forall kept, gone :: kept in order && gone !in order ==> LastUse(calls, n, gone) <= LastUse(calls, n, kept)
  }

  lemma {:induction false} EvictedIsEnd(t: Table, bound: nat)
    ensures exists k: nat :: k <= |t.order| && Evicted(t, bound).order == t.order[k..]
    decreases |t.order|
  {
    if |t.order| > bound {
      var rest := Table(t.buckets - {t.order[0]}, t.order[1..]);
      EvictedIsEnd(rest, bound);
      var k: nat :| k <= |rest.order| && Evicted(rest, bound).order == rest.order[k..];
      assert rest.order[k..] == t.order[k + 1..];
    } else {
      assert t.order[0..] == t.order;
    }
  }

  lemma StepForgetsOldest(t: Table, calls: seq<Call>, bound: nat, n: nat)
    requires ValidTable(t) && n < |calls| && OldestFirst(t.order, calls, n, {}) && ForgottenOlder(t.order, calls, n)
    ensures var after := Step(t, calls[n], bound).order;
            OldestFirst(after, calls, n + 1, {}) && ForgottenOlder(after, calls, n + 1)
  {
    var call := calls[n];
    var readings := Readings(t.buckets, Active(call.rules), call.now);
    var written, after := Written(t, call).order, Step(t, call, bound).order;
    TouchedAllKeepsOrder(t.order, readings, calls, n);
    EvictedIsEnd(Written(t, call), bound);
    var k: nat :| k <= |written| && after == written[k..];
    forall key
      ensures LastUse(calls, n + 1, key) == UseSoFar(calls, n, KeysRead(readings), key)
    {
      ReadingsKeys(t.buckets, Active(call.rules), call.now, key);
    }
    hide LastUse, UseSoFar, Step, Written, Readings, ValidTable, TouchedAll;
    SameUses(after, calls, n, KeysRead(readings), written, k);
    EndForgetsOldest(t.order, written, k, calls, n, KeysRead(readings));
  }

  lemma SameUses(after: seq<Key>, calls: seq<Call>, n: nat, used: set<Key>, written: seq<Key>, k: nat)
    requires n < |calls| && k <= |written| && after == written[k..] && OldestFirst(written, calls, n, used)
    requires forall key :: LastUse(calls, n + 1, key) == UseSoFar(calls, n, used, key)
    ensures OldestFirst(after, calls, n + 1, {})
  {
    forall i, j | 0 <= i < j < |after|
      ensures UseSoFar(calls, n + 1, {}, after[i]) <= UseSoFar(calls, n + 1, {}, after[j])
    {
      assert UseSoFar(calls, n, used, written[k + i]) <= UseSoFar(calls, n, used, written[k + j]);
    }
  }

  lemma EndForgetsOldest(before: seq<Key>, written: seq<Key>, k: nat, calls: seq<Call>, n: nat, used: set<Key>)
    requires n < |calls| && k <= |written| && OldestFirst(written, calls, n, used) && ForgottenOlder(before, calls, n)
    requires forall x :: x in written <==> x in before || x in used
    requires forall key :: LastUse(calls, n + 1, key) == UseSoFar(calls, n, used, key)
    ensures ForgottenOlder(written[k..], calls, n + 1)
  {
    forall kept, gone | kept in written[k..] && gone !in written[k..]
      ensures UseSoFar(calls, n, used, gone) <= UseSoFar(calls, n, used, kept)
    {
      var j :| k <= j < |written| && written[j] == kept;
      if gone in written {
        var i :| 0 <= i < |written| && written[i] == gone;
        assert forall m :: k <= m < |written| ==> written[k..][m - k] == written[m];
        assert i < k;
      } else {
        assert gone !in used && gone !in before;
      }
    }
  }

  /**
   * In every run no key that is kept was last asked for before one that was asked for and is
   * forgotten: the table forgets the least recently used first.
   */
  lemma ForgetsLeastRecent(calls: seq<Call>, bound: nat, n: nat, kept: Key, gone: Key)
    requires n <= |calls| && kept in After(calls, bound, n).buckets && gone !in After(calls, bound, n).buckets
    ensures LastUse(calls, n, gone) <= LastUse(calls, n, kept)
  {
    RunForgetsOldest(calls, bound, n);
    assert kept in Elements(After(calls, bound, n).order) && gone !in Elements(After(calls, bound, n).order);
  }

  lemma {:induction false} RunForgetsOldest(calls: seq<Call>, bound: nat, n: nat)
    requires n <= |calls|
    ensures OldestFirst(After(calls, bound, n).order, calls, n, {})
    ensures ForgottenOlder(After(calls, bound, n).order, calls, n)
  {
    hide OldestFirst, ForgottenOlder, Step, ValidTable;
    if n > 0 {
      RunForgetsOldest(calls, bound, n - 1);
      StepForgetsOldest(After(calls, bound, n - 1), calls, bound, n - 1);
    } else {
      NothingForgotten(calls, n);
    }
  }

  lemma NothingForgotten(calls: seq<Call>, n: nat)
    requires n == 0
    ensures OldestFirst([], calls, 0, {}) && ForgottenOlder([], calls, 0)
  {}

  // ---------------------------------------------------------------------
  // Used again, kept longer
  // ---------------------------------------------------------------------

  /** One token, never refilled. */
  function Single(key: Key): Rule {
    Rule(key, 1.0, 0.0)
  }

  /** "x" is asked for again before "z" comes into a table of two. */
  const AGAIN := [Call([Single("x")], 0.0), Call([Single("y")], 0.0), Call([Single("x")], 0.0),
                  Call([Single("z")], 0.0), Call([Single("x")], 0.0)]

  lemma AgainOrder()
    ensures After(AGAIN, 2, 3).order == ["y", "x"] && After(AGAIN, 2, 4).order == ["x", "z"]
  {
    hide Step, ValidTable;
    FirstOrder();
    Joins(After(AGAIN, 2, 1), Single("y"), 0.0, 2);
    assert After(AGAIN, 2, 2).order == ["x", "y"];
    TouchedAgain(After(AGAIN, 2, 2), 2);
    Joins(After(AGAIN, 2, 3), Single("z"), 0.0, 2);
  }

  lemma FirstOrder()
    ensures After(AGAIN, 2, 1).order == ["x"]
  {
    OneRuleStep(EMPTY, Single("x"), 0.0);
    assert Touched([], "x") == ["x"];
    assert Step(EMPTY, AGAIN[0], 2).order == ["x"];
  }

  lemma TouchedAgain(t: Table, bound: nat)
    requires ValidTable(t) && t.order == ["x", "y"] && bound == 2
    ensures Step(t, Call([Single("x")], 0.0), bound).order == ["y", "x"]
  {
    OneRuleStep(t, Single("x"), 0.0);
    assert Without(["x", "y"], "x") == ["y"] by {
      assert ["x", "y"][1..] == ["y"] && ["y"][1..] == [];
    }
  }

  lemma {:induction false} AgainSpent(n: nat)
    requires 1 <= n <= 4
    ensures "x" in After(AGAIN, 2, n).buckets ==> After(AGAIN, 2, n).buckets["x"] == Bucket(0.0, 0.0)
  {
    hide Step, ValidTable;
    var before, call := After(AGAIN, 2, n - 1), AGAIN[n - 1];
    SingleCall(call);
    StepLeaves(before, call, 2, Single("x"));
    AloneDecides(before.buckets, call, Single("x"));
    if n > 1 {
      AgainSpent(n - 1);
    }
  }

  lemma SingleCall(call: Call)
    requires call in AGAIN
    ensures Fixed(call, Single("x")) && Alone(call, Single("x")) && call.now == 0.0
    ensures Uses(call, Single("x")) <==> call.rules == [Single("x")]
  {
    OneRule(map[], Single("x"), 0.0);
    OneRule(map[], Single("y"), 0.0);
    OneRule(map[], Single("z"), 0.0);
  }

  /** So "y" is forgotten, and "x", whose token is spent for good, is still denied for ever. */
  lemma UsedAgainOutlives()
    ensures var t := After(AGAIN, 2, 4);
            && "x" in t.buckets && "y" !in t.buckets
            && !Granted(t.buckets, AGAIN[4].rules, AGAIN[4].now)
            && WaitFor(t.buckets, Active(AGAIN[4].rules), AGAIN[4].now) == Never
  {
    hide After, ValidTable;
    var t := After(AGAIN, 2, 4);
    AgainOrder();
    AgainSpent(4);
    InOrderInTable(t);
    OneRule(t.buckets, Single("x"), 0.0);
    assert [Single("x")][..0] == [];
  }

  lemma InOrderInTable(t: Table)
    requires ValidTable(t) && t.order == ["x", "z"]
    ensures "x" in t.buckets && "y" !in t.buckets
  {
    assert "x" in Elements(t.order) && "y" !in Elements(t.order);
  }
}
