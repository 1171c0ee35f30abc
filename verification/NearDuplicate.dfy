/**
 * memory/knowledge_service.py: two memories count as one when a wording is the other with a few
 * characters added, none of which says no.
 */
module NearDuplicate {
  import opened Common

  const MIN_CHARS := 4
  const NEGATIONS := {'不', '没', '别', '非', '无', '未', '否'}

  // ---------------------------------------------------------------------------------------
  // Subsequences
  // ---------------------------------------------------------------------------------------

  /** `at` finds `short` in `long`: its characters, in order, at those places. */
  predicate Embeds(short: string, long: string, at: seq<nat>) {
    && |at| == |short|
    && (forall i :: 0 <= i < |at| ==> at[i] < |long| && long[at[i]] == short[i])
    && (forall i, j :: 0 <= i < j < |at| ==> at[i] < at[j])
  }

  ghost predicate Fits(short: string, long: string) {
    exists at :: Embeds(short, long, at)
  }

  /** The characters of `long` at no place of `at`, in order. */
  function Leftover(long: string, at: seq<nat>): string {
    if long == "" then ""
    else
      var n := |long| - 1;
      if at != [] && at[|at| - 1] == n then Leftover(long[..n], at[..|at| - 1])
      else Leftover(long[..n], at) + [long[n]]
  }

  lemma LastPlace(short: string, long: string, at: seq<nat>)
    requires Embeds(short, long, at) && long != ""
    ensures var n := |long| - 1;
            if at != [] && at[|at| - 1] == n
            then short[|short| - 1] == long[n] && Embeds(short[..|short| - 1], long[..n], at[..|at| - 1])
            else Embeds(short, long[..n], at)
  {
    var n := |long| - 1;
    if !(at != [] && at[|at| - 1] == n) {
      forall i | 0 <= i < |at|
        ensures at[i] < n
      {
        assert i < |at| - 1 ==> at[i] < at[|at| - 1];
      }
    }
  }

  /**
   * Whatever places are chosen, the same characters are left over, each as often: what `long` has
   * more of than `short`.
   */
  lemma {:induction false} LeftoverIsTheDifference(short: string, long: string, at: seq<nat>)
    requires Embeds(short, long, at)
    ensures multiset(Leftover(long, at)) + multiset(short) == multiset(long)
  {
    if long != "" {
      var n := |long| - 1;
      LastPlace(short, long, at);
      assert long == long[..n] + [long[n]];
      if at != [] && at[|at| - 1] == n {
        assert short == short[..|short| - 1] + [long[n]];
        LeftoverIsTheDifference(short[..|short| - 1], long[..n], at[..|at| - 1]);
      } else {
        LeftoverIsTheDifference(short, long[..n], at);
      }
    }
  }

  /** One character more of `long` can only help the next character of `short`. */
  lemma NextFits(short: string, long: string, n: nat, k: nat)
    requires n < |short| && k < |long|
    ensures Fits(short[..n + 1], long[..k + 1]) <==>
              Fits(short[..n + 1], long[..k]) || (short[n] == long[k] && Fits(short[..n], long[..k]))
  {
    var s, l := short[..n + 1], long[..k + 1];
    assert l[..k] == long[..k] && s[..n] == short[..n];
    if Fits(s, l) {
      var at :| Embeds(s, l, at);
      LastPlace(s, l, at);
    }
    if Fits(s, long[..k]) {
      var at :| Embeds(s, long[..k], at);
      assert Embeds(s, l, at);
    }
    if short[n] == long[k] && Fits(short[..n], long[..k]) {
      var at :| Embeds(short[..n], long[..k], at);
      assert Embeds(s, l, at + [k]);
    }
  }

  lemma ShorterFits(short: string, long: string, n: nat)
    requires n < |short| && Fits(short[..n + 1], long)
    ensures Fits(short[..n], long)
  {
    var at :| Embeds(short[..n + 1], long, at);
    assert Embeds(short[..n], long, at[..n]);
  }

  lemma {:induction false} PrefixFits(short: string, long: string, n: nat)
    requires n <= |short| && Fits(short, long)
    ensures Fits(short[..n], long)
    decreases |short| - n
  {
    if n == |short| {
      assert short[..n] == short;
    } else {
      PrefixFits(short, long, n + 1);
      ShorterFits(short, long, n);
    }
  }

  /**
   * Matches `short` in order, taking each character at the first chance. It fails only when no
   * choice of places would do; `at` is the choice it made.
   */
  method InsertedChars(short: string, long: string) returns (inserted: Option<string>, ghost at: seq<nat>)
    ensures inserted.Some? <==> Fits(short, long)
    ensures inserted.Some? ==> Embeds(short, long, at) && inserted.value == Leftover(long, at)
  {
    var left, index := "", 0;
    at := [];
    if short != "" {
      TooLongToFit(short[..1], long[..0]);
    }
    assert Embeds(short[..0], long[..0], []) && Leftover(long[..0], []) == "";
    hide *;
    for k := 0 to |long|
      invariant index <= |short|
      invariant Embeds(short[..index], long[..k], at) && left == Leftover(long[..k], at)
      invariant index < |short| ==> !Fits(short[..index + 1], long[..k])
    {
      assert long[..k + 1][..k] == long[..k];
      if index < |short| && long[k] == short[index] {
        OneMore(short, long, index, k, at);
        index, at := index + 1, at + [k];
      } else {
        if index < |short| {
          NextFits(short, long, index, k);
        }
        NotThisOne(short[..index], long[..k + 1], at);
        left := left + [long[k]];
      }
    }
    assert long[..|long|] == long;
    if index == |short| {
      assert short[..index] == short;
      inserted := Some(left);
    } else {
      if Fits(short, long) {
        PrefixFits(short, long, index + 1);
      }
      inserted := None;
    }
  }

  lemma OneMore(short: string, long: string, n: nat, k: nat, at: seq<nat>)
    requires n < |short| && k < |long| && short[n] == long[k]
    requires Embeds(short[..n], long[..k], at) && !Fits(short[..n + 1], long[..k])
    ensures Embeds(short[..n + 1], long[..k + 1], at + [k])
    ensures Leftover(long[..k + 1], at + [k]) == Leftover(long[..k], at)
    ensures n + 1 < |short| ==> !Fits(short[..n + 2], long[..k + 1])
  {
    assert long[..k + 1][..k] == long[..k] && (at + [k])[..n] == at;
    if n + 1 < |short| {
      if Fits(short[..n + 2], long[..k]) {
        ShorterFits(short, long[..k], n + 1);
      }
      NextFits(short, long, n + 1, k);
    }
  }

  lemma NotThisOne(short: string, long: string, at: seq<nat>)
    requires long != "" && Embeds(short, long[..|long| - 1], at)
    ensures Embeds(short, long, at)
    ensures Leftover(long, at) == Leftover(long[..|long| - 1], at) + [long[|long| - 1]]
  {}

  // ---------------------------------------------------------------------------------------
  // Near duplicates
  // ---------------------------------------------------------------------------------------

  /** What two compacted texts must be like; nothing here depends on their order. */
  ghost predicate Alike(a: string, b: string) {
    var min, max := if |a| <= |b| then |a| else |b|, Max(|a|, |b|);
    && a != "" && b != ""
    && (a == b
        || (&& min >= MIN_CHARS && 10 * min >= 7 * max
            && (Fits(a, b) || Fits(b, a))
            && forall c <- NEGATIONS :: multiset(a)[c] == multiset(b)[c]))
  }

  lemma TooLongToFit(short: string, long: string)
    requires |short| > |long|
    ensures !Fits(short, long)
  {
    forall at
      ensures !Embeds(short, long, at)
    {
      if Embeds(short, long, at) {
        PlacesGrow(short, long, at, |at| - 1);
      }
    }
  }

  lemma {:induction false} PlacesGrow(short: string, long: string, at: seq<nat>, i: nat)
    requires Embeds(short, long, at) && i < |at|
    ensures at[i] >= i
  {
    if i > 0 {
      PlacesGrow(short, long, at, i - 1);
    }
  }

  /** Texts of one length that fit are the same: a substitution is a different fact. */
  lemma SubstitutionDiffers(a: string, b: string)
    requires |a| == |b| && a != b
    ensures !Alike(a, b)
  {
    if Fits(a, b) {
      SameLengthFits(a, b);
    } else if Fits(b, a) {
      SameLengthFits(b, a);
    }
  }

  lemma SameLengthFits(a: string, b: string)
    requires |a| == |b| && Fits(a, b)
    ensures a == b
  {
    var at :| Embeds(a, b, at);
    forall i | 0 <= i < |a|
      ensures a[i] == b[i]
    {
      PlacesGrow(a, b, at, i);
      PlacesEnd(a, b, at, i);
    }
  }

  lemma {:induction false} PlacesEnd(short: string, long: string, at: seq<nat>, i: nat)
    requires Embeds(short, long, at) && i < |at|
    ensures at[i] <= |long| - (|short| - i)
    decreases |at| - i
  {
    if i < |at| - 1 {
      PlacesEnd(short, long, at, i + 1);
    }
  }

  /** Whether a text has a character that says no. */
  predicate Negates(text: string) {
    exists i :: 0 <= i < |text| && text[i] in NEGATIONS
  }

  lemma NegatesIffMore(short: string, long: string, at: seq<nat>)
    requires Embeds(short, long, at)
    ensures Negates(Leftover(long, at)) <==> exists c <- NEGATIONS :: multiset(short)[c] != multiset(long)[c]
  {
    LeftoverIsTheDifference(short, long, at);
    var left := Leftover(long, at);
    assert forall c :: multiset(long)[c] == multiset(left)[c] + multiset(short)[c];
    assert forall c :: multiset(left)[c] > 0 <==> c in left;
  }

  /** `compact` folds case and drops what is neither letter nor digit. */
  method IsNearDuplicate(compact: string -> string, left: string, right: string) returns (same: bool)
    ensures same <==> Alike(compact(left), compact(right))
    ensures same <==> Alike(compact(right), compact(left))
  {
    var a, b := compact(left), compact(right);
    AlikeIsSymmetric(a, b);
    if a == "" || b == "" {
      return false;
    }
    if a == b {
      return true;
    }
    var short, long := a, b;
    if |a| > |b| {
      short, long := b, a;
    }
    if |short| < |long| {
      TooLongToFit(long, short);
    } else {
      SubstitutionDiffers(a, b);
    }
    if |short| < MIN_CHARS || 10 * |short| < 7 * |long| {
      return false;
    }
    var inserted, at := InsertedChars(short, long);
    if inserted.None? {
      return false;
    }
    NegatesIffMore(short, long, at);
    return !Negates(inserted.value);
  }

  /** The order of the two texts does not matter, although the shorter one is searched in the longer. */
  lemma AlikeIsSymmetric(a: string, b: string)
    ensures Alike(a, b) == Alike(b, a)
  {}
}
