/** A chat's history in memory/session_service.py, summarized and trimmed while lines are appended. */
module HistoryArchive {
  import opened Common
  import opened SessionStore

  // Lines are appended and cut to the newest 120, while an archiver, which does not hold the
  // chat's lock, has the oldest ones summarized and trims them when it is done.

  type Line = string

  /** `s[:n]`, for n of any sign when s is a Python list; only counts of at least 1 reach it here. */
  function Take(s: seq<Line>, n: nat): seq<Line> {
    if n <= |s| then s[..n] else s
  }

  function Dropped(s: seq<Line>, n: nat): seq<Line> {
    if n <= |s| then s[n..] else []
  }

  /** The lines `save_user_event` adds: the message is not repeated when the context already ends with it. */
  function EventLines(context: seq<Line>, current: Line): seq<Line> {
    if context == [] || context[|context| - 1] != current then context + [current] else context
  }

  /** All of the context, and the message at the end, which is added exactly if it is not there already. */
  lemma MessageIsLast(context: seq<Line>, current: Line)
    ensures var lines := EventLines(context, current);
            && context <= lines && lines != [] && lines[|lines| - 1] == current
            && |lines| == |context| + if context != [] && context[|context| - 1] == current then 0 else 1
  {}

  function Kept(history: seq<Line>, lines: seq<Line>): seq<Line> {
    LastN(history + lines, HISTORY_LIMIT)
  }

  /** Why lines left the history: cut to the limit, or trimmed by archiver `who`. */
  datatype Loss = Cut(lines: seq<Line>) | Archived(who: nat, lines: seq<Line>)

  /** An archiver between its snapshot and its commit: what it gave its summarizer, and where that stood in the log. */
  datatype Archiver = Archiver(count: nat, batch: seq<Line>, start: nat, done: bool)

  datatype State = State(history: seq<Line>, summary: Option<string>, log: seq<Line>, losses: seq<Loss>,
                         archivers: seq<Archiver>)

  const INITIAL := State([], None, [], [], [])

  datatype Step =
    | Append(lines: seq<Line>)
    | Snapshot(maxLines: int, batchSize: int)
    | Commit(archiver: nat, summary: string)  // `summary` is already clipped

  function Lost(losses: seq<Loss>): seq<Line> {
    if losses == [] then [] else Lost(losses[..|losses| - 1]) + losses[|losses| - 1].lines
  }

  function AfterAppend(s: State, lines: seq<Line>): State {
    var all := s.history + lines;
    var kept := Kept(s.history, lines);
    s.(history := kept, log := s.log + lines, losses := s.losses + [Cut(all[..|all| - |kept|])])
  }

  function AfterSnapshot(s: State, maxLines: int, batchSize: int): State {
    var count := |s.history| - maxLines;
    if count < Max(1, batchSize) then s
    else s.(archivers := s.archivers + [Archiver(count, Take(s.history, count), |Lost(s.losses)|, false)])
  }

  predicate InPlace(s: State, a: Archiver) {
    Take(s.history, a.count) == a.batch
  }

  function AfterCommit(s: State, i: nat, summary: string): State
    requires i < |s.archivers|
  {
    var a := s.archivers[i];
    var done := s.(archivers := s.archivers[i := a.(done := true)]);
    if a.done then s
    else if summary == "" || !InPlace(s, a) then done
    else done.(history := Dropped(s.history, a.count), summary := Some(summary),
               losses := s.losses + [Archived(i, a.batch)])
  }

  predicate Enabled(s: State, step: Step) {
    step.Commit? ==> step.archiver < |s.archivers|
  }

  function Next(s: State, step: Step): State
    requires Enabled(s, step)
  {
    match step
    case Append(lines) => AfterAppend(s, lines)
    case Snapshot(maxLines, batchSize) => AfterSnapshot(s, maxLines, batchSize)
    case Commit(i, summary) => AfterCommit(s, i, summary)
  }

  /** The session as the source keeps it; what is appended, cut and archived is recorded beside it. */
  class Memory {
    var history: seq<Line>
    var summary: Option<string>
    ghost var log: seq<Line>
    ghost var losses: seq<Loss>
    ghost var archivers: seq<Archiver>

    ghost function View(): State
      reads this
    {
      State(history, summary, log, losses, archivers)
    }

    constructor ()
      ensures View() == INITIAL
    {
      history, summary, log, losses, archivers := [], None, [], [], [];
    }

    method SaveUserEvent(context: seq<Line>, current: Line)
      modifies this
      ensures View() == AfterAppend(old(View()), EventLines(context, current))
    {
      var pending := context;
      if |pending| == 0 || pending[|pending| - 1] != current {
        pending := pending + [current];
      }
      Extend(pending);
    }

    method SaveAssistantMessage(content: string)
      modifies this
      ensures View() == AfterAppend(old(View()), ["assistant: " + content])
    {
      Extend(["assistant: " + content]);
    }

    method Extend(lines: seq<Line>)
      modifies this
      ensures View() == AfterAppend(old(View()), lines)
    {
      history := history + lines;
      ghost var kept := LastN(history, HISTORY_LIMIT);
      log, losses := log + lines, losses + [Cut(history[..|history| - |kept|])];
      history := LastN(history, HISTORY_LIMIT);
    }

    /** `maybe_archive_history` up to the summarizer's call: how many lines overflow, and which. */
    method BeginArchive(maxLines: int, batchSize: int) returns (count: nat, batch: seq<Line>)
      modifies this`archivers
      ensures View() == AfterSnapshot(old(View()), maxLines, batchSize)
      ensures if count == 0 then archivers == old(archivers)
              else archivers == old(archivers) + [Archiver(count, batch, |Lost(losses)|, false)]
    {
      var overflow := |history| - maxLines;
      if overflow < Max(1, batchSize) {
        return 0, [];
      }
      count, batch := overflow, Take(history, overflow);
      archivers := archivers + [Archiver(count, batch, |Lost(losses)|, false)];
    }

    /** The rest, under the chat's lock, with the summary the summarizer returned. */
    method CommitArchive(ghost archiver: nat, count: nat, batch: seq<Line>, newSummary: string) returns (archived: bool)
      requires archiver < |archivers| && !archivers[archiver].done
      requires archivers[archiver].count == count && archivers[archiver].batch == batch
      modifies this
      ensures View() == AfterCommit(old(View()), archiver, newSummary)
      ensures archived <==> newSummary != "" && Take(old(history), count) == batch
    {
      archivers := archivers[archiver := archivers[archiver].(done := true)];
      if newSummary == "" || Take(history, count) != batch {
        return false;
      }
      history, summary := Dropped(history, count), Some(newSummary);
      losses := losses + [Archived(archiver, batch)];
      return true;
    }
  }

  // ---------------------------------------------------------------------
  // Nothing is lost silently
  // ---------------------------------------------------------------------

  ghost predicate Leads(s: State, step: Step, next: State) {
    Enabled(s, step) && next == Next(s, step)
  }

  ghost predicate IsRun(states: seq<State>, steps: seq<Step>) {
    && |states| == |steps| + 1 && states[0] == INITIAL
    && forall i :: 0 <= i < |steps| ==> Leads(states[i], steps[i], states[i + 1])
  }

  /** Every line ever appended is still in the history or was lost for a recorded reason, all in order. */
  predicate Conserved(s: State) {
    s.log == Lost(s.losses) + s.history && |s.history| <= HISTORY_LIMIT
  }

  /** A trim is of exactly the lines some archiver had summarized, and of each archiver at most one. */
  ghost predicate Accounted(s: State) {
    && (forall k :: 0 <= k < |s.losses| && s.losses[k].Archived? ==>
          var i := s.losses[k].who;
          i < |s.archivers| && s.archivers[i].done && s.archivers[i].batch == s.losses[k].lines)
    && (forall k, l :: 0 <= k < l < |s.losses| && s.losses[k].Archived? && s.losses[l].Archived? ==>
          s.losses[k].who != s.losses[l].who)
  }

  lemma LostSnoc(losses: seq<Loss>, loss: Loss)
    ensures Lost(losses + [loss]) == Lost(losses) + loss.lines
  {
    assert (losses + [loss])[..|losses|] == losses;
  }

  lemma AppendConserves(s: State, lines: seq<Line>)
    requires Conserved(s)
    ensures Conserved(AfterAppend(s, lines))
  {
    var all, kept := s.history + lines, Kept(s.history, lines);
    var cut := all[..|all| - |kept|];
    LostSnoc(s.losses, Cut(cut));
    assert all == cut + kept;
    calc {
      s.log + lines;
      Lost(s.losses) + s.history + lines;
      { ConcatAssociates(Lost(s.losses), s.history, lines); }
      Lost(s.losses) + (cut + kept);
      { ConcatAssociates(Lost(s.losses), cut, kept); }
      Lost(s.losses) + cut + kept;
    }
  }

  lemma CommitConserves(s: State, i: nat, summary: string)
    requires Conserved(s) && i < |s.archivers|
    ensures Conserved(AfterCommit(s, i, summary))
  {
    var a := s.archivers[i];
    LostSnoc(s.losses, Archived(i, a.batch));
    if InPlace(s, a) {
      assert s.history == a.batch + Dropped(s.history, a.count);
      ConcatAssociates(Lost(s.losses), a.batch, Dropped(s.history, a.count));
    }
  }

  lemma {:induction false} RunConserves(states: seq<State>, steps: seq<Step>, n: nat)
    requires IsRun(states, steps) && n < |states|
    ensures Conserved(states[n])
  {
    if n > 0 {
      RunConserves(states, steps, n - 1);
      assert Leads(states[n - 1], steps[n - 1], states[n]);
      hide Conserved;
      match steps[n - 1]
      case Append(lines) => AppendConserves(states[n - 1], lines);
      case Snapshot(maxLines, batchSize) => SnapshotConserves(states[n - 1], maxLines, batchSize);
      case Commit(i, summary) => CommitConserves(states[n - 1], i, summary);
    }
  }

  lemma SnapshotConserves(s: State, maxLines: int, batchSize: int)
    requires Conserved(s)
    ensures Conserved(AfterSnapshot(s, maxLines, batchSize))
  {}

  lemma {:induction false} RunAccounts(states: seq<State>, steps: seq<Step>, n: nat)
    requires IsRun(states, steps) && n < |states|
    ensures Accounted(states[n])
  {
    if n > 0 {
      RunAccounts(states, steps, n - 1);
      assert Leads(states[n - 1], steps[n - 1], states[n]);
    }
  }

  /**
   * Appends interleaved with any number of archivers: the log is the lost lines followed by the
   * history, which never exceeds the limit; and what an archiver lost is what it summarized.
   */
  lemma NothingLostSilently(states: seq<State>, steps: seq<Step>, n: nat)
    requires IsRun(states, steps) && n < |states|
    ensures Conserved(states[n]) && Accounted(states[n])
  {
    RunConserves(states, steps, n);
    RunAccounts(states, steps, n);
  }

  /**
   * An archiver begins exactly when the lines beyond the limit make up a batch; it takes those,
   * the oldest, and leaves as many as the limit says.
   */
  lemma TakesOverflow(s: State, maxLines: nat, batchSize: int)
    ensures var after := AfterSnapshot(s, maxLines, batchSize);
            && (after != s <==> |s.history| > maxLines && |s.history| - maxLines >= batchSize)
            && (after != s ==>
                  && after == s.(archivers := after.archivers) && |after.archivers| == |s.archivers| + 1
                  && s.archivers <= after.archivers
                  && var a := after.archivers[|s.archivers|];
                     && !a.done && a.count == |a.batch| && a.batch <= s.history && |s.history| == |a.batch| + maxLines)
  {
    var after := AfterSnapshot(s, maxLines, batchSize);
    assert after != s ==> |after.archivers| == |s.archivers| + 1;
  }

  /** A commit that archives: it comes first, brings a summary and finds its lines in place. */
  predicate Archives(s: State, step: Step)
    requires Enabled(s, step)
  {
    && step.Commit? && step.summary != "" && !s.archivers[step.archiver].done
    && InPlace(s, s.archivers[step.archiver])
  }

  /** The summary the last of the first n steps to archive brought. */
  function LastSummary(states: seq<State>, steps: seq<Step>, n: nat): Option<string>
    requires n <= |steps| <= |states| && forall i :: 0 <= i < n ==> Enabled(states[i], steps[i])
  {
    if n == 0 then None
    else if Archives(states[n - 1], steps[n - 1]) then Some(steps[n - 1].summary)
    else LastSummary(states, steps, n - 1)
  }

  predicate SomeArchived(losses: seq<Loss>) {
    exists k :: 0 <= k < |losses| && losses[k].Archived?
  }

  /** No line is archived without a summary: the one kept is that of the last commit that archived. */
  lemma {:induction false} SummaryIsKept(states: seq<State>, steps: seq<Step>, n: nat)
    requires IsRun(states, steps) && n <= |steps|
    ensures forall i :: 0 <= i < n ==> Enabled(states[i], steps[i])
    ensures states[n].summary == LastSummary(states, steps, n)
    ensures SomeArchived(states[n].losses) <==> states[n].summary.Some?
  {
    if n > 0 {
      SummaryIsKept(states, steps, n - 1);
      assert Leads(states[n - 1], steps[n - 1], states[n]);
      StepKeepsSummary(states[n - 1], steps[n - 1]);
    }
  }

  lemma StepKeepsSummary(s: State, step: Step)
    requires Enabled(s, step) && (SomeArchived(s.losses) <==> s.summary.Some?)
    ensures Next(s, step).summary == if Archives(s, step) then Some(step.summary) else s.summary
    ensures SomeArchived(Next(s, step).losses) <==> Next(s, step).summary.Some?
  {
    var next := Next(s, step);
    assert forall k :: 0 <= k < |s.losses| ==> next.losses[k] == s.losses[k];
    if Archives(s, step) {
      assert next.losses[|s.losses|].Archived?;
    }
  }

  // ---------------------------------------------------------------------
  // By value, not by position
  // ---------------------------------------------------------------------

  /** An archiver was given the lines of the log from `start` on. */
  predicate FromLog(s: State, a: Archiver) {
    a.start + |a.batch| <= |s.log| && a.start <= |Lost(s.losses)| && a.batch == s.log[a.start..a.start + |a.batch|]
  }

  ghost predicate AllFromLog(s: State) {
    forall i :: 0 <= i < |s.archivers| ==> FromLog(s, s.archivers[i])
  }

  lemma AppendKeepsFromLog(s: State, lines: seq<Line>)
    requires AllFromLog(s)
    ensures AllFromLog(AfterAppend(s, lines))
  {
    var after := AfterAppend(s, lines);
    LostSnoc(s.losses, after.losses[|s.losses|]);
    hide Kept, Lost;
    forall i | 0 <= i < |after.archivers|
      ensures FromLog(after, after.archivers[i])
    {
      var a := s.archivers[i];
      assert FromLog(s, a);
      assert after.log[a.start..a.start + |a.batch|] == s.log[a.start..a.start + |a.batch|];
    }
  }

  lemma SnapshotKeepsFromLog(s: State, maxLines: int, batchSize: int)
    requires Conserved(s) && AllFromLog(s)
    ensures AllFromLog(AfterSnapshot(s, maxLines, batchSize))
  {
    hide Lost;
    var after := AfterSnapshot(s, maxLines, batchSize);
    forall i | 0 <= i < |after.archivers|
      ensures FromLog(after, after.archivers[i])
    {
      assert i < |s.archivers| ==> FromLog(s, s.archivers[i]);
    }
  }

  lemma CommitKeepsFromLog(s: State, i: nat, summary: string)
    requires AllFromLog(s) && i < |s.archivers|
    ensures AllFromLog(AfterCommit(s, i, summary))
  {
    var after := AfterCommit(s, i, summary);
    LostSnoc(s.losses, Archived(i, s.archivers[i].batch));
    hide Lost;
    forall j | 0 <= j < |after.archivers|
      ensures FromLog(after, after.archivers[j])
    {
      assert FromLog(s, s.archivers[j]);
    }
  }

  lemma {:induction false} RunFromLog(states: seq<State>, steps: seq<Step>, n: nat)
    requires IsRun(states, steps) && n < |states|
    ensures AllFromLog(states[n])
  {
    if n > 0 {
      RunFromLog(states, steps, n - 1);
      RunConserves(states, steps, n - 1);
      assert Leads(states[n - 1], steps[n - 1], states[n]);
      match steps[n - 1]
      case Append(lines) => AppendKeepsFromLog(states[n - 1], lines);
      case Snapshot(maxLines, batchSize) => SnapshotKeepsFromLog(states[n - 1], maxLines, batchSize);
      case Commit(i, summary) => CommitKeepsFromLog(states[n - 1], i, summary);
    }
  }

  /**
   * A commit that trims takes away the lines of the log right after those already lost, and their
   * text is what was summarized.
   */
  lemma TrimmedLines(states: seq<State>, steps: seq<Step>, n: nat, i: nat)
    requires IsRun(states, steps) && n < |states| && i < |states[n].archivers|
             && InPlace(states[n], states[n].archivers[i])
    ensures var s, a := states[n], states[n].archivers[i];
            var lost := |Lost(s.losses)|;
            && a.start <= lost && lost + |a.batch| <= |s.log|
            && s.log[lost..lost + |a.batch|] == a.batch == s.log[a.start..a.start + |a.batch|]
  {
    RunConserves(states, steps, n);
    RunFromLog(states, steps, n);
    var s, a := states[n], states[n].archivers[i];
    assert FromLog(s, a);
    var lost := |Lost(s.losses)|;
    assert s.log[lost..] == s.history;
    assert s.log[lost..lost + |a.batch|] == s.history[..|a.batch|];
  }

  /** A commit that takes lines away. */
  predicate Trims(s: State, step: Step)
    requires Enabled(s, step)
  {
    && step.Commit?
    && var a := s.archivers[step.archiver];
       !a.done && step.summary != "" && InPlace(s, a) && a.batch != []
  }

  ghost predicate TrimsNone(states: seq<State>, steps: seq<Step>, k: nat, n: nat)
    requires IsRun(states, steps) && k <= n <= |steps|
  {
    forall m :: k <= m < n ==> Enabled(states[m], steps[m]) && !Trims(states[m], steps[m])
  }

  /** How many of so many lines the history holds. */
  function Held(lines: nat): nat {
    if lines <= HISTORY_LIMIT then lines else HISTORY_LIMIT
  }

  function LinesOf(step: Step): nat {
    if step.Append? then |step.lines| else 0
  }

  function Appended(steps: seq<Step>, k: nat, n: nat): nat
    requires k <= n <= |steps|
  {
    if k == n then 0 else Appended(steps, k, n - 1) + LinesOf(steps[n - 1])
  }

  /** What one step does to the number of lines lost, and to that of lines held. */
  lemma StepCounts(s: State, step: Step)
    requires Conserved(s) && Enabled(s, step)
    ensures var next := Next(s, step);
            if Trims(s, step) then |Lost(next.losses)| > |Lost(s.losses)|
            else
              && |next.history| == Held(|s.history| + LinesOf(step))
              && |Lost(next.losses)| + |next.history| == |Lost(s.losses)| + |s.history| + LinesOf(step)
  {
    match step
    case Append(lines) => AppendCounts(s, lines);
    case Commit(i, summary) => CommitCounts(s, i, summary);
    case Snapshot(_, _) =>
  }

  lemma AppendCounts(s: State, lines: seq<Line>)
    ensures var next := AfterAppend(s, lines);
            && |next.history| == Held(|s.history| + |lines|)
            && |Lost(next.losses)| + |next.history| == |Lost(s.losses)| + |s.history| + |lines|
  {
    var all, kept := s.history + lines, Kept(s.history, lines);
    LostSnoc(s.losses, Cut(all[..|all| - |kept|]));
    hide Lost;
  }

  lemma CommitCounts(s: State, i: nat, summary: string)
    requires i < |s.archivers| && Conserved(s)
    ensures var next := AfterCommit(s, i, summary);
            if Trims(s, Commit(i, summary)) then |Lost(next.losses)| > |Lost(s.losses)|
            else
              && |next.history| == Held(|s.history|)
              && |Lost(next.losses)| + |next.history| == |Lost(s.losses)| + |s.history|
  {
    LostSnoc(s.losses, Archived(i, s.archivers[i].batch));
    hide Lost;
  }

  lemma LastStepCounts(states: seq<State>, steps: seq<Step>, n: nat)
    requires IsRun(states, steps) && 0 < n < |states|
    ensures var s, step := states[n - 1], steps[n - 1];
            && Leads(s, step, states[n])
            && |Lost(states[n].losses)| >= |Lost(s.losses)|
            && (Trims(s, step) ==> |Lost(states[n].losses)| > |Lost(s.losses)|)
            && (!Trims(s, step) ==>
                  && |states[n].history| == Held(|s.history| + LinesOf(step))
                  && |Lost(states[n].losses)| + |states[n].history| == |Lost(s.losses)| + |s.history| + LinesOf(step))
  {
    RunConserves(states, steps, n - 1);
    assert Leads(states[n - 1], steps[n - 1], states[n]);
    StepCounts(states[n - 1], steps[n - 1]);
    hide Lost, Next, Trims, IsRun;
  }

  lemma NothingYet(states: seq<State>, steps: seq<Step>, k: nat)
    requires IsRun(states, steps) && k < |states|
    ensures |states| == |steps| + 1 && TrimsNone(states, steps, k, k) && |states[k].history| <= HISTORY_LIMIT
  {
    RunConserves(states, steps, k);
  }

  /** What is lost stays lost, and each trim loses more. */
  lemma {:induction false} LostGrows(states: seq<State>, steps: seq<Step>, k: nat, n: nat)
    requires IsRun(states, steps) && k <= n < |states|
    ensures |Lost(states[n].losses)| >= |Lost(states[k].losses)|
    ensures |Lost(states[n].losses)| == |Lost(states[k].losses)| ==> TrimsNone(states, steps, k, n)
  {
    hide *;
    NothingYet(states, steps, k);
    if k < n {
      LastStepCounts(states, steps, n);
      TrimsNoneFurther(states, steps, k, n);
      LostGrows(states, steps, k, n - 1);
    }
  }

  lemma {:induction false} CountsWithoutTrims(states: seq<State>, steps: seq<Step>, k: nat, n: nat)
    requires IsRun(states, steps) && k <= n < |states| && TrimsNone(states, steps, k, n)
    ensures |states[n].history| == Held(|states[k].history| + Appended(steps, k, n))
    ensures |Lost(states[n].losses)| + |states[n].history|
         == |Lost(states[k].losses)| + |states[k].history| + Appended(steps, k, n)
  {
    hide IsRun, Lost, Leads, Next, Trims, TrimsNone, LinesOf;
    NothingYet(states, steps, k);
    if k < n {
      LastStepCounts(states, steps, n);
      TrimsNoneFurther(states, steps, k, n);
      CountsWithoutTrims(states, steps, k, n - 1);
    }
  }

  /** From one state of a run to a later one. */
  lemma LosesNothingIff(states: seq<State>, steps: seq<Step>, k: nat, n: nat)
    requires IsRun(states, steps) && k <= n < |states|
    ensures |Lost(states[n].losses)| == |Lost(states[k].losses)| <==>
              TrimsNone(states, steps, k, n) && |states[k].history| + Appended(steps, k, n) <= HISTORY_LIMIT
  {
    hide Lost, TrimsNone, IsRun, Appended;
    NothingYet(states, steps, k);
    LostGrows(states, steps, k, n);
    if TrimsNone(states, steps, k, n) {
      CountsWithoutTrims(states, steps, k, n);
    }
  }

  lemma TrimsNoneFurther(states: seq<State>, steps: seq<Step>, k: nat, n: nat)
    requires IsRun(states, steps) && k < n <= |steps| && Leads(states[n - 1], steps[n - 1], states[n])
    ensures TrimsNone(states, steps, k, n) <==>
            TrimsNone(states, steps, k, n - 1) && !Trims(states[n - 1], steps[n - 1])
  {
    hide Trims, Next;
  }

  /** Step `k` took the snapshot of archiver `i`. */
  ghost predicate Began(states: seq<State>, steps: seq<Step>, k: nat, i: nat)
    requires IsRun(states, steps)
  {
    k < |steps| && |states[k].archivers| == i < |states[k + 1].archivers|
  }

  /** Every archiver has such a step. */
  lemma {:induction false} EachBegan(states: seq<State>, steps: seq<Step>, n: nat, i: nat)
    requires IsRun(states, steps) && n < |states| && i < |states[n].archivers|
    ensures exists k: nat :: k < n && Began(states, steps, k, i)
  {
    assert Leads(states[n - 1], steps[n - 1], states[n]);
    if i < |states[n - 1].archivers| {
      EachBegan(states, steps, n - 1, i);
    } else {
      assert Began(states, steps, n - 1, i);
    }
  }

  lemma {:induction false} StartStays(states: seq<State>, steps: seq<Step>, k: nat, n: nat, i: nat)
    requires IsRun(states, steps) && k < n < |states| && Began(states, steps, k, i)
    ensures i < |states[n].archivers| && states[n].archivers[i].start == |Lost(states[k].losses)|
  {
    hide Lost, Kept, Take;
    assert Leads(states[n - 1], steps[n - 1], states[n]);
    if k < n - 1 {
      StartStays(states, steps, k, n - 1, i);
    }
  }

  /**
   * The lines a commit trims are the very ones summarized exactly when since the snapshot no other
   * commit has trimmed and what was appended fitted in the room the history had left.
   */
  lemma TrimmedAreSummarizedIff(states: seq<State>, steps: seq<Step>, k: nat, n: nat, i: nat)
    requires IsRun(states, steps) && k < n < |states| && Began(states, steps, k, i)
    ensures i < |states[n].archivers|
    ensures states[n].archivers[i].start == |Lost(states[n].losses)| <==>
              TrimsNone(states, steps, k, n) && |states[k].history| + Appended(steps, k, n) <= HISTORY_LIMIT
  {
    hide Lost;
    StartStays(states, steps, k, n, i);
    LosesNothingIff(states, steps, k, n);
  }

  /** After as many equal lines as fit, the first 10 of them being summarized, one more line cuts the first. */
  function Shifted(chorus: seq<Line>): State {
    State(chorus, None, chorus + ["la"], [Cut([]), Cut(["la"])], [Archiver(10, Take(chorus, 10), 0, false)])
  }

  predicate Chorus(lines: seq<Line>) {
    |lines| == HISTORY_LIMIT && forall i :: 0 <= i < |lines| ==> lines[i] == "la"
  }

  lemma FirstLines(chorus: seq<Line>)
    requires Chorus(chorus)
    ensures AfterAppend(INITIAL, chorus) == State(chorus, None, chorus, [Cut([])], [])
  {
    assert [] + chorus == chorus;
  }

  lemma OneLineMore(s: State)
    requires Chorus(s.history) && s.losses == [Cut([])]
    ensures AfterAppend(s, ["la"]) == s.(log := s.log + ["la"], losses := [Cut([]), Cut(["la"])])
  {
    var all := s.history + ["la"];
    assert all[1..] == s.history && all[..1] == ["la"];
    assert |Kept(s.history, ["la"])| == HISTORY_LIMIT;
  }

  lemma NothingLostYet()
    ensures Lost([Cut([])]) == [] && Lost([Cut([]), Cut(["la"])]) == ["la"]
  {
    LostSnoc([], Cut([]));
    LostSnoc([Cut([])], Cut(["la"]));
    assert [] + [Cut([])] == [Cut([])];
    assert [Cut([])] + [Cut(["la"])] == [Cut([]), Cut(["la"])];
  }

  /**
   * So equal lines can stand in for each other: line 10 of the log is about to be trimmed, and only
   * 0 to 9 were summarized.
   */
  lemma EqualLinesStandIn(chorus: seq<Line>)
    requires Chorus(chorus)
    ensures exists states, steps :: IsRun(states, steps) && states[|steps|] == Shifted(chorus)
    ensures var s := Shifted(chorus); InPlace(s, s.archivers[0]) && s.archivers[0].start < |Lost(s.losses)|
  {
    hide Take, Chorus, Kept, Lost;
    var s1 := State(chorus, None, chorus, [Cut([])], []);
    var s2 := s1.(archivers := [Archiver(10, Take(chorus, 10), 0, false)]);
    var states, steps := [INITIAL, s1, s2, Shifted(chorus)], [Append(chorus), Snapshot(110, 1), Append(["la"])];
    NothingLostYet();
    assert |chorus| == HISTORY_LIMIT by { ChorusLength(chorus); }
    assert Leads(INITIAL, steps[0], s1) by { FirstLines(chorus); }
    assert Leads(s1, steps[1], s2);
    assert Leads(s2, steps[2], Shifted(chorus)) by { OneLineMore(s2); }
    assert IsRun(states, steps) && states[|steps|] == Shifted(chorus);
  }

  lemma ChorusLength(chorus: seq<Line>)
    requires Chorus(chorus)
    ensures |chorus| == HISTORY_LIMIT
  {}
}
