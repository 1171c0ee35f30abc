/** The tool-calling loop of reply_flow/prompt_assembler.py, against a model that may answer anything. */
module ToolLoop {
  import opened Common
  import opened Text

  type CallId = string
  type ToolName = string

  datatype ToolCall = ToolCall(id: CallId, name: ToolName)

  datatype Speaker = System | User

  datatype Message =
    | Note(speaker: Speaker, text: string)
    | Said(text: string, calls: seq<ToolCall>)  // the assistant
    | Tool(callId: CallId, name: ToolName)      // a tool's answer

  datatype Request = Request(messages: seq<Message>, tools: set<ToolName>)

  /** `Fails` is an `LLMClientError`. */
  datatype Response = Fails | Answers(text: string, calls: seq<ToolCall>)

  /** The model: any answer to any sequence of requests so far. */
  type Model = seq<Request> -> Response

  /**
   * What the loop is given. `offered` is empty when there is no tool to run at all; `rounds` is the
   * context's limit, absent without one; `repeats` says which answers are too like earlier ones;
   * `clean` and `scrub` are what is left of a text after clean-up; `mustSay` is set when the
   * message has pictures the model was to read.
   */
  datatype Setting = Setting(offered: set<ToolName>, explicit: bool, rounds: Option<int>,
                             repeats: (string, seq<Message>) -> bool, clean: string -> string,
                             scrub: string -> string, mustSay: bool)

  datatype Outcome =
    | Raised
    | Stuck  // `_failed_tool_reply`
    | Reply(text: string)

  const NUDGE := Note(User, "nudge")
  const OUT_OF_ROUNDS := Note(User, "out of rounds")

  function Rounds(setting: Setting): nat {
    match setting.rounds case None => 3 case Some(n) => Max(1, n)
  }

  function Answer(call: ToolCall): Message {
    Tool(call.id, call.name)
  }

  function Results(calls: seq<ToolCall>): (r: seq<Message>)
    ensures |r| == |calls|
    ensures forall i :: 0 <= i < |r| ==> r[i] == Answer(calls[i])
  {
    seq(|calls|, i requires 0 <= i < |calls| => Answer(calls[i]))
  }

  function Span(m: Message): nat {
    if m.Said? then |m.calls| + 1 else 1
  }

  /** A note, or an assistant message with one answer to each of its calls, in order. */
  predicate IsBlock(block: seq<Message>) {
    block != [] && !block[0].Tool? && (block[0].Said? ==> block[1..] == Results(block[0].calls))
  }

  /** A conversation in which every call is answered at once, and nothing else is. */
  predicate Answered(messages: seq<Message>) {
    messages == []
    || var n := Span(messages[0]);
       n <= |messages| && IsBlock(messages[..n]) && Answered(messages[n..])
  }

  /** How often the request to act stands in a conversation. */
  function Nudges(messages: seq<Message>): nat {
    if messages == [] then 0
    else Nudges(messages[..|messages| - 1]) + if messages[|messages| - 1] == NUDGE then 1 else 0
  }

  /** The calls of a conversation, in order. */
  function Calls(messages: seq<Message>): seq<ToolCall> {
    if messages == [] then []
    else
      var last := messages[|messages| - 1];
      Calls(messages[..|messages| - 1]) + if last.Said? then last.calls else []
  }

  /** The tools run for some calls: those offered, once for each call. */
  function Ran(offered: set<ToolName>, calls: seq<ToolCall>): seq<ToolName> {
    if calls == [] then []
    else
      var last := calls[|calls| - 1];
      Ran(offered, calls[..|calls| - 1]) + if last.name in offered then [last.name] else []
  }

  /** The request for another wording: the first message, the system's, is changed. */
  function Reworded(messages: seq<Message>): seq<Message> {
    if messages != [] && messages[0].Note? then [Note(messages[0].speaker, "again")] + messages[1..] else messages
  }

  /**
   * A conversation that may be sent: `base` is how often the request to act stood in it at first,
   * `left` whether it may still be made.
   */
  predicate Good(messages: seq<Message>, base: nat, left: bool) {
    Answered(messages) && Nudges(messages) <= base + if left then 0 else 1
  }

  /** What every request obeys. */
  predicate Proper(setting: Setting, base: nat, r: Request) {
    Good(r.messages, base, false) && (r.tools == setting.offered || r.tools == {})
  }

  predicate AllProper(setting: Setting, base: nat, requests: seq<Request>) {
    forall i :: 0 <= i < |requests| ==> Proper(setting, base, requests[i])
  }

  /** Only the last request may withhold the tools. */
  predicate Offers(setting: Setting, requests: seq<Request>) {
    forall i :: 0 <= i < |requests| - 1 ==> requests[i].tools == setting.offered
  }

  // ---------------------------------------------------------------------------------------
  // Conversations grow by whole blocks
  // ---------------------------------------------------------------------------------------

  lemma {:induction false} AnsweredAdds(a: seq<Message>, b: seq<Message>)
    requires Answered(a) && Answered(b)
    ensures Answered(a + b)
    decreases |a|
  {
    if a == [] {
      assert a + b == b;
    } else {
      var n := Span(a[0]);
      assert (a + b)[n..] == a[n..] + b && (a + b)[..n] == a[..n];
      hide IsBlock;
      AnsweredAdds(a[n..], b);
    }
  }

  lemma {:induction false} CountsAdd(a: seq<Message>, b: seq<Message>)
    ensures Nudges(a + b) == Nudges(a) + Nudges(b)
    ensures Calls(a + b) == Calls(a) + Calls(b)
  {
    if b == [] {
      assert a + b == a;
    } else {
      assert (a + b)[..|a + b| - 1] == a + b[..|b| - 1];
      CountsAdd(a, b[..|b| - 1]);
    }
  }

  lemma {:induction false} RanAdds(offered: set<ToolName>, a: seq<ToolCall>, b: seq<ToolCall>)
    ensures Ran(offered, a + b) == Ran(offered, a) + Ran(offered, b)
  {
    if b == [] {
      assert a + b == a;
    } else {
      assert (a + b)[..|a + b| - 1] == a + b[..|b| - 1];
      RanAdds(offered, a, b[..|b| - 1]);
    }
  }

  lemma {:induction false} ResultsCount(calls: seq<ToolCall>, n: nat)
    requires n <= |calls|
    ensures Nudges(Results(calls)[..n]) == 0 && Calls(Results(calls)[..n]) == []
  {
    if n > 0 {
      ResultsCount(calls, n - 1);
      assert Results(calls)[..n][..n - 1] == Results(calls)[..n - 1];
    }
  }

  /** An assistant message with the answers to its calls. */
  function Round(text: string, calls: seq<ToolCall>): seq<Message> {
    [Said(text, calls)] + Results(calls)
  }

  lemma RoundCounts(text: string, calls: seq<ToolCall>)
    ensures Answered(Round(text, calls)) && Nudges(Round(text, calls)) == 0 && Calls(Round(text, calls)) == calls
  {
    var ms := Round(text, calls);
    assert ms[1..] == Results(calls) && ms[|ms|..] == [] && ms[..|ms|] == ms;
    ResultsCount(calls, |calls|);
    assert Results(calls)[..|calls|] == Results(calls);
    SingleCounts(Said(text, calls));
    CountsAdd([Said(text, calls)], Results(calls));
  }

  lemma SingleCounts(m: Message)
    ensures Nudges([m]) == if m == NUDGE then 1 else 0
    ensures Calls([m]) == if m.Said? then m.calls else []
  {
    assert [m][..0] == [];
  }

  lemma RoundKeeps(messages: seq<Message>, base: nat, left: bool, text: string, calls: seq<ToolCall>)
    requires Good(messages, base, left)
    ensures Good(messages + Round(text, calls), base, left)
    ensures Calls(messages + Round(text, calls)) == Calls(messages) + calls
  {
    hide Answered, Nudges, Calls, Round;
    RoundCounts(text, calls);
    AnsweredAdds(messages, Round(text, calls));
    CountsAdd(messages, Round(text, calls));
  }

  lemma NoteKeeps(messages: seq<Message>, base: nat, left: bool, note: Message)
    requires Good(messages, base, left) && note.Note? && (note == NUDGE ==> left)
    ensures Good(messages + [note], base, left && note != NUDGE)
    ensures Calls(messages + [note]) == Calls(messages)
  {
    SingleCounts(note);
    assert [note][..1] == [note];
    hide Answered, Nudges, Calls;
    AnsweredAdds(messages, [note]);
    CountsAdd(messages, [note]);
  }

  lemma RewordedKeeps(messages: seq<Message>, base: nat)
    requires Good(messages, base, false)
    ensures Good(Reworded(messages), base, false)
  {
    if messages != [] && messages[0].Note? {
      var head, rest := messages[0], messages[1..];
      var changed := Note(head.speaker, "again");
      assert messages == [head] + rest && Reworded(messages)[1..] == rest;
      SingleCounts(changed);
      CountsAdd([head], rest);
      CountsAdd([changed], rest);
    }
  }

  lemma RequestKeeps(setting: Setting, base: nat, requests: seq<Request>, r: Request)
    requires AllProper(setting, base, requests) && Good(r.messages, base, false)
    requires r.tools == setting.offered || r.tools == {}
    ensures AllProper(setting, base, requests + [r])
  {
    hide Good;
  }

  // ---------------------------------------------------------------------------------------
  // The loop
  // ---------------------------------------------------------------------------------------

  /** Where the loop is: the requests sent, the tools run, the calls answered, the conversation. */
  datatype Progress = Progress(requests: seq<Request>, executed: seq<ToolName>, made: seq<ToolCall>,
                               messages: seq<Message>)

  /** What holds of it between rounds, `left` as in `Good`. */
  predicate Sound(setting: Setting, start: seq<Message>, p: Progress, left: bool) {
    && (forall i :: 0 <= i < |p.requests| ==> p.requests[i].tools == setting.offered)
    && (p.requests != [] ==> p.requests[0] == Request(start, setting.offered))
    && (p.requests == [] ==> p.messages == start)
    && Closed(setting, start, p, left)
  }

  /** The part of it that the last request keeps as well. */
  predicate Closed(setting: Setting, start: seq<Message>, p: Progress, left: bool) {
    && AllProper(setting, Nudges(start), p.requests)
    && Good(p.messages, Nudges(start), left)
    && start <= p.messages
    && Calls(p.messages) == Calls(start) + p.made
    && p.executed == Ran(setting.offered, p.made)
  }

  /** What is promised when the loop ends. */
  predicate Ended(setting: Setting, start: seq<Message>, p: Progress) {
    && p.requests != []
    && p.requests[0] == Request(start, setting.offered)
    && Offers(setting, p.requests)
    && Closed(setting, start, p, false)
  }

  lemma Begins(setting: Setting, start: seq<Message>, left: bool)
    requires Answered(start)
    ensures Sound(setting, start, Progress([], [], [], start), left)
  {
    hide Answered, Nudges, Calls;
  }

  lemma Sends(setting: Setting, start: seq<Message>, p: Progress, left: bool)
    requires Sound(setting, start, p, left)
    ensures Sound(setting, start, p.(requests := p.requests + [Request(p.messages, setting.offered)]), left)
  {
    assert Good(p.messages, Nudges(start), false);
    hide Good, Calls, Ran;
    RequestKeeps(setting, Nudges(start), p.requests, Request(p.messages, setting.offered));
    hide AllProper;
  }

  lemma Runs(setting: Setting, start: seq<Message>, p: Progress, left: bool, text: string, calls: seq<ToolCall>)
    requires Sound(setting, start, p, left) && p.requests != []
    ensures Sound(setting, start, Progress(p.requests, p.executed + Ran(setting.offered, calls), p.made + calls,
                                           p.messages + Round(text, calls)), left)
  {
    hide Good, Calls, Ran, AllProper, Round;
    RoundKeeps(p.messages, Nudges(start), left, text, calls);
    RanAdds(setting.offered, p.made, calls);
    ConcatAssociates(Calls(start), p.made, calls);
  }

  lemma AddsNote(setting: Setting, start: seq<Message>, p: Progress, left: bool, note: Message)
    requires Sound(setting, start, p, left) && p.requests != []
    requires note.Note? && (note == NUDGE ==> left)
    ensures Sound(setting, start, p.(messages := p.messages + [note]), left && note != NUDGE)
  {
    hide Good, Calls, Ran, AllProper;
    NoteKeeps(p.messages, Nudges(start), left, note);
  }

  /** A reply that only says what it will do stays, followed by the request to do it. */
  lemma Prompts(setting: Setting, start: seq<Message>, p: Progress, text: string)
    requires Sound(setting, start, p, true) && p.requests != []
    ensures Sound(setting, start, p.(messages := p.messages + Round(text, []) + [NUDGE]), false)
  {
    hide Sound;
    Runs(setting, start, p, true, text, []);
    assert p.executed + Ran(setting.offered, []) == p.executed && p.made + [] == p.made;
    AddsNote(setting, start, p.(messages := p.messages + Round(text, [])), true, NUDGE);
  }

  lemma Ends(setting: Setting, start: seq<Message>, p: Progress, left: bool)
    requires Sound(setting, start, p, left) && p.requests != []
    ensures Ended(setting, start, p)
  {
    hide Nudges, Answered, Calls, Ran, AllProper;
  }

  /** One more request, without tools, ends the loop. */
  lemma EndsWith(setting: Setting, start: seq<Message>, p: Progress, left: bool, messages: seq<Message>)
    requires Sound(setting, start, p, left) && p.requests != [] && Good(messages, Nudges(start), false)
    ensures Ended(setting, start, p.(requests := p.requests + [Request(messages, {})]))
  {
    Ends(setting, start, p, left);
    hide Good, Calls, Ran;
    RequestKeeps(setting, Nudges(start), p.requests, Request(messages, {}));
    hide AllProper;
  }

  // ---------------------------------------------------------------------------------------
  // What each request answers to, and what is said in the end
  // ---------------------------------------------------------------------------------------

  /** Whether an answer without calls is followed by the request to act: only the first one, and only on command. */
  predicate Prompted(setting: Setting, i: nat, r: Response) {
    i == 0 && Commands(setting) && r.Answers? && r.calls == []
  }

  predicate Commands(setting: Setting) {
    setting.offered != {} && setting.rounds.Some? && setting.explicit
  }

  /** The conversation after an answer: what was said, and what the calls came to or the request to act. */
  function After(setting: Setting, i: nat, messages: seq<Message>, r: Response): seq<Message>
    requires r.Answers?
  {
    messages + Round(r.text, r.calls) + if Prompted(setting, i, r) then [NUDGE] else []
  }

  /** Request `n`: the one after the last round asks for the answer without tools. */
  function Asked(setting: Setting, n: nat, messages: seq<Message>): Request {
    if n == Rounds(setting) then Request(messages + [OUT_OF_ROUNDS], {}) else Request(messages, setting.offered)
  }

  /** The answer to request `i` has calls, or is followed by the request to act; the next one goes on from there. */
  predicate Continues(setting: Setting, model: Model, requests: seq<Request>, i: nat)
    requires i + 1 < |requests|
  {
    var r := model(requests[..i + 1]);
    && GoesOn(setting, i, r)
    && requests[i + 1] == Asked(setting, i + 1, After(setting, i, requests[i].messages, r))
  }

  predicate GoesOn(setting: Setting, i: nat, r: Response) {
    r.Answers? && (r.calls != [] || Prompted(setting, i, r))
  }

  /** The calls in the first n answers. */
  function MadeBy(model: Model, requests: seq<Request>, n: nat): seq<ToolCall>
    requires n <= |requests|
  {
    if n == 0 then []
    else
      var r := model(requests[..n]);
      MadeBy(model, requests, n - 1) + if r.Answers? then r.calls else []
  }

  /** A direct answer, with no call before it, that is too like earlier ones. */
  predicate TooAlike(setting: Setting, model: Model, requests: seq<Request>, i: nat)
    requires i < |requests|
  {
    var r := model(requests[..i + 1]);
    && r.Answers? && !GoesOn(setting, i, r) && MadeBy(model, requests, i) == [] && setting.clean(r.text) != ""
    && setting.repeats(setting.clean(r.text), requests[i].messages)
  }

  /** The last request asks for another wording of the answer before it. */
  predicate AsksAgain(setting: Setting, model: Model, requests: seq<Request>)
    requires requests != []
  {
    var k := |requests| - 1;
    k > 0 && TooAlike(setting, model, requests, k - 1) && requests[k] == Request(Reworded(requests[k - 1].messages), {})
  }

  function Spoken(setting: Setting, text: string): Outcome {
    if setting.scrub(text) == "" && setting.mustSay then Raised else Reply(setting.scrub(text))
  }

  /** What the answers to all requests come to. */
  function Conclusion(setting: Setting, model: Model, requests: seq<Request>): Outcome
    requires requests != []
  {
    var k, r := |requests| - 1, model(requests);
    if AsksAgain(setting, model, requests) then
      var own := setting.clean(model(requests[..k]).text);
      var again := if r.Answers? && r.calls == [] then setting.clean(r.text) else "";
      Spoken(setting, if again != "" then again else own)
    else if k == Rounds(setting) then
      if r.Fails? || r.calls != [] || AllSpace(r.text) then Stuck else Reply(setting.scrub(setting.clean(r.text)))
    else if r.Fails? then (if MadeBy(model, requests, k) == [] then Raised else Stuck)
    else if AllSpace(r.text) && MadeBy(model, requests, k) != [] then Stuck
    else Spoken(setting, setting.clean(r.text))
  }

  /** Every request goes on from the answer before it, and no answer that calls for another request is the last. */
  predicate Complete(setting: Setting, model: Model, requests: seq<Request>) {
    && requests != []
    && (forall i :: 0 <= i < |requests| - 2 ==> Continues(setting, model, requests, i))
    && (|requests| > 1 ==>
          Continues(setting, model, requests, |requests| - 2) || AsksAgain(setting, model, requests))
    && (!AsksAgain(setting, model, requests) && |requests| <= Rounds(setting) ==>
          !GoesOn(setting, |requests| - 1, model(requests)) && !TooAlike(setting, model, requests, |requests| - 1))
  }

  /** The answers so far have all been gone on from, and the last one is dealt with. */
  predicate Underway(setting: Setting, model: Model, start: seq<Message>, p: Progress) {
    && (forall i :: 0 <= i < |p.requests| - 1 ==> Continues(setting, model, p.requests, i))
    && p.made == MadeBy(model, p.requests, |p.requests|)
    && if p.requests == [] then p.messages == start
       else
         var k, r := |p.requests| - 1, model(p.requests);
         GoesOn(setting, k, r) && p.messages == After(setting, k, p.requests[k].messages, r)
  }

  /** The last request has been sent, and its answer is not dealt with. */
  predicate Waits(setting: Setting, model: Model, p: Progress) {
    && p.requests != [] && p.made == MadeBy(model, p.requests, |p.requests| - 1)
    && (forall i :: 0 <= i < |p.requests| - 1 ==> Continues(setting, model, p.requests, i))
  }

  lemma {:induction false} MadeByPrefix(model: Model, requests: seq<Request>, q: Request, n: nat)
    requires n <= |requests|
    ensures MadeBy(model, requests + [q], n) == MadeBy(model, requests, n)
  {
    if n > 0 {
      MadeByPrefix(model, requests, q, n - 1);
      assert (requests + [q])[..n] == requests[..n];
    }
  }

  lemma ContinuesPrefix(setting: Setting, model: Model, requests: seq<Request>, q: Request, i: nat)
    requires i + 1 < |requests|
    ensures Continues(setting, model, requests + [q], i) == Continues(setting, model, requests, i)
  {
    assert (requests + [q])[..i + 1] == requests[..i + 1];
    hide GoesOn, Asked;
  }

  lemma SendsNext(setting: Setting, model: Model, start: seq<Message>, p: Progress, q: Request)
    requires Underway(setting, model, start, p) && q == Asked(setting, |p.requests|, p.messages)
    ensures Waits(setting, model, p.(requests := p.requests + [q]))
  {
    var n, longer := |p.requests|, p.requests + [q];
    MadeByPrefix(model, p.requests, q, n);
    forall i | 0 <= i < n
      ensures Continues(setting, model, longer, i)
    {
      if i < n - 1 {
        ContinuesPrefix(setting, model, p.requests, q, i);
      } else {
        assert longer[..n] == p.requests;
      }
    }
  }

  /** An answer with calls, or one followed by the request to act, is gone on from. */
  lemma Deals(setting: Setting, model: Model, start: seq<Message>, p: Progress, r: Response, q: Progress)
    requires Waits(setting, model, p) && r == model(p.requests) && r.Answers?
    requires p.messages == p.requests[|p.requests| - 1].messages
    requires if r.calls != [] then q.messages == p.messages + Round(r.text, r.calls)
             else |p.requests| == 1 && Commands(setting) && q.messages == p.messages + Round(r.text, []) + [NUDGE]
    requires q.requests == p.requests && q.made == p.made + r.calls
    ensures Underway(setting, model, start, q)
  {
    assert p.requests[..|p.requests|] == p.requests;
    hide Round;
  }

  /** The last answer is the one to be read. */
  predicate Last(setting: Setting, model: Model, p: Progress)
    requires p.requests != []
  {
    |p.requests| > Rounds(setting)
    || (!GoesOn(setting, |p.requests| - 1, model(p.requests))
        && !TooAlike(setting, model, p.requests, |p.requests| - 1))
  }

  lemma Completes(setting: Setting, model: Model, p: Progress)
    requires Waits(setting, model, p) && Last(setting, model, p)
    ensures Complete(setting, model, p.requests) && !AsksAgain(setting, model, p.requests)
    ensures p.made == MadeBy(model, p.requests, |p.requests| - 1)
    ensures var r := model(p.requests);
            Conclusion(setting, model, p.requests) ==
              if |p.requests| - 1 == Rounds(setting) then
                if r.Fails? || r.calls != [] || AllSpace(r.text) then Stuck
                else Reply(setting.scrub(setting.clean(r.text)))
              else if r.Fails? then (if p.made == [] then Raised else Stuck)
              else if AllSpace(r.text) && p.made != [] then Stuck
              else Spoken(setting, setting.clean(r.text))
  {
    AsksNoMore(setting, model, p);
    hide AsksAgain, Spoken, AllSpace, Continues, GoesOn, TooAlike, MadeBy;
  }

  lemma AsksNoMore(setting: Setting, model: Model, p: Progress)
    requires Waits(setting, model, p)
    ensures !AsksAgain(setting, model, p.requests)
    ensures |p.requests| > 1 ==> Continues(setting, model, p.requests, |p.requests| - 2)
  {
    var k := |p.requests| - 1;
    if k > 0 {
      assert Continues(setting, model, p.requests, k - 1);
    }
    hide GoesOn, After, Asked, Reworded, MadeBy;
  }

  /** After the last round one request without tools ends the loop. */
  lemma RunsOut(setting: Setting, model: Model, start: seq<Message>, p: Progress, left: bool)
    requires Sound(setting, start, p, left) && Underway(setting, model, start, p) && |p.requests| == Rounds(setting)
    ensures var messages := p.messages + [OUT_OF_ROUNDS];
            var q := p.(messages := messages).(requests := p.requests + [Request(messages, {})]);
            Ended(setting, start, q) && Waits(setting, model, q) && Last(setting, model, q)
  {
    var messages := p.messages + [OUT_OF_ROUNDS];
    assert OUT_OF_ROUNDS.Note? && OUT_OF_ROUNDS != NUDGE && Rounds(setting) > 0;
    hide Sound, Underway, Waits, Ended;
    AddsNote(setting, start, p, left, OUT_OF_ROUNDS);
    SoundIsGood(setting, start, p.(messages := messages), left);
    EndsWith(setting, start, p.(messages := messages), left, messages);
    SendsNext(setting, model, start, p, Request(messages, {}));
    SameWaits(setting, model, p.(requests := p.requests + [Request(messages, {})]), messages);
  }

  lemma SameWaits(setting: Setting, model: Model, p: Progress, messages: seq<Message>)
    requires Waits(setting, model, p)
    ensures Waits(setting, model, p.(messages := messages))
  {}

  lemma FailedIsLast(setting: Setting, model: Model, p: Progress)
    requires p.requests != [] && model(p.requests).Fails?
    ensures Last(setting, model, p)
  {
    assert p.requests[..|p.requests|] == p.requests;
  }

  lemma RoundAsked(setting: Setting, n: nat, messages: seq<Message>)
    ensures Asked(setting, n, messages)
         == if n == Rounds(setting) then Request(messages + [OUT_OF_ROUNDS], {}) else Request(messages, setting.offered)
  {}

  lemma NothingAsked(setting: Setting, model: Model, start: seq<Message>)
    ensures Underway(setting, model, start, Progress([], [], [], start))
    ensures Rounds(setting) == match setting.rounds case None => 3 case Some(n) => if n < 1 then 1 else n
    ensures Commands(setting) <==> setting.offered != {} && setting.rounds.Some? && setting.explicit
  {}

  /** What the answer without calls that ends the loop is. */
  lemma Finishes(setting: Setting, model: Model, p: Progress, r: Response)
    requires Waits(setting, model, p) && r == model(p.requests) && r.Answers? && r.calls == []
    requires |p.requests| == 1 ==> !Commands(setting)
    requires p.messages == p.requests[|p.requests| - 1].messages
    ensures TooAlike(setting, model, p.requests, |p.requests| - 1)
       <==> p.made == [] && setting.clean(r.text) != "" && setting.repeats(setting.clean(r.text), p.messages)
    ensures !TooAlike(setting, model, p.requests, |p.requests| - 1) ==> Last(setting, model, p)
    ensures p.made == MadeBy(model, p.requests, |p.requests| - 1)
  {
    assert p.requests[..|p.requests|] == p.requests;
  }

  lemma SoundIsGood(setting: Setting, start: seq<Message>, p: Progress, left: bool)
    requires Sound(setting, start, p, left)
    ensures Good(p.messages, Nudges(start), false)
  {
    hide Answered, Nudges, Calls, Ran, AllProper;
  }

  lemma SpokenIs(setting: Setting, text: string)
    ensures Spoken(setting, text)
         == if setting.scrub(text) == "" && setting.mustSay then Raised else Reply(setting.scrub(text))
  {}

  lemma SaysAgain(setting: Setting, model: Model, requests: seq<Request>, r: Response, own: string)
    requires requests != [] && AsksAgain(setting, model, requests) && r == model(requests)
    requires own == setting.clean(model(requests[..|requests| - 1]).text)
    ensures var again := if r.Answers? && r.calls == [] then setting.clean(r.text) else "";
            Conclusion(setting, model, requests) == Spoken(setting, if again != "" then again else own)
  {
    hide AsksAgain, Spoken;
  }

  lemma AsksOnceMore(setting: Setting, model: Model, p: Progress, q: Request)
    requires Waits(setting, model, p) && TooAlike(setting, model, p.requests, |p.requests| - 1)
    requires q == Request(Reworded(p.requests[|p.requests| - 1].messages), {})
    ensures var requests := p.requests + [q];
            Complete(setting, model, requests) && AsksAgain(setting, model, requests)
    ensures p.made == [] && MadeBy(model, p.requests + [q], |p.requests|) == []
  {
    var n, longer := |p.requests|, p.requests + [q];
    assert longer[..n] == p.requests && p.requests[..n] == p.requests;
    MadeByPrefix(model, p.requests, q, n - 1);
    forall i | 0 <= i < n - 1
      ensures Continues(setting, model, longer, i)
    {
      ContinuesPrefix(setting, model, p.requests, q, i);
    }
    hide After, Asked, Reworded, Continues;
  }

  // ---------------------------------------------------------------------------------------
  // What the promises mean
  // ---------------------------------------------------------------------------------------

  /** The loop may start on any conversation without calls, such as the two sides' turns. */
  lemma {:induction false} WithoutCallsAnswered(messages: seq<Message>)
    requires forall i :: 0 <= i < |messages| ==> !messages[i].Tool? && (messages[i].Said? ==> messages[i].calls == [])
    ensures Answered(messages)
  {
    if messages != [] {
      WithoutCallsAnswered(messages[1..]);
      assert messages[..1] == [messages[0]];
    }
  }

  /** Position by position: call `j` of the assistant message at `i` is answered at `i + 1 + j`. */
  lemma {:induction false} AnsweredAt(messages: seq<Message>, i: nat)
    requires Answered(messages) && i < |messages|
    ensures messages[i].Said? ==>
              i + |messages[i].calls| < |messages|
              && forall j :: 0 <= j < |messages[i].calls| ==> messages[i + 1 + j] == Answer(messages[i].calls[j])
    ensures messages[i].Tool? ==>
              exists k :: 0 <= k < i && messages[k].Said? && i - k <= |messages[k].calls|
                          && messages[i] == Answer(messages[k].calls[i - k - 1])
    decreases |messages|
  {
    var n := Span(messages[0]);
    var rest := messages[n..];
    if i < n {
      assert messages[0].Said? ==> forall j :: 0 <= j < n - 1 ==> messages[1 + j] == messages[..n][1..][j];
    } else {
      assert rest[i - n] == messages[i];
      AnsweredAt(rest, i - n);
      if messages[i].Said? {
        forall j | 0 <= j < |messages[i].calls|
          ensures messages[i + 1 + j] == Answer(messages[i].calls[j])
        {
          assert rest[i - n + 1 + j] == messages[i + 1 + j];
        }
      } else if messages[i].Tool? {
        var k :| 0 <= k < i - n && rest[k].Said? && i - n - k <= |rest[k].calls|
                 && messages[i] == Answer(rest[k].calls[i - n - k - 1]);
        assert messages[k + n] == rest[k];
      }
    }
  }

  /** Only tools that were offered run, each as often as it was called. */
  lemma {:induction false} RunsExactlyWhatIsOffered(offered: set<ToolName>, calls: seq<ToolCall>, name: ToolName)
    ensures multiset(Ran(offered, calls))[name] == if name in offered then Times(calls, name) else 0
  {
    if calls != [] {
      RunsExactlyWhatIsOffered(offered, calls[..|calls| - 1], name);
    }
  }

  function Times(calls: seq<ToolCall>, name: ToolName): nat {
    if calls == [] then 0
    else Times(calls[..|calls| - 1], name) + if calls[|calls| - 1].name == name then 1 else 0
  }

  /**
   * Runs the loop on `start`. Whatever the model does, at most one request follows the rounds; the
   * calls answered are those of the conversation, and the tools run are the offered ones among them,
   * once for each call.
   */
  method Invoke(setting: Setting, model: Model, start: seq<Message>) returns (p: Progress, outcome: Outcome)
    requires Answered(start)
    ensures 1 <= |p.requests| <= Rounds(setting) + 1
    ensures Rounds(setting) == match setting.rounds case None => 3 case Some(n) => if n < 1 then 1 else n
    ensures Ended(setting, start, p)
    ensures Complete(setting, model, p.requests) && outcome == Conclusion(setting, model, p.requests)
    ensures p.made == MadeBy(model, p.requests, |p.requests| - 1)
    ensures outcome.Raised? ==> p.made == [] || setting.mustSay
    ensures outcome.Stuck? ==> p.made != [] || |p.requests| == Rounds(setting) + 1
    ensures outcome.Reply? && setting.mustSay && |p.requests| <= Rounds(setting) ==> outcome.text != ""
  {
    hide *;
    var nudge := setting.offered != {} && setting.rounds.Some? && setting.explicit;
    p := Progress([], [], [], start);
    Begins(setting, start, nudge);
    NothingAsked(setting, model, start);
    for round := 0 to Rounds(setting)
      invariant |p.requests| == round
      invariant Sound(setting, start, p, nudge)
      invariant Underway(setting, model, start, p)
      invariant nudge && p.made == [] <==> round == 0 && Commands(setting)
    {
      Sends(setting, start, p, nudge);
      RoundAsked(setting, round, p.messages);
      SendsNext(setting, model, start, p, Asked(setting, round, p.messages));
      p := p.(requests := p.requests + [Request(p.messages, setting.offered)]);
      var response := model(p.requests);
      if response.Fails? {
        Ends(setting, start, p, nudge);
        FailedIsLast(setting, model, p);
        Completes(setting, model, p);
        return p, if p.made == [] then Raised else Stuck;
      }
      if response.calls == [] && nudge && p.made == [] {
        Prompts(setting, start, p, response.text);
        nudge := false;
        var said := p;
        p := p.(messages := p.messages + Round(response.text, []) + [NUDGE]);
        Deals(setting, model, start, said, response, p);
        continue;
      }
      if response.calls == [] {
        outcome, p := Finish(setting, model, start, p, nudge, response.text);
        return;
      }
      Runs(setting, start, p, nudge, response.text, response.calls);
      var answers, ran := RunTools(setting, response.text, response.calls);
      var called := p;
      p := Progress(p.requests, p.executed + ran, p.made + response.calls,
                    p.messages + answers);
      Deals(setting, model, start, called, response, p);
    }
    RunsOut(setting, model, start, p, nudge);
    p := p.(messages := p.messages + [OUT_OF_ROUNDS]);
    p := p.(requests := p.requests + [Request(p.messages, {})]);
    Completes(setting, model, p);
    var last := model(p.requests);
    if last.Fails? || last.calls != [] || AllSpace(last.text) {
      return p, Stuck;
    }
    return p, Reply(setting.scrub(setting.clean(last.text)));
  }

  /** A reply without calls: asks once more for one too like the earlier ones. */
  method Finish(setting: Setting, model: Model, start: seq<Message>, p: Progress, left: bool, said: string)
    returns (outcome: Outcome, q: Progress)
    requires Sound(setting, start, p, left) && p.requests != []
    requires Waits(setting, model, p) && |p.requests| <= Rounds(setting) && (|p.requests| == 1 ==> !Commands(setting))
    requires model(p.requests) == Answers(said, []) && p.messages == p.requests[|p.requests| - 1].messages
    ensures Ended(setting, start, q) && q.made == p.made
    ensures Complete(setting, model, q.requests) && outcome == Conclusion(setting, model, q.requests)
    ensures q.made == MadeBy(model, q.requests, |q.requests| - 1)
    ensures q == p || q == p.(requests := p.requests + [Request(Reworded(p.messages), {})])
    ensures outcome.Stuck? ==> p.made != []
    ensures outcome.Raised? ==> setting.mustSay
    ensures outcome.Reply? && setting.mustSay ==> outcome.text != ""
  {
    hide *;
    q := p;
    Ends(setting, start, p, left);
    SoundIsGood(setting, start, p, left);
    RewordedKeeps(p.messages, Nudges(start));
    Finishes(setting, model, p, model(p.requests));
    if !TooAlike(setting, model, p.requests, |p.requests| - 1) {
      Completes(setting, model, p);
      SpokenIs(setting, setting.clean(said));
    }
    if AllSpace(said) && p.made != [] {
      return Stuck, q;
    }
    var text := setting.clean(said);
    if text != "" && p.made == [] && setting.repeats(text, p.messages) {
      EndsWith(setting, start, p, left, Reworded(p.messages));
      q := p.(requests := p.requests + [Request(Reworded(p.messages), {})]);
      AsksOnceMore(setting, model, p, Request(Reworded(p.messages), {}));
      var again := model(q.requests);
      assert q.requests[..|q.requests| - 1] == p.requests;
      SaysAgain(setting, model, q.requests, again, text);
      if again.Answers? && setting.clean(again.text) != "" && again.calls == [] {
        text := setting.clean(again.text);
      }
    }
    SpokenIs(setting, text);
    text := setting.scrub(text);
    if text == "" && setting.mustSay {
      return Raised, q;
    }
    return Reply(text), q;
  }

  // ---------------------------------------------------------------------------------------
  // Reading the model's answer (infra/llm_clients.py)
  // ---------------------------------------------------------------------------------------

  /** One entry of the answer's `tool_calls`: `Junk` is none that can be read. */
  datatype Item = Junk | Item(id: string, name: string)

  predicate Usable(item: Item) {
    item.Item? && Strip(item.id) != "" && Strip(item.name) != ""
  }

  /** The calls that can be answered, in order. */
  function CallsIn(items: seq<Item>): seq<ToolCall> {
    if items == [] then []
    else
      var last := items[|items| - 1];
      CallsIn(items[..|items| - 1]) + if Usable(last) then [ToolCall(Strip(last.id), Strip(last.name))] else []
  }

  /** Reads an answer: the message put into the conversation lists exactly the calls that will be answered. */
  method ParseToolResponse(text: string, items: seq<Item>) returns (calls: seq<ToolCall>, said: Message)
    ensures calls == CallsIn(items) && said == Said(text, calls)
    ensures forall i :: 0 <= i < |calls| ==> calls[i].id != "" && calls[i].name != ""
  {
    calls := [];
    var listed: seq<ToolCall> := [];
    for i := 0 to |items|
      invariant calls == CallsIn(items[..i]) && listed == calls
      invariant forall j :: 0 <= j < |calls| ==> calls[j].id != "" && calls[j].name != ""
    {
      assert items[..i + 1][..i] == items[..i];
      if items[i] == Junk {
        continue;
      }
      var id, name := Strip(items[i].id), Strip(items[i].name);
      if id == "" || name == "" {
        continue;
      }
      var call := ToolCall(id, name);
      calls := calls + [call];
      listed := listed + [call];
    }
    assert items[..|items|] == items;
    said := Said(text, listed);
  }

  /** Answers every call of a round, running those tools that were offered. */
  method RunTools(setting: Setting, text: string, calls: seq<ToolCall>)
    returns (added: seq<Message>, ran: seq<ToolName>)
    ensures added == Round(text, calls)
    ensures ran == Ran(setting.offered, calls)
  {
    added, ran := [Said(text, calls)], [];
    for i := 0 to |calls|
      invariant |added| == i + 1 && added[0] == Said(text, calls)
      invariant forall j :: 0 <= j < i ==> added[j + 1] == Answer(calls[j])
      invariant ran == Ran(setting.offered, calls[..i])
    {
      assert calls[..i + 1][..i] == calls[..i];
      if calls[i].name in setting.offered {
        ran := ran + [calls[i].name];
      }
      added := added + [Tool(calls[i].id, calls[i].name)];
    }
    assert calls[..|calls|] == calls;
  }
}
