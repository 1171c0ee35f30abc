/** conversation/context.py: the optional parts of a prompt, fitted into its budget around what must be there. */
module ContextBuilder {
  import opened Common

  type Id = string

  datatype Role = System | User | Assistant | Other

  /** Text counts by its length in UTF-8; a picture by a fixed reserve. */
  datatype Block = TextBlock(bytes: nat) | ImageBlock

  datatype Content = Plain(bytes: nat) | Blocks(blocks: seq<Block>)

  datatype Message = Message(role: Role, content: Content)

  datatype HistoryMessage = HistoryMessage(eventId: Id, role: Role, order: int, conversation: Id, character: Id,
                                           eventKind: string, delivery: string, content: Content)

  datatype Memory = Memory(id: Id, message: Message)

  datatype Config = Config(inputBudget: int, maxImages: nat, imageReserve: nat)

  datatype Turn = Turn(order: int, conversation: Id, character: Id, suppressed: set<Id>)

  datatype Error = BudgetExceeded | ScopeError

  datatype Result<+T> = Ok(value: T) | Err(error: Error)

  datatype Bundle = Bundle(messages: seq<Message>, omitted: seq<Id>, examplesOmitted: bool, memories: seq<Memory>,
                           omittedMemories: seq<Id>)

  // ---------------------------------------------------------------------
  // Costs
  // ---------------------------------------------------------------------

  function BlocksCost(blocks: seq<Block>, reserve: nat): nat {
    if blocks == [] then 0
    else BlocksCost(blocks[..|blocks| - 1], reserve)
         + match blocks[|blocks| - 1] case TextBlock(n) => n case ImageBlock => reserve
  }

  function BlocksImages(blocks: seq<Block>): nat {
    if blocks == [] then 0
    else BlocksImages(blocks[..|blocks| - 1]) + if blocks[|blocks| - 1].ImageBlock? then 1 else 0
  }

  function EstimatedTokens(m: Message, reserve: nat): nat {
    16 + match m.content case Plain(n) => n case Blocks(blocks) => BlocksCost(blocks, reserve)
  }

  function ImageCount(m: Message): nat {
    match m.content case Plain(_) => 0 case Blocks(blocks) => BlocksImages(blocks)
  }

  function Cost(messages: seq<Message>, reserve: nat): nat {
    if messages == [] then 0
    else Cost(messages[..|messages| - 1], reserve) + EstimatedTokens(messages[|messages| - 1], reserve)
  }

  function Images(messages: seq<Message>): nat {
    if messages == [] then 0
    else Images(messages[..|messages| - 1]) + ImageCount(messages[|messages| - 1])
  }

  function BlocksBytes(blocks: seq<Block>): nat {
    if blocks == [] then 0
    else BlocksBytes(blocks[..|blocks| - 1]) + if blocks[|blocks| - 1].TextBlock? then blocks[|blocks| - 1].bytes else 0
  }

  function TextBytes(messages: seq<Message>): nat {
    if messages == [] then 0
    else
      TextBytes(messages[..|messages| - 1])
      + match messages[|messages| - 1].content case Plain(n) => n case Blocks(blocks) => BlocksBytes(blocks)
  }

  lemma {:induction false} BlocksCostIs(blocks: seq<Block>, reserve: nat)
    ensures BlocksCost(blocks, reserve) == BlocksBytes(blocks) + reserve * BlocksImages(blocks)
  {
    if blocks != [] {
      BlocksCostIs(blocks[..|blocks| - 1], reserve);
      Distributes(reserve, BlocksImages(blocks[..|blocks| - 1]), 1);
    }
  }

  lemma Distributes(reserve: nat, a: nat, b: nat)
    ensures reserve * (a + b) == reserve * a + reserve * b
  {}

  /** Sixteen for each message, one for each byte of its text, the reserve for each picture. */
  lemma {:induction false} CostIs(messages: seq<Message>, reserve: nat)
    ensures Cost(messages, reserve) == 16 * |messages| + TextBytes(messages) + reserve * Images(messages)
  {
    if messages != [] {
      var n := |messages| - 1;
      CostIs(messages[..n], reserve);
      if messages[n].content.Blocks? {
        BlocksCostIs(messages[n].content.blocks, reserve);
      }
      hide BlocksCost, BlocksBytes, BlocksImages;
      Distributes(reserve, Images(messages[..n]), ImageCount(messages[n]));
    }
  }

  // ---------------------------------------------------------------------
  // Turns
  // ---------------------------------------------------------------------

  type Items = seq<HistoryMessage>

  /** The messages of one event, of which there is at least one. */
  datatype Group = Group(first: HistoryMessage, rest: Items) {
    function All(): Items { [first] + rest }
  }

  /** `groupby(history, key=event_id)`: adjacent messages of one event are a turn. */
  function Turns(history: Items): seq<Group> {
    if history == [] then []
    else
      var earlier, last := Turns(history[..|history| - 1]), history[|history| - 1];
      if earlier != [] && earlier[|earlier| - 1].first.eventId == last.eventId then
        var open := earlier[|earlier| - 1];
        earlier[..|earlier| - 1] + [open.(rest := open.rest + [last])]
      else earlier + [Group(last, [])]
  }

  function Flat(turns: seq<Group>): Items {
    if turns == [] then [] else Flat(turns[..|turns| - 1]) + turns[|turns| - 1].All()
  }

  function LastOrder(items: Items): int {
    if items == [] then -1 else items[|items| - 1].order
  }

  predicate ItemFits(t: Turn, item: HistoryMessage, previous: int) {
    && (item.role == User || item.role == Assistant)
    && previous <= item.order < t.order
    && (item.conversation == "" || item.conversation == t.conversation)
    && (item.character == "" || item.character == t.character)
  }

  /** Known roles, in order, before the current turn, of this conversation and character. */
  predicate ItemsFit(t: Turn, items: Items) {
    items == [] || (ItemsFit(t, items[..|items| - 1])
                    && ItemFits(t, items[|items| - 1], LastOrder(items[..|items| - 1])))
  }

  predicate Sent(delivery: string) {
    delivery == "accepted" || delivery == "captured"
  }

  /** A turn that begins with an answer is an orphan, unless it is a lone reminder or follow-up that went out. */
  predicate Eligible(t: Turn, turn: Group) {
    && turn.first.eventId !in t.suppressed
    && (turn.first.role == User
        || (turn.rest == [] && (turn.first.eventKind == "reminder_due" || turn.first.eventKind == "followup_due")
            && turn.first.role == Assistant && Sent(turn.first.delivery)))
  }

  predicate Confirmed(item: HistoryMessage) {
    item.role == Assistant ==> item.delivery == "" || Sent(item.delivery)
  }

  predicate AllConfirmed(turn: Group) {
    forall item <- turn.All() :: Confirmed(item)
  }

  function EligibleTurns(t: Turn, turns: seq<Group>): seq<Group> {
    if turns == [] then []
    else EligibleTurns(t, turns[..|turns| - 1])
         + if Eligible(t, turns[|turns| - 1]) then [turns[|turns| - 1]] else []
  }

  function IneligibleIds(t: Turn, turns: seq<Group>): seq<Id> {
    if turns == [] then []
    else IneligibleIds(t, turns[..|turns| - 1])
         + if Eligible(t, turns[|turns| - 1]) then [] else [turns[|turns| - 1].first.eventId]
  }

  function Ids(turns: seq<Group>): (r: seq<Id>)
    ensures |r| == |turns|
  {
    if turns == [] then [] else Ids(turns[..|turns| - 1]) + [turns[|turns| - 1].first.eventId]
  }

  predicate HistoryFits(t: Turn, history: Items) {
    && ItemsFit(t, history)
    && forall turn <- EligibleTurns(t, Turns(history)) :: AllConfirmed(turn)
  }

  function Rendered(items: Items): (r: seq<Message>)
    ensures |r| == |items|
    ensures forall i :: 0 <= i < |r| ==> r[i] == Message(items[i].role, items[i].content)
  {
    if items == [] then []
    else Rendered(items[..|items| - 1]) + [Message(items[|items| - 1].role, items[|items| - 1].content)]
  }

  /** The messages of the turns from the first `n` on. */
  function Selected(groups: seq<Group>, n: nat): seq<Message>
    requires n <= |groups|
  {
    Rendered(Flat(groups[n..]))
  }

  function MemoryMessages(memories: seq<Memory>): (r: seq<Message>)
    ensures |r| == |memories|
    ensures forall i :: 0 <= i < |r| ==> r[i] == memories[i].message
  {
    seq(|memories|, i requires 0 <= i < |memories| => memories[i].message)
  }

  function Shown(examples: Option<Message>): seq<Message> {
    if examples.Some? then [examples.value] else []
  }

  /** The whole prompt, in the order it is sent. */
  function Prompt(required: seq<Message>, examples: Option<Message>, memories: seq<Memory>, selected: seq<Message>,
                  current: Message): seq<Message>
  {
    required + Shown(examples) + MemoryMessages(memories) + selected + [current]
  }

  lemma FlatSnoc(turns: seq<Group>, turn: Group)
    ensures Flat(turns + [turn]) == Flat(turns) + turn.All()
  {
    assert (turns + [turn])[..|turns|] == turns;
  }

  lemma {:induction false} FlatTurns(history: Items)
    ensures Flat(Turns(history)) == history
  {
    if history == [] {
      FlatNone();
    } else {
      hide Flat;
      var init, last := history[..|history| - 1], history[|history| - 1];
      FlatTurns(init);
      var earlier := Turns(init);
      assert history == init + [last];
      if earlier != [] && earlier[|earlier| - 1].first.eventId == last.eventId {
        FlatReopened(earlier, last);
      } else {
        FlatSnoc(earlier, Group(last, []));
        assert Group(last, []).All() == [last];
      }
    }
  }

  lemma FlatReopened(turns: seq<Group>, last: HistoryMessage)
    requires turns != []
    ensures var open := turns[|turns| - 1];
            Flat(turns[..|turns| - 1] + [open.(rest := open.rest + [last])]) == Flat(turns) + [last]
  {
    hide Flat;
    var before, open := turns[..|turns| - 1], turns[|turns| - 1];
    assert turns == before + [open];
    FlatSnoc(before, open);
    FlatSnoc(before, open.(rest := open.rest + [last]));
    ConcatAssociates([open.first], open.rest, [last]);
    ConcatAssociates(Flat(before), open.All(), [last]);
  }

  predicate OneEvent(turn: Group) {
    forall j :: 0 <= j < |turn.rest| ==> turn.rest[j].eventId == turn.first.eventId
  }

  predicate Runs(turns: seq<Group>) {
    && (forall i :: 0 < i < |turns| ==> turns[i - 1].first.eventId != turns[i].first.eventId)
    && (forall i :: 0 <= i < |turns| ==> OneEvent(turns[i]))
  }

  lemma ReopenedRuns(turns: seq<Group>, last: HistoryMessage)
    requires Runs(turns) && turns != [] && turns[|turns| - 1].first.eventId == last.eventId
    ensures var open := turns[|turns| - 1];
            Runs(turns[..|turns| - 1] + [open.(rest := open.rest + [last])])
  {
    var open := turns[|turns| - 1];
    assert OneEvent(open);
    assert OneEvent(open.(rest := open.rest + [last]));
    hide OneEvent;
  }

  /** The turns are the history cut where the event changes, and nowhere else. */
  lemma {:induction false} TurnsAreRuns(history: Items)
    ensures Runs(Turns(history))
  {
    if history != [] {
      var earlier, last := Turns(history[..|history| - 1]), history[|history| - 1];
      TurnsAreRuns(history[..|history| - 1]);
      if earlier != [] && earlier[|earlier| - 1].first.eventId == last.eventId {
        hide Runs;
        ReopenedRuns(earlier, last);
      } else {
        hide Runs;
        OpenedRuns(earlier, last);
      }
    }
  }

  lemma OpenedRuns(turns: seq<Group>, last: HistoryMessage)
    requires Runs(turns) && (turns != [] ==> turns[|turns| - 1].first.eventId != last.eventId)
    ensures Runs(turns + [Group(last, [])])
  {
    assert OneEvent(Group(last, []));
    hide OneEvent;
  }

  lemma FlatNone()
    ensures Flat([]) == []
  {}

  // ---------------------------------------------------------------------
  // Reading the history
  // ---------------------------------------------------------------------

  lemma {:induction false} FitsPrefix(t: Turn, items: Items, n: nat)
    requires ItemsFit(t, items) && n <= |items|
    ensures ItemsFit(t, items[..n])
  {
    if n < |items| {
      FitsPrefix(t, items[..|items| - 1], n);
      assert items[..|items| - 1][..n] == items[..n];
    } else {
      assert items[..n] == items;
    }
  }

  lemma {:induction false} FlatPrefix(turns: seq<Group>, k: nat)
    requires k <= |turns|
    ensures Flat(turns[..k]) <= Flat(turns)
  {
    if k < |turns| {
      FlatPrefix(turns[..|turns| - 1], k);
      assert turns[..|turns| - 1][..k] == turns[..k];
    } else {
      assert turns[..k] == turns;
    }
  }

  lemma {:induction false} EligibleIsKept(t: Turn, turns: seq<Group>, k: nat)
    requires k < |turns| && Eligible(t, turns[k])
    ensures turns[k] in EligibleTurns(t, turns)
  {
    if k < |turns| - 1 {
      EligibleIsKept(t, turns[..|turns| - 1], k);
    }
  }

  /** Turns the history into eligible turns and the ids of the others, or refuses it. */
  method SplitHistory(t: Turn, history: Items) returns (r: Result<(seq<Group>, seq<Id>)>)
    ensures r.Ok? <==> HistoryFits(t, history)
    ensures r.Ok? ==> r.value == (EligibleTurns(t, Turns(history)), IneligibleIds(t, Turns(history)))
    ensures r.Err? ==> r.error == ScopeError
  {
    hide Eligible, Confirmed, Turns, ItemFits;
    var turns := Turns(history);
    var groups, omitted := [], [];
    var previous := -1;
    FlatTurns(history);
    for k := 0 to |turns|
      invariant groups == EligibleTurns(t, turns[..k]) && omitted == IneligibleIds(t, turns[..k])
      invariant ItemsFit(t, Flat(turns[..k])) && previous == LastOrder(Flat(turns[..k]))
      invariant forall turn <- groups :: AllConfirmed(turn)
    {
      var turn := turns[k];
      assert turns[..k + 1][..k] == turns[..k];
      FlatPrefix(turns, k + 1);
      var fits;
      fits, previous := CheckTurn(t, history, Flat(turns[..k]), turn.All(), previous);
      if !fits {
        return Err(ScopeError);
      }
      if !Eligible(t, turn) {
        omitted := omitted + [turn.first.eventId];
        continue;
      }
      if exists item <- turn.All() :: !Confirmed(item) {
        EligibleIsKept(t, turns, k);
        return Err(ScopeError);
      }
      groups := groups + [turn];
    }
    assert turns[..|turns|] == turns;
    return Ok((groups, omitted));
  }

  method CheckTurn(t: Turn, ghost history: Items, ghost before: Items, turn: Items, last: int)
    returns (fits: bool, previous: int)
    requires before + turn <= history && ItemsFit(t, before) && last == LastOrder(before)
    ensures fits ==> ItemsFit(t, before + turn) && previous == LastOrder(before + turn)
    ensures !fits ==> !ItemsFit(t, history)
  {
    previous := last;
    assert before + turn[..0] == before;
    for i := 0 to |turn|
      invariant ItemsFit(t, before + turn[..i]) && previous == LastOrder(before + turn[..i])
    {
      ghost var seen := before + turn[..i + 1];
      assert seen[..|seen| - 1] == before + turn[..i];
      if !ItemFits(t, turn[i], previous) {
        assert !ItemsFit(t, seen);
        assert history[..|seen|] == seen;
        if ItemsFit(t, history) {
          FitsPrefix(t, history, |seen|);
        }
        return false, previous;
      }
      previous := turn[i].order;
    }
    assert turn[..|turn|] == turn;
    return true, previous;
  }

  /**
   * A message that may be in the history: of the two sides, before the current one and in order, of
   * this conversation and character if it says which it is of.
   */
  predicate Belongs(t: Turn, items: Items, i: nat)
    requires i < |items|
  {
    && items[i].role in [User, Assistant] && items[i].order < t.order
    && (if i == 0 then -1 else items[i - 1].order) <= items[i].order
    && items[i].conversation in ["", t.conversation] && items[i].character in ["", t.character]
  }

  /** The history fits exactly if each of its messages does, at its place. */
  lemma {:induction false} ItemsFitIff(t: Turn, items: Items)
    ensures ItemsFit(t, items) <==> forall i :: 0 <= i < |items| ==> Belongs(t, items, i)
  {
    if items != [] {
      var n := |items| - 1;
      ItemsFitIff(t, items[..n]);
      assert forall i :: 0 <= i < n ==> (Belongs(t, items[..n], i) <==> Belongs(t, items, i));
      LastBelongsIff(t, items);
      hide Belongs, ItemFits;
    }
  }

  lemma LastBelongsIff(t: Turn, items: Items)
    requires items != []
    ensures var n := |items| - 1; ItemFits(t, items[n], LastOrder(items[..n])) <==> Belongs(t, items, n)
  {}

  lemma {:induction false} EligibleIn(t: Turn, turns: seq<Group>, turn: Group)
    ensures turn in EligibleTurns(t, turns) <==> turn in turns && Eligible(t, turn)
  {
    if turns != [] {
      var n := |turns| - 1;
      EligibleIn(t, turns[..n], turn);
      assert turns == turns[..n] + [turns[n]];
      hide Eligible;
    }
  }

  /** Kept is what is not suppressed and begins with the other side, or is a lone reminder that went out. */
  lemma KeptIff(t: Turn, history: Items, turn: Group)
    requires turn in Turns(history)
    ensures turn in EligibleTurns(t, Turns(history)) <==>
              && turn.first.eventId !in t.suppressed
              && (turn.first.role == User
                  || (turn.All() == [turn.first] && turn.first.role == Assistant
                      && turn.first.eventKind in ["reminder_due", "followup_due"]
                      && turn.first.delivery in ["accepted", "captured"]))
  {
    EligibleIn(t, Turns(history), turn);
    assert turn.rest == [] <==> turn.All() == [turn.first];
    hide Turns;
  }

  /** And its answers are those that went out, or were never to be delivered. */
  lemma KeptAreConfirmed(t: Turn, history: Items, turn: Group, item: HistoryMessage)
    requires HistoryFits(t, history) && turn in EligibleTurns(t, Turns(history)) && item in turn.All()
    ensures item.role == Assistant ==> item.delivery in ["", "accepted", "captured"]
  {
    assert AllConfirmed(turn);
    hide Turns, EligibleTurns, ItemsFit;
  }

  /** A history that fits in every message is refused only for an answer in a kept turn that has not gone out. */
  lemma RefusedForUnsent(t: Turn, history: Items) returns (turn: Group, item: HistoryMessage)
    requires ItemsFit(t, history) && !HistoryFits(t, history)
    ensures turn in EligibleTurns(t, Turns(history)) && item in turn.All()
    ensures item.role == Assistant && item.delivery !in ["", "accepted", "captured"]
  {
    hide Turns, EligibleTurns, ItemsFit;
    turn :| turn in EligibleTurns(t, Turns(history)) && !AllConfirmed(turn);
    item :| item in turn.All() && !Confirmed(item);
  }

  // ---------------------------------------------------------------------
  // Fitting
  // ---------------------------------------------------------------------

  /** What may and what must go into the prompt. */
  datatype Parts = Parts(required: seq<Message>, examples: Option<Message>, memories: seq<Memory>, groups: seq<Group>,
                         current: Message)

  /** The prompt with the turns from the n-th on and the first m memories. */
  function PromptOf(p: Parts, examples: bool, n: nat, m: nat): seq<Message>
    requires n <= |p.groups| && m <= |p.memories|
  {
    Prompt(p.required, if examples then p.examples else None, p.memories[..m], Selected(p.groups, n), p.current)
  }

  predicate Over(cfg: Config, p: Parts, examples: bool, n: nat, m: nat)
    requires n <= |p.groups| && m <= |p.memories|
  {
    Cost(PromptOf(p, examples, n, m), cfg.imageReserve) > cfg.inputBudget
  }

  predicate TooManyImages(cfg: Config, p: Parts, n: nat)
    requires n <= |p.groups|
  {
    Images(Selected(p.groups, n) + [p.current]) > cfg.maxImages
  }

  /** Nothing can help: the required parts alone do not fit. */
  predicate Hopeless(cfg: Config, p: Parts) {
    ImageCount(p.current) > cfg.maxImages || Cost(p.required + [p.current], cfg.imageReserve) > cfg.inputBudget
  }

  function MemoryIds(memories: seq<Memory>): seq<Id> {
    if memories == [] then [] else [memories[|memories| - 1].id] + MemoryIds(memories[..|memories| - 1])
  }

  /**
   * The n-th turn is the first kept, and m memories are. Things go one by one, each only while a
   * limit is broken: the examples first, then the oldest turns, and memories only when no turn is
   * left.
   */
  predicate Fits(cfg: Config, p: Parts, b: Bundle, ineligible: seq<Id>, n: nat, m: nat) {
    && n <= |p.groups| && m <= |p.memories|
    && (b.examplesOmitted <==> p.examples.Some? && Over(cfg, p, true, 0, |p.memories|))
    && (n > 0 ==> Over(cfg, p, !b.examplesOmitted, n - 1, |p.memories|) || TooManyImages(cfg, p, n - 1))
    && (m < |p.memories| ==> n == |p.groups| && Over(cfg, p, !b.examplesOmitted, n, m + 1))
    && !Over(cfg, p, !b.examplesOmitted, n, m) && !TooManyImages(cfg, p, n)
    && b.messages == PromptOf(p, !b.examplesOmitted, n, m)
    && b.memories == p.memories[..m] && b.omittedMemories == MemoryIds(p.memories[m..])
    && b.omitted == ineligible + Ids(p.groups[..n])
  }

  /** With every turn and memory gone the prompt is the required parts, which fit. */
  lemma BareFits(cfg: Config, p: Parts)
    requires !Hopeless(cfg, p)
    ensures p.groups == [] ==> !TooManyImages(cfg, p, 0)
    ensures !TooManyImages(cfg, p, |p.groups|)
    ensures !Over(cfg, p, false, |p.groups|, 0)
  {
    assert p.groups[|p.groups|..] == [];
    assert Selected(p.groups, |p.groups|) == [];
    assert [] + [p.current] == [p.current];
    assert Images([p.current]) == ImageCount(p.current);
    assert Shown(None) == [] && MemoryMessages(p.memories[..0]) == [];
    assert p.required + [] + [] + [] + [p.current] == p.required + [p.current];
  }

  lemma {:induction false} CostAdds(a: seq<Message>, b: seq<Message>, reserve: nat)
    ensures Cost(a + b, reserve) == Cost(a, reserve) + Cost(b, reserve)
  {
    if b == [] {
      assert a + b == a;
    } else {
      assert (a + b)[..|a + b| - 1] == a + b[..|b| - 1];
      CostAdds(a, b[..|b| - 1], reserve);
    }
  }

  lemma {:induction false} ImagesAdd(a: seq<Message>, b: seq<Message>)
    ensures Images(a + b) == Images(a) + Images(b)
  {
    if b == [] {
      assert a + b == a;
    } else {
      assert (a + b)[..|a + b| - 1] == a + b[..|b| - 1];
      ImagesAdd(a, b[..|b| - 1]);
    }
  }

  lemma {:induction false} RenderedAdds(a: Items, b: Items)
    ensures Rendered(a + b) == Rendered(a) + Rendered(b)
  {}

  lemma {:induction false} FlatHead(turns: seq<Group>)
    requires turns != []
    ensures Flat(turns) == turns[0].All() + Flat(turns[1..])
  {
    if |turns| == 1 {
      assert turns[..0] == [] && turns[1..] == [];
    } else {
      var init, last := turns[..|turns| - 1], turns[|turns| - 1];
      FlatHead(init);
      assert turns[1..] == init[1..] + [last];
      FlatSnoc(init[1..], last);
      ConcatAssociates(turns[0].All(), Flat(init[1..]), last.All());
    }
  }

  /** Dropping the oldest turn takes its messages off the front of those selected. */
  lemma SelectedHead(groups: seq<Group>, n: nat)
    requires n < |groups|
    ensures Selected(groups, n) == Rendered(groups[n].All()) + Selected(groups, n + 1)
  {
    FlatHead(groups[n..]);
    assert groups[n..][1..] == groups[n + 1..];
    RenderedAdds(groups[n].All(), Flat(groups[n + 1..]));
  }

  lemma PromptCost(p: Parts, examples: bool, n: nat, m: nat, reserve: nat)
    requires n <= |p.groups| && m <= |p.memories|
    ensures Cost(PromptOf(p, examples, n, m), reserve)
         == Cost(p.required, reserve) + Cost(Shown(if examples then p.examples else None), reserve)
            + Cost(MemoryMessages(p.memories[..m]), reserve) + Cost(Selected(p.groups, n), reserve)
            + Cost([p.current], reserve)
  {
    hide Cost, Selected, MemoryMessages, Shown;
    var shown, memories, selected :=
      Shown(if examples then p.examples else None), MemoryMessages(p.memories[..m]), Selected(p.groups, n);
    CostAdds(p.required, shown, reserve);
    CostAdds(p.required + shown, memories, reserve);
    CostAdds(p.required + shown + memories, selected, reserve);
    CostAdds(p.required + shown + memories + selected, [p.current], reserve);
  }

  /** Dropping a turn never makes the prompt dearer. */
  lemma DroppingHelps(cfg: Config, p: Parts, examples: bool, n: nat, m: nat)
    requires n < |p.groups| && m <= |p.memories| && Over(cfg, p, examples, n + 1, m)
    ensures Over(cfg, p, examples, n, m)
  {
    hide Cost, Selected, MemoryMessages, Shown, PromptOf;
    PromptCost(p, examples, n, m, cfg.imageReserve);
    PromptCost(p, examples, n + 1, m, cfg.imageReserve);
    SelectedHead(p.groups, n);
    CostAdds(Rendered(p.groups[n].All()), Selected(p.groups, n + 1), cfg.imageReserve);
  }

  method Build(cfg: Config, t: Turn, required: seq<Message>, current: Message, history: Items,
               examples: Option<Message>, memories: seq<Memory>) returns (r: Result<Bundle>)
    ensures var p := Parts(required, examples, memories, EligibleTurns(t, Turns(history)), current);
            && (r == Err(BudgetExceeded) <==> Hopeless(cfg, p))
            && (r == Err(ScopeError) <==> !Hopeless(cfg, p) && !HistoryFits(t, history))
            && (r.Ok? ==> exists n, m :: Fits(cfg, p, r.value, IneligibleIds(t, Turns(history)), n, m))
  {
    hide HistoryFits, EligibleTurns, IneligibleIds, Turns, ImageCount, Cost, Images, Prompt, Selected;
    ghost var p := Parts(required, examples, memories, EligibleTurns(t, Turns(history)), current);
    if ImageCount(current) > cfg.maxImages {
      return Err(BudgetExceeded);
    }
    if Cost(required + [current], cfg.imageReserve) > cfg.inputBudget {
      return Err(BudgetExceeded);
    }
    var split := SplitHistory(t, history);
    if split.Err? {
      return Err(ScopeError);
    }
    var (groups, omitted) := split.value;
    var b, n, m := Fit(cfg, Parts(required, examples, memories, groups, current), omitted);
    assert Fits(cfg, p, b, omitted, n, m);
    return Ok(b);
  }

  lemma NoExamples(cfg: Config, p: Parts, n: nat)
    requires n <= |p.groups| && p.examples.None?
    ensures forall m :: 0 <= m <= |p.memories| ==> Over(cfg, p, true, n, m) == Over(cfg, p, false, n, m)
  {}

  method Fit(cfg: Config, p: Parts, ineligible: seq<Id>) returns (b: Bundle, n: nat, m: nat)
    requires !Hopeless(cfg, p)
    ensures Fits(cfg, p, b, ineligible, n, m)
  {
    hide Hopeless, Cost, Images, Prompt, Selected;
    BareFits(cfg, p);
    n, m := 0, |p.memories|;
    var omitted := ineligible;
    var examplesOmitted := p.examples.Some? && Over(cfg, p, true, 0, m);
    assert Ids(p.groups[..0]) == [];
    while n < |p.groups| && (Over(cfg, p, !examplesOmitted, n, m) || TooManyImages(cfg, p, n))
      invariant n <= |p.groups|
      invariant omitted == ineligible + Ids(p.groups[..n])
      invariant p.examples.Some? && !examplesOmitted ==> !Over(cfg, p, true, n, m)
      invariant n > 0 ==> Over(cfg, p, !examplesOmitted, n - 1, m) || TooManyImages(cfg, p, n - 1)
    {
      assert p.groups[..n + 1][..n] == p.groups[..n];
      if p.examples.Some? && !examplesOmitted && Over(cfg, p, true, n + 1, m) {
        DroppingHelps(cfg, p, true, n, m);
      }
      omitted := omitted + [p.groups[n].first.eventId];
      n := n + 1;
    }
    if p.examples.None? {
      NoExamples(cfg, p, n);
    }
    var omittedMemories := [];
    assert MemoryIds(p.memories[m..]) == [];
    while m > 0 && Over(cfg, p, !examplesOmitted, n, m)
      invariant m <= |p.memories|
      invariant omittedMemories == MemoryIds(p.memories[m..])
      invariant m < |p.memories| ==> n == |p.groups| && Over(cfg, p, !examplesOmitted, n, m + 1)
      invariant m < |p.memories| ==> p.examples.None? || examplesOmitted
    {
      m := m - 1;
      omittedMemories := omittedMemories + [p.memories[m].id];
      PoppedId(p.memories, m);
    }
    assert !TooManyImages(cfg, p, n);
    assert !Over(cfg, p, !examplesOmitted, n, m);
    b := Bundle(PromptOf(p, !examplesOmitted, n, m), omitted, examplesOmitted, p.memories[..m], omittedMemories);
  }

  lemma {:induction false} PoppedId(memories: seq<Memory>, m: nat)
    requires m < |memories|
    ensures MemoryIds(memories[m..]) == MemoryIds(memories[m + 1..]) + [memories[m].id]
  {
    var s := memories[m..];
    if |s| > 1 {
      var shorter := memories[..|memories| - 1];
      PoppedId(shorter, m);
      assert shorter[m..] == s[..|s| - 1];
      assert shorter[m + 1..] == memories[m + 1..][..|memories[m + 1..]| - 1];
    } else {
      assert s[..0] == [];
    }
  }

  // ---------------------------------------------------------------------
  // What the bundle keeps
  // ---------------------------------------------------------------------

  lemma DroppingHelpsImages(cfg: Config, p: Parts, n: nat)
    requires n < |p.groups| && TooManyImages(cfg, p, n + 1)
    ensures TooManyImages(cfg, p, n)
  {
    hide Images, Selected;
    SelectedHead(p.groups, n);
    var older, rest := Rendered(p.groups[n].All()), Selected(p.groups, n + 1);
    ImagesAdd(older, rest);
    ImagesAdd(older + rest, [p.current]);
    ImagesAdd(rest, [p.current]);
  }

  /** The prompt with the turns from the n-th on and m memories is beyond a limit. */
  predicate Breaks(cfg: Config, p: Parts, examples: bool, n: nat, m: nat)
    requires n <= |p.groups| && m <= |p.memories|
  {
    Over(cfg, p, examples, n, m) || TooManyImages(cfg, p, n)
  }

  /** While every memory is in, no fewer turns would do: with any turn more the prompt breaks a limit. */
  lemma {:induction false} TurnsDroppedForMemories(cfg: Config, p: Parts, b: Bundle, ineligible: seq<Id>,
                                                   n: nat, m: nat, k: nat)
    requires Fits(cfg, p, b, ineligible, n, m) && k < n
    ensures Breaks(cfg, p, !b.examplesOmitted, k, |p.memories|)
    decreases n - k
  {
    hide Over, TooManyImages, PromptOf, Ids, MemoryIds;
    assert Breaks(cfg, p, !b.examplesOmitted, n - 1, |p.memories|);
    assert n <= |p.groups|;
    hide Breaks, Fits;
    if k < n - 1 {
      TurnsDroppedForMemories(cfg, p, b, ineligible, n, m, k + 1);
      FewerHelps(cfg, p, !b.examplesOmitted, k, |p.memories|);
    }
  }

  /** A limit that is broken with fewer turns is broken with one more. */
  lemma FewerHelps(cfg: Config, p: Parts, examples: bool, k: nat, m: nat)
    requires k < |p.groups| && m <= |p.memories|
    requires Breaks(cfg, p, examples, k + 1, m)
    ensures Breaks(cfg, p, examples, k, m)
  {
    hide Over, TooManyImages;
    if TooManyImages(cfg, p, k + 1) {
      DroppingHelpsImages(cfg, p, k);
    } else {
      DroppingHelps(cfg, p, examples, k, m);
    }
  }

  // ---------------------------------------------------------------------
  // When the prompt that is sent keeps as much as it could
  // ---------------------------------------------------------------------

  /** With any turn more the prompt that is sent would break a limit. */
  predicate FewestTurns(cfg: Config, p: Parts, examples: bool, n: nat, m: nat)
    requires n <= |p.groups| && m <= |p.memories|
  {
    forall k :: 0 <= k < n ==> Breaks(cfg, p, examples, k, m)
  }

  /** Of the memories up to the m-th, those that fit beside the required parts with no turn. */
  function Recallable(cfg: Config, p: Parts, m: nat): (r: nat)
    requires m <= |p.memories|
    ensures r <= m
  {
    if m > 0 && Over(cfg, p, false, |p.groups|, m) then Recallable(cfg, p, m - 1) else m
  }

  /**
   * The memories do not all fit beside the required parts alone, while the newest turn fits beside
   * the ones that do: then turns are given up for memories that go as well.
   */
  predicate CrowdedOut(cfg: Config, p: Parts) {
    var m := Recallable(cfg, p, |p.memories|);
    && m < |p.memories| && p.groups != []
    && !Over(cfg, p, false, |p.groups| - 1, m) && !TooManyImages(cfg, p, |p.groups| - 1)
  }

  lemma MemoriesCost(p: Parts, examples: bool, n: nat, m: nat, reserve: nat)
    requires n <= |p.groups| && m < |p.memories|
    ensures Cost(PromptOf(p, examples, n, m + 1), reserve)
         == Cost(PromptOf(p, examples, n, m), reserve) + Cost([p.memories[m].message], reserve)
  {
    assert MemoryMessages(p.memories[..m + 1]) == MemoryMessages(p.memories[..m]) + [p.memories[m].message];
    hide Cost, Selected, MemoryMessages, Shown, PromptOf;
    PromptCost(p, examples, n, m, reserve);
    PromptCost(p, examples, n, m + 1, reserve);
    CostAdds(MemoryMessages(p.memories[..m]), [p.memories[m].message], reserve);
  }

  /** The examples only add to the cost. */
  lemma ExamplesCost(p: Parts, n: nat, m: nat, reserve: nat)
    requires n <= |p.groups| && m <= |p.memories|
    ensures Cost(PromptOf(p, true, n, m), reserve)
         == Cost(PromptOf(p, false, n, m), reserve) + Cost(Shown(p.examples), reserve)
  {
    assert Cost(Shown(None), reserve) == 0;
    hide Cost, Selected, MemoryMessages, Shown, PromptOf;
    PromptCost(p, true, n, m, reserve);
    PromptCost(p, false, n, m, reserve);
  }

  /** The memories kept are those that fit when one had to go, and examples are gone by then. */
  lemma MemoriesKept(cfg: Config, p: Parts, b: Bundle, ineligible: seq<Id>, n: nat, m: nat)
    requires Fits(cfg, p, b, ineligible, n, m)
    ensures Recallable(cfg, p, |p.memories|) < |p.memories| <==> m < |p.memories|
    ensures m < |p.memories| ==> m == Recallable(cfg, p, |p.memories|) && (b.examplesOmitted || p.examples.None?)
  {
    hide Cost, Selected, PromptOf;
    if m < |p.memories| {
      LateExamples(cfg, p, b, ineligible, n, m);
      LargestFits(cfg, p, m, |p.memories|);
    } else {
      ExamplesCost(p, n, m, cfg.imageReserve);
      TurnsOnlyAdd(cfg, p, n, m);
    }
  }

  lemma LateExamples(cfg: Config, p: Parts, b: Bundle, ineligible: seq<Id>, n: nat, m: nat)
    requires Fits(cfg, p, b, ineligible, n, m) && m < |p.memories|
    ensures b.examplesOmitted || p.examples.None?
    ensures Over(cfg, p, false, |p.groups|, m + 1) && !Over(cfg, p, false, |p.groups|, m)
  {
    hide Cost, Selected, PromptOf;
    if p.examples.None? {
      NoExamples(cfg, p, n);
    } else if !b.examplesOmitted {
      MoreMemories(cfg, p, true, n, m + 1, |p.memories|);
      MoreTurns(cfg, p, true, n, |p.memories|);
    }
  }

  lemma {:induction false} MoreMemories(cfg: Config, p: Parts, examples: bool, n: nat, m: nat, k: nat)
    requires n <= |p.groups| && m <= k <= |p.memories| && Over(cfg, p, examples, n, m)
    ensures Over(cfg, p, examples, n, k)
  {
    hide Cost, PromptOf;
    if m < k {
      MoreMemories(cfg, p, examples, n, m, k - 1);
      MemoriesCost(p, examples, n, k - 1, cfg.imageReserve);
    }
  }

  lemma {:induction false} MoreTurns(cfg: Config, p: Parts, examples: bool, n: nat, m: nat)
    requires n <= |p.groups| && m <= |p.memories| && Over(cfg, p, examples, n, m)
    ensures Over(cfg, p, examples, 0, m)
  {
    hide Over;
    if n > 0 {
      DroppingHelps(cfg, p, examples, n - 1, m);
      MoreTurns(cfg, p, examples, n - 1, m);
    }
  }

  lemma {:induction false} TurnsOnlyAdd(cfg: Config, p: Parts, n: nat, m: nat)
    requires n <= |p.groups| && m <= |p.memories| && !Over(cfg, p, false, n, m)
    ensures !Over(cfg, p, false, |p.groups|, m)
    decreases |p.groups| - n
  {
    hide Over;
    if n < |p.groups| {
      if Over(cfg, p, false, n + 1, m) {
        DroppingHelps(cfg, p, false, n, m);
      }
      TurnsOnlyAdd(cfg, p, n + 1, m);
    }
  }

  lemma {:induction false} LargestFits(cfg: Config, p: Parts, m: nat, k: nat)
    requires m < k <= |p.memories|
    requires Over(cfg, p, false, |p.groups|, m + 1) && !Over(cfg, p, false, |p.groups|, m)
    ensures Recallable(cfg, p, k) == m
  {
    hide Over, Cost, PromptOf, Selected;
    MoreMemories(cfg, p, false, |p.groups|, m + 1, k);
    if m + 1 < k {
      LargestFits(cfg, p, m, k - 1);
    }
  }

  /**
   * The prompt that is sent drops the fewest turns it could exactly unless turns were crowded out;
   * so always when every memory is kept.
   */
  lemma FewestTurnsDropped(cfg: Config, p: Parts, b: Bundle, ineligible: seq<Id>, n: nat, m: nat)
    requires Fits(cfg, p, b, ineligible, n, m)
    ensures FewestTurns(cfg, p, !b.examplesOmitted, n, m) <==> !CrowdedOut(cfg, p)
    ensures m == |p.memories| ==> FewestTurns(cfg, p, !b.examplesOmitted, n, m)
  {
    assert n <= |p.groups| && m <= |p.memories|;
    hide Fits, Breaks, FewestTurns;
    MemoriesKept(cfg, p, b, ineligible, n, m);
    if m == |p.memories| {
      FewestWithAllMemories(cfg, p, b, ineligible, n, m);
      hide Recallable;
    } else {
      NewestTurnDecides(cfg, p, b, ineligible, n, m);
      hide CrowdedOut;
      NewestForAll(cfg, p, !b.examplesOmitted, n, m);
    }
  }

  lemma FewestWithAllMemories(cfg: Config, p: Parts, b: Bundle, ineligible: seq<Id>, n: nat, m: nat)
    requires Fits(cfg, p, b, ineligible, n, m) && m == |p.memories|
    ensures FewestTurns(cfg, p, !b.examplesOmitted, n, m)
  {
    assert n <= |p.groups|;
    var examples := !b.examplesOmitted;
    hide Fits, Breaks;
    forall k | 0 <= k < n
      ensures Breaks(cfg, p, examples, k, m)
    {
      TurnsDroppedForMemories(cfg, p, b, ineligible, n, m, k);
    }
  }

  lemma NewestForAll(cfg: Config, p: Parts, examples: bool, n: nat, m: nat)
    requires n <= |p.groups| && m <= |p.memories|
    ensures FewestTurns(cfg, p, examples, n, m) <==> (n > 0 ==> Breaks(cfg, p, examples, n - 1, m))
  {
    hide Breaks;
    if n > 0 && Breaks(cfg, p, examples, n - 1, m) {
      forall k | 0 <= k < n
        ensures Breaks(cfg, p, examples, k, m)
      {
        OlderToo(cfg, p, examples, n - 1, k, m);
      }
    }
  }

  /** Once a memory had to go there is no turn left, and the newest one decides. */
  lemma NewestTurnDecides(cfg: Config, p: Parts, b: Bundle, ineligible: seq<Id>, n: nat, m: nat)
    requires Fits(cfg, p, b, ineligible, n, m) && m < |p.memories|
    ensures n == |p.groups|
    ensures CrowdedOut(cfg, p) <==> n > 0 && !Breaks(cfg, p, !b.examplesOmitted, n - 1, m)
  {
    hide PromptOf, Ids, MemoryIds, Over, TooManyImages, Recallable;
    MemoriesKept(cfg, p, b, ineligible, n, m);
    if n > 0 && p.examples.None? {
      NoExamples(cfg, p, n - 1);
    }
  }

  lemma {:induction false} OlderToo(cfg: Config, p: Parts, examples: bool, n: nat, k: nat, m: nat)
    requires k <= n < |p.groups| && m <= |p.memories|
    requires Breaks(cfg, p, examples, n, m)
    ensures Breaks(cfg, p, examples, k, m)
  {
    hide Breaks;
    if k < n {
      FewerHelps(cfg, p, examples, n - 1, m);
      OlderToo(cfg, p, examples, n - 1, k, m);
    }
  }

  /** Whatever is kept, one memory more would break the budget. */
  lemma FewestMemoriesDropped(cfg: Config, p: Parts, b: Bundle, ineligible: seq<Id>, n: nat, m: nat, k: nat)
    requires Fits(cfg, p, b, ineligible, n, m) && m < k <= |p.memories|
    ensures Over(cfg, p, !b.examplesOmitted, n, k)
  {
    MoreMemories(cfg, p, !b.examplesOmitted, n, m + 1, k);
  }

  /** By how much the prompt with everything in it is over the budget. */
  function Excess(cfg: Config, p: Parts): int {
    Cost(PromptOf(p, true, 0, |p.memories|), cfg.imageReserve) - cfg.inputBudget
  }

  /** What the turns before the n-th and the memories from the m-th on cost. */
  function DroppedCost(cfg: Config, p: Parts, n: nat, m: nat): nat
    requires n <= |p.groups| && m <= |p.memories|
  {
    Cost(Rendered(Flat(p.groups[..n])), cfg.imageReserve) + Cost(MemoryMessages(p.memories[m..]), cfg.imageReserve)
  }

  lemma KeptAndDropped(cfg: Config, p: Parts, n: nat, m: nat)
    requires n <= |p.groups| && m <= |p.memories|
    ensures Cost(PromptOf(p, true, 0, |p.memories|), cfg.imageReserve)
         == Cost(PromptOf(p, true, n, m), cfg.imageReserve) + DroppedCost(cfg, p, n, m)
  {
    var reserve := cfg.imageReserve;
    var memories := MemoryMessages(p.memories);
    assert p.memories[..|p.memories|] == p.memories && p.groups[0..] == p.groups;
    assert memories == MemoryMessages(p.memories[..m]) + MemoryMessages(p.memories[m..]);
    assert p.groups == p.groups[..n] + p.groups[n..];
    hide Cost, MemoryMessages, Flat, Rendered, Shown, PromptOf;
    PromptCost(p, true, 0, |p.memories|, reserve);
    PromptCost(p, true, n, m, reserve);
    CostAdds(MemoryMessages(p.memories[..m]), MemoryMessages(p.memories[m..]), reserve);
    FlatAdds(p.groups[..n], p.groups[n..]);
    RenderedAdds(Flat(p.groups[..n]), Flat(p.groups[n..]));
    CostAdds(Rendered(Flat(p.groups[..n])), Rendered(Flat(p.groups[n..])), reserve);
  }

  lemma {:induction false} FlatAdds(a: seq<Group>, b: seq<Group>)
    ensures Flat(a + b) == Flat(a) + Flat(b)
  {
    if b == [] {
      assert a + b == a;
    } else {
      var last := b[|b| - 1];
      assert (a + b)[..|a + b| - 1] == a + b[..|b| - 1];
      FlatAdds(a, b[..|b| - 1]);
      ConcatAssociates(Flat(a), Flat(b[..|b| - 1]), last.All());
    }
  }

  /** Beside all memories and without examples, the first turn from the k-th on that breaks no limit. */
  function TurnsToGo(cfg: Config, p: Parts, k: nat): (n: nat)
    requires k <= |p.groups|
    ensures k <= n <= |p.groups|
    decreases |p.groups| - k
  {
    if k < |p.groups| && Breaks(cfg, p, false, k, |p.memories|) then TurnsToGo(cfg, p, k + 1) else k
  }

  /**
   * The examples do not fit beside everything, and yet beside what stays without them: the turns
   * from the first that fit with all memories, and the memories that fit with no turn.
   */
  predicate ExamplesCrowdedOut(cfg: Config, p: Parts) {
    && p.examples.Some? && Over(cfg, p, true, 0, |p.memories|)
    && !Over(cfg, p, true, TurnsToGo(cfg, p, 0), Recallable(cfg, p, |p.memories|))
  }

  lemma {:induction false} TurnsToGoFound(cfg: Config, p: Parts, k: nat, n: nat)
    requires k <= n <= |p.groups|
    requires forall i :: k <= i < n ==> Breaks(cfg, p, false, i, |p.memories|)
    requires n < |p.groups| ==> !Breaks(cfg, p, false, n, |p.memories|)
    ensures TurnsToGo(cfg, p, k) == n
    decreases n - k
  {
    hide Breaks;
    if k < n {
      TurnsToGoFound(cfg, p, k + 1, n);
    }
  }

  /** What the loops keep without examples, said of the parts alone. */
  lemma KeptWithoutExamples(cfg: Config, p: Parts, b: Bundle, ineligible: seq<Id>, n: nat, m: nat)
    requires Fits(cfg, p, b, ineligible, n, m) && b.examplesOmitted
    ensures n == TurnsToGo(cfg, p, 0) && m == Recallable(cfg, p, |p.memories|)
  {
    FitBreaks(cfg, p, b, ineligible, n, m);
    hide *;
    MemoriesKept(cfg, p, b, ineligible, n, m);
    forall i | 0 <= i < n
      ensures Breaks(cfg, p, false, i, |p.memories|)
    {
      TurnsDroppedForMemories(cfg, p, b, ineligible, n, m, i);
    }
    TurnsToGoFound(cfg, p, 0, n);
  }

  lemma FitBreaks(cfg: Config, p: Parts, b: Bundle, ineligible: seq<Id>, n: nat, m: nat)
    requires Fits(cfg, p, b, ineligible, n, m) && b.examplesOmitted
    ensures n <= |p.groups| && m <= |p.memories|
    ensures n < |p.groups| ==> !Breaks(cfg, p, false, n, |p.memories|)
  {
    hide Over, TooManyImages, PromptOf, Ids, MemoryIds;
  }

  /**
   * The examples are given up although they fit in the prompt that is sent exactly if they are
   * crowded out by what goes as well.
   */
  lemma ExamplesGivenUpIff(cfg: Config, p: Parts, b: Bundle, ineligible: seq<Id>, n: nat, m: nat)
    requires Fits(cfg, p, b, ineligible, n, m)
    ensures b.examplesOmitted && !Over(cfg, p, true, n, m) <==> ExamplesCrowdedOut(cfg, p)
  {
    assert b.examplesOmitted <==> p.examples.Some? && Over(cfg, p, true, 0, |p.memories|);
    hide Over, Fits, TurnsToGo, Recallable;
    if b.examplesOmitted {
      KeptWithoutExamples(cfg, p, b, ineligible, n, m);
    }
  }

  /** By cost: what was dropped makes room for the examples unless it costs less than the full prompt was over. */
  lemma ExamplesHadToGoIff(cfg: Config, p: Parts, b: Bundle, ineligible: seq<Id>, n: nat, m: nat)
    requires Fits(cfg, p, b, ineligible, n, m) && b.examplesOmitted
    ensures Over(cfg, p, true, n, m) <==> DroppedCost(cfg, p, n, m) < Excess(cfg, p)
    ensures n == 0 && m == |p.memories| ==> Over(cfg, p, true, n, m)
  {
    hide PromptOf, DroppedCost, Cost;
    KeptAndDropped(cfg, p, n, m);
  }

  // ---------------------------------------------------------------------
  // When it does not
  // ---------------------------------------------------------------------

  /** A message of one role whose text has `bytes` bytes. */
  function Text(role: Role, bytes: nat): Message {
    Message(role, Plain(bytes))
  }

  /** A turn of one message of the sender's. */
  function OneLine(id: Id, bytes: nat): Group {
    Group(HistoryMessage(id, User, 0, "", "", "", "", Plain(bytes)), [])
  }

  lemma OneCost(m: Message, reserve: nat)
    ensures Cost([m], reserve) == EstimatedTokens(m, reserve) && Images([m]) == ImageCount(m)
  {
    assert [m][..0] == [];
  }

  lemma OneTurnSelected(groups: seq<Group>, id: Id, bytes: nat)
    requires groups == [OneLine(id, bytes)]
    ensures Selected(groups, 0) == [Text(User, bytes)] && Selected(groups, 1) == []
  {
    assert groups[0..] == groups && groups[1..] == [] && groups[..0] == [];
    assert Flat(groups) == Flat(groups[..0]) + groups[0].All();
    var items := [groups[0].first];
    assert groups[0].All() == items && items[..0] == [];
    assert Rendered(items) == [Text(User, bytes)];
  }

  /** With one turn and at most one memory, all of plain text, the costs and pictures of the prompts. */
  lemma PlainCosts(cfg: Config, p: Parts, id: Id, bytes: nat, examples: bool, n: nat, m: nat)
    requires p.required == [Text(System, 0)] && p.current == Text(User, 0) && p.groups == [OneLine(id, bytes)]
    requires |p.memories| <= 1 && (p.memories != [] ==> p.memories[0].message == Text(User, 1000))
    requires p.examples.None? || p.examples.value == Text(System, 50)
    requires n <= 1 && m <= |p.memories|
    ensures Cost(PromptOf(p, examples, n, m), cfg.imageReserve)
         == 32 + (if examples && p.examples.Some? then 66 else 0) + (if m == 1 then 1016 else 0)
            + (if n == 0 then 16 + bytes else 0)
    ensures !TooManyImages(cfg, p, n)
  {
    hide *;
    PromptCost(p, examples, n, m, cfg.imageReserve);
    TextCost(System, 0, cfg.imageReserve);
    TextCost(User, 0, cfg.imageReserve);
    ShownCost(if examples then p.examples else None, cfg.imageReserve);
    RecalledCost(p.memories, m, cfg.imageReserve);
    SelectedCost(p.groups, id, bytes, n, cfg.imageReserve);
    NoPictures(cfg, p, n);
  }

  lemma TextCost(role: Role, bytes: nat, reserve: nat)
    ensures Cost([Text(role, bytes)], reserve) == 16 + bytes && Images([Text(role, bytes)]) == 0
  {
    OneCost(Text(role, bytes), reserve);
    hide Cost, Images;
  }

  lemma ShownCost(examples: Option<Message>, reserve: nat)
    requires examples.None? || examples.value == Text(System, 50)
    ensures Cost(Shown(examples), reserve) == if examples.Some? then 66 else 0
  {
    TextCost(System, 50, reserve);
    assert Cost([], reserve) == 0;
    hide Cost, Text;
  }

  lemma RecalledCost(memories: seq<Memory>, m: nat, reserve: nat)
    requires m <= |memories| <= 1 && (memories != [] ==> memories[0].message == Text(User, 1000))
    ensures Cost(MemoryMessages(memories[..m]), reserve) == if m == 1 then 1016 else 0
  {
    TextCost(User, 1000, reserve);
    assert Cost([], reserve) == 0;
    hide Cost, Text;
    assert MemoryMessages(memories[..m]) == if m == 1 then [Text(User, 1000)] else [];
  }

  lemma SelectedCost(groups: seq<Group>, id: Id, bytes: nat, n: nat, reserve: nat)
    requires groups == [OneLine(id, bytes)] && n <= 1
    ensures Cost(Selected(groups, n), reserve) == (if n == 0 then 16 + bytes else 0) && Images(Selected(groups, n)) == 0
  {
    assert Cost([], reserve) == 0 && Images([]) == 0;
    hide *;
    OneTurnSelected(groups, id, bytes);
    TextCost(User, bytes, reserve);
  }

  lemma NoPictures(cfg: Config, p: Parts, n: nat)
    requires n <= |p.groups| && Images(Selected(p.groups, n)) == 0 && p.current == Text(User, 0)
    ensures !TooManyImages(cfg, p, n)
  {
    hide Images, Selected;
    TextCost(User, 0, cfg.imageReserve);
    ImagesAdd(Selected(p.groups, n), [p.current]);
  }

  lemma TurnOrMemory(cfg: Config, p: Parts, examples: bool, n: nat, m: nat)
    requires cfg.inputBudget == 100 && n <= 1 && m <= 1
    requires p == Parts([Text(System, 0)], None, [Memory("m", Text(User, 1000))], [OneLine("e", 0)], Text(User, 0))
    ensures Over(cfg, p, examples, n, m) <==> m == 1
    ensures !TooManyImages(cfg, p, n)
  {
    var id := p.groups[0].first.eventId;
    assert p.groups == [OneLine(id, 0)];
    hide Cost, PromptOf, TooManyImages, Text, OneLine;
    PlainCosts(cfg, p, id, 0, examples, n, m);
  }

  /** One turn and one memory are gone; `Fits` says so of the bundle. */
  lemma OneOfEach(p: Parts, ineligible: seq<Id>)
    requires |p.groups| == 1 && |p.memories| <= 1
    ensures ineligible + Ids(p.groups[..1]) == ineligible + [p.groups[0].first.eventId]
    ensures p.memories != [] ==> p.memories[..0] == [] && MemoryIds(p.memories[0..]) == [p.memories[0].id]
  {
    assert p.groups[..1] == p.groups && p.groups[..0] == [] && p.memories[0..] == p.memories;
    assert p.memories != [] ==> p.memories[..|p.memories| - 1] == [];
  }

  /**
   * One turn is dropped for a memory that does not fit either: the prompt sent has neither, and
   * would have had room for the turn.
   */
  lemma TurnGivenUpForNothing(cfg: Config, p: Parts, b: Bundle)
    requires cfg.inputBudget == 100
    requires p == Parts([Text(System, 0)], None, [Memory("m", Text(User, 1000))], [OneLine("e", 0)], Text(User, 0))
    requires b == Bundle(PromptOf(p, true, 1, 0), ["e"], false, [], ["m"])
    ensures Fits(cfg, p, b, [], 1, 0) && CrowdedOut(cfg, p) && !Breaks(cfg, p, true, 0, 0)
  {
    hide Over, PromptOf, TooManyImages, Ids, MemoryIds, Text;
    forall examples: bool, n: nat, m: nat | n <= 1 && m <= 1
      ensures Over(cfg, p, examples, n, m) <==> m == 1
      ensures !TooManyImages(cfg, p, n)
    {
      TurnOrMemory(cfg, p, examples, n, m);
    }
    OneOfEach(p, []);
    NothingRecallable(cfg, p);
    hide Recallable;
  }

  lemma NothingRecallable(cfg: Config, p: Parts)
    requires |p.memories| == 1 && Over(cfg, p, false, |p.groups|, 1)
    ensures Recallable(cfg, p, |p.memories|) == 0
  {
    hide Over;
    var none: nat := |p.memories| - 1;
    assert Recallable(cfg, p, none) == 0;
  }

  lemma TurnOrExamples(cfg: Config, p: Parts, examples: bool, n: nat)
    requires cfg.inputBudget == 100 && n <= 1
    requires p == Parts([Text(System, 0)], Some(Text(System, 50)), [], [OneLine("e", 1000)], Text(User, 0))
    ensures Over(cfg, p, examples, n, 0) <==> n == 0
    ensures !TooManyImages(cfg, p, n)
  {
    var id := p.groups[0].first.eventId;
    assert p.groups == [OneLine(id, 1000)];
    hide Cost, PromptOf, TooManyImages, Text, OneLine;
    PlainCosts(cfg, p, id, 1000, examples, n, 0);
  }

  /** The examples go for a turn that goes as well, and then there is room for them. */
  lemma ExamplesGivenUpForNothing(cfg: Config, p: Parts, b: Bundle)
    requires cfg.inputBudget == 100
    requires p == Parts([Text(System, 0)], Some(Text(System, 50)), [], [OneLine("e", 1000)], Text(User, 0))
    requires b == Bundle(PromptOf(p, false, 1, 0), ["e"], true, [], [])
    ensures Fits(cfg, p, b, [], 1, 0) && !Over(cfg, p, true, 1, 0)
  {
    hide Over, PromptOf, TooManyImages, Ids, MemoryIds, Text;
    TurnOrExamples(cfg, p, true, 0);
    TurnOrExamples(cfg, p, false, 0);
    TurnOrExamples(cfg, p, true, 1);
    TurnOrExamples(cfg, p, false, 1);
    OneOfEach(p, []);
    NoMemories(p);
  }

  lemma NoMemories(p: Parts)
    requires p.memories == []
    ensures p.memories[..0] == [] && MemoryIds(p.memories[0..]) == []
  {
    assert p.memories[0..] == [];
  }

  predicate PlainOnly(messages: seq<Message>) {
    forall m <- messages :: m.content.Plain?
  }

  lemma {:induction false} PlainHasNoImages(messages: seq<Message>)
    requires PlainOnly(messages)
    ensures Images(messages) == 0
  {
    if messages != [] {
      PlainHasNoImages(messages[..|messages| - 1]);
      assert messages[|messages| - 1] in messages;
    }
  }

  /** The whole prompt is within the budget of tokens and the limit of pictures. */
  lemma WithinLimits(cfg: Config, p: Parts, b: Bundle, ineligible: seq<Id>, n: nat, m: nat)
    requires Fits(cfg, p, b, ineligible, n, m)
    requires PlainOnly(p.required) && PlainOnly(Shown(p.examples)) && PlainOnly(MemoryMessages(p.memories))
    ensures Cost(b.messages, cfg.imageReserve) <= cfg.inputBudget && Images(b.messages) <= cfg.maxImages
  {
    hide Cost, Images, Selected;
    var head := p.required + Shown(if b.examplesOmitted then None else p.examples) + MemoryMessages(p.memories[..m]);
    var rest := Selected(p.groups, n) + [p.current];
    assert PlainOnly(head) by {
      assert forall i :: 0 <= i < m ==> MemoryMessages(p.memories[..m])[i] == MemoryMessages(p.memories)[i];
    }
    PlainHasNoImages(head);
    ImagesAdd(head, rest);
    assert b.messages == head + rest;
  }

  /** What `_validate_conversation_messages` demands of a request; no message here carries tool calls. */
  predicate ValidConversation(messages: seq<Message>) {
    && messages != [] && messages[|messages| - 1].role == User
    && forall m <- messages :: m.role != Other
  }

  predicate Speaking(items: Items) {
    forall i :: 0 <= i < |items| ==> items[i].role == User || items[i].role == Assistant
  }

  lemma {:induction false} FittingItemsSpeak(t: Turn, items: Items)
    requires ItemsFit(t, items)
    ensures Speaking(items)
  {
    if items != [] {
      FittingItemsSpeak(t, items[..|items| - 1]);
    }
  }

  lemma {:induction false} FlatSpeaks(turns: seq<Group>)
    ensures Speaking(Flat(turns)) <==> forall k :: 0 <= k < |turns| ==> Speaking(turns[k].All())
  {
    if turns != [] {
      FlatSpeaks(turns[..|turns| - 1]);
      SpeakingAdds(Flat(turns[..|turns| - 1]), turns[|turns| - 1].All());
    }
  }

  lemma SpeakingAdds(a: Items, b: Items)
    ensures Speaking(a + b) <==> Speaking(a) && Speaking(b)
  {
    assert a == (a + b)[..|a|] && b == (a + b)[|a|..];
  }

  lemma {:induction false} EligibleAreTurns(t: Turn, turns: seq<Group>, k: nat)
    requires k < |EligibleTurns(t, turns)|
    ensures exists i :: 0 <= i < |turns| && turns[i] == EligibleTurns(t, turns)[k]
  {
    if k < |EligibleTurns(t, turns[..|turns| - 1])| {
      EligibleAreTurns(t, turns[..|turns| - 1], k);
    }
  }

  lemma SelectedSpeak(t: Turn, history: Items, n: nat)
    requires HistoryFits(t, history) && n <= |EligibleTurns(t, Turns(history))|
    ensures Speaking(Flat(EligibleTurns(t, Turns(history))[n..]))
  {
    hide Flat, Turns, EligibleTurns, Speaking;
    var turns := Turns(history);
    var groups := EligibleTurns(t, turns);
    FittingItemsSpeak(t, history);
    FlatTurns(history);
    FlatSpeaks(turns);
    forall k | 0 <= k < |groups[n..]|
      ensures Speaking(groups[n..][k].All())
    {
      EligibleAreTurns(t, turns, n + k);
    }
    FlatSpeaks(groups[n..]);
  }

  /** The current message comes last, and the prompt passes the check every chat request goes through. */
  lemma BundleIsConversation(cfg: Config, t: Turn, p: Parts, history: Items, b: Bundle, ineligible: seq<Id>,
                             n: nat, m: nat)
    requires Fits(cfg, p, b, ineligible, n, m) && HistoryFits(t, history)
             && p.groups == EligibleTurns(t, Turns(history))
    requires forall r <- p.required + Shown(p.examples) :: r.role == System
    requires forall r <- p.memories :: r.message.role == User
    requires p.current.role == User
    ensures ValidConversation(b.messages)
    ensures b.messages[|b.messages| - 1] == p.current && p.required <= b.messages
  {
    hide Over, TooManyImages, HistoryFits, EligibleTurns, Turns, Flat;
    SelectedSpeak(t, history, n);
    var shown := Shown(if b.examplesOmitted then None else p.examples);
    var memories, selected := MemoryMessages(p.memories[..m]), Selected(p.groups, n);
    assert b.messages == p.required + shown + memories + selected + [p.current];
    assert forall r <- selected :: r.role != Other;
    assert forall r <- memories :: r.role != Other;
    assert forall r <- p.required :: r in p.required + Shown(p.examples);
    assert forall r <- shown :: r in p.required + Shown(p.examples);
  }

  lemma IdsSnoc(turns: seq<Group>, last: Group)
    ensures Ids(turns + [last]) == Ids(turns) + [last.first.eventId]
  {
    assert (turns + [last])[..|turns|] == turns;
  }

  lemma SharedOut(all: seq<Id>, left: seq<Id>, right: seq<Id>, id: Id)
    requires multiset(all) == multiset(left) + multiset(right)
    ensures multiset(all + [id]) == multiset(left + [id]) + multiset(right)
    ensures multiset(all + [id]) == multiset(left) + multiset(right + [id])
  {}

  lemma {:induction false} SplitIds(t: Turn, turns: seq<Group>)
    ensures multiset(Ids(turns)) == multiset(IneligibleIds(t, turns)) + multiset(Ids(EligibleTurns(t, turns)))
  {
    if turns != [] {
      var init, last := turns[..|turns| - 1], turns[|turns| - 1];
      SplitIds(t, init);
      var kept, left := EligibleTurns(t, init), IneligibleIds(t, init);
      assert EligibleTurns(t, turns) == if Eligible(t, last) then kept + [last] else kept + [];
      assert IneligibleIds(t, turns) == if Eligible(t, last) then left + [] else left + [last.first.eventId];
      assert Ids(turns) == Ids(init) + [last.first.eventId];
      hide *;
      assert kept + [] == kept && left + [] == left;
      IdsSnoc(kept, last);
      SharedOut(Ids(init), left, Ids(kept), last.first.eventId);
    }
  }

  lemma {:induction false} IdsAdd(a: seq<Group>, b: seq<Group>)
    ensures Ids(a + b) == Ids(a) + Ids(b)
  {
    if b == [] {
      assert a + b == a;
    } else {
      assert (a + b)[..|a + b| - 1] == a + b[..|b| - 1];
      IdsAdd(a, b[..|b| - 1]);
    }
  }

  /**
   * Read from its end the prompt has the current message, the messages of the kept turns in order,
   * the kept memories, the examples if they are kept, and the required parts.
   */
  lemma PromptFromItsEnd(cfg: Config, p: Parts, b: Bundle, ineligible: seq<Id>, n: nat, m: nat)
    requires Fits(cfg, p, b, ineligible, n, m)
    ensures var kept := Flat(p.groups[n..]);
            var examples := if p.examples.Some? && !b.examplesOmitted then 1 else 0;
            var h := |p.required| + examples + m;
            && |b.messages| == h + |kept| + 1 && b.messages[h + |kept|] == p.current
            && (forall i :: 0 <= i < |kept| ==> b.messages[h + i] == Message(kept[i].role, kept[i].content))
            && (forall i :: 0 <= i < m ==> b.messages[|p.required| + examples + i] == p.memories[i].message)
            && (examples == 1 ==> b.messages[|p.required|] == p.examples.value)
            && forall i :: 0 <= i < |p.required| ==> b.messages[i] == p.required[i]
  {
    hide Over, TooManyImages, Flat, Ids, MemoryIds;
  }

  /** Kept and omitted turns are the history's turns, each once; the kept are the newest eligible ones in order. */
  lemma TurnsPartitioned(cfg: Config, t: Turn, p: Parts, history: Items, b: Bundle, n: nat, m: nat)
    requires p.groups == EligibleTurns(t, Turns(history))
    requires Fits(cfg, p, b, IneligibleIds(t, Turns(history)), n, m)
    ensures multiset(Ids(Turns(history))) == multiset(b.omitted) + multiset(Ids(p.groups[n..]))
    ensures Flat(Turns(history)) == history
  {
    hide Over, TooManyImages, Turns, Ids, EligibleTurns, IneligibleIds, PromptOf;
    SplitIds(t, Turns(history));
    assert p.groups == p.groups[..n] + p.groups[n..];
    IdsAdd(p.groups[..n], p.groups[n..]);
    FlatTurns(history);
  }
}
