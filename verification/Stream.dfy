/** infra/llm_clients.py: a completion sent as a stream of deltas, put back together, tool calls by their index. */
module Stream {
  import opened Common

  /** A Python character: a code point, which may be half of a surrogate pair. */
  type Code = c: int | 0 <= c < 0x110000

  type Unit = u: int | 0 <= u < 0x10000

  const REPLACEMENT: Code := 0xFFFD

  // ---------------------------------------------------------------------------------------
  // UTF-16 (RFC 2781, sections 2.1 and 2.2)
  // ---------------------------------------------------------------------------------------

  predicate IsHigh(u: int) {
    0xD800 <= u < 0xDC00
  }

  predicate IsLow(u: int) {
    0xDC00 <= u < 0xE000
  }

  predicate IsHalf(u: int) {
    IsHigh(u) || IsLow(u)
  }

  function Units(c: Code): seq<Unit> {
    if c < 0x10000 then [c] else [0xD800 + (c - 0x10000) / 0x400, 0xDC00 + (c - 0x10000) % 0x400]
  }

  function Whole(high: Unit, low: Unit): Code
    requires IsHigh(high) && IsLow(low)
  {
    0x10000 + (high - 0xD800) * 0x400 + (low - 0xDC00)
  }

  /** `encode("utf-16", "surrogatepass")` */
  function Encode(text: seq<Code>): seq<Unit> {
    if text == [] then [] else Units(text[0]) + Encode(text[1..])
  }

  /** `decode("utf-16", "replace")` */
  function Decode(units: seq<Unit>): seq<Code> {
    if units == [] then []
    else if |units| > 1 && IsHigh(units[0]) && IsLow(units[1]) then [Whole(units[0], units[1])] + Decode(units[2..])
    else if IsHalf(units[0]) then [REPLACEMENT] + Decode(units[1..])
    else [units[0]] + Decode(units[1..])
  }

  function WholeCharacters(text: seq<Code>): seq<Code> {
    Decode(Encode(text))
  }

  predicate NoHalves(text: seq<Code>) {
    forall i :: 0 <= i < |text| ==> !IsHalf(text[i])
  }

  lemma {:induction false} EncodeAdds(a: seq<Code>, b: seq<Code>)
    ensures Encode(a + b) == Encode(a) + Encode(b)
  {
    if a == [] {
      assert a + b == b;
    } else {
      assert (a + b)[1..] == a[1..] + b;
      EncodeAdds(a[1..], b);
    }
  }

  lemma {:induction false} DecodeOfEncode(text: seq<Code>)
    requires NoHalves(text)
    ensures Decode(Encode(text)) == text
  {
    if text != [] {
      var c, rest := text[0], Encode(text[1..]);
      DecodeOfEncode(text[1..]);
      assert (Units(c) + rest)[|Units(c)|..] == rest;
    }
  }

  lemma {:induction false} DecodeHasNoHalves(units: seq<Unit>)
    ensures NoHalves(Decode(units))
  {
    if units != [] {
      var n := if |units| > 1 && IsHigh(units[0]) && IsLow(units[1]) then 2 else 1;
      DecodeHasNoHalves(units[n..]);
    }
  }

  /** Text is left alone exactly when it holds no half of a character. */
  lemma UnchangedIffNoHalves(text: seq<Code>)
    ensures WholeCharacters(text) == text <==> NoHalves(text)
  {
    DecodeHasNoHalves(Encode(text));
    if NoHalves(text) {
      DecodeOfEncode(text);
    }
  }

  /** Doing it twice changes nothing more. */
  lemma WholeCharactersTwice(text: seq<Code>)
    ensures WholeCharacters(WholeCharacters(text)) == WholeCharacters(text)
  {
    DecodeHasNoHalves(Encode(text));
    UnchangedIffNoHalves(WholeCharacters(text));
  }

  // ---------------------------------------------------------------------------------------
  // Deltas
  // ---------------------------------------------------------------------------------------

  /** A piece of a tool call; what is not sent is empty, and `index` may be missing. */
  datatype Item = Item(index: Option<int>, id: string, name: string, arguments: seq<Code>)

  /** One event of the stream, or a line that is none. */
  datatype Event =
    | Skipped
    | Delta(finish: string, content: Option<seq<Code>>, items: seq<Item>)

  /** Arguments are joined as they came: unlike the text they are not made whole. */
  datatype Call = Call(id: string, name: string, arguments: seq<Code>)

  datatype Message = Message(content: seq<Code>, calls: seq<Call>, finish: string)

  const NO_CALL := Call("", "", [])

  function Latest(now: string, before: string): string {
    if now != "" then now else before
  }

  function IndexOf(item: Item, calls: map<int, Call>): int {
    if item.index.Some? then item.index.value else |calls|
  }

  function WithItem(calls: map<int, Call>, item: Item): map<int, Call> {
    var n := IndexOf(item, calls);
    var call := if n in calls then calls[n] else NO_CALL;
    calls[n := Call(Latest(item.id, call.id), Latest(item.name, call.name), call.arguments + item.arguments)]
  }

  /** The calls that some items make up. */
  function CallsOf(items: seq<Item>): map<int, Call> {
    if items == [] then map[] else WithItem(CallsOf(items[..|items| - 1]), items[|items| - 1])
  }

  function ItemsOf(events: seq<Event>): seq<Item> {
    if events == [] then []
    else
      var e := events[|events| - 1];
      ItemsOf(events[..|events| - 1]) + if e.Delta? then e.items else []
  }

  function TextOf(events: seq<Event>): seq<Code> {
    if events == [] then []
    else
      var e := events[|events| - 1];
      TextOf(events[..|events| - 1]) + if e.Delta? && e.content.Some? then e.content.value else []
  }

  function FinishOf(events: seq<Event>): string {
    if events == [] then ""
    else
      var e := events[|events| - 1];
      Latest(if e.Delta? then e.finish else "", FinishOf(events[..|events| - 1]))
  }

  // ---------------------------------------------------------------------------------------
  // Calls in the order of their indexes
  // ---------------------------------------------------------------------------------------

  predicate Ascending(s: seq<int>) {
    forall i, j :: 0 <= i < j < |s| ==> s[i] < s[j]
  }

  predicate IsSmallest(keys: set<int>, x: int) {
    x in keys && forall y <- keys :: x <= y
  }

  /** Python's `sorted` of the keys. */
  ghost predicate IsSorted(keys: set<int>, s: seq<int>) {
    Ascending(s) && forall x :: x in s <==> x in keys
  }

  /** A key at its place among sorted ones. */
  method Insert(key: int, s: seq<int>) returns (r: seq<int>)
    requires Ascending(s) && key !in s
    ensures Ascending(r) && forall x :: x in r <==> x in s || x == key
  {
    var n := 0;
    while n < |s| && s[n] < key
      invariant n <= |s| && forall i :: 0 <= i < n ==> s[i] < key
    {
      n := n + 1;
    }
    r := s[..n] + [key] + s[n..];
    forall x
      ensures x in r <==> x in s || x == key
    {
      assert s == s[..n] + s[n..];
    }
  }

  method SortedKeys(keys: seq<int>) returns (s: seq<int>)
    requires Distinct(keys)
    ensures Ascending(s) && forall x :: x in s <==> x in keys
  {
    s := [];
    for i := 0 to |keys|
      invariant Ascending(s) && forall x :: x in s <==> x in keys[..i]
    {
      assert keys[..i + 1] == keys[..i] + [keys[i]];
      FreshKey(keys, i);
      s := Insert(keys[i], s);
    }
    assert keys[..|keys|] == keys;
  }

  lemma FreshKey(keys: seq<int>, i: nat)
    requires Distinct(keys) && i < |keys|
    ensures keys[i] !in keys[..i]
  {}

  /** There is one way to sort. */
  lemma {:induction false} SortedOnce(keys: set<int>, s: seq<int>, t: seq<int>)
    requires IsSorted(keys, s) && IsSorted(keys, t)
    ensures s == t
    decreases |s|
  {
    EmptyIff(keys, s);
    EmptyIff(keys, t);
    if keys != {} {
      FirstIsSmallest(keys, s);
      FirstIsSmallest(keys, t);
      RestIsSorted(keys, s);
      RestIsSorted(keys, t);
      SortedOnce(keys - {s[0]}, s[1..], t[1..]);
      assert s == [s[0]] + s[1..] && t == [t[0]] + t[1..];
    }
  }

  lemma EmptyIff(keys: set<int>, s: seq<int>)
    requires IsSorted(keys, s)
    ensures s == [] <==> keys == {}
  {
    if s != [] {
      assert s[0] in s;
    } else {
      assert forall x :: x in keys ==> x in s;
    }
  }

  lemma FirstIsSmallest(keys: set<int>, s: seq<int>)
    requires IsSorted(keys, s) && s != []
    ensures IsSmallest(keys, s[0])
  {
    assert s[0] in s;
    forall y <- keys
      ensures s[0] <= y
    {
      assert y in s;
      var i :| 0 <= i < |s| && s[i] == y;
    }
  }

  lemma RestIsSorted(keys: set<int>, s: seq<int>)
    requires IsSorted(keys, s) && s != []
    ensures IsSorted(keys - {s[0]}, s[1..])
  {
    forall x
      ensures x in s[1..] <==> x in keys - {s[0]}
    {
      if x in s[1..] {
        var i :| 0 <= i < |s[1..]| && s[1..][i] == x;
        assert s[i + 1] == x && x in s;
      }
      if x in keys - {s[0]} {
        var i :| 0 <= i < |s| && s[i] == x;
        assert s[1..][i - 1] == x;
      }
    }
  }

  /** The calls by their indexes. */
  ghost predicate Listed(calls: map<int, Call>, list: seq<Call>) {
    exists s :: IsSorted(calls.Keys, s) && InOrder(calls, s, list)
  }

  predicate InOrder(calls: map<int, Call>, s: seq<int>, list: seq<Call>) {
    |list| == |s| && forall i :: 0 <= i < |s| ==> s[i] in calls && list[i] == calls[s[i]]
  }

  lemma ListedOnce(calls: map<int, Call>, a: seq<Call>, b: seq<Call>)
    requires Listed(calls, a) && Listed(calls, b)
    ensures a == b
  {
    var s :| IsSorted(calls.Keys, s) && InOrder(calls, s, a);
    var t :| IsSorted(calls.Keys, t) && InOrder(calls, t, b);
    SortedOnce(calls.Keys, s, t);
  }

  /** The message of a stream. */
  ghost predicate Reassembled(events: seq<Event>, m: Message) {
    && m.content == WholeCharacters(TextOf(events))
    && Listed(CallsOf(ItemsOf(events)), m.calls)
    && m.finish == if FinishOf(events) == "" then "stop" else FinishOf(events)
  }

  method Unstream(events: seq<Event>) returns (m: Message)
    ensures Reassembled(events, m)
  {
    var content: seq<Code>, finish := [], "";
    var calls: map<int, Call>, keys: seq<int> := map[], [];
    hide WholeCharacters, CallsOf, TextOf, ItemsOf, FinishOf, IsSorted;
    NothingYet(events[..0]);
    for i := 0 to |events|
      invariant content == TextOf(events[..i]) && finish == FinishOf(events[..i])
      invariant calls == CallsOf(ItemsOf(events[..i])) && KeysOf(calls, keys)
    {
      EventsSnoc(events, i);
      if events[i].Skipped? {
        continue;
      }
      finish := Latest(events[i].finish, finish);
      if events[i].content.Some? {
        content := content + events[i].content.value;
      }
      calls, keys := AddItems(calls, keys, ItemsOf(events[..i]), events[i].items);
    }
    assert events[..|events|] == events;
    var order := SortedKeys(keys);
    assert IsSorted(calls.Keys, order) by {
      SameKeys(calls, keys, order);
    }
    var list := [];
    for i := 0 to |order|
      invariant |list| == i && forall j :: 0 <= j < i ==> order[j] in calls && list[j] == calls[order[j]]
    {
      SortedIsIn(calls.Keys, order, i);
      list := list + [calls[order[i]]];
    }
    assert InOrder(calls, order, list);
    m := Message(WholeCharacters(content), list, if finish == "" then "stop" else finish);
  }

  lemma SortedIsIn(keys: set<int>, s: seq<int>, i: nat)
    requires IsSorted(keys, s) && i < |s|
    ensures s[i] in keys
  {
    assert s[i] in s;
  }

  lemma NothingYet(events: seq<Event>)
    requires events == []
    ensures TextOf(events) == [] && FinishOf(events) == "" && CallsOf(ItemsOf(events)) == map[]
  {}

  lemma EventsSnoc(events: seq<Event>, i: nat)
    requires i < |events|
    ensures var before, after, e := events[..i], events[..i + 1], events[i];
            && ItemsOf(after) == (if e.Delta? then ItemsOf(before) + e.items else ItemsOf(before))
            && TextOf(after) == (if e.Delta? && e.content.Some? then TextOf(before) + e.content.value
                                else TextOf(before))
            && FinishOf(after) == if e.Delta? then Latest(e.finish, FinishOf(before)) else FinishOf(before)
  {
    assert events[..i + 1][..i] == events[..i];
  }

  /** The keys of a dictionary, in the order they came. */
  ghost predicate KeysOf(calls: map<int, Call>, keys: seq<int>) {
    Distinct(keys) && forall x :: x in keys <==> x in calls
  }

  lemma SameKeys(calls: map<int, Call>, keys: seq<int>, s: seq<int>)
    requires KeysOf(calls, keys) && Ascending(s) && forall x :: x in s <==> x in keys
    ensures IsSorted(calls.Keys, s)
  {}

  method AddItems(start: map<int, Call>, first: seq<int>, ghost before: seq<Item>, items: seq<Item>)
    returns (calls: map<int, Call>, keys: seq<int>)
    requires start == CallsOf(before) && KeysOf(start, first)
    ensures calls == CallsOf(before + items) && KeysOf(calls, keys)
  {
    hide CallsOf;
    calls, keys := start, first;
    assert before + items[..0] == before;
    for i := 0 to |items|
      invariant calls == CallsOf(before + items[..i]) && KeysOf(calls, keys)
    {
      var item := items[i];
      CallsSnoc(before + items[..i], item);
      assert before + items[..i + 1] == before + items[..i] + [item];
      calls, keys := AddItem(calls, keys, item);
    }
    assert items[..|items|] == items;
  }

  method AddItem(start: map<int, Call>, first: seq<int>, item: Item) returns (calls: map<int, Call>, keys: seq<int>)
    requires KeysOf(start, first)
    ensures calls == WithItem(start, item) && KeysOf(calls, keys)
  {
    calls, keys := start, first;
    var index := if item.index.Some? then item.index.value else |calls|;
    if index !in calls {
      calls, keys := calls[index := NO_CALL], keys + [index];
    }
    var call := calls[index];
    call := call.(id := if item.id != "" then item.id else call.id);
    call := call.(name := if item.name != "" then item.name else call.name);
    call := call.(arguments := call.arguments + item.arguments);
    calls := calls[index := call];
  }

  lemma CallsSnoc(items: seq<Item>, item: Item)
    ensures CallsOf(items + [item]) == WithItem(CallsOf(items), item)
  {
    assert (items + [item])[..|items|] == items;
  }

  // ---------------------------------------------------------------------------------------
  // How it was cut does not matter
  // ---------------------------------------------------------------------------------------

  predicate Explicit(items: seq<Item>) {
    forall i :: 0 <= i < |items| ==> items[i].index.Some?
  }

  /** The pieces of the call with one index. */
  function PiecesAt(items: seq<Item>, n: int): seq<Item> {
    if items == [] then []
    else
      var last := items[|items| - 1];
      PiecesAt(items[..|items| - 1], n) + if last.index == Some(n) then [last] else []
  }

  /** Pieces in one: the latest name and number that were sent, and the arguments together. */
  function Glued(pieces: seq<Item>): Call {
    if pieces == [] then NO_CALL
    else
      var last, call := pieces[|pieces| - 1], Glued(pieces[..|pieces| - 1]);
      Call(Latest(last.id, call.id), Latest(last.name, call.name), call.arguments + last.arguments)
  }

  lemma GluedSnoc(pieces: seq<Item>, piece: Item)
    ensures var call := Glued(pieces);
            Glued(pieces + [piece])
            == Call(Latest(piece.id, call.id), Latest(piece.name, call.name), call.arguments + piece.arguments)
  {
    assert (pieces + [piece])[..|pieces|] == pieces;
  }

  /** However the calls' pieces are mixed, each call is made of its own. */
  lemma {:induction false} CallsAreGlued(items: seq<Item>, n: int)
    requires Explicit(items)
    ensures n in CallsOf(items) <==> PiecesAt(items, n) != []
    ensures n in CallsOf(items) ==> CallsOf(items)[n] == Glued(PiecesAt(items, n))
  {
    if items != [] {
      var front, last := items[..|items| - 1], items[|items| - 1];
      CallsAreGlued(front, n);
      GluedSnoc(PiecesAt(front, n), last);
      assert PiecesAt(front, n) + [] == PiecesAt(front, n);
      hide Glued, Latest;
    }
  }

  /** A completion with its calls by index. */
  datatype Completion = Completion(text: seq<Code>, calls: map<int, Call>)

  /** No half of a character anywhere in the completion. */
  ghost predicate WholeCompletion(c: Completion) {
    NoHalves(c.text) && forall n :: n in c.calls ==> NoHalves(c.calls[n].arguments)
  }

  /** The pieces make up the call, their arguments being cut anywhere in UTF-16. */
  predicate MakesUp(pieces: seq<Item>, call: Call) {
    var glued := Glued(pieces);
    glued.id == call.id && glued.name == call.name && Encode(glued.arguments) == Encode(call.arguments)
  }

  /** A stream that sends a completion: the same text and arguments in UTF-16, each call's pieces in their order. */
  ghost predicate Sends(events: seq<Event>, c: Completion) {
    && Encode(TextOf(events)) == Encode(c.text)
    && SendsPieces(ItemsOf(events), c.calls)
  }

  ghost predicate SendsPieces(items: seq<Item>, calls: map<int, Call>) {
    && Explicit(items)
    && forall n :: (n in calls <==> PiecesAt(items, n) != []) && (n in calls ==> MakesUp(PiecesAt(items, n), calls[n]))
  }

  ghost predicate SendsCalls(items: seq<Item>, calls: map<int, Call>) {
    SendsPieces(items, calls) && forall n :: n in calls ==> NoHalves(calls[n].arguments)
  }

  /** No piece of any call's arguments was cut within a character. */
  predicate ArgumentsWhole(items: seq<Item>) {
    forall i :: 0 <= i < |items| ==> NoHalves(items[i].arguments)
  }

  /** The text of any stream that sends a completion is put back together to it, however it was cut. */
  lemma TextComesBack(events: seq<Event>, c: Completion, m: Message)
    requires Sends(events, c) && NoHalves(c.text) && Reassembled(events, m)
    ensures m.content == c.text
  {
    hide Encode, Decode, Glued, PiecesAt, TextOf, ItemsOf, FinishOf;
    UnchangedIffNoHalves(c.text);
  }

  lemma {:induction false} GluedWholeIff(pieces: seq<Item>)
    ensures NoHalves(Glued(pieces).arguments) <==> ArgumentsWhole(pieces)
  {
    if pieces != [] {
      var n := |pieces| - 1;
      GluedWholeIff(pieces[..n]);
      JoinedWholeIff(Glued(pieces[..n]).arguments, pieces[n].arguments);
      hide NoHalves;
      assert ArgumentsWhole(pieces) <==> ArgumentsWhole(pieces[..n]) && NoHalves(pieces[n].arguments) by {
        assert forall i :: 0 <= i < n ==> pieces[..n][i] == pieces[i];
      }
    }
  }

  lemma JoinedWholeIff(a: seq<Code>, b: seq<Code>)
    ensures NoHalves(a + b) <==> NoHalves(a) && NoHalves(b)
  {
    assert forall i :: 0 <= i < |a| ==> a[i] == (a + b)[i];
    assert forall i :: 0 <= i < |b| ==> b[i] == (a + b)[|a| + i];
  }

  lemma PiecesWhole(items: seq<Item>, n: int)
    requires ArgumentsWhole(items)
    ensures ArgumentsWhole(PiecesAt(items, n))
  {
    hide NoHalves, PiecesAt;
    PiecesFrom(items, n);
  }

  /** A piece cut within a character is a piece of some call. */
  lemma BrokenPiece(items: seq<Item>) returns (n: int)
    requires Explicit(items) && !ArgumentsWhole(items)
    ensures PiecesAt(items, n) != [] && !ArgumentsWhole(PiecesAt(items, n))
  {
    hide NoHalves, PiecesAt;
    var i :| 0 <= i < |items| && !NoHalves(items[i].arguments);
    n := items[i].index.value;
    var j := PlaceOf(items, i);
    assert !NoHalves(PiecesAt(items, n)[j].arguments);
  }

  lemma {:induction false} PiecesFrom(items: seq<Item>, n: int)
    ensures forall j :: 0 <= j < |PiecesAt(items, n)| ==> PiecesAt(items, n)[j] in items
  {
    if items != [] {
      PiecesFrom(items[..|items| - 1], n);
    }
  }

  lemma {:induction false} PlaceOf(items: seq<Item>, i: nat) returns (j: nat)
    requires i < |items| && items[i].index.Some?
    ensures j < |PiecesAt(items, items[i].index.value)| && PiecesAt(items, items[i].index.value)[j] == items[i]
  {
    if i == |items| - 1 {
      j := |PiecesAt(items, items[i].index.value)| - 1;
    } else {
      j := PlaceOf(items[..|items| - 1], i);
    }
  }

  /** A call comes back as it was sent exactly if its joined arguments hold no half. */
  lemma CallComesBackIff(pieces: seq<Item>, call: Call)
    requires MakesUp(pieces, call) && NoHalves(call.arguments)
    ensures Glued(pieces) == call <==> ArgumentsWhole(pieces)
  {
    GluedWholeIff(pieces);
    hide Glued, Encode, ArgumentsWhole;
    var glued := Glued(pieces);
    DecodeOfEncode(call.arguments);
    if NoHalves(glued.arguments) {
      DecodeOfEncode(glued.arguments);
    }
  }

  lemma ListedSame(a: map<int, Call>, b: map<int, Call>, list: seq<Call>)
    requires a.Keys == b.Keys && Listed(a, list) && Listed(b, list)
    ensures a == b
  {
    var s :| IsSorted(a.Keys, s) && InOrder(a, s, list);
    var t :| IsSorted(b.Keys, t) && InOrder(b, t, list);
    SortedOnce(a.Keys, s, t);
    OrderedSame(a, b, s, list);
  }

  lemma OrderedSame(a: map<int, Call>, b: map<int, Call>, s: seq<int>, list: seq<Call>)
    requires a.Keys == b.Keys && IsSorted(a.Keys, s) && InOrder(a, s, list) && InOrder(b, s, list)
    ensures a == b
  {
    forall n | n in a
      ensures a[n] == b[n]
    {
      assert n in a.Keys && n in s;
      var i :| 0 <= i < |s| && s[i] == n;
    }
  }

  /**
   * Of any stream that sends a completion the calls come back, however they were mixed and cut, if
   * and only if no piece of their arguments was cut within a character: halves that meet in the
   * text are joined, halves that meet in the arguments are not.
   */
  lemma CallsComeBackIff(events: seq<Event>, c: Completion, m: Message)
    requires Sends(events, c) && WholeCompletion(c) && Reassembled(events, m)
    ensures Listed(c.calls, m.calls) <==> ArgumentsWhole(ItemsOf(events))
  {
    hide *;
    var items := ItemsOf(events);
    SentAndMade(events, c, m);
    CallsAreTheirsIff(items, c);
    if Listed(c.calls, m.calls) {
      ListedSame(CallsOf(items), c.calls, m.calls);
    }
  }

  lemma SentAndMade(events: seq<Event>, c: Completion, m: Message)
    requires Sends(events, c) && WholeCompletion(c) && Reassembled(events, m)
    ensures SendsCalls(ItemsOf(events), c.calls) && Listed(CallsOf(ItemsOf(events)), m.calls)
    ensures CallsOf(ItemsOf(events)).Keys == c.calls.Keys
  {
    hide Encode, Glued, PiecesAt, ItemsOf, CallsOf, MakesUp, NoHalves, Listed, TextOf, FinishOf;
    KeysSent(ItemsOf(events), c.calls);
  }

  lemma CallsAreTheirsIff(items: seq<Item>, c: Completion)
    requires SendsCalls(items, c.calls)
    ensures CallsOf(items) == c.calls <==> ArgumentsWhole(items)
  {
    hide Encode, Glued, PiecesAt, CallsOf, MakesUp, ArgumentsWhole, NoHalves;
    KeysSent(items, c.calls);
    if ArgumentsWhole(items) {
      forall n | n in c.calls
        ensures CallsOf(items)[n] == c.calls[n]
      {
        CallsAreGlued(items, n);
        PiecesWhole(items, n);
        CallComesBackIff(PiecesAt(items, n), c.calls[n]);
      }
    } else {
      var n := BrokenPiece(items);
      CallsAreGlued(items, n);
      CallComesBackIff(PiecesAt(items, n), c.calls[n]);
    }
  }

  lemma KeysSent(items: seq<Item>, calls: map<int, Call>)
    requires SendsCalls(items, calls)
    ensures CallsOf(items).Keys == calls.Keys
  {
    hide CallsOf, PiecesAt, Glued, MakesUp, NoHalves;
    forall n
      ensures n in CallsOf(items) <==> n in calls
    {
      CallsAreGlued(items, n);
    }
  }

  /** Two streams that send one completion, with whole pieces of arguments, give the same text and calls. */
  lemma TwoCuttingsAgree(a: seq<Event>, b: seq<Event>, c: Completion, m: Message, n: Message)
    requires Sends(a, c) && Sends(b, c) && WholeCompletion(c) && Reassembled(a, m) && Reassembled(b, n)
    ensures m.content == n.content
    ensures ArgumentsWhole(ItemsOf(a)) ==> (m.calls == n.calls <==> ArgumentsWhole(ItemsOf(b)))
  {
    hide Sends, Reassembled, ArgumentsWhole, ItemsOf, Listed;
    TextComesBack(a, c, m);
    TextComesBack(b, c, n);
    CallsComeBackIff(a, c, m);
    CallsComeBackIff(b, c, n);
    if ArgumentsWhole(ItemsOf(a)) && ArgumentsWhole(ItemsOf(b)) {
      ListedOnce(c.calls, m.calls, n.calls);
    }
  }

  /** A character sent in two halves, each in its own delta, arrives whole in the text. */
  lemma HalvesMeet(c: Code)
    requires c >= 0x10000
    ensures WholeCharacters([Units(c)[0] as Code] + [Units(c)[1] as Code]) == [c]
  {
    var high: Code, low: Code := Units(c)[0], Units(c)[1];
    EncodeAdds([high], [low]);
    HalfAlone(high);
    HalfAlone(low);
    var units: seq<Unit> := [high, low];
    assert Encode([high] + [low]) == units && units[2..] == [];
    assert Decode(units) == [Whole(high, low)] + Decode(units[2..]);
  }

  /** A call whose one argument character is sent in two halves. */
  function InHalves(c: Code): seq<Item>
    requires c >= 0x10000
  {
    [Item(Some(0), "1", "f", [Units(c)[0] as Code]), Item(Some(0), "", "", [Units(c)[1] as Code])]
  }

  /** In the arguments of a call the same two halves stay apart, although they make up the character sent. */
  lemma HalvesStayApart(c: Code)
    requires c >= 0x10000
    ensures MakesUp(InHalves(c), Call("1", "f", [c])) && NoHalves([c])
    ensures Glued(InHalves(c)) == Call("1", "f", [Units(c)[0] as Code] + [Units(c)[1] as Code])
    ensures Glued(InHalves(c)) != Call("1", "f", [c])
  {
    var high: Code, low: Code := Units(c)[0], Units(c)[1];
    var pieces := InHalves(c);
    assert pieces[..1] == [pieces[0]] && pieces[..1][..0] == [] && pieces[..2] == pieces;
    GluedSnoc([], pieces[0]);
    GluedSnoc([pieces[0]], pieces[1]);
    assert [] + [pieces[0]] == [pieces[0]] && [pieces[0]] + [pieces[1]] == pieces;
    assert Glued([]) == NO_CALL && [] + [high] == [high];
    EncodeAdds([high], [low]);
    HalfAlone(high);
    HalfAlone(low);
    var text: seq<Code> := [c];
    assert text[1..] == [] && Encode(text) == Units(c) + Encode(text[1..]);
  }

  /** The two halves, each in its own delta. */
  function HalfByHalf(c: Code): seq<Event>
    requires c >= 0x10000
  {
    [Delta("", None, [InHalves(c)[0]]), Delta("", None, [InHalves(c)[1]])]
  }

  /** So that stream sends a call with the one character, and another call comes back. */
  lemma SplitArgumentsDoNotComeBack(c: Code, m: Message)
    requires c >= 0x10000 && Reassembled(HalfByHalf(c), m)
    ensures var sent := Completion([], map[0 := Call("1", "f", [c])]);
            Sends(HalfByHalf(c), sent) && WholeCompletion(sent) && !Listed(sent.calls, m.calls)
  {
    var sent := Completion([], map[0 := Call("1", "f", [c])]);
    HalvesStayApart(c);
    ItemsHalfByHalf(c);
    assert NoHalves(InHalves(c)[0].arguments) ==> !IsHalf(InHalves(c)[0].arguments[0]);
    hide Glued, Encode, Listed, TextOf, ItemsOf;
    CallsComeBackIff(HalfByHalf(c), sent, m);
  }

  lemma ItemsHalfByHalf(c: Code)
    requires c >= 0x10000
    ensures ItemsOf(HalfByHalf(c)) == InHalves(c) && TextOf(HalfByHalf(c)) == []
    ensures forall n :: PiecesAt(InHalves(c), n) == if n == 0 then InHalves(c) else []
  {
    hide ItemsOf, TextOf, PiecesAt, Units;
    var items := InHalves(c);
    var first, second := items[0], items[1];
    assert items == [first, second] && first.index == second.index == Some(0);
    assert HalfByHalf(c) == [Delta("", None, [first]), Delta("", None, [second])];
    hide HalfByHalf, InHalves;
    TwoDeltas(first, second);
    forall n
      ensures PiecesAt(items, n) == if n == 0 then items else []
    {
      TwoPieces(first, second, n);
    }
  }

  lemma TwoDeltas(a: Item, b: Item)
    ensures ItemsOf([Delta("", None, [a]), Delta("", None, [b])]) == [a, b]
    ensures TextOf([Delta("", None, [a]), Delta("", None, [b])]) == []
  {
    var events := [Delta("", None, [a]), Delta("", None, [b])];
    NothingYet(events[..0]);
    assert events[..2] == events && ItemsOf(events[..0]) == [];
    hide ItemsOf, TextOf, FinishOf, Latest;
    EventsSnoc(events, 0);
    EventsSnoc(events, 1);
  }

  lemma TwoPieces(a: Item, b: Item, n: int)
    ensures PiecesAt([a, b], n) == (if a.index == Some(n) then [a] else []) + if b.index == Some(n) then [b] else []
  {
    var items := [a, b];
    assert items[..1] == [a] && [a][..0] == [];
    assert PiecesAt([a], n) == if a.index == Some(n) then [a] else [];
  }

  lemma HalfAlone(half: Code)
    requires half < 0x10000
    ensures Encode([half]) == [half]
  {
    var text := [half];
    assert text[1..] == [];
  }
}
