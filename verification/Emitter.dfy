/**
 * reply_flow/emitter.py: how one reply becomes the messages that are sent.
 *
 * A long reply is split at the best places, a chatty one into a few short messages; what is said
 * stays the same but for the white space at the cuts.
 */
module Emitter {
  import opened Common
  import opened Text

  // ---------------------------------------------------------------------------------------
  // Text without its white space
  // ---------------------------------------------------------------------------------------

  function Dense(s: string): string {
    if s == "" then "" else Dense(s[..|s| - 1]) + if IsSpace(s[|s| - 1]) then "" else [s[|s| - 1]]
  }

  function DenseAll(chunks: seq<string>): string {
    if chunks == [] then "" else DenseAll(chunks[..|chunks| - 1]) + Dense(chunks[|chunks| - 1])
  }

  lemma {:induction false} DenseAdds(a: string, b: string)
    ensures Dense(a + b) == Dense(a) + Dense(b)
  {
    if b == "" {
      assert a + b == a;
    } else {
      assert (a + b)[..|a + b| - 1] == a + b[..|b| - 1];
      DenseAdds(a, b[..|b| - 1]);
    }
  }

  lemma {:induction false} DenseOfSpace(s: string)
    requires AllSpace(s)
    ensures Dense(s) == ""
  {
    if s != "" {
      assert forall c <- s[..|s| - 1] :: c in s;
      DenseOfSpace(s[..|s| - 1]);
      assert s[|s| - 1] in s;
    }
  }

  lemma DenseOfStrip(s: string)
    ensures Dense(Strip(s)) == Dense(s)
  {
    hide LStrip, RStrip, IsSpace, Dense;
    var l, r := LStrip(s), Strip(s);
    var lead, tail := s[..|s| - |l|], l[|r|..];
    assert s == lead + l && l == r + tail;
    hide *;
    DenseAdds(lead, l);
    DenseOfSpace(lead);
    DenseAdds(r, tail);
    DenseOfSpace(tail);
  }

  // ---------------------------------------------------------------------------------------
  // Cutting a long reply
  // ---------------------------------------------------------------------------------------

  predicate At(s: string, part: string, i: int) {
    0 <= i <= |s| - |part| && s[i..i + |part|] == part
  }

  /** Python's `rfind`. */
  function RFind(s: string, part: string): (i: int)
    ensures i == -1 || At(s, part, i)
    ensures forall j :: i < j ==> !At(s, part, j)
  {
    LastBefore(s, part, |s| - |part| + 1)
  }

  function LastBefore(s: string, part: string, n: int): (i: int)
    ensures i == -1 || (At(s, part, i) && i < n)
    ensures forall j :: i < j < n ==> !At(s, part, j)
    decreases n
  {
    if n <= 0 then -1 else if At(s, part, n - 1) then n - 1 else LastBefore(s, part, n - 1)
  }

  predicate EndsSentence(c: char) {
    c in "。！？!?；;…"
  }

  /** Just after the last sentence end, or -1. */
  function AfterSentence(s: string): (i: int)
    ensures i == -1 || (0 < i <= |s| && EndsSentence(s[i - 1]))
    ensures forall j :: 0 <= j < |s| && EndsSentence(s[j]) ==> j < i
  {
    if s == "" then -1 else if EndsSentence(s[|s| - 1]) then |s| else AfterSentence(s[..|s| - 1])
  }

  /** What may be cut at `i`: the best kind of place in the window that leaves half the limit or more. */
  ghost predicate BestCut(window: string, limit: nat, cut: int) {
    var half := limit / 2;
    if exists i :: half <= i && At(window, "\n\n", i) then
      At(window, "\n\n", cut) && forall j :: cut < j ==> !At(window, "\n\n", j)
    else if exists i :: half <= i && At(window, "\n", i) then
      At(window, "\n", cut) && forall j :: cut < j ==> !At(window, "\n", j)
    else if exists i :: 0 <= i < |window| && half <= i + 1 && EndsSentence(window[i]) then
      0 < cut <= |window| && EndsSentence(window[cut - 1])
      && forall j :: cut <= j < |window| ==> !EndsSentence(window[j])
    else cut == limit
  }

  /** The chunks, each with the white space after it, make up `s`. */
  ghost predicate Covers(chunks: seq<string>, s: string) {
    if chunks == [] then s == ""
    else
      var last := chunks[|chunks| - 1];
      exists m :: At(s, last, m) && AllSpace(s[m + |last|..]) && Covers(chunks[..|chunks| - 1], s[..m])
  }

  predicate Sized(chunks: seq<string>, limit: nat) {
    forall i :: 0 <= i < |chunks| ==> 0 < |chunks[i]| <= limit
  }

  lemma CoversSnoc(chunks: seq<string>, s: string, chunk: string, gap: string)
    requires Covers(chunks, s) && AllSpace(gap)
    ensures Covers(chunks + [chunk], s + chunk + gap)
  {
    var whole := s + chunk + gap;
    assert (chunks + [chunk])[..|chunks|] == chunks && whole[..|s|] == s;
    assert At(whole, chunk, |s|) && whole[|s| + |chunk|..] == gap;
  }

  /** Covering keeps all but white space. */
  lemma {:induction false} CoversKeepsText(chunks: seq<string>, s: string)
    requires Covers(chunks, s)
    ensures DenseAll(chunks) == Dense(s)
  {
    if chunks != [] {
      var last := chunks[|chunks| - 1];
      var m :| At(s, last, m) && AllSpace(s[m + |last|..]) && Covers(chunks[..|chunks| - 1], s[..m]);
      var gap := s[m + |last|..];
      assert s == s[..m] + last + gap;
      hide *;
      CoversKeepsText(chunks[..|chunks| - 1], s[..m]);
      DenseBetween(s[..m], last, gap);
      DenseAllSnoc(chunks);
    }
  }

  lemma DenseBetween(a: string, b: string, gap: string)
    requires AllSpace(gap)
    ensures Dense(a + b + gap) == Dense(a) + Dense(b)
  {
    hide Dense;
    DenseAdds(a, b);
    DenseAdds(a + b, gap);
    DenseOfSpace(gap);
  }

  lemma DenseAllSnoc(chunks: seq<string>)
    requires chunks != []
    ensures DenseAll(chunks) == DenseAll(chunks[..|chunks| - 1]) + Dense(chunks[|chunks| - 1])
  {}

  /** Where the next chunk ends. `window` begins with no white space, so the chunk is not empty. */
  method FindCut(window: string, limit: nat) returns (cut: nat)
    requires limit > 0 && |window| == limit && !IsSpace(window[0])
    ensures BestCut(window, limit, cut)
    ensures 0 < cut <= limit && limit / 2 <= cut
  {
    hide LastBefore, AfterSentence;
    var at := RFind(window, "\n\n");
    if at < limit / 2 {
      at := RFind(window, "\n");
    }
    if at < limit / 2 {
      at := AfterSentence(window);
    }
    if at < limit / 2 {
      at := limit;
    }
    cut := at;
  }

  /** `chunk` is what a best cut at `cut` leaves of the text from `start` on. */
  ghost predicate IsCut(text: string, limit: nat, start: nat, cut: nat, chunk: string) {
    && 0 < cut <= limit && start + limit <= |text|
    && BestCut(text[start..start + limit], limit, cut)
    && chunk == RStrip(text[start..start + cut])
  }

  /** Where a chunk starts, it is a best cut, unless all that remains fits. */
  ghost predicate CutWell(text: string, limit: nat, start: nat, chunk: string) {
    start <= |text|
    && if |text| - start <= limit then chunk == text[start..] else exists cut :: IsCut(text, limit, start, cut, chunk)
  }

  ghost predicate AllCutWell(text: string, limit: nat, starts: seq<nat>, chunks: seq<string>) {
    |starts| == |chunks| && forall i :: 0 <= i < |chunks| ==> CutWell(text, limit, starts[i], chunks[i])
  }

  /** A text that ends in no white space is stripped on the left only. */
  lemma StripLeft(s: string)
    requires s != "" && !IsSpace(s[|s| - 1])
    ensures var r := Strip(s); r != "" && |r| <= |s| && Stripped(r) && r == s[|s| - |r|..] && AllSpace(s[..|s| - |r|])
  {
    hide LStrip, RStrip, IsSpace;
    var l := LStrip(s);
    var r := RStrip(l);
  }

  /** A step of the cutting: a chunk, white space, and what remains. */
  lemma CutStep(text: string, n: nat, cut: nat) returns (m: nat, gap: string)
    requires n + cut < |text| && cut > 0 && Stripped(text[n..])
    ensures var chunk, rest := RStrip(text[n..n + cut]), Strip(text[n + cut..]);
            && 0 < |chunk| <= cut
            && n < m < |text| && rest == text[m..] && Stripped(rest)
            && AllSpace(gap) && text[..m] == text[..n] + chunk + gap
  {
    hide *;
    var head, tail := text[n..n + cut], text[n + cut..];
    EndsPlain(text, n, cut);
    ChunkKept(head);
    StripLeft(tail);
    var chunk, rest := RStrip(head), Strip(tail);
    m, gap := Recombined(text, n, cut, chunk, rest);
    SpaceAdds(head[|chunk|..], tail[..|tail| - |rest|]);
  }

  lemma EndsPlain(text: string, n: nat, cut: nat)
    requires n + cut < |text| && cut > 0 && Stripped(text[n..])
    ensures !IsSpace(text[n..n + cut][0]) && !IsSpace(text[n + cut..][|text| - n - cut - 1])
  {
    hide IsSpace;
    var s := text[n..];
    assert text[n..n + cut][0] == s[0] && text[n + cut..][|text| - n - cut - 1] == s[|s| - 1];
  }

  lemma Recombined(text: string, n: nat, cut: nat, chunk: string, rest: string) returns (m: nat, gap: string)
    requires n + cut < |text| && 0 < |chunk| <= cut && 0 < |rest| <= |text| - n - cut
    requires chunk == text[n..n + cut][..|chunk|] && rest == text[n + cut..][|text| - n - cut - |rest|..]
    ensures n < m < |text| && rest == text[m..] && text[..m] == text[..n] + chunk + gap
    ensures gap == text[n..n + cut][|chunk|..] + text[n + cut..][..|text| - n - cut - |rest|]
  {
    m := |text| - |rest|;
    gap := text[n + |chunk|..m];
    assert gap == text[n..n + cut][|chunk|..] + text[n + cut..][..|text| - n - cut - |rest|];
  }

  lemma SpaceAdds(a: string, b: string)
    requires AllSpace(a) && AllSpace(b)
    ensures AllSpace(a + b)
  {
    hide IsSpace;
  }

  /** What begins with no white space is not stripped to nothing. */
  lemma ChunkKept(s: string)
    requires s != "" && !IsSpace(s[0])
    ensures var r := RStrip(s); 0 < |r| <= |s| && r == s[..|r|] && AllSpace(s[|r|..])
  {
    hide RStrip, IsSpace;
  }

  /**
   * Cuts a reply into messages of at most `limit` characters. Nothing but white space at the cuts
   * is lost, and each cut is the best one in its window.
   */
  method SplitReplyText(reply: string, limit: int) returns (chunks: seq<string>, ghost starts: seq<nat>)
    ensures Covers(chunks, Strip(reply))
    ensures limit > 0 ==> Sized(chunks, limit) && AllCutWell(Strip(reply), limit, starts, chunks)
    ensures limit <= 0 || |Strip(reply)| <= limit ==> chunks == if Strip(reply) == "" then [] else [Strip(reply)]
  {
    hide *;
    var text := Strip(reply);
    StripIsStripped(reply);
    if limit <= 0 || |text| <= limit {
      chunks := if text == "" then [] else [text];
      starts := if text == "" then [] else [0];
      WholeCut(text, limit);
      return;
    }
    var remaining := text;
    ghost var n := 0;
    chunks, starts := [], [];
    NothingCut(text, limit);
    while |remaining| > limit
      invariant n <= |text| && remaining == text[n..]
      invariant CutSoFar(text, limit, starts, chunks, n)
      decreases |text| - n
    {
      var window := remaining[..limit];
      assert window == text[n..n + limit];
      StartsPlain(text, limit, starts, chunks, n);
      var cut := FindCut(window, limit);
      var chunk := RStrip(remaining[..cut]);
      assert remaining[..cut] == text[n..n + cut] && remaining[cut..] == text[n + cut..];
      ghost var m := OneMoreCut(text, limit, starts, chunks, n, cut);
      chunks, starts := chunks + [chunk], starts + [n];
      remaining := Strip(remaining[cut..]);
      n := m;
    }
    LastCut(text, limit, starts, chunks, n);
    chunks, starts := chunks + [remaining], starts + [n];
  }

  /** How far the cutting is: the chunks cover what comes before `n`. */
  ghost predicate CutSoFar(text: string, limit: nat, starts: seq<nat>, chunks: seq<string>, n: nat) {
    && n < |text| && Stripped(text[n..])
    && Covers(chunks, text[..n])
    && Sized(chunks, limit) && AllCutWell(text, limit, starts, chunks)
  }

  lemma OneMoreCut(text: string, limit: nat, starts: seq<nat>, chunks: seq<string>, n: nat, cut: nat) returns (m: nat)
    requires CutSoFar(text, limit, starts, chunks, n) && n + limit < |text|
    requires 0 < cut <= limit && BestCut(text[n..n + limit], limit, cut)
    ensures n < m < |text| && Strip(text[n + cut..]) == text[m..]
    ensures CutSoFar(text, limit, starts + [n], chunks + [RStrip(text[n..n + cut])], m)
  {
    hide BestCut, Strip, RStrip, LStrip, Covers, Sized, AllCutWell, IsSpace, AllSpace;
    var gap;
    m, gap := CutStep(text, n, cut);
    CoversSnoc(chunks, text[..n], RStrip(text[n..n + cut]), gap);
    CutSnoc(text, limit, starts, chunks, n, cut, RStrip(text[n..n + cut]));
  }

  lemma LastCut(text: string, limit: nat, starts: seq<nat>, chunks: seq<string>, n: nat)
    requires CutSoFar(text, limit, starts, chunks, n) && |text| - n <= limit
    ensures var all := chunks + [text[n..]];
            Covers(all, text) && Sized(all, limit) && AllCutWell(text, limit, starts + [n], all)
  {
    hide Covers, Sized, AllCutWell;
    assert text[..n] + text[n..] + "" == text;
    CoversSnoc(chunks, text[..n], text[n..], "");
    LastSnoc(text, limit, starts, chunks, n);
  }

  lemma FirstPlain(text: string, n: nat)
    requires n < |text| && Stripped(text[n..])
    ensures !IsSpace(text[n])
  {}

  lemma StartsPlain(text: string, limit: nat, starts: seq<nat>, chunks: seq<string>, n: nat)
    requires CutSoFar(text, limit, starts, chunks, n)
    ensures n < |text| && !IsSpace(text[n])
  {
    hide Covers, Sized, AllCutWell, IsSpace;
    FirstPlain(text, n);
  }

  lemma CutSnoc(text: string, limit: nat, starts: seq<nat>, chunks: seq<string>, n: nat, cut: nat, chunk: string)
    requires Sized(chunks, limit) && AllCutWell(text, limit, starts, chunks)
    requires n + limit < |text| && 0 < cut <= limit && BestCut(text[n..n + limit], limit, cut)
    requires chunk == RStrip(text[n..n + cut]) && 0 < |chunk| <= cut
    ensures Sized(chunks + [chunk], limit) && AllCutWell(text, limit, starts + [n], chunks + [chunk])
  {
    hide BestCut, RStrip;
    assert IsCut(text, limit, n, cut, chunk);
    hide IsCut;
  }

  lemma LastSnoc(text: string, limit: nat, starts: seq<nat>, chunks: seq<string>, n: nat)
    requires Sized(chunks, limit) && AllCutWell(text, limit, starts, chunks)
    requires n < |text| && |text| - n <= limit
    ensures Sized(chunks + [text[n..]], limit) && AllCutWell(text, limit, starts + [n], chunks + [text[n..]])
  {
    hide IsCut;
  }

  lemma NothingCut(text: string, limit: nat)
    requires Stripped(text) && text != ""
    ensures CutSoFar(text, limit, [], [], 0)
  {
    assert text[0..] == text;
  }

  lemma WholeCut(text: string, limit: int)
    ensures var chunks, starts: seq<nat> := if text == "" then [] else [text], if text == "" then [] else [0];
            && Covers(chunks, text)
            && (limit > 0 && |text| <= limit ==> Sized(chunks, limit) && AllCutWell(text, limit, starts, chunks))
  {
    if text != "" {
      CoversSnoc([], "", text, "");
      assert [] + [text] == [text] && "" + text + "" == text && text[0..] == text;
    }
  }

  // ---------------------------------------------------------------------------------------
  // A few messages as a person would send them
  // ---------------------------------------------------------------------------------------

  const MIN_PIECE := 4

  /** A piece, and whether a line break ended it. */
  datatype Piece = Piece(text: string, breaks: bool)

  predicate EndsChat(c: char) {
    c in "。！？!?~～"
  }

  predicate Closes(c: char) {
    c in "”’」』）)"
  }

  /** The first place from `i` on where the kind of characters ends. */
  function RunEnd(s: string, i: nat, kind: char -> bool): (n: nat)
    requires i <= |s|
    ensures i <= n <= |s| && forall j :: i <= j < n ==> kind(s[j])
    ensures n < |s| ==> !kind(s[n])
    decreases |s| - i
  {
    if i < |s| && kind(s[i]) then RunEnd(s, i + 1, kind) else i
  }

  /** The length of the first sentence: up to its end marks and closing quotes, or a line break, or the end. */
  function SentenceLength(s: string): (n: nat)
    requires s != ""
    ensures 0 < n <= |s|
  {
    var plain := RunEnd(s, 0, c => !EndsChat(c) && c != '\n');
    if plain == |s| then plain
    else if s[plain] == '\n' then plain + 1
    else RunEnd(s, RunEnd(s, plain, c => EndsChat(c)), c => Closes(c))
  }

  /**
   * A sentence of n characters: plain ones up to `p`, and then nothing more, or a line break, or end
   * marks up to `q` and all the closing quotes after them.
   */
  predicate IsSentence(s: string, p: nat, q: nat, n: nat) {
    && p <= q <= n <= |s| && (forall i :: 0 <= i < p ==> s[i] !in "。！？!?~～\n")
    && (if p == |s| then n == p
        else if s[p] == '\n' then n == p + 1
        else
          && p < q && (forall i :: p <= i < q ==> s[i] in "。！？!?~～") && (q < |s| ==> s[q] !in "。！？!?~～")
          && (forall i :: q <= i < n ==> s[i] in "”’」』）)") && (n < |s| ==> s[n] !in "”’」』）)"))
  }

  lemma SentenceIs(s: string)
    requires s != ""
    ensures exists p: nat, q: nat :: IsSentence(s, p, q, SentenceLength(s))
  {
    var p := RunEnd(s, 0, c => !EndsChat(c) && c != '\n');
    var q := if p < |s| && s[p] != '\n' then RunEnd(s, p, c => EndsChat(c)) else p;
    assert IsSentence(s, p, q, SentenceLength(s));
  }

  function Joined(p: Piece, text: string): string {
    p.text + (if p.breaks then "\n" else "") + text
  }

  function EndsLine(s: string): bool {
    s != "" && s[|s| - 1] == '\n'
  }

  /** The pieces with a sentence more: a short one joins its neighbour, and is joined by it. */
  function WithSentence(pieces: seq<Piece>, found: string): seq<Piece> {
    var sentence := Strip(found);
    var n := |pieces| - 1;
    if sentence == "" then pieces
    else if pieces != [] && (|sentence| < MIN_PIECE || |pieces[n].text| < MIN_PIECE) then
      pieces[..n] + [Piece(Joined(pieces[n], sentence), EndsLine(found))]
    else pieces + [Piece(sentence, EndsLine(found))]
  }

  /** A sentence stands alone exactly if it says something and neither it nor the piece before it is too short. */
  lemma AloneIff(pieces: seq<Piece>, found: string)
    ensures var after, sentence := WithSentence(pieces, found), Strip(found);
            && (|after| == |pieces| + 1 <==>
                  sentence != "" && (pieces == [] || (|sentence| >= 4 && |pieces[|pieces| - 1].text| >= 4)))
            && (|after| == |pieces| + 1 ==>
                  after == pieces + [Piece(sentence, found[|found| - 1] == '\n')])
            && (|after| != |pieces| + 1 && sentence != "" ==>
                  && |after| == |pieces| > 0 && after[..|pieces| - 1] == pieces[..|pieces| - 1]
                  && var last := pieces[|pieces| - 1];
                     after[|pieces| - 1].text == last.text + (if last.breaks then "\n" else "") + sentence)
            && (sentence == "" ==> after == pieces)
  {
    if Strip(found) != "" {
      assert found != "";
    }
    hide Strip;
  }

  /** The pieces with all sentences of a text. */
  function WithSentences(pieces: seq<Piece>, text: string): seq<Piece>
    decreases |text|
  {
    if text == "" then pieces
    else
      var n := SentenceLength(text);
      WithSentences(WithSentence(pieces, text[..n]), text[n..])
  }

  /** The last two pieces joined until there are at most `maxParts`. */
  function Merged(pieces: seq<Piece>, maxParts: nat): seq<Piece>
    requires maxParts >= 1
    decreases |pieces|
  {
    var n := |pieces|;
    if n <= maxParts then pieces
    else Merged(pieces[..n - 2] + [Piece(Joined(pieces[n - 2], pieces[n - 1].text), pieces[n - 1].breaks)], maxParts)
  }

  function Fused(a: Piece, b: Piece): Piece {
    Piece(Joined(a, b.text), b.breaks)
  }

  /** Pieces as one, with the line breaks between them. */
  function AsOne(pieces: seq<Piece>): Piece
    requires pieces != []
  {
    var n := |pieces| - 1;
    if n == 0 then pieces[0] else Fused(AsOne(pieces[..n]), pieces[n])
  }

  lemma FusedAssociates(a: Piece, b: Piece, c: Piece)
    ensures Fused(Fused(a, b), c) == Fused(a, Fused(b, c))
  {
    var x, y := if a.breaks then "\n" else "", if b.breaks then "\n" else "";
    assert a.text + x + (b.text + y + c.text) == a.text + x + b.text + y + c.text;
  }

  lemma LastTwoFused(pieces: seq<Piece>)
    requires |pieces| >= 2
    ensures var n := |pieces|; AsOne(pieces[..n - 2] + [Fused(pieces[n - 2], pieces[n - 1])]) == AsOne(pieces)
  {
    hide Fused;
    var n := |pieces|;
    var front, a, b := pieces[..n - 2], pieces[n - 2], pieces[n - 1];
    var fewer, fused := pieces[..n - 1], front + [Fused(a, b)];
    assert fewer[..n - 2] == front && fused[..n - 2] == front;
    if n > 2 {
      assert AsOne(fewer) == Fused(AsOne(front), a);
      FusedAssociates(AsOne(front), a, b);
    }
  }

  lemma MergedIs(pieces: seq<Piece>, maxParts: nat)
    requires maxParts >= 1
    ensures var n := |pieces|;
            Merged(pieces, maxParts) ==
              if n <= maxParts then pieces
              else Merged(pieces[..n - 2] + [Fused(pieces[n - 2], pieces[n - 1])], maxParts)
  {}

  /** All pieces that are too many are told with the last one allowed; the others stay as they are. */
  lemma {:induction false} MergedTells(pieces: seq<Piece>, maxParts: nat)
    requires 1 <= maxParts < |pieces|
    ensures Merged(pieces, maxParts) == pieces[..maxParts - 1] + [AsOne(pieces[maxParts - 1..])]
    decreases |pieces|
  {
    hide *;
    var n, k := |pieces|, maxParts - 1;
    MergedIs(pieces, maxParts);
    var last := Fused(pieces[n - 2], pieces[n - 1]);
    var next, rest := pieces[..n - 2] + [last], pieces[k..];
    LastTwoFused(rest);
    assert next[..k] == pieces[..k];
    assert next[k..] == rest[..|rest| - 2] + [last];
    if n > maxParts + 1 {
      MergedTells(next, maxParts);
    } else {
      MergedIs(next, maxParts);
      OneIsOne(next[k..]);
      assert next == next[..k] + next[k..];
    }
  }

  lemma OneIsOne(pieces: seq<Piece>)
    requires |pieces| == 1
    ensures pieces == [AsOne(pieces)]
  {}

  function DenseOf(pieces: seq<Piece>): string {
    if pieces == [] then "" else DenseOf(pieces[..|pieces| - 1]) + Dense(pieces[|pieces| - 1].text)
  }

  /** Characters of the pieces, with the line breaks between them. */
  function Size(pieces: seq<Piece>): nat {
    if pieces == [] then 0
    else Size(pieces[..|pieces| - 1]) + |pieces[|pieces| - 1].text| + if pieces[|pieces| - 1].breaks then 1 else 0
  }

  /** No empty piece, and none too short to stand beside another. */
  predicate LongEnough(pieces: seq<Piece>) {
    forall i :: 0 <= i < |pieces| ==> |pieces[i].text| >= if |pieces| >= 2 then MIN_PIECE else 1
  }

  predicate PiecesOf(pieces: seq<Piece>, text: string) {
    DenseOf(pieces) == Dense(text) && Size(pieces) <= |text| && LongEnough(pieces)
  }

  lemma DenseOfJoined(p: Piece, text: string)
    ensures Dense(Joined(p, text)) == Dense(p.text) + Dense(text)
    ensures |Joined(p, text)| == |p.text| + |text| + if p.breaks then 1 else 0
  {
    var gap := if p.breaks then "\n" else "";
    DenseOfSpace(gap);
    hide Dense;
    DenseAdds(p.text, gap);
    DenseAdds(p.text + gap, text);
    assert Dense(p.text) + "" == Dense(p.text);
  }

  lemma SentenceFits(found: string)
    ensures |Strip(found)| + (if EndsLine(found) then 1 else 0) <= |found|
  {
    assert IsSpace('\n');
    hide LStrip, RStrip, IsSpace, AllSpace;
    var l := LStrip(found);
    if EndsLine(found) && l != "" {
      assert l[|l| - 1] == '\n';
    }
  }

  lemma PieceSnoc(pieces: seq<Piece>, p: Piece)
    ensures DenseOf(pieces + [p]) == DenseOf(pieces) + Dense(p.text)
    ensures Size(pieces + [p]) == Size(pieces) + |p.text| + if p.breaks then 1 else 0
  {
    assert (pieces + [p])[..|pieces|] == pieces;
  }

  lemma OneMoreSentence(pieces: seq<Piece>, before: string, found: string)
    requires PiecesOf(pieces, before)
    ensures PiecesOf(WithSentence(pieces, found), before + found)
  {
    var sentence := Strip(found);
    SentenceFits(found);
    DenseOfStrip(found);
    hide Dense, Strip, DenseOf, Size;
    DenseAdds(before, found);
    var p := Piece(sentence, EndsLine(found));
    if sentence == "" {
      DenseOfNothing();
    } else if pieces != [] && (|sentence| < MIN_PIECE || |pieces[|pieces| - 1].text| < MIN_PIECE) {
      var front, last := pieces[..|pieces| - 1], pieces[|pieces| - 1];
      assert pieces == front + [last];
      var merged := Piece(Joined(last, sentence), EndsLine(found));
      DenseOfJoined(last, sentence);
      PieceSnoc(front, last);
      PieceSnoc(front, merged);
      ConcatAssociates(DenseOf(front), Dense(last.text), Dense(sentence));
      hide Joined;
    } else {
      PieceSnoc(pieces, p);
    }
  }

  lemma DenseOfNothing()
    ensures Dense("") == ""
  {}

  lemma NoPieces(text: string)
    requires text == ""
    ensures PiecesOf([], text)
  {}

  /** The sentences of a text, the short ones joined to a neighbour: of two pieces or more, each has four characters. */
  method Pieces(text: string) returns (pieces: seq<Piece>)
    ensures PiecesOf(pieces, text) && pieces == WithSentences([], text)
  {
    hide *;
    pieces := [];
    var k := 0;
    NoPieces(text[..0]);
    assert text[0..] == text;
    while k < |text|
      invariant k <= |text| && PiecesOf(pieces, text[..k])
      invariant WithSentences(pieces, text[k..]) == WithSentences([], text)
    {
      OneSentenceLess(pieces, text, k);
      var n := SentenceLength(text[k..]);
      var found := text[k..k + n];
      OneMoreSentence(pieces, text[..k], found);
      assert text[..k] + found == text[..k + n];
      pieces := AddSentence(pieces, found);
      k := k + n;
    }
    assert text[..k] == text && text[k..] == "";
    NothingLeft(pieces, text[k..]);
  }

  lemma NothingLeft(pieces: seq<Piece>, text: string)
    requires text == ""
    ensures WithSentences(pieces, text) == pieces
  {}

  lemma OneSentenceLess(pieces: seq<Piece>, text: string, k: nat)
    requires k < |text|
    ensures var n := SentenceLength(text[k..]);
            k + n <= |text|
            && WithSentences(pieces, text[k..])
               == WithSentences(WithSentence(pieces, text[k..k + n]), text[k + n..])
  {
    hide SentenceLength, WithSentence;
    var rest := text[k..];
    var n := SentenceLength(rest);
    assert rest[..n] == text[k..k + n] && rest[n..] == text[k + n..];
    assert WithSentences(pieces, rest) == WithSentences(WithSentence(pieces, rest[..n]), rest[n..]);
    hide WithSentences;
  }

  method AddSentence(before: seq<Piece>, found: string) returns (pieces: seq<Piece>)
    ensures pieces == WithSentence(before, found)
  {
    hide Strip;
    pieces := before;
    var sentence := Strip(found);
    if sentence == "" {
      return;
    }
    if pieces != [] {
      var last := pieces[|pieces| - 1];
      if |sentence| < MIN_PIECE || |last.text| < MIN_PIECE {
        pieces := pieces[..|pieces| - 1];
        sentence := Joined(last, sentence);
      }
    }
    pieces := pieces + [Piece(sentence, EndsLine(found))];
  }

  lemma MergedLast(pieces: seq<Piece>, text: string)
    requires PiecesOf(pieces, text) && |pieces| >= 2
    ensures var n := |pieces|;
            PiecesOf(pieces[..n - 2] + [Piece(Joined(pieces[n - 2], pieces[n - 1].text), pieces[n - 1].breaks)], text)
  {
    var n := |pieces|;
    var front, a, b := pieces[..n - 2], pieces[n - 2], pieces[n - 1];
    assert pieces == front + [a] + [b];
    hide Dense, DenseOf, Size;
    DenseOfJoined(a, b.text);
    PieceSnoc(front, a);
    PieceSnoc(front + [a], b);
    PieceSnoc(front, Piece(Joined(a, b.text), b.breaks));
    ConcatAssociates(DenseOf(front), Dense(a.text), Dense(b.text));
    hide Joined;
  }

  /** Joins the last pieces until there are at most `maxParts`. */
  method Capped(start: seq<Piece>, maxParts: nat, ghost text: string) returns (pieces: seq<Piece>)
    requires PiecesOf(start, text) && maxParts >= 1
    ensures PiecesOf(pieces, text) && |pieces| <= maxParts
    ensures pieces == Merged(start, maxParts)
  {
    pieces := start;
    hide *;
    while |pieces| > maxParts
      invariant PiecesOf(pieces, text)
      invariant Merged(pieces, maxParts) == Merged(start, maxParts)
    {
      MergedLast(pieces, text);
      MergedOnce(pieces, maxParts);
      var n := |pieces|;
      pieces := pieces[..n - 2] + [Piece(Joined(pieces[n - 2], pieces[n - 1].text), pieces[n - 1].breaks)];
    }
    MergedOnce(pieces, maxParts);
  }

  lemma MergedOnce(pieces: seq<Piece>, maxParts: nat)
    requires maxParts >= 1
    ensures var n := |pieces|;
            Merged(pieces, maxParts) ==
              if n <= maxParts then pieces
              else Merged(pieces[..n - 2] + [Piece(Joined(pieces[n - 2], pieces[n - 1].text), pieces[n - 1].breaks)],
                          maxParts)
  {}

  function Texts(pieces: seq<Piece>): (r: seq<string>)
    ensures |r| == |pieces| && forall i :: 0 <= i < |r| ==> r[i] == pieces[i].text
  {
    seq(|pieces|, i requires 0 <= i < |pieces| => pieces[i].text)
  }

  lemma {:induction false} DenseOfTexts(pieces: seq<Piece>)
    ensures DenseAll(Texts(pieces)) == DenseOf(pieces)
  {
    if pieces != [] {
      var n := |pieces| - 1;
      assert Texts(pieces)[..n] == Texts(pieces[..n]);
      DenseOfTexts(pieces[..n]);
    }
  }

  lemma {:induction false} PieceWithin(pieces: seq<Piece>, i: nat)
    requires i < |pieces|
    ensures |pieces[i].text| <= Size(pieces)
  {
    if i < |pieces| - 1 {
      PieceWithin(pieces[..|pieces| - 1], i);
    }
  }

  /** What stays one message: too long, a code block, or a list. */
  predicate StaysWhole(text: string, maxParts: int, maxTotal: int, isList: string -> bool) {
    maxParts < 2 || |text| > maxTotal || RFind(text, "```") >= 0 || isList(text)
  }

  /** Exactly if it is too long for a chat, has a code fence or a list, or is not to be cut at all. */
  lemma StaysWholeIff(text: string, maxParts: int, maxTotal: int, isList: string -> bool)
    ensures StaysWhole(text, maxParts, maxTotal, isList) <==>
              maxParts <= 1 || |text| > maxTotal || isList(text)
              || exists i :: At(text, "```", i)
  {
    var i := RFind(text, "```");
    assert i >= 0 ==> At(text, "```", i);
    hide LastBefore;
  }

  /** The messages are few and say all of the reply; of two or more, each has four characters. */
  predicate SaysAll(chunks: seq<string>, reply: string) {
    && DenseAll(chunks) == Dense(reply)
    && (forall i :: 0 <= i < |chunks| ==> 0 < |chunks[i]| <= |Strip(reply)|)
    && (|chunks| >= 2 ==> forall i :: 0 <= i < |chunks| ==> |chunks[i]| >= MIN_PIECE)
  }

  lemma PiecesSayAll(pieces: seq<Piece>, reply: string)
    requires PiecesOf(pieces, Strip(reply))
    ensures SaysAll(Texts(pieces), reply)
  {
    DenseOfTexts(pieces);
    DenseOfStrip(reply);
    forall i | 0 <= i < |pieces|
      ensures |pieces[i].text| <= |Strip(reply)|
    {
      PieceWithin(pieces, i);
    }
    hide Strip, Dense, DenseAll, DenseOf, Size;
  }

  lemma OneSaysAll(reply: string)
    ensures SaysAll(if Strip(reply) == "" then [] else [Strip(reply)], reply)
  {
    DenseOfStrip(reply);
    var text := Strip(reply);
    hide Strip;
    if text != "" {
      assert [text][..0] == [] && DenseAll([text]) == DenseAll([]) + Dense(text);
    }
  }

  /** A reply that says something leaves pieces. */
  lemma SomePieces(pieces: seq<Piece>, text: string)
    requires PiecesOf(pieces, text) && text != "" && Stripped(text)
    ensures pieces != []
  {
    assert Dense(text) != "";
  }

  /** The messages of a chat reply: none, the whole text, or its sentences, short ones and the last joined. */
  function ChatChunks(reply: string, maxParts: int, maxTotal: int, isList: string -> bool): seq<string> {
    var text := Strip(reply);
    if text == "" then []
    else if StaysWhole(text, maxParts, maxTotal, isList) then [text]
    else Texts(Merged(WithSentences([], text), maxParts))
  }

  method ConversationalChunks(reply: string, maxParts: int, maxTotal: int, isList: string -> bool)
    returns (chunks: seq<string>)
    ensures SaysAll(chunks, reply)
    ensures chunks == [] <==> Strip(reply) == ""
    ensures |chunks| >= 2 ==> |chunks| <= maxParts && !StaysWhole(Strip(reply), maxParts, maxTotal, isList)
    ensures chunks == ChatChunks(reply, maxParts, maxTotal, isList)
  {
    var text := Strip(reply);
    StripIsStripped(reply);
    OneSaysAll(reply);
    hide Strip, SaysAll, PiecesOf, RFind, Stripped, Merged, WithSentences;
    if text == "" {
      return [];
    }
    if StaysWhole(text, maxParts, maxTotal, isList) {
      return [text];
    }
    var pieces := Pieces(text);
    pieces := Capped(pieces, maxParts, text);
    SomePieces(pieces, text);
    PiecesSayAll(pieces, reply);
    chunks := Texts(pieces);
  }

  // ---------------------------------------------------------------------------------------
  // The parts of a message
  // ---------------------------------------------------------------------------------------

  datatype Outbound = Outbound(text: string, images: seq<string>, replyTo: string, sticker: string,
                               conversational: bool)

  /** `segmented` says whether replies are cut as in a chat; `maxChars` is the longest message. */
  datatype Config = Config(segmented: bool, maxParts: int, maxTotal: int, maxChars: int)

  function TextsOf(parts: seq<Outbound>): (r: seq<string>)
    ensures |r| == |parts| && forall i :: 0 <= i < |r| ==> r[i] == parts[i].text
  {
    seq(|parts|, i requires 0 <= i < |parts| => parts[i].text)
  }

  /**
   * How a message is told in parts: the text whole, the quote on the first part only, the pictures
   * on the last part with text only, the sticker on a part of its own after the others.
   */
  predicate Parted(message: Outbound, parts: seq<Outbound>) {
    var texts := |parts| - if message.sticker != "" then 1 else 0;
    && parts != [] && 0 <= texts
    && (forall i :: 0 <= i < |parts| ==> parts[i].replyTo == if i == 0 then message.replyTo else "")
    && (forall i :: 0 <= i < |parts| ==> parts[i].images == if i == texts - 1 then message.images else [])
    && (forall i :: 0 <= i < |parts| ==> parts[i].sticker == if i == texts then message.sticker else "")
    && (forall i :: 0 <= i < |parts| ==> parts[i].conversational == (i < texts && message.conversational))
    && (texts == 0 ==> message.images == [])
    && DenseAll(TextsOf(parts)) == Dense(message.text)
  }

  lemma DenseAllTail(chunks: seq<string>, tail: seq<string>)
    requires tail == [] || tail == [""]
    ensures DenseAll(chunks + tail) == DenseAll(chunks)
  {
    if tail == [""] {
      assert (chunks + tail)[..|chunks|] == chunks;
    } else {
      assert chunks + tail == chunks;
    }
  }

  lemma SplitSaysAll(chunks: seq<string>, reply: string)
    requires Covers(chunks, Strip(reply))
    ensures DenseAll(chunks) == Dense(reply)
  {
    CoversKeepsText(chunks, Strip(reply));
    DenseOfStrip(reply);
  }

  /** A message for a chat, cut as such. */
  function ChatOf(cfg: Config, isList: string -> bool, message: Outbound): seq<string> {
    if cfg.segmented && message.conversational
    then ChatChunks(message.text, cfg.maxParts, cfg.maxTotal, isList) else []
  }

  /** Whether something goes out even without text. */
  predicate GoesOut(message: Outbound) {
    message.images != [] || message.sticker == ""
  }

  /**
   * The texts of the parts: the messages of a chat reply if it is one and comes to more than one, and
   * else the text cut by length; an empty one where there is no text and something to go with it.
   */
  ghost predicate ToldIn(cfg: Config, isList: string -> bool, message: Outbound, chunks: seq<string>,
                         starts: seq<nat>)
  {
    var text := Strip(message.text);
    if |ChatOf(cfg, isList, message)| > 1 then chunks == ChatOf(cfg, isList, message)
    else if text == "" then chunks == if GoesOut(message) then [""] else []
    else
      && Covers(chunks, text)
      && (cfg.maxChars > 0 ==> Sized(chunks, cfg.maxChars) && AllCutWell(text, cfg.maxChars, starts, chunks))
      && (cfg.maxChars <= 0 ==> chunks == [text])
  }

  /** What every way of telling a message keeps: all of its text, and the longest message. */
  predicate Whole(cfg: Config, message: Outbound, chunks: seq<string>) {
    && DenseAll(chunks) == Dense(message.text) && (GoesOut(message) ==> chunks != [])
    && (cfg.maxChars > 0 && (!cfg.segmented || cfg.maxTotal <= cfg.maxChars) ==>
          forall i :: 0 <= i < |chunks| ==> |chunks[i]| <= cfg.maxChars)
  }

  lemma ChatIsWhole(cfg: Config, isList: string -> bool, message: Outbound, chunks: seq<string>)
    requires chunks == ChatOf(cfg, isList, message) && |chunks| > 1 && SaysAll(chunks, message.text)
    requires cfg.segmented && !StaysWhole(Strip(message.text), cfg.maxParts, cfg.maxTotal, isList)
    ensures Whole(cfg, message, chunks) && ToldIn(cfg, isList, message, chunks, [])
  {
    hide Strip, Dense, DenseAll, RFind, ChatChunks, Covers, AllCutWell;
  }

  lemma CutIsWhole(cfg: Config, isList: string -> bool, message: Outbound, cut: seq<string>, starts: seq<nat>)
    requires |ChatOf(cfg, isList, message)| <= 1 && Covers(cut, Strip(message.text))
    requires cfg.maxChars > 0 ==>
               Sized(cut, cfg.maxChars) && AllCutWell(Strip(message.text), cfg.maxChars, starts, cut)
    requires cfg.maxChars <= 0 || |Strip(message.text)| <= cfg.maxChars ==>
               cut == if Strip(message.text) == "" then [] else [Strip(message.text)]
    ensures var chunks := if cut == [] && GoesOut(message) then [""] else cut;
            Whole(cfg, message, chunks) && ToldIn(cfg, isList, message, chunks, starts)
  {
    SplitSaysAll(cut, message.text);
    NothingCovered(cut, Strip(message.text));
    hide Strip, Dense, ChatOf, Covers, AllCutWell;
    if cut == [] {
      DenseAllTail([], [""]);
      assert [] + [""] == [""];
    }
  }

  lemma NothingCovered(chunks: seq<string>, text: string)
    requires Covers(chunks, text)
    ensures chunks == [] ==> text == ""
  {}

  method ChunksOf(cfg: Config, isList: string -> bool, message: Outbound)
    returns (chunks: seq<string>, ghost starts: seq<nat>)
    ensures Whole(cfg, message, chunks) && ToldIn(cfg, isList, message, chunks, starts)
  {
    hide Whole, ToldIn, SaysAll, StaysWhole, ChatChunks, Covers, Strip, Dense, AllCutWell;
    chunks, starts := [], [];
    if cfg.segmented && message.conversational {
      chunks := ConversationalChunks(message.text, cfg.maxParts, cfg.maxTotal, isList);
    }
    if |chunks| > 1 {
      ChatIsWhole(cfg, isList, message, chunks);
      return;
    }
    chunks, starts := SplitReplyText(message.text, cfg.maxChars);
    CutIsWhole(cfg, isList, message, chunks, starts);
    if chunks == [] && (message.images != [] || message.sticker == "") {
      chunks := [""];
    }
  }

  /** The part with text `i`. */
  function TextPart(message: Outbound, texts: seq<string>, i: nat): Outbound
    requires i < |texts|
  {
    message.(text := texts[i], images := if i == |texts| - 1 then message.images else [],
             replyTo := if i == 0 then message.replyTo else "", sticker := "")
  }

  lemma PartsAreParted(cfg: Config, message: Outbound, texts: seq<string>, parts: seq<Outbound>)
    requires Whole(cfg, message, texts) && |parts| == |texts| + if message.sticker != "" then 1 else 0
    requires forall i :: 0 <= i < |texts| ==> parts[i] == TextPart(message, texts, i)
    requires message.sticker != "" ==>
               parts[|texts|] == Outbound("", [], if texts == [] then message.replyTo else "", message.sticker, false)
    ensures Parted(message, parts) && TextsOf(parts) == texts + if message.sticker != "" then [""] else []
    ensures cfg.maxChars > 0 && (!cfg.segmented || cfg.maxTotal <= cfg.maxChars) ==>
              forall i :: 0 <= i < |parts| ==> |parts[i].text| <= cfg.maxChars
  {
    hide DenseAll, Dense;
    var tail := if message.sticker != "" then [""] else [];
    DenseAllTail(texts, tail);
    assert TextsOf(parts) == texts + tail;
  }

  method MessageParts(cfg: Config, isList: string -> bool, message: Outbound)
    returns (parts: seq<Outbound>, ghost chunks: seq<string>, ghost starts: seq<nat>)
    ensures Parted(message, parts) && ToldIn(cfg, isList, message, chunks, starts)
    ensures TextsOf(parts) == chunks + if message.sticker != "" then [""] else []
    ensures cfg.maxChars > 0 && (!cfg.segmented || cfg.maxTotal <= cfg.maxChars) ==>
              forall i :: 0 <= i < |parts| ==> |parts[i].text| <= cfg.maxChars
  {
    hide Whole, ToldIn, Parted, TextsOf;
    var texts;
    texts, starts := ChunksOf(cfg, isList, message);
    chunks := texts;
    var last := |texts| - 1;
    parts := [];
    for i := 0 to |texts|
      invariant |parts| == i
      invariant forall j :: 0 <= j < i ==> parts[j] == TextPart(message, texts, j)
    {
      parts := parts + [message.(text := texts[i], images := if i == last then message.images else [],
                                 replyTo := if i == 0 then message.replyTo else "", sticker := "")];
    }
    if message.sticker != "" {
      parts := parts + [Outbound("", [], if parts == [] then message.replyTo else "", message.sticker, false)];
    }
    PartsAreParted(cfg, message, texts, parts);
  }
}
