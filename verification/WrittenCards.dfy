/**
 * What the reader of character/cards.py makes of the text its writer produces.
 *
 * The proof follows the text, part by part:
 *
 *   - what stripping and the removal of comments leave of a prefix with a value after it;
 *   - what one written line does to the reader's state: a key, a key with a name, an item;
 *   - the lines of a section, and of all sections under keys that differ;
 *   - the text as its lines, of which only the last loses trailing space.
 *
 * `Bared` is what the reader leaves of a value; `ItemValue` and `NameValue` are what it takes
 * that for.
 */
module WrittenCards {
  import opened Common
  import opened Text
  import opened Cards

  // ---------------------------------------------------------------------------------------
  // Stripping is what it promises, and nothing else
  // ---------------------------------------------------------------------------------------

  lemma RStripUnique(s: string, r: string)
    requires |r| <= |s| && r == s[..|r|] && AllSpace(s[|r|..]) && (r != "" ==> !IsSpace(r[|r| - 1]))
    ensures RStrip(s) == r
  {
    hide RStrip, IsSpace;
    var t := RStrip(s);
  }

  lemma LStripUnique(s: string, r: string)
    requires |r| <= |s| && r == s[|s| - |r|..] && AllSpace(s[..|s| - |r|]) && (r != "" ==> !IsSpace(r[0]))
    ensures LStrip(s) == r
  {
    hide LStrip, IsSpace;
    var t := LStrip(s);
  }

  lemma RStripOfRStrip(s: string)
    ensures RStrip(RStrip(s)) == RStrip(s)
  {
    hide RStrip, IsSpace;
    RStripUnique(RStrip(s), RStrip(s));
  }

  /** Only the end of a text is stripped, when it says something. */
  lemma RStripAfter(p: string, v: string)
    requires RStrip(v) != ""
    ensures RStrip(p + v) == p + RStrip(v)
  {
    hide RStrip, IsSpace;
    var r := RStrip(v);
    assert (p + v)[..|p + r|] == p + r && (p + v)[|p + r|..] == v[|r|..];
    RStripUnique(p + v, p + r);
  }

  lemma RStripNothing(p: string, v: string)
    requires RStrip(v) == ""
    ensures RStrip(p + v) == RStrip(p)
  {
    hide RStrip, IsSpace;
    var r := RStrip(p);
    var s := p + v;
    assert v[0..] == v && s[|r|..] == p[|r|..] + v;
    RStripUnique(s, r);
  }

  lemma StripUnique(lead: string, r: string)
    requires AllSpace(lead) && r != "" && Stripped(r)
    ensures Strip(lead + r) == r
  {
    hide RStrip, LStrip, IsSpace;
    assert (lead + r)[..|lead|] == lead && (lead + r)[|lead|..] == r;
    LStripUnique(lead + r, r);
    RStripUnique(r, r);
  }

  // ---------------------------------------------------------------------------------------
  // One written line
  // ---------------------------------------------------------------------------------------

  /** Letters and marks that mean nothing to the reader. */
  predicate Bare(c: char) {
    !IsQuote(c) && c != '#'
  }

  lemma {:induction false} CommentAfter(p: string, v: string)
    requires forall i :: 0 <= i < |p| ==> Bare(p[i])
    ensures CommentAt(p + v, false, false) == |p| + CommentAt(v, false, false)
  {
    if p == "" {
      assert p + v == v;
    } else {
      assert (p + v)[1..] == p[1..] + v;
      CommentAfter(p[1..], v);
    }
  }

  /** What is left of a value once comments are taken out. */
  function Bared(v: string): string {
    Uncommented(RStrip(v))
  }

  lemma UncommentedAfter(p: string, v: string)
    requires forall i :: 0 <= i < |p| ==> Bare(p[i])
    ensures Uncommented(p + v) == if Uncommented(v) == "" then RStrip(p) else p + Uncommented(v)
  {
    CommentAfter(p, v);
    hide *;
    var n := CommentAt(v, false, false);
    var cut := v[..n];
    assert (p + v)[..|p| + n] == p + cut;
    UncommentedIs(p + v, p + cut);
    UncommentedIs(v, cut);
    if RStrip(cut) == "" {
      RStripNothing(p, cut);
    } else {
      RStripAfter(p, cut);
    }
  }

  lemma UncommentedIs(line: string, cut: string)
    requires cut == line[..CommentAt(line, false, false)]
    ensures Uncommented(line) == RStrip(cut)
  {
    hide RStrip, CommentAt;
  }

  lemma {:induction false} NoComment(s: string)
    requires forall i :: 0 <= i < |s| ==> Bare(s[i])
    ensures CommentAt(s, false, false) == |s|
  {
    if s != "" {
      NoComment(s[1..]);
    }
  }

  lemma UncommentedBare(p: string)
    requires forall i :: 0 <= i < |p| ==> Bare(p[i])
    ensures Uncommented(p) == RStrip(p)
  {
    hide RStrip;
    NoComment(p);
    assert p[..|p|] == p;
  }

  /** The line without its comment and trailing space, for a prefix that is kept. */
  lemma LineOf(p: string, v: string)
    requires forall i :: 0 <= i < |p| ==> Bare(p[i])
    ensures Uncommented(RStrip(p + v)) == if Bared(v) == "" then RStrip(p) else p + Bared(v)
  {
    hide RStrip, CommentAt, Bare, IsSpace, AllSpace;
    if RStrip(v) == "" {
      RStripNothing(p, v);
      var r := RStrip(p);
      assert forall i :: 0 <= i < |r| ==> r[i] == p[i];
      UncommentedBare(r);
      RStripOfRStrip(p);
      UncommentedBare("");
    } else {
      RStripAfter(p, v);
      UncommentedAfter(p, RStrip(v));
    }
  }

  /** A value that begins with no space is left stripped. */
  lemma BaredIsStripped(v: string)
    requires v == "" || !IsSpace(v[0])
    ensures Stripped(Bared(v)) && Bared(v) <= v
  {
    hide RStrip, CommentAt, IsSpace;
  }

  // ---------------------------------------------------------------------------------------
  // Reading a written line
  // ---------------------------------------------------------------------------------------

  predicate KeyChar(c: char) {
    'a' <= c <= 'z' || 'A' <= c <= 'Z' || c == '_'
  }

  predicate IsKey(key: string) {
    key != "" && forall i :: 0 <= i < |key| ==> KeyChar(key[i])
  }

  /** What an item is read as; what is left of an empty one is its dash. */
  function ItemValue(py: Python, v: string): Scalar {
    AsItem(py, ParseScalar(py, if Bared(v) == "" then "-" else Bared(v)))
  }

  function NameValue(py: Python, v: string): Value {
    if Bared(v) == "" then Many([]) else ParseScalar(py, Bared(v))
  }

  lemma {:induction false} ColonAfter(key: string, rest: string)
    requires forall i :: 0 <= i < |key| ==> key[i] != ':'
    ensures ColonAt(key + ":" + rest) == |key|
  {
    var s := key + ":" + rest;
    var n := ColonAt(s);
    assert s[|key|] == ':';
    hide ColonAt;
  }

  lemma StripNothing()
    ensures Strip("") == ""
  {}

  lemma StripStripped(s: string)
    requires Stripped(s)
    ensures Strip(s) == s && RStrip(s) == s
  {
    hide *;
    if s == "" {
      StripNothing();
    } else {
      Facts(s);
      StripUnique("", s);
      assert "" + s == s;
      RStripUnique(s, s);
    }
  }

  lemma Facts(s: string)
    requires Stripped(s) && s != ""
    ensures AllSpace("") && AllSpace(s[|s|..]) && !IsSpace(s[|s| - 1]) && AllSpace(" ") && AllSpace("  ")
  {}

  lemma KeyIsPlain(key: string)
    requires IsKey(key)
    ensures Stripped(key) && key != "" && !IsSpace(key[0]) && key[0] != ' '
    ensures forall i :: 0 <= i < |key| ==> Bare(key[i]) && key[i] != ':'
  {}

  /** A line that is a key, a colon, and perhaps a value. */
  lemma KeyLinePlain(key: string, rest: string)
    requires IsKey(key) && (rest == "" || !IsSpace(rest[|rest| - 1]))
    ensures var line := key + ":" + rest;
            line != "" && Stripped(line) && Indent(line) == 0 && ColonAt(line) == |key| < |line|
  {
    KeyIsPlain(key);
    ColonAfter(key, rest);
    hide ColonAt, IsKey;
    var line := key + ":" + rest;
    assert line[0] == key[0];
    assert line[|line| - 1] == if rest == "" then ':' else rest[|rest| - 1];
  }

  lemma KeyLineRead(py: Python, s: State, raw: string, key: string, rest: string)
    requires IsKey(key) && (rest == "" || !IsSpace(rest[|rest| - 1]))
    requires Uncommented(RStrip(raw)) == key + ":" + rest
    ensures AfterLine(py, s, raw) ==
            State(s.payload[key := if Strip(rest) == "" then Many([]) else ParseScalar(py, Strip(rest))], key)
  {
    var line := key + ":" + rest;
    hide RStrip, LStrip, Strip, IsSpace, Stripped, Uncommented, ColonAt, Indent, ParseScalar, IsKey, Bare;
    KeyLinePlain(key, rest);
    KeyIsPlain(key);
    StripStripped(line);
    StripStripped(key);
    assert line[..|key|] == key && line[|key| + 1..] == rest;
  }

  lemma SectionRead(py: Python, s: State, key: string)
    requires IsKey(key)
    ensures AfterLine(py, s, key + ":") == State(s.payload[key := Many([])], key)
  {
    var line := key + ":";
    assert line + "" == line;
    hide *;
    KeyLinePlain(key, "");
    StripStripped(line);
    SectionLineIsBare(key);
    UncommentedBare(line);
    KeyLineRead(py, s, line, key, "");
    StripNothing();
  }

  lemma SectionLineIsBare(key: string)
    requires IsKey(key)
    ensures forall i :: 0 <= i < |key + ":"| ==> Bare((key + ":")[i])
    ensures forall i :: 0 <= i < |key + ": "| ==> Bare((key + ": ")[i])
  {}

  lemma NameRead(py: Python, s: State, key: string, v: string)
    requires IsKey(key) && v != "" && Stripped(v)
    ensures AfterLine(py, s, NameLine(key, v)) == State(s.payload[key := NameValue(py, v)], key)
  {
    var p, u := key + ": ", Bared(v);
    var rest := if u == "" then "" else " " + u;
    assert NameLine(key, v) == p + v && (if u == "" then key + ":" else p + u) == key + ":" + rest;
    assert NameValue(py, v) == if u == "" then Many([]) else ParseScalar(py, u);
    hide *;
    SectionLineIsBare(key);
    LineOf(p, v);
    NameGap(key);
    StartsPlain(v);
    BaredIsStripped(v);
    RestOf(u, rest);
    KeyLineRead(py, s, p + v, key, rest);
  }

  lemma StartsPlain(v: string)
    requires Stripped(v)
    ensures v == "" || !IsSpace(v[0])
  {}

  lemma NameGap(key: string)
    requires IsKey(key)
    ensures RStrip(key + ": ") == key + ":"
  {
    hide *;
    KeyLinePlain(key, "");
    assert key + ":" + "" == key + ":";
    StripStripped(key + ":");
    Facts(key + ":");
    RStripSpace(key + ":", " ");
    assert key + ":" + " " == key + ": ";
  }

  lemma RStripSpace(p: string, gap: string)
    requires RStrip(p) == p && AllSpace(gap)
    ensures RStrip(p + gap) == p
  {
    hide RStrip, IsSpace;
    assert (p + gap)[..|p|] == p && (p + gap)[|p|..] == gap;
    RStripUnique(p + gap, p);
  }

  lemma RestOf(u: string, rest: string)
    requires Stripped(u) && rest == if u == "" then "" else " " + u
    ensures Strip(rest) == u && (rest == "" || !IsSpace(rest[|rest| - 1]))
  {
    hide RStrip, LStrip, Strip, IsSpace;
    if u == "" {
      StripNothing();
    } else {
      Facts(u);
      StripUnique(" ", u);
    }
  }

  lemma ItemRead(py: Python, s: State, v: string)
    requires s.current != "" && Stripped(v)
    ensures AfterLine(py, s, ItemLine(v)) == Appended(s, ItemValue(py, v))
  {
    var u := Bared(v);
    var stripped := if u == "" then "-" else "- " + u;
    hide RStrip, LStrip, Strip, Stripped, IsSpace, AllSpace, Uncommented, ColonAt, Bared, ParseScalar, Appended, Indent;
    ItemLineIs(v, stripped);
    DeepEnough("  " + stripped);
    if u != "" {
      assert stripped[2..] == u;
      StripStripped(u);
    }
  }

  /** What an item's line is once its comment and outer spaces are gone. */
  lemma ItemLineIs(v: string, stripped: string)
    requires Stripped(v) && stripped == if Bared(v) == "" then "-" else "- " + Bared(v)
    ensures Stripped(Bared(v)) && Strip("  " + stripped) == stripped
    ensures Uncommented(RStrip(ItemLine(v))) == "  " + stripped
  {
    hide *;
    var p, u := "  - ", Bared(v);
    ItemPrefix(v, p);
    assert u != "" ==> p + u == "  " + stripped;
    StartsPlain(v);
    BaredIsStripped(v);
    LineOf(p, v);
    DashFacts(u, stripped);
    StripUnique("  ", stripped);
  }

  lemma ItemPrefix(v: string, p: string)
    requires p == "  - "
    ensures ItemLine(v) == p + v && forall i :: 0 <= i < |p| ==> Bare(p[i])
  {}

  lemma DashFacts(u: string, stripped: string)
    requires Stripped(u) && stripped == if u == "" then "-" else "- " + u
    ensures stripped != "" && Stripped(stripped) && AllSpace("  ") && RStrip("  - ") == "  -"
  {
    var dash := "  -";
    assert Stripped("-") && dash + " " == "  - " && AllSpace(" ") && dash[..3] == dash;
    assert AllSpace(dash[3..]) && !IsSpace(dash[2]);
    hide RStrip, IsSpace;
    RStripUnique(dash, dash);
    RStripSpace(dash, " ");
    assert stripped[|stripped| - 1] == if u == "" then '-' else u[|u| - 1];
  }

  lemma DeepEnough(line: string)
    requires |line| > 0 && line[0] == ' '
    ensures Indent(line) > 0
  {}

  // ---------------------------------------------------------------------------------------
  // Reading the written sections
  // ---------------------------------------------------------------------------------------

  lemma {:induction false} AfterLinesAdds(py: Python, s: State, a: seq<string>, b: seq<string>)
    ensures AfterLines(py, s, a + b) == AfterLines(py, AfterLines(py, s, a), b)
  {
    hide AfterLine;
    if b == [] {
      assert a + b == a;
    } else {
      assert (a + b)[..|a + b| - 1] == a + b[..|b| - 1];
      AfterLinesAdds(py, s, a, b[..|b| - 1]);
    }
  }

  lemma OneLineMore(py: Python, s: State, line: string)
    ensures AfterLines(py, s, [line]) == AfterLine(py, s, line)
  {
    hide AfterLine;
    assert [line][..0] == [];
  }

  function ItemValues(py: Python, values: seq<string>): (r: seq<Scalar>)
    ensures |r| == |values| && forall i :: 0 <= i < |r| ==> r[i] == ItemValue(py, values[i])
  {
    seq(|values|, i requires 0 <= i < |values| => ItemValue(py, values[i]))
  }

  predicate AllStripped(values: seq<string>) {
    forall i :: 0 <= i < |values| ==> Stripped(values[i])
  }

  lemma {:induction false} ItemsRead(py: Python, s: State, key: string, values: seq<string>)
    requires s == State(s.payload, key) && key != "" && key in s.payload && s.payload[key] == Many([])
    requires AllStripped(values)
    ensures AfterLines(py, s, ItemLines(values)) == State(s.payload[key := Many(ItemValues(py, values))], key)
  {
    hide AfterLine, ItemValue, ItemLine, Stripped;
    if values == [] {
      assert s.payload[key := Many([])] == s.payload;
    } else {
      var n := |values| - 1;
      ItemsRead(py, s, key, values[..n]);
      assert ItemLines(values)[..n] == ItemLines(values[..n]);
      var t := AfterLines(py, s, ItemLines(values[..n]));
      ItemRead(py, t, values[n]);
      assert ItemValues(py, values[..n]) + [ItemValue(py, values[n])] == ItemValues(py, values);
    }
  }

  lemma SectionReads(py: Python, s: State, key: string, values: seq<string>)
    requires IsKey(key) && AllStripped(values)
    ensures AfterLines(py, s, SectionLines(key, values))
            == State(s.payload[key := Many(ItemValues(py, Shown(values)))], key)
  {
    hide AfterLine, AfterLines, ItemValue, Stripped;
    var t := State(s.payload[key := Many([])], key);
    AfterLinesAdds(py, s, [key + ":"], ItemLines(Shown(values)));
    OneLineMore(py, s, key + ":");
    SectionRead(py, s, key);
    EmptyIsStripped();
    ItemsRead(py, t, key, Shown(values));
    assert t.payload[key := Many(ItemValues(py, Shown(values)))]
      == s.payload[key := Many(ItemValues(py, Shown(values)))];
  }

  lemma EmptyIsStripped()
    ensures Stripped("")
  {}

  lemma KeysDiffer()
    ensures IsKey(USER_NAME) && IsKey(ASSISTANT_NAME) && IsKey(LANGUAGE)
    ensures forall i :: 0 <= i < |SECTIONS| ==> IsKey(SECTIONS[i])
    ensures forall i :: 0 <= i < |SECTIONS| ==> SECTIONS[i] !in {USER_NAME, ASSISTANT_NAME, LANGUAGE}
    ensures Distinct(SECTIONS) && Distinct([USER_NAME, ASSISTANT_NAME, LANGUAGE])
  {
    assert forall i :: 0 <= i < |SECTIONS| ==> SECTIONS[i][0] == "PSBRP"[i] && |SECTIONS[i]| == [7, 6, 10, 5, 8][i];
    assert USER_NAME[0] == 'u' && ASSISTANT_NAME[0] == 'a' && LANGUAGE[0] == 'l';
  }

  /** The sections read hold the items, and nothing else has changed. */
  ghost predicate SectionsIn(py: Python, before: map<string, Value>, keys: seq<string>, sections: seq<seq<string>>,
                             n: nat, after: map<string, Value>)
    requires n <= |sections| && n <= |keys|
  {
    && (forall i :: 0 <= i < n ==> keys[i] in after && after[keys[i]] == Many(ItemValues(py, Shown(sections[i]))))
    && forall key :: key !in keys && key in before ==> key in after && after[key] == before[key]
  }

  lemma OneSectionMore(py: Python, before: map<string, Value>, keys: seq<string>, sections: seq<seq<string>>, n: nat,
                       after: map<string, Value>)
    requires 0 < n <= |sections| && n <= |keys| && Distinct(keys)
    requires SectionsIn(py, before, keys, sections, n - 1, after)
    ensures SectionsIn(py, before, keys, sections, n,
                       after[keys[n - 1] := Many(ItemValues(py, Shown(sections[n - 1])))])
  {
    hide ItemValues, Shown;
  }

  lemma {:induction false} SectionsRead(py: Python, s: State, keys: seq<string>, sections: seq<seq<string>>, n: nat)
    requires n <= |sections| && n <= |keys| && Distinct(keys)
    requires forall i :: 0 <= i < n ==> IsKey(keys[i]) && AllStripped(sections[i])
    ensures SectionsIn(py, s.payload, keys, sections, n, AfterLines(py, s, SectionsLines(keys, sections, n)).payload)
  {
    hide AfterLine, AllStripped, SectionLines, IsKey, ItemValues, Shown;
    if n > 0 {
      hide SectionsIn, Distinct;
      SectionsRead(py, s, keys, sections, n - 1);
      var t := AfterLines(py, s, SectionsLines(keys, sections, n - 1));
      hide AfterLines;
      OneSectionMore(py, s.payload, keys, sections, n, t.payload);
      SectionReads(py, t, keys[n - 1], sections[n - 1]);
      AfterLinesAdds(py, s, SectionsLines(keys, sections, n - 1), SectionLines(keys[n - 1], sections[n - 1]));
    }
  }

  // ---------------------------------------------------------------------------------------
  // Lines and text
  // ---------------------------------------------------------------------------------------

  predicate OneLine(s: string) {
    forall i :: 0 <= i < |s| ==> !BreaksLine(s[i])
  }

  predicate AllOneLine(lines: seq<string>) {
    forall i :: 0 <= i < |lines| ==> OneLine(lines[i])
  }

  lemma {:induction false} JoinHead(line: string, rest: seq<string>)
    requires rest != []
    ensures Join([line] + rest) == line + "\n" + Join(rest)
  {
    var all := [line] + rest;
    if |rest| == 1 {
      assert all[..1] == [line];
    } else {
      var front := rest[..|rest| - 1];
      JoinHead(line, front);
      assert all[..|all| - 1] == [line] + front;
    }
  }

  lemma SplitFirst(line: string, rest: string)
    requires OneLine(line)
    ensures SplitLines(line + "\n" + rest) == [line] + SplitLines(rest)
  {
    var s := line + "\n" + rest;
    assert s[|line|] == '\n' && BreaksLine('\n');
    assert forall i :: 0 <= i < |line| ==> s[i] == line[i];
    assert LineEnd(s) == |line|;
    assert s[|line| + 1..] == rest && s[..|line|] == line;
  }

  lemma {:induction false} SplitJoined(lines: seq<string>)
    requires lines != [] && AllOneLine(lines)
    ensures SplitLines(Join(lines) + "\n") == lines
  {
    if |lines| == 1 {
      SplitFirst(lines[0], "");
      assert lines[0] + "\n" + "" == lines[0] + "\n" && [lines[0]] + [] == lines;
    } else {
      var rest := lines[1..];
      assert lines == [lines[0]] + rest;
      SplitJoined(rest);
      JoinHead(lines[0], rest);
      SplitFirst(lines[0], Join(rest) + "\n");
      assert lines[0] + "\n" + (Join(rest) + "\n") == Join(lines) + "\n";
    }
  }

  lemma JoinStripped(lines: seq<string>)
    requires lines != [] && RStrip(lines[|lines| - 1]) != ""
    ensures RStrip(Join(lines)) == Join(lines[..|lines| - 1] + [RStrip(lines[|lines| - 1])])
  {
    var front, last := lines[..|lines| - 1], lines[|lines| - 1];
    hide RStrip;
    assert (front + [RStrip(last)])[..|front|] == front;
    if |lines| > 1 {
      RStripAfter(Join(front) + "\n", last);
    }
  }

  /** The lines of a card that is already in normal form. */
  function CardLines(n: Fields): seq<string>
    requires |n.sections| == |SECTIONS|
  {
    NameLines(n) + SectionsLines(SECTIONS, n.sections, |SECTIONS|)
  }

  lemma AfterLineStripped(py: Python, s: State, raw: string)
    ensures AfterLine(py, s, RStrip(raw)) == AfterLine(py, s, raw)
  {
    RStripOfRStrip(raw);
    hide RStrip, Strip, Uncommented, Indent, ColonAt, ParseScalar;
  }

  /** Trailing space of the whole text is no loss: it is only the last line's. */
  lemma TextReads(py: Python, s: State, lines: seq<string>)
    requires lines != [] && AllOneLine(lines) && RStrip(lines[|lines| - 1]) != ""
    ensures AfterLines(py, s, SplitLines(RStrip(Join(lines)) + "\n")) == AfterLines(py, s, lines)
  {
    var front, last := lines[..|lines| - 1], lines[|lines| - 1];
    var kept := front + [RStrip(last)];
    assert AllOneLine(kept);
    assert lines == front + [last];
    hide *;
    JoinStripped(lines);
    SplitJoined(kept);
    AfterLinesAdds(py, s, front, [last]);
    AfterLinesAdds(py, s, front, [RStrip(last)]);
    OneLineMore(py, AfterLines(py, s, front), last);
    OneLineMore(py, AfterLines(py, s, front), RStrip(last));
    AfterLineStripped(py, AfterLines(py, s, front), last);
  }

  // ---------------------------------------------------------------------------------------
  // Normal form
  // ---------------------------------------------------------------------------------------

  lemma {:induction false} LinesAreStripped(values: seq<string>)
    ensures AllStripped(LinesOf(values)) && "" !in LinesOf(values)
  {
    hide Strip, Stripped;
    if values != [] {
      LinesAreStripped(values[..|values| - 1]);
      StripIsStripped(values[|values| - 1]);
    }
  }

  /** What a written card may hold: every value on one line. Names are not empty. */
  predicate Writable(n: Fields) {
    && |n.sections| == |SECTIONS|
    && (forall name <- [n.userName, n.assistantName, n.language] :: name != "" && Stripped(name) && OneLine(name))
    && (forall i :: 0 <= i < |n.sections| ==>
          AllStripped(n.sections[i]) && AllOneLine(n.sections[i]) && "" !in n.sections[i])
  }

  /** What is normalized can be written, if it holds no line break and the default names are proper ones. */
  lemma NormalIsWritable(d: Defaults, f: Fields)
    requires |f.sections| == |SECTIONS|
    requires forall name <- [d.userName, d.assistantName, d.language] :: name != "" && Stripped(name)
    requires var n := Normalized(d, f);
             && (forall name <- [n.userName, n.assistantName, n.language] :: OneLine(name))
             && forall i :: 0 <= i < |n.sections| ==> AllOneLine(n.sections[i])
    ensures Writable(Normalized(d, f))
  {
    var n := Normalized(d, f);
    hide Strip, Stripped, LinesOf, OneLine;
    StripIsStripped(f.userName);
    StripIsStripped(f.assistantName);
    StripIsStripped(f.language);
    assert d.userName in [d.userName, d.assistantName, d.language];
    assert d.assistantName in [d.userName, d.assistantName, d.language];
    assert d.language in [d.userName, d.assistantName, d.language];
    assert n.userName in [n.userName, n.assistantName, n.language];
    assert n.assistantName in [n.userName, n.assistantName, n.language];
    assert n.language in [n.userName, n.assistantName, n.language];
    forall i | 0 <= i < |n.sections|
      ensures AllStripped(n.sections[i]) && "" !in n.sections[i]
    {
      LinesAreStripped(f.sections[i]);
    }
  }
}
