/** When a card that character/cards.py has written reads back as it was. */
module CardRoundTrip {
  import opened Cards
  import opened Common
  import opened Text
  import opened WrittenCards

  // ---------------------------------------------------------------------------------------
  // The whole card
  // ---------------------------------------------------------------------------------------

  /** What a name reads back as. */
  function NameBack(py: Python, v: string, default: string): string {
    var read := AsItem(py, NameValue(py, v));
    if read.truthy then NameOr(read.text, default) else default
  }

  /** What a section reads back as. */
  function SectionBack(py: Python, values: seq<string>): seq<string> {
    LinesOf(TextsOf(ItemValues(py, Shown(values))))
  }

  function ReadBack(py: Python, d: Defaults, n: Fields): Fields {
    Fields(NameBack(py, n.userName, d.userName), NameBack(py, n.assistantName, d.assistantName),
           NameBack(py, n.language, d.language),
           seq(|n.sections|, i requires 0 <= i < |n.sections| => SectionBack(py, n.sections[i])))
  }

  lemma SectionOneLine(key: string, values: seq<string>)
    requires IsKey(key) && AllOneLine(values)
    ensures AllOneLine(SectionLines(key, values))
  {
    var lines := SectionLines(key, values);
    forall i | 0 <= i < |lines|
      ensures OneLine(lines[i])
    {
      if i == 0 {
        assert lines[i] == key + ":";
      } else {
        assert lines[i] == "  - " + Shown(values)[i - 1];
      }
    }
  }

  lemma {:induction false} SectionsOneLine(keys: seq<string>, sections: seq<seq<string>>, n: nat)
    requires n <= |sections| && n <= |keys|
    requires forall i :: 0 <= i < n ==> IsKey(keys[i]) && AllOneLine(sections[i])
    ensures AllOneLine(SectionsLines(keys, sections, n))
  {
    hide SectionLines, IsKey, OneLine;
    if n > 0 {
      SectionsOneLine(keys, sections, n - 1);
      SectionOneLine(keys[n - 1], sections[n - 1]);
    }
  }

  lemma LastLine(keys: seq<string>, sections: seq<seq<string>>, n: nat) returns (item: string)
    requires 0 < n <= |sections| && n <= |keys|
    ensures var lines := SectionsLines(keys, sections, n); lines != [] && lines[|lines| - 1] == ItemLine(item)
  {
    var values := Shown(sections[n - 1]);
    item := values[|values| - 1];
    hide ItemLine;
  }

  lemma ItemLineIsNotSpace(v: string)
    ensures RStrip(ItemLine(v)) != ""
  {
    assert ItemLine(v)[2] == '-' && !IsSpace('-');
    SomethingStays(ItemLine(v), 2);
  }

  lemma SomethingStays(s: string, i: nat)
    requires i < |s| && !IsSpace(s[i])
    ensures RStrip(s) != ""
  {
    hide RStrip, IsSpace;
    assert s[0..] == s && s[i] in s;
  }

  lemma NamesRead(py: Python, s: State, n: Fields)
    requires Writable(n)
    ensures var payload := AfterLines(py, s, NameLines(n)).payload;
            && USER_NAME in payload && payload[USER_NAME] == NameValue(py, n.userName)
            && ASSISTANT_NAME in payload && payload[ASSISTANT_NAME] == NameValue(py, n.assistantName)
            && LANGUAGE in payload && payload[LANGUAGE] == NameValue(py, n.language)
  {
    KeysDiffer();
    var names := [n.userName, n.assistantName, n.language];
    assert names[0] in names && names[1] in names && names[2] in names;
    var u, a, l := NameLine(USER_NAME, n.userName), NameLine(ASSISTANT_NAME, n.assistantName),
      NameLine(LANGUAGE, n.language);
    assert NameLines(n) == [u] + [a] + [l];
    assert Distinct([USER_NAME, ASSISTANT_NAME, LANGUAGE]);
    assert [USER_NAME, ASSISTANT_NAME, LANGUAGE][0] != [USER_NAME, ASSISTANT_NAME, LANGUAGE][1];
    assert [USER_NAME, ASSISTANT_NAME, LANGUAGE][1] != [USER_NAME, ASSISTANT_NAME, LANGUAGE][2];
    assert [USER_NAME, ASSISTANT_NAME, LANGUAGE][0] != [USER_NAME, ASSISTANT_NAME, LANGUAGE][2];
    ThreeNamesRead(py, s, USER_NAME, ASSISTANT_NAME, LANGUAGE, n.userName, n.assistantName, n.language);
  }

  lemma ThreeNamesRead(py: Python, s: State, ku: string, ka: string, kl: string, u: string, a: string, l: string)
    requires IsKey(ku) && IsKey(ka) && IsKey(kl) && ku != ka && ka != kl && ku != kl
    requires u != "" && a != "" && l != "" && Stripped(u) && Stripped(a) && Stripped(l)
    ensures var payload := AfterLines(py, s, [NameLine(ku, u)] + [NameLine(ka, a)] + [NameLine(kl, l)]).payload;
            && ku in payload && payload[ku] == NameValue(py, u)
            && ka in payload && payload[ka] == NameValue(py, a)
            && kl in payload && payload[kl] == NameValue(py, l)
  {
    hide *;
    var s1 := AfterLines(py, s, [NameLine(ku, u)]);
    OneLineMore(py, s, NameLine(ku, u));
    NameRead(py, s, ku, u);
    var s2 := AfterLines(py, s1, [NameLine(ka, a)]);
    AfterLinesAdds(py, s, [NameLine(ku, u)], [NameLine(ka, a)]);
    OneLineMore(py, s1, NameLine(ka, a));
    NameRead(py, s1, ka, a);
    AfterLinesAdds(py, s, [NameLine(ku, u)] + [NameLine(ka, a)], [NameLine(kl, l)]);
    OneLineMore(py, s2, NameLine(kl, l));
    NameRead(py, s2, kl, l);
  }

  /** A written card reads back value by value; an empty section reads back as its placeholder. */
  lemma ReadsBack(py: Python, d: Defaults, n: Fields, text: string)
    requires Writable(n) && text == RStrip(Join(CardLines(n))) + "\n"
    ensures ToFields(py, d, Parsed(py, text)) == ReadBack(py, d, n)
  {
    var start := State(map[], "");
    var lines := CardLines(n);
    CardIsLines(n);
    TextReads(py, start, lines);
    AfterLinesAdds(py, start, NameLines(n), SectionsLines(SECTIONS, n.sections, |SECTIONS|));
    var named := AfterLines(py, start, NameLines(n));
    NamesRead(py, start, n);
    KeysDiffer();
    SectionsRead(py, named, SECTIONS, n.sections, |SECTIONS|);
    var payload := AfterLines(py, named, SectionsLines(SECTIONS, n.sections, |SECTIONS|)).payload;
    assert Parsed(py, text) == payload;
    FieldsOf(py, d, n, named.payload, payload);
  }

  lemma CardIsLines(n: Fields)
    requires Writable(n)
    ensures var lines := CardLines(n); lines != [] && AllOneLine(lines) && RStrip(lines[|lines| - 1]) != ""
  {
    KeysDiffer();
    SectionsOneLine(SECTIONS, n.sections, |SECTIONS|);
    var item := LastLine(SECTIONS, n.sections, |SECTIONS|);
    ItemLineIsNotSpace(item);
    NamesOneLine(n);
    hide *;
    AddLines(NameLines(n), SectionsLines(SECTIONS, n.sections, |SECTIONS|), CardLines(n));
  }

  lemma AddLines(a: seq<string>, b: seq<string>, all: seq<string>)
    requires AllOneLine(a) && AllOneLine(b) && b != [] && all == a + b
    ensures AllOneLine(all) && all != [] && all[|all| - 1] == b[|b| - 1]
  {
    hide OneLine;
  }

  lemma NamesOneLine(n: Fields)
    requires Writable(n)
    ensures AllOneLine(NameLines(n))
  {
    KeysDiffer();
    var names := [n.userName, n.assistantName, n.language];
    assert names[0] in names && names[1] in names && names[2] in names;
    NameOneLine(USER_NAME, n.userName);
    NameOneLine(ASSISTANT_NAME, n.assistantName);
    NameOneLine(LANGUAGE, n.language);
    hide OneLine, NameLine;
  }

  lemma NameOneLine(key: string, name: string)
    requires IsKey(key) && OneLine(name)
    ensures OneLine(NameLine(key, name))
  {
    assert NameLine(key, name) == key + ": " + name;
  }

  lemma FieldsOf(py: Python, d: Defaults, n: Fields, named: map<string, Value>, payload: map<string, Value>)
    requires |n.sections| == |SECTIONS| && SectionsIn(py, named, SECTIONS, n.sections, |SECTIONS|, payload)
    requires USER_NAME in named && named[USER_NAME] == NameValue(py, n.userName)
    requires ASSISTANT_NAME in named && named[ASSISTANT_NAME] == NameValue(py, n.assistantName)
    requires LANGUAGE in named && named[LANGUAGE] == NameValue(py, n.language)
    ensures ToFields(py, d, payload) == ReadBack(py, d, n)
  {
    KeysDiffer();
    hide NameValue, ItemValues, IsKey, NameOr, LinesOf, TextsOf, Shown;
    assert USER_NAME !in SECTIONS && ASSISTANT_NAME !in SECTIONS && LANGUAGE !in SECTIONS;
    var got, back := ToFields(py, d, payload), ReadBack(py, d, n);
    forall i | 0 <= i < |SECTIONS|
      ensures got.sections[i] == back.sections[i]
    {}
  }

  // ---------------------------------------------------------------------------------------
  // Exactly when nothing changes
  // ---------------------------------------------------------------------------------------

  /** A name, or an item, that reads back as itself. */
  predicate NameStays(py: Python, v: string, default: string) {
    NameBack(py, v, default) == v
  }

  predicate ItemStays(py: Python, v: string) {
    Strip(ItemValue(py, v).text) == v
  }

  lemma {:induction false} LinesFewer(values: seq<string>)
    ensures |LinesOf(values)| <= |values|
  {
    hide Strip;
    if values != [] {
      LinesFewer(values[..|values| - 1]);
    }
  }

  lemma {:induction false} LinesStayIff(read: seq<string>, values: seq<string>)
    requires |read| == |values| && "" !in values
    ensures LinesOf(read) == values <==> forall i :: 0 <= i < |values| ==> Strip(read[i]) == values[i]
  {
    hide Strip;
    if values != [] {
      var n := |values| - 1;
      LinesStayIff(read[..n], values[..n]);
      LinesFewer(read[..n]);
      assert values == values[..n] + [values[n]] && values[n] in values;
      var front := LinesOf(read[..n]);
      assert LinesOf(read) == front + if Strip(read[n]) == "" then [] else [Strip(read[n])];
      if LinesOf(read) == values {
        assert |front| == n && front == values[..n];
        assert Strip(read[n]) == values[n];
      }
    }
  }

  lemma SectionStaysIff(py: Python, values: seq<string>)
    requires "" !in values && py.number("-").None?
    ensures SectionBack(py, values) == values <==>
              values != [] && forall i :: 0 <= i < |values| ==> ItemStays(py, values[i])
    ensures values == [] ==> SectionBack(py, values) == ["-"]
  {
    if values == [] {
      PlaceholderIsDash(py);
    } else {
      LinesStayIff(TextsOf(ItemValues(py, values)), values);
      hide Strip, ItemValue, LinesOf;
    }
  }

  /** The placeholder of an empty section is read as an item, its own dash. */
  lemma PlaceholderIsDash(py: Python)
    requires py.number("-").None?
    ensures SectionBack(py, []) == ["-"]
  {
    hide *;
    var shown, items := [""], ItemValues(py, [""]);
    EmptyItem(py, shown[0], items[0]);
    DashStaysLine(items);
    PlaceholderOnly(py);
  }

  lemma PlaceholderOnly(py: Python)
    ensures SectionBack(py, []) == LinesOf(TextsOf(ItemValues(py, [""])))
  {
    hide LinesOf, ItemValue;
  }

  lemma EmptyItem(py: Python, v: string, item: Scalar)
    requires py.number("-").None? && v == "" && item == ItemValue(py, v)
    ensures item.text == "-"
  {
    BaredNothing(v);
    assert ItemValue(py, v) == AsItem(py, ParseScalar(py, "-"));
    hide *;
    DashIsWord(py, "-");
    WordIsItem(py, "-");
  }

  lemma WordIsItem(py: Python, word: string)
    ensures AsItem(py, One(Word(word))).text == word
  {}

  lemma DashStaysLine(items: seq<Scalar>)
    requires |items| == 1 && items[0].text == "-"
    ensures LinesOf(TextsOf(items)) == ["-"]
  {
    var texts := TextsOf(items);
    hide *;
    DashStripped(texts[0]);
    OneLineOf(texts, texts[0]);
  }

  lemma DashStripped(dash: string)
    requires dash == "-"
    ensures Strip(dash) == dash
  {
    assert Stripped(dash);
    hide *;
    StripStripped(dash);
  }

  lemma OneLineOf(texts: seq<string>, line: string)
    requires |texts| == 1 && texts[0] == line && Strip(line) == line && line != ""
    ensures LinesOf(texts) == [line]
  {
    hide Strip;
    assert texts[..0] == [];
  }

  lemma BaredNothing(v: string)
    requires v == ""
    ensures Bared(v) == ""
  {}

  lemma DashIsWord(py: Python, dash: string)
    requires py.number(dash).None? && dash == "-"
    ensures ParseScalar(py, dash) == One(Word(dash))
  {
    hide Strip;
    assert Lower(dash) == dash by {
      assert dash[1..] == "";
    }
    assert StripQuotes(dash) == dash;
  }

  predicate NoneEmpty(sections: seq<seq<string>>) {
    forall i :: 0 <= i < |sections| ==> sections[i] != []
  }

  predicate SectionStays(py: Python, values: seq<string>) {
    values != [] && forall j :: 0 <= j < |values| ==> ItemStays(py, values[j])
  }

  /** Every value of the card reads back as itself, and no section is empty. */
  predicate CardStays(py: Python, d: Defaults, n: Fields) {
    && NameStays(py, n.userName, d.userName)
    && NameStays(py, n.assistantName, d.assistantName)
    && NameStays(py, n.language, d.language)
    && forall i :: 0 <= i < |n.sections| ==> SectionStays(py, n.sections[i])
  }

  lemma SameBackIff(py: Python, d: Defaults, n: Fields)
    requires Writable(n) && py.number("-").None?
    ensures ReadBack(py, d, n) == n <==> CardStays(py, d, n)
  {
    var back := ReadBack(py, d, n);
    forall i | 0 <= i < |n.sections|
      ensures back.sections[i] == n.sections[i] <==> SectionStays(py, n.sections[i])
    {
      SectionStaysIff(py, n.sections[i]);
      hide SectionBack, ItemStays;
    }
    hide SectionStays, NameBack, SectionBack, Writable;
    if CardStays(py, d, n) {
      assert back.sections == n.sections;
    }
  }

  /**
   * A card that is written reads back the same if and only if no section is empty and every value
   * reads back as itself.
   */
  lemma RoundTripIff(py: Python, d: Defaults, f: Fields)
    requires |f.sections| == |SECTIONS| && Writable(Normalized(d, f)) && py.number("-").None?
    ensures ToFields(py, d, Parsed(py, Rendered(d, f))) == Normalized(d, f) <==> CardStays(py, d, Normalized(d, f))
  {
    var n, text := Normalized(d, f), Rendered(d, f);
    assert text == RStrip(Join(CardLines(n))) + "\n";
    hide *;
    ReadsBack(py, d, n, text);
    SameBackIff(py, d, n);
  }

  /** A value YAML would not take for anything but text. */
  predicate Plain(py: Python, v: string) {
    && v != "" && Stripped(v)
    && (forall i :: 0 <= i < |v| ==> v[i] != '#')
    && !StartsLiteral(v) && !IsQuote(v[|v| - 1])
    && Lower(v) !in {"true", "false", "null", "none"}
    && py.number(v).None?
  }

  lemma {:induction false} NoHashNoComment(s: string, single: bool, double: bool)
    requires forall i :: 0 <= i < |s| ==> s[i] != '#'
    ensures CommentAt(s, single, double) == |s|
  {
    if s != "" {
      var single' := if s[0] == '\'' && !double then !single else single;
      var double' := if s[0] == '"' && !single then !double else double;
      NoHashNoComment(s[1..], single', double');
    }
  }

  lemma PlainIsText(py: Python, v: string)
    requires Plain(py, v)
    ensures Bared(v) == v && ParseScalar(py, v) == One(Word(v))
  {
    NoHashNoComment(v, false, false);
    assert v[..|v|] == v;
    assert StripQuotes(v) == v;
    hide RStrip, LStrip, Strip, Lower, CommentAt, StripQuotes;
    StripStripped(v);
  }

  /** A plain value stays, as a name and as an item. */
  lemma PlainStays(py: Python, v: string, default: string)
    requires Plain(py, v)
    ensures NameStays(py, v, default) && ItemStays(py, v)
  {
    PlainIsText(py, v);
    hide Strip, Bared, ParseScalar;
    StripStripped(v);
  }

  predicate AllPlain(py: Python, n: Fields) {
    && Plain(py, n.userName) && Plain(py, n.assistantName) && Plain(py, n.language)
    && forall i, j :: 0 <= i < |n.sections| && 0 <= j < |n.sections[i]| ==> Plain(py, n.sections[i][j])
  }

  lemma PlainCardStays(py: Python, d: Defaults, n: Fields)
    requires AllPlain(py, n)
    ensures CardStays(py, d, n) <==> NoneEmpty(n.sections)
  {
    hide Plain, NameStays, ItemStays;
    PlainStays(py, n.userName, d.userName);
    PlainStays(py, n.assistantName, d.assistantName);
    PlainStays(py, n.language, d.language);
    forall i | 0 <= i < |n.sections|
      ensures SectionStays(py, n.sections[i]) <==> n.sections[i] != []
    {
      forall j | 0 <= j < |n.sections[i]|
        ensures ItemStays(py, n.sections[i][j])
      {
        PlainStays(py, n.sections[i][j], "");
      }
    }
  }

  /**
   * A card of plain values reads back the same if and only if no section is empty.
   */
  lemma PlainCardRoundTripIff(py: Python, d: Defaults, f: Fields)
    requires |f.sections| == |SECTIONS| && Writable(Normalized(d, f)) && py.number("-").None?
    requires AllPlain(py, Normalized(d, f))
    ensures ToFields(py, d, Parsed(py, Rendered(d, f))) == Normalized(d, f) <==> NoneEmpty(Normalized(d, f).sections)
  {
    hide *;
    RoundTripIff(py, d, f);
    PlainCardStays(py, d, Normalized(d, f));
  }

  lemma EmptySectionReadsAsDash(py: Python, d: Defaults, f: Fields, i: nat)
    requires |f.sections| == |SECTIONS| && Writable(Normalized(d, f)) && py.number("-").None?
    requires i < |SECTIONS| && Normalized(d, f).sections[i] == []
    ensures ToFields(py, d, Parsed(py, Rendered(d, f))).sections[i] == ["-"]
  {
    var n, text := Normalized(d, f), Rendered(d, f);
    assert text == RStrip(Join(CardLines(n))) + "\n";
    hide Normalized, Rendered, Parsed, ToFields, Writable, SectionBack, NameBack, Join, RStrip;
    ReadsBack(py, d, n, text);
    PlaceholderIsDash(py);
  }
}
