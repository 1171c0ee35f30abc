/** character/cards.py: the small YAML that character cards are kept in, written by one function and read by another. */
module Cards {
  import opened Common
  import opened Text

  /** A value that was read: its `str()`, whether Python takes it for true, and whether it is a string. */
  datatype Scalar = Scalar(text: string, truthy: bool, isText: bool)

  datatype Value = One(scalar: Scalar) | Many(items: seq<Scalar>)

  /** `int`/`float` and `ast.literal_eval`, absent where they raise, and `str` of a list. */
  datatype Python = Python(number: string -> Option<Scalar>, literal: string -> Option<Value>,
                             shown: seq<Scalar> -> string)

  /** What was read so far, and the key that list items go to. */
  datatype State = State(payload: map<string, Value>, current: string)

  /** The fields of a card: three names, and a list of lines for each of `SECTIONS`. */
  datatype Fields = Fields(userName: string, assistantName: string, language: string, sections: seq<seq<string>>)

  const SECTIONS := ["Profile", "Skills", "Background", "Rules", "Prologue"]
  const USER_NAME := "user_name"
  const ASSISTANT_NAME := "assistant_name"
  const LANGUAGE := "language"

  /** What a name falls back to; `character` is the assistant's on a card that names none. */
  datatype Defaults = Defaults(userName: string, assistantName: string, language: string, character: string)

  // ---------------------------------------------------------------------------------------
  // Reading
  // ---------------------------------------------------------------------------------------

  predicate IsQuote(c: char) {
    c == '\'' || c == '"'
  }

  function StripQuotes(s: string): string
    decreases |s|
  {
    if s != "" && IsQuote(s[0]) then StripQuotes(s[1..])
    else if s != "" && IsQuote(s[|s| - 1]) then StripQuotes(s[..|s| - 1])
    else s
  }

  function Word(s: string): Scalar {
    Scalar(s, s != "", true)
  }

  predicate StartsLiteral(value: string) {
    value != "" && (IsQuote(value[0]) || value[0] == '[' || value[0] == '{')
  }

  function ParseScalar(py: Python, value: string): Value {
    var lowered := Lower(value);
    if lowered == "true" then One(Scalar("True", true, false))
    else if lowered == "false" then One(Scalar("False", false, false))
    else if lowered == "null" || lowered == "none" then One(Scalar("None", false, false))
    else if StartsLiteral(value) then
      match py.literal(value) case Some(v) => v case None => One(Word(StripQuotes(value)))
    else
      match py.number(value) case Some(x) => One(x) case None => One(Word(StripQuotes(value)))
  }

  /** The words for a truth value or for nothing are no text, in any case; only "true" counts as something. */
  lemma WordsAreNoText(py: Python, value: string)
    requires Lower(value) in ["true", "false", "null", "none"]
    ensures ParseScalar(py, value).One? && !ParseScalar(py, value).scalar.isText
    ensures ParseScalar(py, value).scalar.truthy <==> Lower(value) == "true"
    ensures ParseScalar(py, value).scalar.text
         == if Lower(value) == "true" then "True" else if Lower(value) == "false" then "False" else "None"
  {}

  /** A value as an item of a list. */
  function AsItem(py: Python, v: Value): Scalar {
    match v case One(scalar) => scalar case Many(items) => Scalar(py.shown(items), items != [], false)
  }

  /** The place of the first `#` outside quotes, or the length. */
  function CommentAt(line: string, single: bool, double: bool): (n: nat)
    ensures n <= |line|
  {
    if line == "" then 0
    else if line[0] == '\'' && !double then 1 + CommentAt(line[1..], !single, double)
    else if line[0] == '"' && !single then 1 + CommentAt(line[1..], single, !double)
    else if line[0] == '#' && !single && !double then 0
    else 1 + CommentAt(line[1..], single, double)
  }

  function Uncommented(line: string): string {
    RStrip(line[..CommentAt(line, false, false)])
  }

  function Indent(line: string): nat {
    if line != "" && line[0] == ' ' then 1 + Indent(line[1..]) else 0
  }

  /** The place of the first colon, or the length. */
  function ColonAt(s: string): (n: nat)
    ensures n <= |s| && (n < |s| ==> s[n] == ':')
    ensures forall i :: 0 <= i < n ==> s[i] != ':'
  {
    if s == "" || s[0] == ':' then 0 else 1 + ColonAt(s[1..])
  }

  /** A list item for the current key; a key that has a single value keeps it. */
  function Appended(s: State, item: Scalar): State {
    if s.current !in s.payload then s.(payload := s.payload[s.current := Many([item])])
    else match s.payload[s.current]
         case One(_) => s
         case Many(items) => s.(payload := s.payload[s.current := Many(items + [item])])
  }

  function Keyed(py: Python, s: State, stripped: string): State {
    var n := ColonAt(stripped);
    if n == |stripped| then s
    else
      var key, value := Strip(stripped[..n]), Strip(stripped[n + 1..]);
      State(s.payload[key := if value == "" then Many([]) else ParseScalar(py, value)], key)
  }

  /** Reads one line. */
  function AfterLine(py: Python, s: State, raw: string): State {
    var line := Uncommented(RStrip(raw));
    var stripped := Strip(line);
    if stripped == "" then s
    else if Indent(line) == 0 && ColonAt(stripped) < |stripped| then Keyed(py, s, stripped)
    else if s.current != "" && stripped[0] == '-' && |stripped| > 1 && stripped[1] == ' ' then
      Appended(s, AsItem(py, ParseScalar(py, Strip(stripped[2..]))))
    else if s.current != "" && Indent(line) > 0 then Appended(s, AsItem(py, ParseScalar(py, stripped)))
    else s
  }

  function AfterLines(py: Python, s: State, lines: seq<string>): State {
    if lines == [] then s else AfterLine(py, AfterLines(py, s, lines[..|lines| - 1]), lines[|lines| - 1])
  }

  predicate BreaksLine(c: char) {
    '\n' <= c <= '\r' || '\U{1c}' <= c <= '\U{1e}' || c == '\U{85}' || c == '\U{2028}' || c == '\U{2029}'
  }

  lemma BreaksLineIff(c: char)
    ensures BreaksLine(c) <==> c in "\n\U{b}\U{c}\r\U{1c}\U{1d}\U{1e}\U{85}\U{2028}\U{2029}"
  {}

  /** The place of the first line break, or the length. */
  function LineEnd(s: string): (n: nat)
    ensures n <= |s| && (n < |s| ==> BreaksLine(s[n]))
    ensures forall i :: 0 <= i < n ==> !BreaksLine(s[i])
  {
    if s == "" || BreaksLine(s[0]) then 0 else 1 + LineEnd(s[1..])
  }

  /** Python's `splitlines`. */
  function SplitLines(s: string): seq<string> {
    if s == "" then []
    else
      var n := LineEnd(s);
      if n == |s| then [s]
      else [s[..n]] + SplitLines(s[n + (if s[n] == '\r' && n + 1 < |s| && s[n + 1] == '\n' then 2 else 1)..])
  }

  lemma {:induction false} LineEndAt(line: string, rest: string)
    requires (forall i :: 0 <= i < |line| ==> !BreaksLine(line[i])) && rest != "" && BreaksLine(rest[0])
    ensures LineEnd(line + rest) == |line|
  {
    if line == "" {
      assert line + rest == rest;
    } else {
      assert (line + rest)[1..] == line[1..] + rest;
      LineEndAt(line[1..], rest);
    }
  }

  /** The two characters of a DOS line break are one. */
  lemma DosBreakIsOne(line: string, rest: string)
    requires forall i :: 0 <= i < |line| ==> !BreaksLine(line[i])
    ensures SplitLines(line + ("\r\n" + rest)) == [line] + SplitLines(rest)
    ensures SplitLines(line + ("\n" + rest)) == [line] + SplitLines(rest)
  {
    var dos, unix := line + ("\r\n" + rest), line + ("\n" + rest);
    LineEndAt(line, "\r\n" + rest);
    LineEndAt(line, "\n" + rest);
    assert dos[|line| + 2..] == rest && unix[|line| + 1..] == rest;
    assert dos[..|line|] == line && unix[..|line|] == line;
  }

  function Parsed(py: Python, content: string): map<string, Value> {
    AfterLines(py, State(map[], ""), SplitLines(content)).payload
  }

  method StripInlineComment(line: string) returns (kept: string)
    ensures kept == Uncommented(line)
  {
    var single, double := false, false;
    var n := 0;
    while n < |line|
      invariant n <= |line|
      invariant CommentAt(line, false, false) == n + CommentAt(line[n..], single, double)
    {
      if line[n] == '\'' && !double {
        single := !single;
      } else if line[n] == '"' && !single {
        double := !double;
      } else if line[n] == '#' && !single && !double {
        break;
      }
      assert line[n..][1..] == line[n + 1..];
      n := n + 1;
    }
    kept := RStrip(line[..n]);
  }

  method ParseCardText(py: Python, content: string) returns (payload: map<string, Value>)
    ensures payload == Parsed(py, content)
  {
    hide SplitLines, Uncommented, Strip, RStrip, ParseScalar;
    var lines := SplitLines(content);
    payload := map[];
    var current := "";
    ghost var start := State(map[], "");
    for i := 0 to |lines|
      invariant State(payload, current) == AfterLines(py, start, lines[..i])
    {
      assert lines[..i + 1][..i] == lines[..i];
      var line := StripInlineComment(RStrip(lines[i]));
      var stripped := Strip(line);
      if stripped == "" {
        continue;
      }
      var indent, colon := Indent(line), ColonAt(stripped);
      if indent == 0 && colon < |stripped| {
        var key, value := Strip(stripped[..colon]), Strip(stripped[colon + 1..]);
        current := key;
        payload := payload[key := if value == "" then Many([]) else ParseScalar(py, value)];
        continue;
      }
      if current != "" && |stripped| > 1 && stripped[0] == '-' && stripped[1] == ' ' {
        payload := AddItem(payload, current, AsItem(py, ParseScalar(py, Strip(stripped[2..]))));
        continue;
      }
      if current != "" && indent > 0 {
        payload := AddItem(payload, current, AsItem(py, ParseScalar(py, stripped)));
      }
    }
    assert lines[..|lines|] == lines;
  }

  method AddItem(before: map<string, Value>, key: string, item: Scalar) returns (payload: map<string, Value>)
    ensures State(payload, key) == Appended(State(before, key), item)
  {
    payload := before;
    assert [] + [item] == [item];
    if key !in payload {
      payload := payload[key := Many([])];
    }
    var existing := payload[key];
    if existing.Many? {
      payload := payload[key := Many(existing.items + [item])];
    }
  }

  // ---------------------------------------------------------------------------------------
  // Normal fields
  // ---------------------------------------------------------------------------------------

  function NameOr(name: string, default: string): string {
    if Strip(name) == "" then default else Strip(name)
  }

  /** The lines that say something. */
  function LinesOf(values: seq<string>): seq<string> {
    if values == [] then []
    else
      var last := Strip(values[|values| - 1]);
      LinesOf(values[..|values| - 1]) + if last == "" then [] else [last]
  }

  function AllLinesOf(sections: seq<seq<string>>): (r: seq<seq<string>>)
    ensures |r| == |sections| && forall i :: 0 <= i < |r| ==> r[i] == LinesOf(sections[i])
  {
    seq(|sections|, i requires 0 <= i < |sections| => LinesOf(sections[i]))
  }

  function Normalized(d: Defaults, f: Fields): Fields {
    Fields(NameOr(f.userName, d.userName), NameOr(f.assistantName, d.assistantName), NameOr(f.language, d.language),
           AllLinesOf(f.sections))
  }

  function TextsOf(items: seq<Scalar>): (r: seq<string>)
    ensures |r| == |items| && forall i :: 0 <= i < |r| ==> r[i] == items[i].text
  {
    seq(|items|, i requires 0 <= i < |items| => items[i].text)
  }

  /** A name that was read; what Python takes for false is no name. */
  function NameIn(py: Python, payload: map<string, Value>, key: string, missing: string, default: string): string {
    if key !in payload then NameOr(missing, default)
    else
      var read := AsItem(py, payload[key]);
      if read.truthy then NameOr(read.text, default) else default
  }

  function LinesIn(payload: map<string, Value>, key: string): seq<string> {
    if key !in payload then []
    else match payload[key]
         case One(scalar) => if scalar.isText then LinesOf([scalar.text]) else []
         case Many(items) => LinesOf(TextsOf(items))
  }

  /** A section of one value is that value if it is text and says something, and else empty. */
  lemma OneValueSection(payload: map<string, Value>, key: string)
    ensures key !in payload ==> LinesIn(payload, key) == []
    ensures key in payload && payload[key].One? ==>
              var line := Strip(payload[key].scalar.text);
              LinesIn(payload, key) == if payload[key].scalar.isText && line != "" then [line] else []
  {
    hide Strip, LinesOf;
    if key in payload && payload[key].One? {
      LinesOfOne(payload[key].scalar.text);
    }
  }

  lemma LinesOfOne(value: string)
    ensures LinesOf([value]) == if Strip(value) != "" then [Strip(value)] else []
  {
    hide Strip;
    var values := [value];
    assert values[..|values| - 1] == [] && LinesOf(values[..|values| - 1]) == [];
  }

  function ToFields(py: Python, d: Defaults, payload: map<string, Value>): Fields {
    Fields(NameIn(py, payload, USER_NAME, d.userName, d.userName),
           NameIn(py, payload, ASSISTANT_NAME, d.character, d.assistantName),
           NameIn(py, payload, LANGUAGE, d.language, d.language),
           seq(|SECTIONS|, i requires 0 <= i < |SECTIONS| => LinesIn(payload, SECTIONS[i])))
  }

  // ---------------------------------------------------------------------------------------
  // Writing
  // ---------------------------------------------------------------------------------------

  function NameLine(key: string, name: string): string {
    key + ": " + name
  }

  function ItemLine(item: string): string {
    "  - " + item
  }

  function ItemLines(items: seq<string>): (r: seq<string>)
    ensures |r| == |items| && forall i :: 0 <= i < |r| ==> r[i] == ItemLine(items[i])
  {
    seq(|items|, i requires 0 <= i < |items| => ItemLine(items[i]))
  }

  /** An empty section is written with one empty item. */
  function Shown(values: seq<string>): seq<string> {
    if values == [] then [""] else values
  }

  function SectionLines(key: string, values: seq<string>): seq<string> {
    [key + ":"] + ItemLines(Shown(values))
  }

  /** The first `n` sections. */
  function SectionsLines(keys: seq<string>, sections: seq<seq<string>>, n: nat): seq<string>
    requires n <= |sections| && n <= |keys|
  {
    if n == 0 then [] else SectionsLines(keys, sections, n - 1) + SectionLines(keys[n - 1], sections[n - 1])
  }

  function NameLines(f: Fields): seq<string> {
    [NameLine(USER_NAME, f.userName), NameLine(ASSISTANT_NAME, f.assistantName), NameLine(LANGUAGE, f.language)]
  }

  /** Python's `"\n".join`. */
  function Join(lines: seq<string>): string {
    if lines == [] then ""
    else if |lines| == 1 then lines[0]
    else Join(lines[..|lines| - 1]) + "\n" + lines[|lines| - 1]
  }

  function Rendered(d: Defaults, f: Fields): string
    requires |f.sections| == |SECTIONS|
  {
    var n := Normalized(d, f);
    RStrip(Join(NameLines(n) + SectionsLines(SECTIONS, n.sections, |SECTIONS|))) + "\n"
  }

  method RenderCardYaml(d: Defaults, f: Fields) returns (text: string)
    requires |f.sections| == |SECTIONS|
    ensures text == Rendered(d, f)
  {
    hide Join, RStrip, NameOr, LinesOf;
    var n := Normalized(d, f);
    var lines := NameLines(n);
    for i := 0 to |SECTIONS|
      invariant lines == NameLines(n) + SectionsLines(SECTIONS, n.sections, i)
    {
      var values := n.sections[i];
      ghost var before := lines;
      lines := lines + [SECTIONS[i] + ":"];
      if values != [] {
        lines := lines + ItemLines(values);
      } else {
        lines := lines + ["  - "];
        assert ItemLine("") == "  - ";
      }
      assert lines == before + SectionLines(SECTIONS[i], values);
      ConcatAssociates(NameLines(n), SectionsLines(SECTIONS, n.sections, i), SectionLines(SECTIONS[i], values));
    }
    text := RStrip(Join(lines)) + "\n";
  }
}
