/** Python string operations the components use. */
module Text {
  /** `str.isspace` characters, which `str.strip` removes. */
  predicate IsSpace(c: char) {
    || '\t' <= c <= '\r' || '\U{1c}' <= c <= ' ' || c == '\U{85}' || c == '\U{a0}' || c == '\U{1680}'
    || '\U{2000}' <= c <= '\U{200a}' || c == '\U{2028}' || c == '\U{2029}' || c == '\U{202f}'
    || c == '\U{205f}' || c == '\U{3000}'
  }

  predicate AllSpace(s: string) {
    forall c <- s :: IsSpace(c)
  }

  /** The first place from `i` on that is no white space. */
  function PlainFrom(s: string, i: nat): (n: nat)
    requires i <= |s|
    ensures i <= n <= |s| && (forall j :: i <= j < n ==> IsSpace(s[j])) && (n < |s| ==> !IsSpace(s[n]))
    decreases |s| - i
  {
    if i < |s| && IsSpace(s[i]) then PlainFrom(s, i + 1) else i
  }

  /** Just after the last place before `i` that is no white space. */
  function PlainUpTo(s: string, i: nat): (n: nat)
    requires i <= |s|
    ensures n <= i && (forall j :: n <= j < i ==> IsSpace(s[j])) && (n > 0 ==> !IsSpace(s[n - 1]))
  {
    if i > 0 && IsSpace(s[i - 1]) then PlainUpTo(s, i - 1) else i
  }

  function LStrip(s: string): (r: string)
    ensures |r| <= |s| && r == s[|s| - |r|..] && AllSpace(s[..|s| - |r|])
    ensures r != "" ==> !IsSpace(r[0])
  {
    s[PlainFrom(s, 0)..]
  }

  function RStrip(s: string): (r: string)
    ensures |r| <= |s| && r == s[..|r|] && AllSpace(s[|r|..])
    ensures r != "" ==> !IsSpace(r[|r| - 1])
  {
    s[..PlainUpTo(s, |s|)]
  }

  function Strip(s: string): string {
    RStrip(LStrip(s))
  }

  predicate Stripped(s: string) {
    s == "" || (!IsSpace(s[0]) && !IsSpace(s[|s| - 1]))
  }

  lemma StripIsStripped(s: string)
    ensures Stripped(Strip(s))
  {
    var l, r := LStrip(s), Strip(s);
    assert r != "" ==> r[0] == l[0];
  }

  lemma StripOfStripped(s: string)
    requires Stripped(s)
    ensures Strip(s) == s
  {}

  function LowerChar(c: char): char {
    if 'A' <= c <= 'Z' then c - 'A' + 'a' else c
  }

  /** `str.lower` on ASCII letters. */
  function Lower(s: string): (r: string)
    ensures |r| == |s|
  {
    if s == "" then "" else [LowerChar(s[0])] + Lower(s[1..])
  }
}
