/** The string operations of the models, on ASCII letters; Unicode case folding is not part of this model. */
module Text {

  function LowerChar(c: char): char {
    if 'A' <= c <= 'Z' then c - 'A' + 'a' else c
  }

  function UpperChar(c: char): char {
    if 'a' <= c <= 'z' then c - 'a' + 'A' else c
  }

  /** `toLowerCase` */
  function Lower(s: string): (r: string)
    ensures |r| == |s| && forall i :: 0 <= i < |s| ==> r[i] == LowerChar(s[i])
  {
    seq(|s|, i requires 0 <= i < |s| => LowerChar(s[i]))
  }

  /** `toUpperCase` */
  function Upper(s: string): (r: string)
    ensures |r| == |s| && forall i :: 0 <= i < |s| ==> r[i] == UpperChar(s[i])
  {
    seq(|s|, i requires 0 <= i < |s| => UpperChar(s[i]))
  }

  /** What `trim` and `\s` take for white space. */
  predicate IsSpace(c: char) {
    || '\t' <= c <= '\r' || c == ' ' || c == '\U{00A0}' || c == '\U{1680}'
    || '\U{2000}' <= c <= '\U{200A}' || c == '\U{2028}' || c == '\U{2029}' || c == '\U{202F}'
    || c == '\U{205F}' || c == '\U{3000}' || c == '\U{FEFF}'
  }

  /** JavaScript's white space and line terminators, by code point. */
  lemma {:induction false} SpacesAre(c: char)
    ensures var code := c as int;
      IsSpace(c) <==> 9 <= code <= 13 || 8192 <= code <= 8202 || code in {32, 160, 5760, 8232, 8233, 8239, 8287, 12288, 65279}
  {}

  function TrimLeft(s: string): string {
    if s != "" && IsSpace(s[0]) then TrimLeft(s[1..]) else s
  }

  function TrimRight(s: string): string {
    if s != "" && IsSpace(s[|s| - 1]) then TrimRight(s[..|s| - 1]) else s
  }

  /** `trim` */
  function Trim(s: string): string {
    TrimRight(TrimLeft(s))
  }

  predicate OccursAt(text: string, part: string, i: nat) {
    i + |part| <= |text| && text[i..i + |part|] == part
  }

  /** `includes` */
  predicate Contains(text: string, part: string) {
    exists i :: 0 <= i <= |text| && OccursAt(text, part, i)
  }

  predicate ContainsAny(text: string, parts: seq<string>) {
    exists i :: 0 <= i < |parts| && Contains(text, parts[i])
  }

  /** The same text but for the case of ASCII letters. */
  predicate SameIgnoringCase(a: string, b: string) {
    |a| == |b| && forall i :: 0 <= i < |a| ==> SameLetter(a[i], b[i])
  }

  predicate SameLetter(c: char, d: char) {
    || c == d
    || ('A' <= c <= 'Z' && d as int == c as int + 32)
    || ('a' <= c <= 'z' && c as int == d as int + 32)
  }

  predicate AllLower(s: string) {
    forall i :: 0 <= i < |s| ==> !('A' <= s[i] <= 'Z')
  }

  predicate AllUpper(s: string) {
    forall i :: 0 <= i < |s| ==> !('a' <= s[i] <= 'z')
  }

  /** Comparing in lower case is comparing without regard to case. */
  lemma {:induction false} LowerIs(a: string, b: string)
    requires AllLower(b)
    ensures Lower(a) == b <==> SameIgnoringCase(a, b)
  {
    if SameIgnoringCase(a, b) {
      forall i | 0 <= i < |a| ensures Lower(a)[i] == b[i] {
        assert SameLetter(a[i], b[i]);
      }
    }
  }

  lemma {:induction false} UpperIs(a: string, b: string)
    requires AllUpper(b)
    ensures Upper(a) == b <==> SameIgnoringCase(a, b)
  {
    if SameIgnoringCase(a, b) {
      forall i | 0 <= i < |a| ensures Upper(a)[i] == b[i] {
        assert SameLetter(a[i], b[i]);
      }
    }
  }

  /** The phrase occurs in the text, without regard to case. */
  predicate Mentions(text: string, phrase: string) {
    exists i :: 0 <= i <= |text| && MentionsAt(text, phrase, i)
  }

  predicate MentionsAt(text: string, phrase: string, i: nat) {
    i + |phrase| <= |text| && SameIgnoringCase(text[i..i + |phrase|], phrase)
  }

  lemma {:induction false} ContainsIs(text: string, phrase: string)
    requires AllLower(phrase)
    ensures Contains(Lower(text), phrase) <==> Mentions(text, phrase)
  {
    forall i | 0 <= i <= |text| ensures OccursAt(Lower(text), phrase, i) <==> MentionsAt(text, phrase, i) {
      if i + |phrase| <= |text| {
        LowerIs(text[i..i + |phrase|], phrase);
        assert Lower(text)[i..i + |phrase|] == Lower(text[i..i + |phrase|]);
      }
    }
  }
}
