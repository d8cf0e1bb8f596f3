/** Literal search compiled to SQL LIKE (service.go, searchPattern and List).
    LIKE has two wildcards and, here, a backslash escape; the pattern and the
    title are both lower-cased before they are compared. */
module Search {
  const ESCAPE := '\\'

  predicate Special(ch: char) {
    ch == '%' || ch == '_' || ch == ESCAPE
  }

  function EscapedChar(ch: char): string {
    if Special(ch) then [ESCAPE, ch] else [ch]
  }

  function Escaped(text: string): string {
    if text == [] then []
    else EscapedChar(text[0]) + Escaped(text[1..])
  }

  function Pattern(text: string): string {
    "%" + Escaped(text) + "%"
  }

  function Lower(fold: char -> char, text: string): (r: string)
    ensures |r| == |text|
    ensures forall i :: 0 <= i < |text| ==> r[i] == fold(text[i])
  {
    seq(|text|, i requires 0 <= i < |text| => fold(text[i]))
  }

  /** `text LIKE pattern ESCAPE '\'`, where `same` is how the engine compares two characters. */
  ghost predicate Like(same: (char, char) -> bool, pattern: string, text: string)
    decreases |pattern|
  {
    if pattern == [] then text == []
    else if pattern[0] == ESCAPE then
      |pattern| > 1 && text != [] && same(text[0], pattern[1]) && Like(same, pattern[2..], text[1..])
    else if pattern[0] == '%' then exists n | 0 <= n <= |text| :: Like(same, pattern[1..], text[n..])
    else text != [] && (pattern[0] == '_' || same(text[0], pattern[0])) && Like(same, pattern[1..], text[1..])
  }

  predicate At(hay: string, needle: string, i: int) {
    0 <= i <= |hay| - |needle| && hay[i..i + |needle|] == needle
  }

  predicate Contains(hay: string, needle: string) {
    exists i | 0 <= i <= |hay| :: At(hay, needle, i)
  }

  /** Lower-casing leaves the three special characters alone and makes no new ones. */
  ghost predicate KeepsSpecials(fold: char -> char) {
    forall ch :: (fold(ch) == '%' <==> ch == '%') && (fold(ch) == '_' <==> ch == '_') && (fold(ch) == ESCAPE <==> ch == ESCAPE)
  }

  /** On lower-cased characters the engine's comparison is equality. */
  ghost predicate ExactWhenLowered(fold: char -> char, same: (char, char) -> bool) {
    forall a, b :: same(fold(a), fold(b)) <==> fold(a) == fold(b)
  }

  lemma LowerTail(fold: char -> char, text: string, k: nat)
    requires k <= |text|
    ensures Lower(fold, text)[k..] == Lower(fold, text[k..])
  {
  }

  /** One escaped character of the pattern takes exactly its own folded character. */
  lemma CharMatches(fold: char -> char, same: (char, char) -> bool, ch: char, rest: string, text: string)
    requires KeepsSpecials(fold) && ExactWhenLowered(fold, same)
    ensures Like(same, Lower(fold, EscapedChar(ch) + rest), Lower(fold, text)) <==>
      text != [] && fold(ch) == fold(text[0]) && Like(same, Lower(fold, rest), Lower(fold, text[1..]))
  {
    var pattern := Lower(fold, EscapedChar(ch) + rest);
    var n := |EscapedChar(ch)|;
    LowerTail(fold, EscapedChar(ch) + rest, n);
    assert (EscapedChar(ch) + rest)[n..] == rest;
    assert pattern[n - 1] == fold(ch) && (n == 2 ==> pattern[0] == ESCAPE);
    if text != [] {
      LowerTail(fold, text, 1);
    }
  }

  /** Escaped text followed by a final `%` matches exactly the texts it is a prefix of. */
  lemma {:induction false} EscapedIsPrefix(fold: char -> char, same: (char, char) -> bool, search: string, text: string)
    requires KeepsSpecials(fold) && ExactWhenLowered(fold, same)
    ensures Like(same, Lower(fold, Escaped(search) + "%"), Lower(fold, text)) <==> Lower(fold, search) <= Lower(fold, text)
    decreases |search|
  {
    if search == [] {
      FinalPercent(fold, same, text);
      assert Escaped(search) + "%" == "%";
    } else {
      var rest := Escaped(search[1..]) + "%";
      assert Escaped(search) + "%" == EscapedChar(search[0]) + rest;
      CharMatches(fold, same, search[0], rest, text);
      if text != [] {
        EscapedIsPrefix(fold, same, search[1..], text[1..]);
        LowerTail(fold, text, 1);
        LowerTail(fold, search, 1);
        PrefixCons(Lower(fold, search), Lower(fold, text));
      }
    }
  }

  lemma FinalPercent(fold: char -> char, same: (char, char) -> bool, text: string)
    requires KeepsSpecials(fold)
    ensures Like(same, Lower(fold, "%"), Lower(fold, text))
  {
    var pattern, lowered := Lower(fold, "%"), Lower(fold, text);
    assert pattern[0] == '%' && pattern[1..] == [];
    assert lowered[|lowered|..] == [];
    assert Like(same, pattern[1..], lowered[|lowered|..]);
  }

  lemma PrefixCons(a: string, b: string)
    requires a != [] && b != []
    ensures a <= b <==> a[0] == b[0] && a[1..] <= b[1..]
  {
    assert a == [a[0]] + a[1..] && b == [b[0]] + b[1..];
  }

  /** The filter finds the lower-cased search as a literal substring of the
      lower-cased title, whatever wildcards or backslashes either contains. */
  lemma SearchIsLiteral(fold: char -> char, same: (char, char) -> bool, search: string, title: string)
    requires KeepsSpecials(fold) && ExactWhenLowered(fold, same)
    ensures Like(same, Lower(fold, Pattern(search)), Lower(fold, title)) <==> Contains(Lower(fold, title), Lower(fold, search))
  {
    var pattern, hay, needle := Lower(fold, Pattern(search)), Lower(fold, title), Lower(fold, search);
    assert Pattern(search)[1..] == Escaped(search) + "%";
    LowerTail(fold, Pattern(search), 1);
    assert pattern[0] == '%';
    forall n | 0 <= n <= |hay| ensures Like(same, pattern[1..], hay[n..]) <==> At(hay, needle, n) {
      LowerTail(fold, title, n);
      EscapedIsPrefix(fold, same, search, title[n..]);
      assert needle <= hay[n..] <==> At(hay, needle, n);
    }
  }

  /** SQLite: LOWER folds ASCII letters, and so does its LIKE. */
  function AsciiLower(ch: char): char {
    if 'A' <= ch <= 'Z' then (ch as int + 32) as char else ch
  }

  lemma SearchIsLiteralOnSqlite(search: string, title: string)
    ensures Like((a, b) => AsciiLower(a) == AsciiLower(b), Lower(AsciiLower, Pattern(search)), Lower(AsciiLower, title))
      <==> Contains(Lower(AsciiLower, title), Lower(AsciiLower, search))
  {
    var same := (a, b) => AsciiLower(a) == AsciiLower(b);
    assert KeepsSpecials(AsciiLower);
    assert ExactWhenLowered(AsciiLower, same);
    SearchIsLiteral(AsciiLower, same, search, title);
  }

  /** An empty search, for which List leaves the clause out, is contained in every title. */
  lemma EmptySearchFindsAll(title: string)
    ensures Contains(title, "")
  {
    assert At(title, "", 0);
  }
}
