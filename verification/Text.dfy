/** The ASCII part of the text helpers the Go code takes from its standard library. */
module Text {
  predicate IsSpace(c: char) {
    c == ' ' || c == '\t' || c == '\n' || c == '\r' || c == '\U{000B}' || c == '\U{000C}'
  }

  function TrimLeft(s: string): string {
    if s != "" && IsSpace(s[0]) then TrimLeft(s[1..]) else s
  }

  function TrimRight(s: string): string {
    if s != "" && IsSpace(s[|s| - 1]) then TrimRight(s[..|s| - 1]) else s
  }

  function TrimSpace(s: string): string { TrimRight(TrimLeft(s)) }

  function UpperChar(c: char): char {
    if 'a' <= c <= 'z' then (c as int - 32) as char else c
  }

  function LowerChar(c: char): char {
    if 'A' <= c <= 'Z' then (c as int + 32) as char else c
  }

  function Upper(s: string): (r: string)
    ensures |r| == |s|
  {
    seq(|s|, i requires 0 <= i < |s| => UpperChar(s[i]))
  }

  function Lower(s: string): (r: string)
    ensures |r| == |s|
  {
    seq(|s|, i requires 0 <= i < |s| => LowerChar(s[i]))
  }

  /** Every run of spaces becomes one, and a leading run none. */
  function Collapse(s: string): string {
    if s == "" then ""
    else
      var rest, c := Collapse(s[..|s| - 1]), s[|s| - 1];
      if !IsSpace(c) then rest + [c] else if rest == "" || rest[|rest| - 1] == ' ' then rest else rest + " "
  }

  /** The words of a text, one space apart, in lower case. */
  function NormalText(s: string): string { Lower(TrimSpace(Collapse(s))) }

  // ---- what the helpers mean ------------------------------------------------------------

  /** Tab, line feed, vertical tab, form feed, carriage return and the blank itself. */
  predicate Blank(c: char) { 9 <= c as int <= 13 || c as int == 32 }

  predicate AllBlank(s: string) { forall i :: 0 <= i < |s| ==> Blank(s[i]) }

  lemma {:induction false} TrimLeftDrops(s: string) returns (i: nat)
    ensures i <= |s| && TrimLeft(s) == s[i..] && AllBlank(s[..i]) && (i < |s| ==> !Blank(s[i]))
  {
    if s != "" && IsSpace(s[0]) {
      var k := TrimLeftDrops(s[1..]);
      i := k + 1;
      assert s[i..] == s[1..][k..] && s[..i] == [s[0]] + s[1..][..k];
    } else {
      i := 0;
    }
  }

  lemma {:induction false} TrimRightDrops(s: string) returns (j: nat)
    ensures j <= |s| && TrimRight(s) == s[..j] && AllBlank(s[j..]) && (j > 0 ==> !Blank(s[j - 1]))
  {
    var n := |s| - 1;
    if s != "" && IsSpace(s[n]) {
      j := TrimRightDrops(s[..n]);
      assert s[..j] == s[..n][..j] && s[j..] == s[..n][j..] + [s[n]];
    } else {
      j := |s|;
    }
  }

  /** Trimming removes exactly the outer blanks. */
  lemma TrimSpaceIs(s: string) returns (i: nat, j: nat)
    ensures i <= j <= |s| && TrimSpace(s) == s[i..j] && AllBlank(s[..i]) && AllBlank(s[j..])
    ensures i < j ==> !Blank(s[i]) && !Blank(s[j - 1])
  {
    i := TrimLeftDrops(s);
    var k := TrimRightDrops(s[i..]);
    j := i + k;
    assert s[i..][..k] == s[i..j] && s[i..][k..] == s[j..];
    if i < j {
      assert s[i..][k - 1] == s[j - 1];
    }
  }

  lemma TrimsToNothing(s: string)
    ensures TrimSpace(s) == "" <==> AllBlank(s)
  {
    var i, j := TrimSpaceIs(s);
    hide TrimSpace;
    if i == j {
      assert s == s[..i] + s[j..];
    } else {
      assert !Blank(s[i]);
    }
  }

  /** Equal but for the case of Latin letters. */
  predicate SameLetters(a: string, b: string) {
    |a| == |b| && forall i :: 0 <= i < |a| ==> SameLetter(a[i], b[i])
  }

  predicate SameLetter(a: char, b: char) {
    a == b || (65 <= a as int <= 90 && b as int == a as int + 32) || (65 <= b as int <= 90 && a as int == b as int + 32)
  }

  lemma SameLetterEitherCase(a: char, b: char)
    ensures LowerChar(a) == LowerChar(b) <==> SameLetter(a, b)
    ensures UpperChar(a) == UpperChar(b) <==> SameLetter(a, b)
  {
  }

  /** Both foldings forget case, and nothing else. */
  lemma FoldsAlikeExactly(a: string, b: string)
    ensures Lower(a) == Lower(b) <==> SameLetters(a, b)
    ensures Upper(a) == Upper(b) <==> SameLetters(a, b)
  {
    forall i | 0 <= i < |a| && i < |b|
      ensures Lower(a)[i] == Lower(b)[i] <==> SameLetter(a[i], b[i])
      ensures Upper(a)[i] == Upper(b)[i] <==> SameLetter(a[i], b[i])
    {
      SameLetterEitherCase(a[i], b[i]);
    }
    hide SameLetter, LowerChar, UpperChar;
    if Lower(a) == Lower(b) {
      assert forall i :: 0 <= i < |a| ==> Lower(a)[i] == Lower(b)[i];
    }
    if Upper(a) == Upper(b) {
      assert forall i :: 0 <= i < |a| ==> Upper(a)[i] == Upper(b)[i];
    }
  }

  /** A text is its own capital form iff it has no small letter; no capital is left in a small form. */
  lemma CaseForms(s: string)
    ensures Upper(s) == s <==> forall i :: 0 <= i < |s| ==> !(97 <= s[i] as int <= 122)
    ensures Lower(s) == s <==> forall i :: 0 <= i < |s| ==> !(65 <= s[i] as int <= 90)
    ensures Upper(Upper(s)) == Upper(s) && Lower(Lower(s)) == Lower(s)
  {
    if i :| 0 <= i < |s| && 97 <= s[i] as int <= 122 {
      assert Upper(s)[i] != s[i];
    }
    if i :| 0 <= i < |s| && 65 <= s[i] as int <= 90 {
      assert Lower(s)[i] != s[i];
    }
  }

  /** The maximal runs without blanks, in order. */
  function Words(s: string): (words: seq<string>)
    ensures s != "" && !Blank(s[|s| - 1]) ==> words != []
    ensures forall k :: 0 <= k < |words| ==> words[k] != "" && forall i :: 0 <= i < |words[k]| ==> !Blank(words[k][i])
  {
    if s == "" then [] else
    var words, c := Words(s[..|s| - 1]), s[|s| - 1];
    if Blank(c) then words
    else if |s| == 1 || Blank(s[|s| - 2]) then words + [[c]]
    else words[..|words| - 1] + [words[|words| - 1] + [c]]
  }

  /** The words after one more character, which lengthens the last word iff it follows one directly. */
  function OneMore(words: seq<string>, inWord: bool, c: char): seq<string> {
    if Blank(c) then words
    else if !inWord || words == [] then words + [[c]]
    else words[..|words| - 1] + [words[|words| - 1] + [c]]
  }

  predicate EndsInWord(s: string) { s != "" && !Blank(s[|s| - 1]) }

  lemma WordsGrow(s: string, c: char)
    ensures Words(s + [c]) == OneMore(Words(s), EndsInWord(s), c)
  {
    assert (s + [c])[..|s|] == s;
    assert s != "" ==> (s + [c])[|s| - 1] == s[|s| - 1];
  }

  function Spaced(words: seq<string>): string {
    if words == [] then "" else if |words| == 1 then words[0]
    else Spaced(words[..|words| - 1]) + " " + words[|words| - 1]
  }

  lemma SpacedLast(words: seq<string>, w: string, c: char)
    ensures Spaced(words + [w]) == if words == [] then w else Spaced(words) + " " + w
    ensures Spaced(words + [w + [c]]) == Spaced(words + [w]) + [c]
  {
    assert (words + [w])[..|words|] == words && (words + [w + [c]])[..|words|] == words;
  }

  predicate Edged(s: string) { s != "" && !Blank(s[0]) && !Blank(s[|s| - 1]) }

  lemma {:induction false} SpacedIsEdged(words: seq<string>)
    requires words != [] && forall k :: 0 <= k < |words| ==> Edged(words[k])
    ensures Edged(Spaced(words))
  {
    if |words| > 1 {
      SpacedIsEdged(words[..|words| - 1]);
    }
  }

  lemma WordsAreEdged(s: string)
    ensures Words(s) != [] ==> Edged(Spaced(Words(s)))
  {
    var words := Words(s);
    assert forall k :: 0 <= k < |words| ==> Edged(words[k]);
    hide Words;
    if words != [] {
      SpacedIsEdged(words);
    }
  }

  lemma WordsStep(s: string)
    requires s != ""
    ensures var rest, c := s[..|s| - 1], s[|s| - 1];
            Spaced(Words(s)) ==
            if Blank(c) then Spaced(Words(rest))
            else if Words(rest) == [] then [c]
            else if Blank(s[|s| - 2]) then Spaced(Words(rest)) + " " + [c]
            else Spaced(Words(rest)) + [c]
    ensures var rest, c := s[..|s| - 1], s[|s| - 1]; Words(s) == [] <==> Blank(c) && Words(rest) == []
    ensures |s| > 1 && !Blank(s[|s| - 2]) ==> Words(s[..|s| - 1]) != []
  {
    var rest, c := s[..|s| - 1], s[|s| - 1];
    var words := Words(rest);
    assert |s| > 1 ==> rest[|rest| - 1] == s[|s| - 2];
    if !Blank(c) {
      if |s| == 1 || Blank(s[|s| - 2]) {
        SpacedLast(words, [c], c);
      } else {
        var n := |words| - 1;
        SpacedLast(words[..n], words[n], c);
        assert words == words[..n] + [words[n]];
      }
    }
  }

  /** While a text is read, its words so far stand apart by one space, with one more if it just ended a word. */
  lemma {:induction false} CollapseIsWords(s: string)
    ensures Collapse(s) ==
            if Words(s) == [] then "" else Spaced(Words(s)) + if Blank(s[|s| - 1]) then " " else ""
  {
    hide Words, Spaced;
    if s == "" {
      BlanksHaveNoWords(s);
    } else {
      var rest := s[..|s| - 1];
      CollapseIsWords(rest);
      WordsStep(s);
      WordsAreEdged(rest);
      assert |s| > 1 ==> rest[|rest| - 1] == s[|s| - 2];
      if rest == "" {
        BlanksHaveNoWords(rest);
      }
    }
  }

  lemma TrimOfEdged(s: string, t: string)
    requires s == t || s == t + " "
    requires t == "" ==> s == ""
    requires t != "" ==> Edged(t)
    ensures TrimSpace(s) == t
  {
    if t != "" {
      assert s[0] == t[0];
      assert TrimLeft(s) == s && TrimRight(t) == t;
      if s == t + " " {
        assert s[..|s| - 1] == t;
        assert TrimRight(s) == TrimRight(t);
      }
    } else {
      assert TrimLeft("") == "" && TrimRight("") == "";
    }
  }

  /** The normal form of a text is its words in lower case, one space apart. */
  lemma NormalTextIsItsWords(s: string)
    ensures TrimSpace(Collapse(s)) == Spaced(Words(s)) && NormalText(s) == Lower(Spaced(Words(s)))
  {
    CollapseIsWords(s);
    WordsAreEdged(s);
    assert Words(s) == [] ==> Spaced(Words(s)) == "";
    hide Words, Spaced;
    TrimOfEdged(Collapse(s), Spaced(Words(s)));
  }

  lemma {:induction false} BlanksHaveNoWords(b: string)
    requires AllBlank(b)
    ensures Words(b) == []
  {
    if b != "" {
      BlanksHaveNoWords(b[..|b| - 1]);
    }
  }

  lemma FirstWord(b: string, c: char)
    ensures OneMore([], EndsInWord(b), c) == OneMore([], EndsInWord([]), c)
  {
  }

  lemma {:induction false} LeadingBlanksAreNoWords(b: string, s: string)
    requires AllBlank(b)
    ensures Words(b + s) == Words(s)
  {
    hide Words, OneMore;
    if s == "" {
      BlanksHaveNoWords(b);
      BlanksHaveNoWords(s);
      assert b + s == b;
    } else {
      var n := |s| - 1;
      LeadingBlanksAreNoWords(b, s[..n]);
      WordsGrow(s[..n], s[n]);
      WordsGrow(b + s[..n], s[n]);
      assert s == s[..n] + [s[n]] && b + s == b + s[..n] + [s[n]];
      if n == 0 {
        BlanksHaveNoWords(s[..n]);
        assert b + s[..n] == b;
        FirstWord(b, s[n]);
      }
    }
  }

  lemma {:induction false} TrailingBlanksAreNoWords(s: string, b: string)
    requires AllBlank(b)
    ensures Words(s + b) == Words(s)
  {
    if b != "" {
      var n := |b| - 1;
      TrailingBlanksAreNoWords(s, b[..n]);
      assert (s + b)[..|s + b| - 1] == s + b[..n];
    } else {
      assert s + b == s;
    }
  }

  lemma TrimmingKeepsWords(s: string)
    ensures Words(TrimSpace(s)) == Words(s)
  {
    hide TrimSpace, Words, AllBlank;
    var i, j := TrimSpaceIs(s);
    LeadingBlanksAreNoWords(s[..i], s[i..j]);
    TrailingBlanksAreNoWords(s[..i] + s[i..j], s[j..]);
    assert s == s[..i] + s[i..j] + s[j..];
  }

  function LowerAll(words: seq<string>): seq<string> {
    seq(|words|, k requires 0 <= k < |words| => Lower(words[k]))
  }

  lemma OneMoreInLower(words: seq<string>, inWord: bool, c: char)
    ensures OneMore(LowerAll(words), inWord, LowerChar(c)) == LowerAll(OneMore(words, inWord, c))
  {
    assert Lower([c]) == [LowerChar(c)];
    if words != [] {
      var w := words[|words| - 1];
      assert Lower(w + [c]) == Lower(w) + [LowerChar(c)];
    }
  }

  lemma {:induction false} LowerKeepsWords(s: string)
    ensures Words(Lower(s)) == LowerAll(Words(s))
  {
    if s != "" {
      var n := |s| - 1;
      LowerKeepsWords(s[..n]);
      assert s == s[..n] + [s[n]] && Lower(s) == Lower(s[..n]) + [LowerChar(s[n])];
      WordsGrow(s[..n], s[n]);
      WordsGrow(Lower(s[..n]), LowerChar(s[n]));
      OneMoreInLower(Words(s[..n]), EndsInWord(s[..n]), s[n]);
      assert EndsInWord(Lower(s[..n])) == EndsInWord(s[..n]);
      hide Words, OneMore, LowerAll, Lower;
    }
  }

  lemma {:induction false} LowerOfSpaced(words: seq<string>)
    ensures Spaced(LowerAll(words)) == Lower(Spaced(words))
  {
    if |words| > 1 {
      var n := |words| - 1;
      LowerOfSpaced(words[..n]);
      assert LowerAll(words)[..n] == LowerAll(words[..n]);
    }
  }

  /** Trimming and case change no word boundary. */
  lemma LowerWords(s: string)
    ensures Words(Lower(TrimSpace(s))) == [] <==> Words(s) == []
    ensures Spaced(Words(Lower(TrimSpace(s)))) == Lower(Spaced(Words(s)))
  {
    LowerKeepsWords(TrimSpace(s));
    TrimmingKeepsWords(s);
    LowerOfSpaced(Words(s));
    hide TrimSpace, Words, Spaced, Lower;
  }
}
