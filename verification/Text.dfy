/** String helpers of the standard library that the modelled code relies on. */
module Text {

  /** Replaces every occurrence of one character, in one left-to-right pass. */
  function ReplaceAll(s: string, c: char, r: string): string {
    if s == [] then []
    else (if s[0] == c then r else [s[0]]) + ReplaceAll(s[1..], c, r)
  }

  lemma {:induction false} ReplaceAllConcat(s: string, t: string, c: char, r: string)
    ensures ReplaceAll(s + t, c, r) == ReplaceAll(s, c, r) + ReplaceAll(t, c, r)
  {
    if s == [] {
      assert s + t == t;
    } else {
      assert (s + t)[1..] == s[1..] + t;
      ReplaceAllConcat(s[1..], t, c, r);
    }
  }

  lemma {:induction false} ReplaceAllAbsent(s: string, c: char, r: string)
    requires c !in s
    ensures ReplaceAll(s, c, r) == s
  {
    if s != [] {
      ReplaceAllAbsent(s[1..], c, r);
    }
  }

  lemma ReplaceAllSingle(c: char, r: string)
    ensures ReplaceAll([c], c, r) == r
  {
  }

  /** The white space of Unicode, as trimmed from the ends of a string. */
  predicate IsSpace(c: char) {
    || '\t' <= c <= '\r' || c == ' '
    || c == '\U{85}' || c == '\U{A0}' || c == '\U{1680}'
    || '\U{2000}' <= c <= '\U{200A}'
    || c == '\U{2028}' || c == '\U{2029}' || c == '\U{202F}' || c == '\U{205F}' || c == '\U{3000}'
  }

  function TrimLeft(s: string): string {
    if s != [] && IsSpace(s[0]) then TrimLeft(s[1..]) else s
  }

  function TrimRight(s: string): string {
    if s != [] && IsSpace(s[|s| - 1]) then TrimRight(s[..|s| - 1]) else s
  }

  function TrimSpace(s: string): string {
    TrimRight(TrimLeft(s))
  }

  predicate HasPrefix(s: string, p: string) {
    p <= s
  }

  /** Trimming on the right never reaches into a prefix that ends in a visible character. */
  lemma {:induction false} TrimRightKeepsPrefix(p: string, s: string)
    requires p != [] && !IsSpace(p[|p| - 1])
    ensures TrimRight(p + s) == p + TrimRight(s)
  {
    if s == [] {
      assert p + s == p;
    } else if IsSpace(s[|s| - 1]) {
      assert (p + s)[..|p + s| - 1] == p + s[..|s| - 1];
      TrimRightKeepsPrefix(p, s[..|s| - 1]);
    }
  }

  /** The two trims commute, so leading space can be removed before or after trailing space. */
  lemma {:induction false} TrimLeftOfTrimRight(s: string)
    ensures TrimLeft(TrimRight(s)) == TrimRight(TrimLeft(s))
  {
    if s != [] && IsSpace(s[|s| - 1]) {
      var t := s[..|s| - 1];
      TrimLeftOfTrimRight(t);
      TrimLeftThenLast(s);
    } else if s != [] {
      TrimLeftKeepsLast(s);
    }
  }

  lemma {:induction false} TrimLeftKeepsLast(s: string)
    requires s != [] && !IsSpace(s[|s| - 1])
    ensures TrimLeft(s) != [] && TrimLeft(s)[|TrimLeft(s)| - 1] == s[|s| - 1]
  {
    if IsSpace(s[0]) {
      TrimLeftKeepsLast(s[1..]);
    }
  }

  lemma {:induction false} TrimLeftThenLast(s: string)
    requires s != [] && IsSpace(s[|s| - 1])
    ensures TrimRight(TrimLeft(s)) == TrimRight(TrimLeft(s[..|s| - 1]))
  {
    if IsSpace(s[0]) {
      if |s| == 1 {
        assert s[1..] == [] == s[..0];
      } else {
        assert s[1..][..|s| - 2] == s[..|s| - 1][1..];
        TrimLeftThenLast(s[1..]);
      }
    }
  }

  predicate Blank(s: string) {
    forall c :: c in s ==> IsSpace(c)
  }

  lemma {:induction false} TrimRightDropsBlank(s: string, t: string)
    requires Blank(t)
    ensures TrimRight(s + t) == TrimRight(s)
  {
    if t == [] {
      assert s + t == s;
    } else {
      assert (s + t)[..|s + t| - 1] == s + t[..|t| - 1];
      assert t[|t| - 1] in t;
      TrimRightDropsBlank(s, t[..|t| - 1]);
    }
  }

  lemma {:induction false} TrimRightStopsAtVisible(s: string, t: string)
    requires !Blank(t)
    ensures TrimRight(s + t) == s + TrimRight(t) && TrimRight(t) != [] && TrimRight(t)[0] == t[0]
    ensures !Blank(TrimRight(t))
  {
    if IsSpace(t[|t| - 1]) {
      var u := t[..|t| - 1];
      assert (s + t)[..|s + t| - 1] == s + u;
      assert t == u + [t[|t| - 1]];
      TrimRightStopsAtVisible(s, u);
    } else {
      assert t[|t| - 1] in t;
    }
  }

  lemma {:induction false} TrimLeftStopsAtVisible(s: string, t: string)
    ensures Blank(s) ==> TrimLeft(s) == [] && TrimLeft(s + t) == TrimLeft(t)
    ensures !Blank(s) ==> TrimLeft(s + t) == TrimLeft(s) + t
  {
    if s == [] {
      assert s + t == t;
    } else {
      assert (s + t)[1..] == s[1..] + t;
      assert s == [s[0]] + s[1..];
      if IsSpace(s[0]) {
        TrimLeftStopsAtVisible(s[1..], t);
      } else {
        assert s[0] in s;
      }
    }
  }

  lemma {:induction false} TrimLeftKeepsVisible(s: string)
    requires !Blank(s)
    ensures TrimLeft(s) != []
  {
    if IsSpace(s[0]) {
      assert s == [s[0]] + s[1..];
      TrimLeftKeepsVisible(s[1..]);
    }
  }

  // ---- Words spelled in a text -----------------------------------------------------------------------

  /** ASCII lower case; enough to compare with the four action words, which no other letter folds into. */
  function ToLower(s: string): string {
    if s == [] then []
    else [if 'A' <= s[0] <= 'Z' then (s[0] - 'A') + 'a' else s[0]] + ToLower(s[1..])
  }

  /** The word, each letter in either case. */
  predicate SameLetters(s: string, word: string) {
    |s| == |word| && forall k :: 0 <= k < |s| ==> s[k] == word[k] || ('A' <= s[k] <= 'Z' && s[k] as int + 32 == word[k] as int)
  }

  /** The text is the word in any case, with white space around it or none. */
  predicate SpellsAt(s: string, word: string, a: int, b: int) {
    0 <= a <= b <= |s| && Blank(s[..a]) && SameLetters(s[a..b], word) && Blank(s[b..])
  }

  ghost predicate Spells(s: string, word: string) {
    exists a, b :: SpellsAt(s, word, a, b)
  }

  predicate IsWord(word: string) {
    word != [] && forall k :: 0 <= k < |word| ==> 'a' <= word[k] <= 'z'
  }

  lemma {:induction false} LowerIsSameLetters(s: string, word: string)
    requires IsWord(word) || word == []
    ensures ToLower(s) == word <==> SameLetters(s, word)
  {
    if s != [] && word != [] {
      assert s == [s[0]] + s[1..] && word == [word[0]] + word[1..];
      LowerIsSameLetters(s[1..], word[1..]);
      assert SameLetters(s, word) <==> SameLetters([s[0]], [word[0]]) && SameLetters(s[1..], word[1..]);
    }
  }

  lemma {:induction false} TrimLeftSplits(s: string)
    ensures |TrimLeft(s)| <= |s| && TrimLeft(s) == s[|s| - |TrimLeft(s)|..] && Blank(s[..|s| - |TrimLeft(s)|])
  {
    if s != [] && IsSpace(s[0]) {
      TrimLeftSplits(s[1..]);
      var k := |s| - |TrimLeft(s)|;
      assert s[..k] == [s[0]] + s[1..][..k - 1];
    }
  }

  lemma {:induction false} TrimRightSplits(s: string)
    ensures |TrimRight(s)| <= |s| && TrimRight(s) == s[..|TrimRight(s)|] && Blank(s[|TrimRight(s)|..])
  {
    if s != [] && IsSpace(s[|s| - 1]) {
      var t := s[..|s| - 1];
      TrimRightSplits(t);
      assert s[|TrimRight(s)|..] == t[|TrimRight(s)|..] + [s[|s| - 1]];
    }
  }

  /** White space around a text without any at its ends is what trimming removes. */
  lemma TrimOfPadded(p: string, m: string, q: string)
    requires Blank(p) && Blank(q) && m != [] && !IsSpace(m[0]) && !IsSpace(m[|m| - 1])
    ensures TrimSpace(p + m + q) == m
  {
    assert p + m + q == p + (m + q);
    TrimLeftStopsAtVisible(p, m + q);
    TrimRightDropsBlank(m, q);
  }

  lemma TrimmedSpells(s: string, word: string)
    requires SameLetters(TrimSpace(s), word)
    ensures Spells(s, word)
  {
    var left, mid := TrimLeft(s), TrimSpace(s);
    TrimLeftSplits(s);
    TrimRightSplits(left);
    var a := |s| - |left|;
    var b := a + |mid|;
    hide TrimLeft, TrimRight, Blank, SameLetters;
    assert s[a..b] == mid && s[b..] == left[|mid|..];
    assert SpellsAt(s, word, a, b);
  }

  lemma SpelledTrims(s: string, word: string, a: int, b: int)
    requires IsWord(word) && SpellsAt(s, word, a, b)
    ensures TrimSpace(s) == s[a..b]
  {
    var m := s[a..b];
    assert s == s[..a] + m + s[b..];
    assert m[0] == s[a] && m[|m| - 1] == s[b - 1];
    TrimOfPadded(s[..a], m, s[b..]);
  }

  /** Trimming and lowering give the word exactly when the text spells it. */
  lemma SpelledWord(s: string, word: string)
    requires IsWord(word)
    ensures ToLower(TrimSpace(s)) == word <==> Spells(s, word)
  {
    hide TrimSpace, ToLower, SameLetters, Blank, IsWord;
    LowerIsSameLetters(TrimSpace(s), word);
    if ToLower(TrimSpace(s)) == word {
      TrimmedSpells(s, word);
    }
    if Spells(s, word) {
      var a, b :| SpellsAt(s, word, a, b);
      SpelledTrims(s, word, a, b);
    }
  }

  lemma BlankTrimsToNothing(s: string)
    ensures TrimSpace(s) == "" <==> Blank(s)
  {
    var left := TrimLeft(s);
    TrimLeftSplits(s);
    TrimRightSplits(left);
    assert s == s[..|s| - |left|] + left;
    if Blank(s) {
      TrimLeftStopsAtVisible(s, []);
    } else {
      TrimRightStopsAtVisible([], left);
    }
  }

  /** The text before the first newline. */
  function FirstLine(s: string): string {
    if s == [] || s[0] == '\n' then [] else [s[0]] + FirstLine(s[1..])
  }

  /** Lines of a text, split at every newline; never empty. */
  function SplitLines(s: string): (r: seq<string>)
    ensures r != [] && r[0] == FirstLine(s)
  {
    if s == [] then [[]]
    else if s[0] == '\n' then [[]] + SplitLines(s[1..])
    else
      var rest := SplitLines(s[1..]);
      [[s[0]] + rest[0]] + rest[1..]
  }

  lemma {:induction false} SplitAtNewline(a: string, b: string)
    requires '\n' !in a
    ensures SplitLines(a + "\n" + b) == [a] + SplitLines(b)
  {
    if a == [] {
      assert a + "\n" + b == ['\n'] + b;
      assert (['\n'] + b)[1..] == b;
    } else {
      var t := a + "\n" + b;
      assert t[0] == a[0] && t[1..] == a[1..] + "\n" + b;
      SplitAtNewline(a[1..], b);
      assert SplitLines(t) == [[a[0]] + a[1..]] + SplitLines(b);
      assert [a[0]] + a[1..] == a;
    }
  }

  /** Lines, each ended by a newline. */
  function Unlines(lines: seq<string>): string {
    if lines == [] then [] else lines[0] + "\n" + Unlines(lines[1..])
  }

  lemma {:induction false} SplitOfUnlines(lines: seq<string>)
    requires forall l :: l in lines ==> '\n' !in l
    ensures SplitLines(Unlines(lines)) == lines + [""]
  {
    if lines != [] {
      assert lines[0] in lines;
      SplitAtNewline(lines[0], Unlines(lines[1..]));
      SplitOfUnlines(lines[1..]);
      assert lines == [lines[0]] + lines[1..];
    }
  }
}
