/** Entity escaping of XML text (sections 2.4 and 4.6 of XML 1.0), done by successive replacement. */
module XmlEscape {
  import opened Text

  const SPECIALS: set<char> := {'&', '\'', '"', '<', '>'}

  function Entity(c: char): string {
    match c
    case '&' => "&amp;"
    case '\'' => "&apos;"
    case '"' => "&quot;"
    case '<' => "&lt;"
    case '>' => "&gt;"
    case _ => [c]
  }

  /** Escapes an attribute value in five passes. */
  function XmlEscapeAttr(s: string): string {
    var s := ReplaceAll(s, '&', "&amp;");
    var s := ReplaceAll(s, '\'', "&apos;");
    var s := ReplaceAll(s, '"', "&quot;");
    var s := ReplaceAll(s, '<', "&lt;");
    var s := ReplaceAll(s, '>', "&gt;");
    s
  }

  /** Escapes snapshot element text in four passes; the apostrophe stays. */
  function EscapeSnapshotXmlText(s: string): string {
    var s := ReplaceAll(s, '&', "&amp;");
    var s := ReplaceAll(s, '<', "&lt;");
    var s := ReplaceAll(s, '>', "&gt;");
    var s := ReplaceAll(s, '"', "&quot;");
    s
  }

  /** One replacement pass for each character of `order`, in that order. */
  function Passes(order: seq<char>, s: string): string {
    if order == [] then s
    else Passes(order[1..], ReplaceAll(s, order[0], Entity(order[0])))
  }

  /** The reference: every character replaced by its entity, all at once. */
  function CharWise(escaped: set<char>, s: string): string {
    if s == [] then []
    else (if s[0] in escaped then Entity(s[0]) else [s[0]]) + CharWise(escaped, s[1..])
  }

  function Chars(order: seq<char>): set<char> {
    set c | c in order
  }

  const ATTR_ORDER: seq<char> := ['&', '\'', '"', '<', '>']
  const TEXT_ORDER: seq<char> := ['&', '<', '>', '"']

  lemma PassesStep(c: char, order: seq<char>, s: string)
    ensures Passes([c] + order, s) == Passes(order, ReplaceAll(s, c, Entity(c)))
  {
  }

  lemma AttrPasses(s: string)
    ensures XmlEscapeAttr(s) == Passes(ATTR_ORDER, s)
  {
    var s1 := ReplaceAll(s, '&', "&amp;");
    var s2 := ReplaceAll(s1, '\'', "&apos;");
    var s3 := ReplaceAll(s2, '"', "&quot;");
    var s4 := ReplaceAll(s3, '<', "&lt;");
    assert ATTR_ORDER == ['&'] + ['\'', '"', '<', '>'];
    PassesStep('&', ['\'', '"', '<', '>'], s);
    assert ['\'', '"', '<', '>'] == ['\''] + ['"', '<', '>'];
    PassesStep('\'', ['"', '<', '>'], s1);
    assert ['"', '<', '>'] == ['"'] + ['<', '>'];
    PassesStep('"', ['<', '>'], s2);
    assert ['<', '>'] == ['<'] + ['>'];
    PassesStep('<', ['>'], s3);
    assert ['>'] == ['>'] + [];
    PassesStep('>', [], s4);
  }

  lemma TextPasses(s: string)
    ensures EscapeSnapshotXmlText(s) == Passes(TEXT_ORDER, s)
  {
    var s1 := ReplaceAll(s, '&', "&amp;");
    var s2 := ReplaceAll(s1, '<', "&lt;");
    var s3 := ReplaceAll(s2, '>', "&gt;");
    assert TEXT_ORDER == ['&'] + ['<', '>', '"'];
    PassesStep('&', ['<', '>', '"'], s);
    assert ['<', '>', '"'] == ['<'] + ['>', '"'];
    PassesStep('<', ['>', '"'], s1);
    assert ['>', '"'] == ['>'] + ['"'];
    PassesStep('>', ['"'], s2);
    assert ['"'] == ['"'] + [];
    PassesStep('"', [], s3);
  }

  // ---- Passes distribute over concatenation and leave inert text alone -------------------

  lemma {:induction false} PassesConcat(order: seq<char>, s: string, t: string)
    ensures Passes(order, s + t) == Passes(order, s) + Passes(order, t)
  {
    if order != [] {
      ReplaceAllConcat(s, t, order[0], Entity(order[0]));
      PassesConcat(order[1..], ReplaceAll(s, order[0], Entity(order[0])), ReplaceAll(t, order[0], Entity(order[0])));
    }
  }

  lemma {:induction false} PassesInert(order: seq<char>, s: string)
    requires forall c :: c in order ==> c !in s
    ensures Passes(order, s) == s
  {
    if order != [] {
      ReplaceAllAbsent(s, order[0], Entity(order[0]));
      PassesInert(order[1..], s);
    }
  }

  /** Of the escaped characters, an entity holds the ampersand alone. */
  lemma EntityInert(c: char, x: char)
    requires c in SPECIALS && x in SPECIALS && x != '&'
    ensures x !in Entity(c)
  {
  }

  lemma {:induction false} PassesLaterChar(order: seq<char>, c: char)
    requires c in SPECIALS && '&' !in order && forall x :: x in order ==> x in SPECIALS
    ensures Passes(order, [c]) == if c in order then Entity(c) else [c]
  {
    if c !in order {
      PassesInert(order, [c]);
    } else if order[0] == c {
      ReplaceAllSingle(c, Entity(c));
      forall x | x in order[1..] ensures x !in Entity(c) {
        EntityInert(c, x);
      }
      PassesInert(order[1..], Entity(c));
    } else {
      ReplaceAllAbsent([c], order[0], Entity(order[0]));
      PassesLaterChar(order[1..], c);
    }
  }

  predicate AmpersandFirst(order: seq<char>) {
    && order != [] && order[0] == '&' && '&' !in order[1..]
    && forall x :: x in order ==> x in SPECIALS
  }

  lemma PassesOneChar(order: seq<char>, c: char)
    requires AmpersandFirst(order)
    ensures Passes(order, [c]) == if c in order then Entity(c) else [c]
  {
    assert c in order <==> c == '&' || c in order[1..];
    if c == '&' {
      ReplaceAllSingle('&', "&amp;");
      forall x | x in order[1..] ensures x !in "&amp;" {
        EntityInert('&', x);
      }
      PassesInert(order[1..], "&amp;");
    } else {
      ReplaceAllAbsent([c], '&', "&amp;");
      if c in SPECIALS {
        PassesLaterChar(order[1..], c);
      } else {
        PassesInert(order[1..], [c]);
      }
    }
  }

  /** Successive replacement equals the one-pass character map when the ampersand goes first. */
  lemma {:induction false} PassesAreCharWise(order: seq<char>, s: string)
    requires AmpersandFirst(order)
    ensures Passes(order, s) == CharWise(Chars(order), s)
  {
    if s == [] {
      PassesInert(order, s);
    } else {
      assert s == [s[0]] + s[1..];
      PassesConcat(order, [s[0]], s[1..]);
      PassesOneChar(order, s[0]);
      PassesAreCharWise(order, s[1..]);
    }
  }

  lemma AttrEscapeIsCharWise(s: string)
    ensures XmlEscapeAttr(s) == CharWise(SPECIALS, s)
  {
    AttrPasses(s);
    assert Chars(ATTR_ORDER) == SPECIALS;
    PassesAreCharWise(ATTR_ORDER, s);
  }

  lemma TextEscapeIsCharWise(s: string)
    ensures EscapeSnapshotXmlText(s) == CharWise(SPECIALS - {'\''}, s)
  {
    TextPasses(s);
    assert Chars(TEXT_ORDER) == SPECIALS - {'\''};
    PassesAreCharWise(TEXT_ORDER, s);
  }

  // ---- Why the ampersand has to go first ---------------------------------------------------

  lemma {:induction false} ReplaceAllGrows(s: string, c: char)
    requires c in SPECIALS
    ensures |ReplaceAll(s, c, Entity(c))| >= |s| + (if c in s then 3 else 0)
  {
    if s != [] {
      ReplaceAllGrows(s[1..], c);
    }
  }

  lemma {:induction false} PassesGrow(order: seq<char>, s: string)
    requires forall x :: x in order ==> x in SPECIALS
    ensures |Passes(order, s)| >= |s| + (if '&' in order && '&' in s then 3 else 0)
  {
    if order != [] {
      var t := ReplaceAll(s, order[0], Entity(order[0]));
      ReplaceAllGrows(s, order[0]);
      PassesGrow(order[1..], t);
      if order[0] != '&' && '&' in s {
        ReplaceAllKeepsOthers(s, order[0], '&');
      }
    }
  }

  lemma {:induction false} ReplaceAllKeepsOthers(s: string, c: char, d: char)
    requires c != d && d in s
    ensures d in ReplaceAll(s, c, Entity(c))
  {
    if s[0] != d {
      ReplaceAllKeepsOthers(s[1..], c, d);
    }
  }

  /** For orders without repetition that treat the ampersand, going first is also necessary. */
  lemma AmpersandMustGoFirst(order: seq<char>)
    requires '&' in order
    requires forall x :: x in order ==> x in SPECIALS
    requires forall i, j :: 0 <= i < j < |order| ==> order[i] != order[j]
    ensures (forall s :: Passes(order, s) == CharWise(Chars(order), s)) <==> order[0] == '&'
  {
    if order[0] == '&' {
      forall s ensures Passes(order, s) == CharWise(Chars(order), s) {
        PassesAreCharWise(order, s);
      }
    } else {
      LateAmpersandEscapesTwice(order);
    }
  }

  lemma LateAmpersandEscapesTwice(order: seq<char>)
    requires '&' in order && order[0] != '&'
    requires forall x :: x in order ==> x in SPECIALS
    ensures Passes(order, [order[0]]) != CharWise(Chars(order), [order[0]])
  {
    var c := order[0];
    var e := Entity(c);
    ReplaceAllSingle(c, e);
    assert c in order;
    assert e[0] == '&';
    assert '&' in order[1..];
    PassesGrow(order[1..], e);
    assert CharWise(Chars(order), [c]) == e + CharWise(Chars(order), []) == e;
  }

  // ---- What the escaped text looks like ------------------------------------------------------

  predicate EntityAt(escaped: set<char>, t: string, i: nat)
    requires i <= |t|
  {
    exists c :: c in escaped && Entity(c) <= t[i..]
  }

  predicate WellEscaped(escaped: set<char>, t: string) {
    && (forall c :: c in escaped && c != '&' ==> c !in t)
    && (forall i :: 0 <= i < |t| && t[i] == '&' ==> EntityAt(escaped, t, i))
  }

  lemma EntityAtShift(escaped: set<char>, h: string, u: string, k: nat)
    requires k < |u| && EntityAt(escaped, u, k)
    ensures EntityAt(escaped, h + u, |h| + k)
  {
  }

  lemma WellEscapedCons(escaped: set<char>, c: char, u: string)
    requires '&' in escaped && escaped <= SPECIALS && WellEscaped(escaped, u)
    ensures WellEscaped(escaped, (if c in escaped then Entity(c) else [c]) + u)
  {
    var h := if c in escaped then Entity(c) else [c];
    var t := h + u;
    forall x | x in escaped && x != '&' ensures x !in t {
      if c in escaped {
        EntityInert(c, x);
      }
    }
    forall i | 0 <= i < |t| && t[i] == '&' ensures EntityAt(escaped, t, i) {
      if i >= |h| {
        assert u[i - |h|] == '&';
        EntityAtShift(escaped, h, u, i - |h|);
      } else {
        AmpersandLeadsEntity(c, i);
        assert t[0..] == t && h <= t;
      }
    }
  }

  lemma AmpersandLeadsEntity(c: char, i: nat)
    requires i < |Entity(c)| && Entity(c)[i] == '&'
    ensures i == 0 && c in SPECIALS
  {
  }

  /** Only ampersands remain of the escaped characters, and each begins an entity that was emitted. */
  lemma {:induction false} CharWiseShape(escaped: set<char>, s: string)
    requires '&' in escaped && escaped <= SPECIALS
    ensures WellEscaped(escaped, CharWise(escaped, s))
  {
    if s != [] {
      CharWiseShape(escaped, s[1..]);
      WellEscapedCons(escaped, s[0], CharWise(escaped, s[1..]));
    }
  }

  /** An entity-aware reader, with the five predefined entities. */
  function Decode(t: string): string
    decreases |t|
  {
    if t == [] then []
    else if "&amp;" <= t then ['&'] + Decode(t[5..])
    else if "&apos;" <= t then ['\''] + Decode(t[6..])
    else if "&quot;" <= t then ['"'] + Decode(t[6..])
    else if "&lt;" <= t then ['<'] + Decode(t[4..])
    else if "&gt;" <= t then ['>'] + Decode(t[4..])
    else [t[0]] + Decode(t[1..])
  }

  lemma DecodeEntity(c: char, u: string)
    requires c in SPECIALS
    ensures Decode(Entity(c) + u) == [c] + Decode(u)
  {
    var t := Entity(c) + u;
    assert t[|Entity(c)|..] == u;
    assert Entity(c) <= t;
    assert t[1] == Entity(c)[1] && t[2] == Entity(c)[2];
  }

  lemma {:induction false} DecodeCharWise(escaped: set<char>, s: string)
    requires '&' in escaped && escaped <= SPECIALS
    ensures Decode(CharWise(escaped, s)) == s
  {
    if s != [] {
      var u := CharWise(escaped, s[1..]);
      DecodeCharWise(escaped, s[1..]);
      if s[0] in escaped {
        DecodeEntity(s[0], u);
      } else {
        var t := [s[0]] + u;
        assert t[0] != '&';
        assert t[1..] == u;
        assert Decode(t) == [t[0]] + Decode(t[1..]);
      }
    }
  }

  /** Attribute escaping is undone by decoding and leaves nothing that could end the attribute or open a tag. */
  lemma AttrEscapeRoundTrip(s: string)
    ensures var t := XmlEscapeAttr(s);
      && Decode(t) == s
      && '\'' !in t && '"' !in t && '<' !in t && '>' !in t
      && WellEscaped(SPECIALS, t)
  {
    AttrEscapeIsCharWise(s);
    DecodeCharWise(SPECIALS, s);
    CharWiseShape(SPECIALS, s);
  }

  lemma TextEscapeRoundTrip(s: string)
    ensures var t := EscapeSnapshotXmlText(s);
      && Decode(t) == s
      && '"' !in t && '<' !in t && '>' !in t
      && WellEscaped(SPECIALS - {'\''}, t)
  {
    TextEscapeIsCharWise(s);
    DecodeCharWise(SPECIALS - {'\''}, s);
    CharWiseShape(SPECIALS - {'\''}, s);
  }
}
