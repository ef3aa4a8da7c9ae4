/** `StrandsScore._processScore`: the score of a posted Strands result block.

    A message is a sequence of tokens: the hint glyph (light bulb), the regular
    theme-word glyph (blue circle), the spangram glyph (yellow circle), and any
    other character. The three glyphs are distinct surrogate pairs that regular
    expressions match without overlap, so the token view loses nothing. */
module ScoreParser {

  datatype Token = Hint | Regular | Spangram | Other(c: char)

  type Message = seq<Token>

  predicate IsGlyph(t: Token) {
    !t.Other?
  }

  /** The number of hint glyphs anywhere in the message (`match(/💡/g).length`). */
  function Hints(m: Message): (n: nat)
    ensures n <= |m|
    ensures n == 0 <==> Hint !in m
  {
    if m == [] then 0
    else (if m[0] == Hint then 1 else 0) + Hints(m[1..])
  }

  /** The glyphs of the message in order (`match(/💡|🔵|🟡/g)`). */
  function Glyphs(m: Message): (g: seq<Token>)
    ensures |g| <= |m|
  {
    if m == [] then []
    else if IsGlyph(m[0]) then [m[0]] + Glyphs(m[1..])
    else Glyphs(m[1..])
  }

  /** The glyphs listed are exactly the glyph tokens of the message. */
  lemma {:induction false} GlyphsMembers(m: Message)
    ensures forall t :: t in Glyphs(m) <==> t in m && IsGlyph(t)
  {
    if m != [] {
      GlyphsMembers(m[1..]);
      assert m == [m[0]] + m[1..];
    }
  }

  /** `Array.prototype.indexOf`: the first position of `t` in `g`, or -1. */
  function IndexOf(g: seq<Token>, t: Token): (i: int)
    ensures -1 <= i < |g|
    ensures i == -1 <==> t !in g
    ensures 0 <= i ==> g[i] == t && t !in g[..i]
  {
    if g == [] then -1
    else if g[0] == t then 0
    else
      var j := IndexOf(g[1..], t);
      if j == -1 then -1
      else
        assert g[1..][..j] == g[..j + 1][1..];
        j + 1
  }

  /** The score: hints used plus the 1-based position of the first spangram glyph
      among all glyphs (0 when the spangram glyph is absent). Lower is better. */
  function ProcessScore(m: Message): (score: nat)
    ensures Spangram !in m ==> score == Hints(m)
    ensures Spangram in m ==>
              && Hints(m) < score <= Hints(m) + |Glyphs(m)|
              && Glyphs(m)[score - Hints(m) - 1] == Spangram
              && Spangram !in Glyphs(m)[..score - Hints(m) - 1]
  {
    GlyphsMembers(m);
    Hints(m) + (IndexOf(Glyphs(m), Spangram) + 1)
  }

  /** Characters other than the three glyphs never affect the score. */
  lemma {:induction false} GlyphsOnlyDecide(m: Message)
    ensures Hints(Glyphs(m)) == Hints(m)
    ensures Glyphs(Glyphs(m)) == Glyphs(m)
    ensures ProcessScore(Glyphs(m)) == ProcessScore(m)
  {
    if m != [] {
      GlyphsOnlyDecide(m[1..]);
      if IsGlyph(m[0]) {
        var g := [m[0]] + Glyphs(m[1..]);
        assert g[1..] == Glyphs(m[1..]);
      }
    }
  }

  /** The message stored by reprocessing: every backslash followed by `n` (the
      two characters) becomes a newline, scanning from the left
      (`replaceAll('\\n', '\n')`). */
  function Unescape(m: Message): (u: Message)
    ensures |u| <= |m|
  {
    if |m| >= 2 && m[0] == Other('\\') && m[1] == Other('n') then [Other('\n')] + Unescape(m[2..])
    else if m == [] then []
    else [m[0]] + Unescape(m[1..])
  }

  /** Rewriting escaped line breaks leaves the hints and the glyph order alone,
      hence the score. */
  lemma {:induction false} UnescapeKeepsScore(m: Message)
    ensures Hints(Unescape(m)) == Hints(m)
    ensures Glyphs(Unescape(m)) == Glyphs(m)
    ensures ProcessScore(Unescape(m)) == ProcessScore(m)
    decreases |m|
  {
    if |m| >= 2 && m[0] == Other('\\') && m[1] == Other('n') {
      UnescapeKeepsScore(m[2..]);
      var u := [Other('\n')] + Unescape(m[2..]);
      assert u[1..] == Unescape(m[2..]);
      assert m[1..][1..] == m[2..];
    } else if m != [] {
      UnescapeKeepsScore(m[1..]);
      var u := [m[0]] + Unescape(m[1..]);
      assert u[1..] == Unescape(m[1..]);
    }
  }

  /** A message produced by `Unescape` holds no backslash directly followed by `n`
      unless it was there before a replaced pair could form one; in particular,
      unescaping twice is unescaping once. */
  lemma {:induction false} UnescapeIdempotent(m: Message)
    ensures Unescape(Unescape(m)) == Unescape(m)
    decreases |m|
  {
    UnescapeHasNoPair(m);
    NoPairUnescapeIdentity(Unescape(m));
  }

  /** No backslash token is directly followed by an `n` token. */
  ghost predicate NoEscapedNewline(m: Message) {
    forall i :: 0 <= i < |m| - 1 ==> !(m[i] == Other('\\') && m[i + 1] == Other('n'))
  }

  lemma {:induction false} UnescapeHasNoPair(m: Message)
    ensures NoEscapedNewline(Unescape(m))
    ensures |m| > 0 && m[0] != Other('\\') && m[0] != Other('n') ==> |Unescape(m)| > 0 && Unescape(m)[0] == m[0]
    ensures |m| > 0 && m[0] == Other('n') ==> |Unescape(m)| > 0 && Unescape(m)[0] == Other('n')
    ensures |Unescape(m)| > 0 ==> Unescape(m)[0] != Other('n') || m[0] == Other('n')
    decreases |m|
  {
    if |m| >= 2 && m[0] == Other('\\') && m[1] == Other('n') {
      UnescapeHasNoPair(m[2..]);
    } else if m != [] {
      UnescapeHasNoPair(m[1..]);
      var rest := Unescape(m[1..]);
      var u := [m[0]] + rest;
      if m[0] == Other('\\') && |rest| > 0 {
        // the pair test failed, so the next token is not `n`, and the output of
        // the rest starts with `n` only when the rest does
        assert |m| >= 2 ==> m[1] != Other('n');
        assert rest[0] != Other('n');
      }
      assert forall i :: 1 <= i < |u| - 1 ==> u[i] == rest[i - 1] && u[i + 1] == rest[i];
    }
  }

  lemma {:induction false} NoPairUnescapeIdentity(m: Message)
    requires NoEscapedNewline(m)
    ensures Unescape(m) == m
    decreases |m|
  {
    if m != [] {
      assert NoEscapedNewline(m[1..]) by {
        forall i | 0 <= i < |m[1..]| - 1
          ensures !(m[1..][i] == Other('\\') && m[1..][i + 1] == Other('n'))
        {
          assert m[1..][i] == m[i + 1] && m[1..][i + 1] == m[i + 2];
        }
      }
      NoPairUnescapeIdentity(m[1..]);
      assert m == [m[0]] + m[1..];
    }
  }

  /** Counting hints and listing glyphs distribute over concatenation. */
  lemma {:induction false} HintsGlyphsAppend(a: Message, b: Message)
    ensures Hints(a + b) == Hints(a) + Hints(b)
    ensures Glyphs(a + b) == Glyphs(a) + Glyphs(b)
  {
    if a == [] {
      assert a + b == b;
    } else {
      var ab := a + b;
      assert ab[0] == a[0] && ab[1..] == a[1..] + b;
      HintsGlyphsAppend(a[1..], b);
      assert Hints(ab) == (if a[0] == Hint then 1 else 0) + Hints(a[1..] + b);
      if IsGlyph(a[0]) {
        assert Glyphs(ab) == [a[0]] + Glyphs(a[1..] + b);
        assert Glyphs(a) == [a[0]] + Glyphs(a[1..]);
      } else {
        assert Glyphs(ab) == Glyphs(a[1..] + b);
      }
    }
  }

  /** The glyph lines of the block shown in the documentation of
      `_processScore`: `💡🔵🔵💡`, `🔵💡💡🔵`, `💡🔵🟡`, as tokens. */
  predicate DocumentedLines(m: Message) {
    && |m| == 13
    && m[0] == Hint
    && m[1] == Regular
    && m[2] == Regular
    && m[3] == Hint
    && m[4] == Other('\n')
    && m[5] == Regular
    && m[6] == Hint
    && m[7] == Hint
    && m[8] == Regular
    && m[9] == Other('\n')
    && m[10] == Hint
    && m[11] == Regular
    && m[12] == Spangram
  }

  /** Plain text, none of whose characters is a glyph. */
  function PlainText(s: string): (m: Message)
    ensures Hints(m) == 0 && Glyphs(m) == []
    ensures |m| == |s| && forall i :: 0 <= i < |s| ==> m[i] == Other(s[i])
  {
    if s == [] then [] else [Other(s[0])] + PlainText(s[1..])
  }

  /** The documented block, after a header and clue of any text, scores 5 hints +
      position 11 = 16. */
  lemma DocumentedBlockScore(headerAndClue: string, lines: Message)
    requires DocumentedLines(lines)
    ensures ProcessScore(PlainText(headerAndClue) + lines) == 16
  {
    DocumentedLinesGlyphs(lines);
    var text := PlainText(headerAndClue);
    HintsGlyphsAppend(text, lines);
    assert Glyphs(text + lines) == Glyphs(lines);
  }

  /** The documented glyph lines hold five hints and eleven glyphs, and the first
      spangram is the eleventh glyph. Worked from the last token back. */
  lemma DocumentedLinesGlyphs(m: Message)
    requires DocumentedLines(m)
    ensures Hints(m) == 5 && |Glyphs(m)| == 11 && IndexOf(Glyphs(m), Spangram) == 10
  {
    assert m[13..] == [];
    Advance(m, 12, 0, 0, -1);
    Advance(m, 11, 0, 1, 0);
    Advance(m, 10, 0, 2, 1);
    Advance(m, 9, 1, 3, 2);
    Advance(m, 8, 1, 3, 2);
    Advance(m, 7, 1, 4, 3);
    Advance(m, 6, 2, 5, 4);
    Advance(m, 5, 3, 6, 5);
    Advance(m, 4, 3, 7, 6);
    Advance(m, 3, 3, 7, 6);
    Advance(m, 2, 4, 8, 7);
    Advance(m, 1, 4, 9, 8);
    Advance(m, 0, 4, 10, 9);
    assert m[0..] == m;
  }

  /** What one more token in front does to the hint count, the glyph count and the
      position of the first spangram. */
  lemma Advance(m: Message, k: nat, h: nat, n: nat, i: int)
    requires k < |m|
    requires Hints(m[k + 1..]) == h && |Glyphs(m[k + 1..])| == n
    requires IndexOf(Glyphs(m[k + 1..]), Spangram) == i
    ensures Hints(m[k..]) == h + (if m[k] == Hint then 1 else 0)
    ensures |Glyphs(m[k..])| == n + (if IsGlyph(m[k]) then 1 else 0)
    ensures IndexOf(Glyphs(m[k..]), Spangram) ==
      if !IsGlyph(m[k]) then i else if m[k] == Spangram then 0 else if i == -1 then -1 else i + 1
  {
    Step(m, k);
    FirstSpangram(m[k], Glyphs(m[k + 1..]));
  }

  /** Counting and listing glyphs one token at a time. */
  lemma Step(m: Message, k: nat)
    requires k < |m|
    ensures Hints(m[k..]) == (if m[k] == Hint then 1 else 0) + Hints(m[k + 1..])
    ensures Glyphs(m[k..]) == (if IsGlyph(m[k]) then [m[k]] else []) + Glyphs(m[k + 1..])
  {
    assert m[k..] == [m[k]] + m[k + 1..];
    Prepend(m[k], m[k + 1..]);
  }

  lemma Prepend(t: Token, m: Message)
    ensures Hints([t] + m) == (if t == Hint then 1 else 0) + Hints(m)
    ensures Glyphs([t] + m) == if IsGlyph(t) then [t] + Glyphs(m) else Glyphs(m)
  {
    assert ([t] + m)[0] == t && ([t] + m)[1..] == m;
  }

  /** The first spangram after one more glyph. */
  lemma FirstSpangram(t: Token, g: seq<Token>)
    ensures IndexOf((if IsGlyph(t) then [t] else []) + g, Spangram) ==
      if !IsGlyph(t) then IndexOf(g, Spangram)
      else if t == Spangram then 0
      else if IndexOf(g, Spangram) == -1 then -1
      else IndexOf(g, Spangram) + 1
  {
    if IsGlyph(t) {
      assert ([t] + g)[0] == t && ([t] + g)[1..] == g;
    } else {
      assert [] + g == g;
    }
  }
}
