/** String helpers that the bot relies on from JavaScript: decimal rendering of
    numbers (`n + ''`), `Number(...)` on a decimal header, `indexOf`,
    `replaceAll` and `startsWith`. */
module Text {
  import opened Wrappers

  predicate IsDigit(c: char) {
    '0' <= c <= '9'
  }

  predicate AllDigits(s: string) {
    forall i :: 0 <= i < |s| ==> IsDigit(s[i])
  }

  function DigitChar(d: nat): (c: char)
    requires d < 10
    ensures IsDigit(c) && c as int - '0' as int == d
  {
    (('0' as int) + d) as char
  }

  function DigitValue(c: char): (d: nat)
    requires IsDigit(c)
    ensures d < 10 && DigitChar(d) == c
  {
    c as int - '0' as int
  }

  /** The decimal rendering of a natural number, as JavaScript's `n + ''`. */
  function ShowNat(n: nat): (s: string)
    ensures 0 < |s| && AllDigits(s)
    ensures n < 10 <==> |s| == 1
    decreases n
  {
    if n < 10 then [DigitChar(n)] else ShowNat(n / 10) + [DigitChar(n % 10)]
  }

  /** The decimal rendering of an integer: a minus sign before a negative one. */
  function ShowInt(n: int): (s: string)
    ensures 0 < |s|
    ensures n >= 0 ==> s == ShowNat(n)
    ensures n < 0 ==> s[0] == '-' && s[1..] == ShowNat(-n)
  {
    if n < 0 then "-" + ShowNat(-n) else ShowNat(n)
  }

  /** The value of a string of decimal digits; the empty string is 0, as
      JavaScript's `Number('')`. */
  function DecimalValue(s: string): nat
    requires AllDigits(s)
  {
    if s == [] then 0 else DecimalValue(s[..|s| - 1]) * 10 + DigitValue(s[|s| - 1])
  }

  /** Reading back the rendering of a number gives the number. */
  lemma {:induction false} DecimalValueOfShowNat(n: nat)
    ensures DecimalValue(ShowNat(n)) == n
    decreases n
  {
    var s := ShowNat(n);
    if n >= 10 {
      DecimalValueOfShowNat(n / 10);
      assert s[..|s| - 1] == ShowNat(n / 10);
    }
  }

  /** JavaScript's `s.indexOf(c)`: the first position of `c`, or -1. */
  function IndexOfChar(s: string, c: char): (i: int)
    ensures -1 <= i < |s|
    ensures i == -1 <==> c !in s
    ensures 0 <= i ==> s[i] == c && c !in s[..i]
  {
    if s == [] then -1
    else if s[0] == c then 0
    else
      var j := IndexOfChar(s[1..], c);
      if j == -1 then -1
      else
        assert s[1..][..j] == s[..j + 1][1..];
        j + 1
  }

  /** A character JavaScript's `String.prototype.trim` removes: white space and
      line terminators. */
  predicate IsSpace(c: char) {
    || c == ' ' || c == '\t' || c == '\n' || c == '\r' || c == '\U{B}' || c == '\U{C}'
    || c == '\U{A0}' || c == '\U{1680}' || ('\U{2000}' <= c <= '\U{200A}')
    || c == '\U{2028}' || c == '\U{2029}' || c == '\U{202F}' || c == '\U{205F}'
    || c == '\U{3000}' || c == '\U{FEFF}'
  }

  /** `s.trim()`: the longest slice of `s` that neither starts nor ends with white
      space. */
  function Trim(s: string): (t: string)
    ensures exists i, j :: TrimmedAt(s, t, i, j)
    ensures t != [] ==> !IsSpace(t[0]) && !IsSpace(t[|t| - 1])
    ensures (s == [] || (!IsSpace(s[0]) && !IsSpace(s[|s| - 1]))) ==> t == s
  {
    var a := LeadingSpaces(s);
    if a == |s| then
      assert TrimmedAt(s, [], |s|, |s|);
      []
    else
      var b := |s| - TrailingSpaces(s);
      assert a < b;
      assert TrimmedAt(s, s[a..b], a, b);
      s[a..b]
  }

  /** The number of white-space characters `s` starts with. */
  function LeadingSpaces(s: string): (k: nat)
    ensures k <= |s| && forall i :: 0 <= i < k ==> IsSpace(s[i])
    ensures k < |s| ==> !IsSpace(s[k])
  {
    if s == [] || !IsSpace(s[0]) then 0 else 1 + LeadingSpaces(s[1..])
  }

  /** The number of white-space characters `s` ends with. */
  function TrailingSpaces(s: string): (k: nat)
    ensures k <= |s| && forall i :: |s| - k <= i < |s| ==> IsSpace(s[i])
    ensures k < |s| ==> !IsSpace(s[|s| - k - 1])
  {
    if s == [] || !IsSpace(s[|s| - 1]) then 0 else 1 + TrailingSpaces(s[..|s| - 1])
  }

  /** `t` is `s[i..j]`, and everything of `s` outside that slice is white space. */
  predicate TrimmedAt(s: string, t: string, i: int, j: int) {
    && 0 <= i <= j <= |s| && t == s[i..j]
    && (forall k :: 0 <= k < i ==> IsSpace(s[k]))
    && (forall k :: j <= k < |s| ==> IsSpace(s[k]))
  }

  /** `s.replaceAll(c, '')` for a single character `c`. */
  function RemoveChar(s: string, c: char): (r: string)
    ensures c !in r
    ensures forall x :: x != c ==> (x in r <==> x in s)
    ensures |r| <= |s|
    ensures c !in s ==> r == s
  {
    if s == [] then []
    else if s[0] == c then RemoveChar(s[1..], c)
    else [s[0]] + RemoveChar(s[1..], c)
  }

  predicate StartsWith(s: string, prefix: string) {
    |prefix| <= |s| && s[..|prefix|] == prefix
  }

  /** `p` occurs in `s` starting at position `i`. */
  predicate OccursAt(s: string, p: string, i: int) {
    0 <= i && i + |p| <= |s| && s[i..i + |p|] == p
  }

  predicate Contains(s: string, p: string) {
    exists i :: 0 <= i <= |s| && OccursAt(s, p, i)
  }

  /** An occurrence in a suffix is an occurrence in the whole string. */
  lemma ContainsSuffix(s: string, k: nat, p: string)
    requires k <= |s|
    ensures Contains(s[k..], p) ==> Contains(s, p)
  {
    if Contains(s[k..], p) {
      var i :| 0 <= i <= |s[k..]| && OccursAt(s[k..], p, i);
      assert s[i + k..i + k + |p|] == s[k..][i..i + |p|];
      assert OccursAt(s, p, i + k);
    }
  }

  /** JavaScript's `s.replaceAll(p, r)` for a non-empty literal pattern: scan from
      the left and replace each non-overlapping occurrence. Replacing a pattern by
      itself, or in a string without it, changes nothing. */
  function ReplaceAll(s: string, p: string, r: string): (o: string)
    requires p != []
    ensures !Contains(s, p) ==> o == s
    ensures r == p ==> o == s
    decreases |s|
  {
    if |s| < |p| then s
    else if s[..|p|] == p then
      assert OccursAt(s, p, 0);
      r + ReplaceAll(s[|p|..], p, r)
    else
      ContainsSuffix(s, 1, p);
      [s[0]] + ReplaceAll(s[1..], p, r)
  }

  /** The output of `ReplaceAll` either starts like its input, or one of its first
      `k` characters came from the replacement text. */
  lemma {:induction false} ReplaceAllPrefix(t: string, p: string, r: string, k: nat)
    requires p != [] && r != []
    requires k <= |ReplaceAll(t, p, r)|
    ensures (k <= |t| && ReplaceAll(t, p, r)[..k] == t[..k])
            || exists m :: 0 <= m < k && ReplaceAll(t, p, r)[m] in r
    decreases |t|
  {
    var o := ReplaceAll(t, p, r);
    if k == 0 || |t| < |p| {
    } else if t[..|p|] == p {
      assert o[0] == r[0];
    } else {
      var o1 := ReplaceAll(t[1..], p, r);
      assert o == [t[0]] + o1;
      ReplaceAllPrefix(t[1..], p, r, k - 1);
      if k - 1 <= |t[1..]| && o1[..k - 1] == t[1..][..k - 1] {
        assert o[..k] == t[..k];
      } else {
        var m :| 0 <= m < k - 1 && o1[m] in r;
        assert o[m + 1] in r;
      }
    }
  }

  /** Text with no character of `q` in front of a string without `q` adds none. */
  lemma NotContainsAfterForeignText(r: string, o: string, q: string)
    requires q != []
    requires forall c :: c in r ==> c !in q
    requires !Contains(o, q)
    ensures !Contains(r + o, q)
  {
    var t := r + o;
    forall i | 0 <= i <= |t| ensures !OccursAt(t, q, i) {
      if i < |r| && i + |q| <= |t| {
        assert t[i..i + |q|][0] == r[i] && r[i] in r;
        assert q[0] in q;
      } else if |r| <= i {
        assert i + |q| <= |t| ==> t[i..i + |q|] == o[i - |r|..i - |r| + |q|];
        assert !OccursAt(o, q, i - |r|);
      }
    }
  }

  /** One character in front of a string without `q` adds an occurrence only at
      the front. */
  lemma NotContainsAfterChar(c: char, o: string, q: string)
    requires !Contains(o, q)
    requires !StartsWith([c] + o, q)
    ensures !Contains([c] + o, q)
  {
    var t := [c] + o;
    forall i | 0 < i <= |t| ensures !OccursAt(t, q, i) {
      assert i + |q| <= |t| ==> t[i..i + |q|] == o[i - 1..i - 1 + |q|];
      assert !OccursAt(o, q, i - 1);
    }
  }

  /** If the first `|q|` characters of `[c] + o` are those of `s`, or one of them
      is foreign to `q`, then `[c] + o` does not start with `q`. */
  lemma NotStartsWithCopy(s: string, o: string, r: string, q: string)
    requires q != [] && s != [] && !StartsWith(s, q)
    requires forall c :: c in r ==> c !in q
    requires |q| - 1 <= |o|
    requires (|q| - 1 <= |s[1..]| && o[..|q| - 1] == s[1..][..|q| - 1])
             || exists m :: 0 <= m < |q| - 1 && o[m] in r
    ensures !StartsWith([s[0]] + o, q)
  {
    var t := [s[0]] + o;
    if |q| - 1 <= |s[1..]| && o[..|q| - 1] == s[1..][..|q| - 1] {
      assert t[..|q|] == s[..|q|];
    } else {
      var m :| 0 <= m < |q| - 1 && o[m] in r;
      assert t[..|q|][m + 1] == o[m] && o[m] !in q;
      assert q[m + 1] in q;
    }
  }

  /** A replacement text that shares no character with `q` cannot create an
      occurrence of `q`; when `q` is the pattern itself, none is left over. */
  lemma {:induction false} ReplaceAllAvoids(s: string, p: string, r: string, q: string)
    requires p != [] && r != [] && q != []
    requires forall c :: c in r ==> c !in q
    requires q == p || !Contains(s, q)
    ensures !Contains(ReplaceAll(s, p, r), q)
    decreases |s|
  {
    if |s| < |p| {
    } else if s[..|p|] == p {
      ContainsSuffix(s, |p|, q);
      ReplaceAllAvoids(s[|p|..], p, r, q);
      NotContainsAfterForeignText(r, ReplaceAll(s[|p|..], p, r), q);
    } else {
      ContainsSuffix(s, 1, q);
      ReplaceAllAvoids(s[1..], p, r, q);
      var o1 := ReplaceAll(s[1..], p, r);
      assert !StartsWith(s, q) by {
        if q != p { assert !OccursAt(s, q, 0); }
      }
      if |q| - 1 <= |o1| {
        ReplaceAllPrefix(s[1..], p, r, |q| - 1);
        NotStartsWithCopy(s, o1, r, q);
      }
      NotContainsAfterChar(s[0], o1, q);
    }
  }
}
