/** The parts of java.lang.String and java.lang.Integer that the text adapters
    rely on: `trim`, `toLowerCase`, `isBlank`, `split("\\s+")`, `parseInt` and the
    decimal rendering of an int. */
module JavaText {
  import opened Wrappers

  /** `Character.isWhitespace`: the ASCII controls it accepts and the Unicode
      space, line and paragraph separators other than the no-break ones. */
  predicate IsJavaWhitespace(ch: char) {
    || ch == ' ' || ('\t' <= ch <= '\r') || ('\U{1C}' <= ch <= '\U{1F}')
    || ch == '\U{1680}' || ('\U{2000}' <= ch <= '\U{2006}') || ('\U{2008}' <= ch <= '\U{200A}')
    || ch == '\U{2028}' || ch == '\U{2029}' || ch == '\U{205F}' || ch == '\U{3000}'
  }

  /** `String.isBlank`: empty or made only of whitespace. */
  predicate IsBlank(s: string) {
    forall i :: 0 <= i < |s| ==> IsJavaWhitespace(s[i])
  }

  /* ---------- trim ---------- */

  /** `trim` strips every character up to U+0020 from both ends. */
  predicate Trimmable(ch: char) {
    ch <= ' '
  }

  predicate AllTrimmable(s: string) {
    forall i :: 0 <= i < |s| ==> Trimmable(s[i])
  }

  /** A string `trim` leaves alone: empty, or starting and ending with a kept character. */
  predicate IsTrimmed(s: string) {
    s == [] || (!Trimmable(s[0]) && !Trimmable(s[|s| - 1]))
  }

  function LeadingTrimmable(s: string): (n: nat)
    ensures n <= |s| && AllTrimmable(s[..n])
    ensures n < |s| ==> !Trimmable(s[n])
  {
    if s == [] || !Trimmable(s[0]) then 0
    else
      var n := 1 + LeadingTrimmable(s[1..]);
      assert forall i :: 1 <= i < n ==> s[..n][i] == s[1..][..n - 1][i - 1];
      n
  }

  function TrailingTrimmable(s: string): (n: nat)
    ensures n <= |s| && AllTrimmable(s[|s| - n..])
    ensures n < |s| ==> !Trimmable(s[|s| - n - 1])
  {
    if s == [] || !Trimmable(s[|s| - 1]) then 0
    else
      var n := 1 + TrailingTrimmable(s[..|s| - 1]);
      assert forall i :: |s| - n <= i < |s| - 1 ==> s[i] == s[..|s| - 1][i];
      n
  }

  function Trim(s: string): (r: string)
    ensures IsTrimmed(r)
    ensures |r| <= |s|
  {
    var a := LeadingTrimmable(s);
    var rest := s[a..];
    var b := TrailingTrimmable(rest);
    rest[..|rest| - b]
  }

  /** `trim` removes exactly the padding around a trimmed core. */
  lemma {:induction false} TrimPadded(pre: string, w: string, post: string)
    requires AllTrimmable(pre) && AllTrimmable(post) && IsTrimmed(w)
    ensures Trim(pre + w + post) == w
  {
    var s := pre + w + post;
    if w == [] {
      assert AllTrimmable(s) by {
        forall i | 0 <= i < |s| ensures Trimmable(s[i]) {
          if i < |pre| { assert s[i] == pre[i]; } else { assert s[i] == post[i - |pre|]; }
        }
      }
      LeadingAllTrimmable(s);
    } else {
      LeadingPadded(pre, w + post);
      assert pre + w + post == pre + (w + post);
      var rest := s[|pre|..];
      assert rest == w + post;
      TrailingPadded(w, post);
    }
  }

  /** A trimmed string is its own trim. */
  lemma TrimKeeps(w: string)
    requires IsTrimmed(w)
    ensures Trim(w) == w
  {
    TrimPadded([], w, []);
    assert [] + w + [] == w;
  }

  lemma {:induction false} LeadingAllTrimmable(s: string)
    requires AllTrimmable(s)
    ensures LeadingTrimmable(s) == |s|
    decreases |s|
  {
    if s != [] {
      LeadingAllTrimmable(s[1..]);
    }
  }

  lemma {:induction false} LeadingPadded(pre: string, t: string)
    requires AllTrimmable(pre) && t != [] && !Trimmable(t[0])
    ensures LeadingTrimmable(pre + t) == |pre|
    decreases |pre|
  {
    if pre == [] {
      assert pre + t == t;
    } else {
      var s := pre + t;
      assert s[0] == pre[0] && Trimmable(s[0]);
      assert s[1..] == pre[1..] + t;
      assert AllTrimmable(pre[1..]) by {
        forall i | 0 <= i < |pre| - 1 ensures Trimmable(pre[1..][i]) {
          assert pre[1..][i] == pre[i + 1];
        }
      }
      LeadingPadded(pre[1..], t);
    }
  }

  lemma {:induction false} TrailingPadded(w: string, post: string)
    requires AllTrimmable(post) && w != [] && !Trimmable(w[|w| - 1])
    ensures TrailingTrimmable(w + post) == |post|
    decreases |post|
  {
    if post == [] {
      assert w + post == w;
    } else {
      assert (w + post)[..|w + post| - 1] == w + post[..|post| - 1];
      TrailingPadded(w, post[..|post| - 1]);
    }
  }

  /* ---------- case ---------- */

  /** `toLowerCase` on the ASCII letters; other characters are kept. */
  function LowerChar(ch: char): (r: char)
    ensures 'A' <= ch <= 'Z' ==> 'a' <= r <= 'z' && r as int - ch as int == 32
    ensures !('A' <= ch <= 'Z') ==> r == ch
  {
    if 'A' <= ch <= 'Z' then (ch as int + 32) as char else ch
  }

  function ToLower(s: string): (r: string)
    ensures |r| == |s|
    ensures forall i :: 0 <= i < |s| ==> r[i] == LowerChar(s[i])
  {
    seq(|s|, i requires 0 <= i < |s| => LowerChar(s[i]))
  }

  lemma ToLowerConcat(x: string, y: string)
    ensures ToLower(x + y) == ToLower(x) + ToLower(y)
  {
  }

  /** Lowering never creates or removes padding, so it keeps a string trimmed. */
  lemma LowerKeepsTrimmed(s: string)
    requires IsTrimmed(s)
    ensures IsTrimmed(ToLower(s))
  {
  }

  /** Lowering changes only letters, and no letter is whitespace. */
  lemma LowerKeepsBlank(s: string)
    ensures IsBlank(ToLower(s)) <==> IsBlank(s)
    ensures NoSpace(ToLower(s)) <==> NoSpace(s)
  {
  }

  /* ---------- split("\\s+") ---------- */

  /** A character of the regular-expression class `\s`: [ \t\n\x0B\f\r]. */
  predicate IsRegexSpace(ch: char) {
    ch == ' ' || ('\t' <= ch <= '\r')
  }

  predicate NoSpace(s: string) {
    forall i :: 0 <= i < |s| ==> !IsRegexSpace(s[i])
  }

  function FirstSpace(s: string): (i: nat)
    ensures i <= |s| && NoSpace(s[..i])
    ensures i < |s| ==> IsRegexSpace(s[i])
  {
    if s == [] || IsRegexSpace(s[0]) then 0
    else
      var i := 1 + FirstSpace(s[1..]);
      assert forall k :: 1 <= k < i ==> s[..i][k] == s[1..][..i - 1][k - 1];
      i
  }

  function SpaceRunEnd(s: string, i: nat): (j: nat)
    requires i <= |s|
    ensures i <= j <= |s|
    ensures forall k :: i <= k < j ==> IsRegexSpace(s[k])
    ensures j < |s| ==> !IsRegexSpace(s[j])
    decreases |s| - i
  {
    if i == |s| || !IsRegexSpace(s[i]) then i else SpaceRunEnd(s, i + 1)
  }

  /** A string made only of `\s` characters. */
  predicate AllSpace(s: string) {
    forall i :: 0 <= i < |s| ==> IsRegexSpace(s[i])
  }

  /** Pieces and the text after each of them, back to back:
      `ps[0] + gs[0] + ps[1] + gs[1] + ...`. */
  function Weave(ps: seq<string>, gs: seq<string>): string
    requires |ps| == |gs|
    decreases |ps|
  {
    if ps == [] then [] else ps[0] + gs[0] + Weave(ps[1..], gs[1..])
  }

  /** What may follow each piece of a split: a run of `\s`, non-empty between two
      pieces and possibly empty after the last one. */
  predicate Separates(ps: seq<string>, gs: seq<string>) {
    && |gs| == |ps|
    && (forall k :: 0 <= k < |gs| ==> AllSpace(gs[k]))
    && (forall k :: 0 <= k < |gs| - 1 ==> gs[k] != [])
  }

  /** The text between runs of `\s`, keeping empty pieces at either end. */
  function Pieces(s: string): (r: seq<string>)
    ensures |r| >= 1
    ensures forall k :: 0 <= k < |r| ==> NoSpace(r[k])
    decreases |s|
  {
    var i := FirstSpace(s);
    if i == |s| then
      assert s[..i] == s;
      [s]
    else
      [s[..i]] + Pieces(s[SpaceRunEnd(s, i)..])
  }

  /** The run of `\s` after each piece; nothing follows the last one. */
  function Gaps(s: string): seq<string>
    decreases |s|
  {
    var i := FirstSpace(s);
    if i == |s| then [[]] else [s[i..SpaceRunEnd(s, i)]] + Gaps(s[SpaceRunEnd(s, i)..])
  }

  /** `p` and `g` give back `s` woven together, every run after a piece but the
      last is non-empty, nothing follows the last piece, and no piece but the
      first and the last is empty. */
  predicate Woven(s: string, p: seq<string>, g: seq<string>) {
    && Separates(p, g) && |p| >= 1 && Weave(p, g) == s
    && g[|g| - 1] == []
    && (forall k :: 0 < k < |p| - 1 ==> p[k] != [])
  }

  /** The pieces and the runs after them weave back into the string. */
  lemma {:induction false} PiecesWeave(s: string)
    ensures Woven(s, Pieces(s), Gaps(s))
    ensures FirstSpace(s) < |s| ==> |Pieces(s)| >= 2
    decreases |s|
  {
    var i := FirstSpace(s);
    if i == |s| {
      assert s[..i] == s;
      assert Weave([s], [[]]) == s + [] + Weave([], []);
    } else {
      var j := SpaceRunEnd(s, i);
      var t := s[j..];
      PiecesWeave(t);
      assert Pieces(s) == [s[..i]] + Pieces(t) && Gaps(s) == [s[i..j]] + Gaps(t);
      assert s == s[..i] + s[i..j] + t;
      ConsWoven(s[..i], s[i..j], t, Pieces(t), Gaps(t));
    }
  }

  /** One more piece and run in front of a woven string. */
  lemma ConsWoven(a: string, gap: string, t: string, p: seq<string>, g: seq<string>)
    requires gap != [] && AllSpace(gap)
    requires t == [] || !IsRegexSpace(t[0])
    requires Woven(t, p, g)
    ensures Woven(a + gap + t, [a] + p, [gap] + g)
  {
    var p', g' := [a] + p, [gap] + g;
    assert p'[1..] == p && g'[1..] == g;
    assert Weave(p', g') == a + gap + Weave(p, g);
    assert |p| >= 2 ==> t == p[0] + g[0] + Weave(p[1..], g[1..]) && g[0] != [];
    assert forall k :: 0 < k < |p'| ==> p'[k] == p[k - 1];
    assert forall k :: 0 < k < |g'| ==> g'[k] == g[k - 1];
  }

  /** Splitting off the last piece and the run after it. */
  lemma {:induction false} WeaveSnoc(ps: seq<string>, gs: seq<string>)
    requires |ps| == |gs| && ps != []
    ensures Weave(ps, gs) == Weave(ps[..|ps| - 1], gs[..|gs| - 1]) + ps[|ps| - 1] + gs[|gs| - 1]
    decreases |ps|
  {
    if |ps| > 1 {
      WeaveSnoc(ps[1..], gs[1..]);
      assert ps[1..][..|ps| - 2] == ps[..|ps| - 1][1..];
      assert gs[1..][..|gs| - 2] == gs[..|gs| - 1][1..];
    }
  }

  /** The list without its trailing empty strings. */
  function DropTrailingEmpty(r: seq<string>): (t: seq<string>)
    ensures |t| <= |r| && t == r[..|t|]
    ensures t == [] || t[|t| - 1] != ""
    ensures forall k :: |t| <= k < |r| ==> r[k] == ""
  {
    if r != [] && r[|r| - 1] == "" then DropTrailingEmpty(r[..|r| - 1]) else r
  }

  /** A string of `\s` alone is two empty pieces around one run. */
  lemma AllSpacePieces(s: string)
    requires s != [] && AllSpace(s)
    ensures Pieces(s) == [[], []]
  {
    assert FirstSpace(s) == 0;
    assert SpaceRunEnd(s, 0) == |s|;
    assert s[|s|..] == [];
  }

  /** What `split` keeps of the pieces of a string that has a run of `\s`. */
  lemma {:induction false} DroppedPieces(s: string)
    requires FirstSpace(s) < |s|
    ensures var r := DropTrailingEmpty(Pieces(s));
      && (forall k :: 0 < k < |r| ==> r[k] != [])
      && (r == [] <==> AllSpace(s))
      && (r != [] ==> exists gs :: Separates(r, gs) && Weave(r, gs) == s)
  {
    if AllSpace(s) {
      AllSpacePieces(s);
      assert DropTrailingEmpty([[], []]) == DropTrailingEmpty([[]]) == [];
    } else {
      PiecesWeave(s);
      WovenDrop(s, Pieces(s), Gaps(s));
    }
  }

  /** Dropping the trailing empty piece of a woven string that is not all `\s`
      leaves non-empty pieces after the first, which still weave back into it. */
  lemma WovenDrop(s: string, p: seq<string>, g: seq<string>)
    requires Woven(s, p, g) && !AllSpace(s)
    ensures var r := DropTrailingEmpty(p);
      && r != [] && (forall k :: 0 < k < |r| ==> r[k] != [])
      && exists gs :: Separates(r, gs) && Weave(r, gs) == s
  {
    var n := |p|;
    WeaveSnoc(p, g);
    if p[n - 1] != [] {
      assert DropTrailingEmpty(p) == p;
    } else {
      var q := p[..n - 1];
      assert Weave(q, g[..n - 1]) == s;
      assert n == 2 ==> Weave(q, g[..n - 1]) == q[0] + g[0] + Weave([], []);
      if n == 1 || (n == 2 && p[0] == []) {
        assert false;
      }
      assert q[|q| - 1] != [];
      assert DropTrailingEmpty(p) == q;
      assert Separates(q, g[..n - 1]);
    }
  }

  /** `String.split("\\s+")`: with no match the whole string; otherwise the pieces
      without trailing empty strings. Either way the pieces, each followed by the
      run of `\s` that came after it, give back the string; only the first piece
      may be empty, and a string of `\s` alone splits into nothing. */
  function Split(s: string): (r: seq<string>)
    ensures forall k :: 0 <= k < |r| ==> NoSpace(r[k])
    ensures forall k :: 0 < k < |r| ==> r[k] != []
    ensures r == [] <==> s != [] && AllSpace(s)
    ensures r != [] ==> exists gs :: Separates(r, gs) && Weave(r, gs) == s
  {
    if FirstSpace(s) == |s| then
      assert s[..|s|] == s;
      assert Weave([s], [[]]) == s + [] + Weave([], []);
      [s]
    else
      DroppedPieces(s);
      DropTrailingEmpty(Pieces(s))
  }

  /** A space-free word followed by a run of `\s` starts the pieces. */
  lemma PiecesCons(a: string, g: string, t: string)
    requires NoSpace(a) && g != [] && AllSpace(g)
    requires t == [] || !IsRegexSpace(t[0])
    ensures Pieces(a + g + t) == [a] + Pieces(t)
    ensures FirstSpace(a + g + t) == |a|
  {
    var s := a + g + t;
    FirstSpaceOf(a, g + t);
    assert s == a + (g + t);
    assert s[..|a|] == a;
    RunEnd(s, |a|, |a| + |g|);
    assert s[|a| + |g|..] == t;
  }

  lemma {:induction false} RunEnd(s: string, i: nat, e: nat)
    requires i <= e <= |s|
    requires forall k :: i <= k < e ==> IsRegexSpace(s[k])
    requires e == |s| || !IsRegexSpace(s[e])
    ensures SpaceRunEnd(s, i) == e
    decreases e - i
  {
    if i < e {
      RunEnd(s, i + 1, e);
    }
  }

  lemma {:induction false} FirstSpaceOf(a: string, t: string)
    requires NoSpace(a)
    requires t != [] && IsRegexSpace(t[0])
    ensures FirstSpace(a + t) == |a|
    decreases |a|
  {
    if a == [] {
      assert a + t == t;
    } else {
      var s := a + t;
      assert s[0] == a[0] && !IsRegexSpace(s[0]);
      assert s[1..] == a[1..] + t;
      assert NoSpace(a[1..]) by {
        forall i | 0 <= i < |a| - 1 ensures !IsRegexSpace(a[1..][i]) {
          assert a[1..][i] == a[i + 1];
        }
      }
      FirstSpaceOf(a[1..], t);
    }
  }

  lemma {:induction false} FirstSpaceNone(b: string)
    requires NoSpace(b)
    ensures FirstSpace(b) == |b|
    decreases |b|
  {
    if b != [] {
      FirstSpaceNone(b[1..]);
    }
  }

  /** `split` of two non-empty words separated by a run of `\s`, optionally
      followed by more `\s` and text, starts with those two words. */
  lemma SplitTwoWords(a: string, g: string, b: string, tail: string)
    requires NoSpace(a) && NoSpace(b) && a != "" && b != ""
    requires g != [] && AllSpace(g)
    requires tail == [] || IsRegexSpace(tail[0])
    ensures |Split(a + g + b + tail)| >= 2
    ensures Split(a + g + b + tail)[0] == a && Split(a + g + b + tail)[1] == b
  {
    var s := a + g + b + tail;
    PiecesTwoWords(a, g, b, tail);
    DropKeepsTwo(Pieces(s));
  }

  /** Dropping trailing empty strings keeps a non-empty second element. */
  lemma DropKeepsTwo(p: seq<string>)
    requires |p| >= 2 && p[1] != ""
    ensures |DropTrailingEmpty(p)| >= 2
    ensures DropTrailingEmpty(p)[0] == p[0] && DropTrailingEmpty(p)[1] == p[1]
  {
  }

  /** The pieces of two space-free words joined by a run of `\s` start with the
      two words. */
  lemma PiecesTwoWords(a: string, g: string, b: string, tail: string)
    requires NoSpace(a) && NoSpace(b) && b != ""
    requires g != [] && AllSpace(g)
    requires tail == [] || IsRegexSpace(tail[0])
    ensures |Pieces(a + g + b + tail)| >= 2
    ensures Pieces(a + g + b + tail)[0] == a && Pieces(a + g + b + tail)[1] == b
    ensures FirstSpace(a + g + b + tail) < |a + g + b + tail|
  {
    assert a + g + b + tail == a + g + (b + tail);
    PiecesCons(a, g, b + tail);
    if tail == [] {
      assert b + tail == b;
      FirstSpaceNone(b);
      assert b[..|b|] == b;
    } else {
      FirstSpaceOf(b, tail);
      assert (b + tail)[..|b|] == b;
    }
  }

  /* ---------- integers ---------- */

  const IntMin: int := -0x8000_0000
  const IntMax: int := 0x7fff_ffff

  predicate IsInt32(i: int) {
    IntMin <= i <= IntMax
  }

  predicate IsDigit(ch: char) {
    '0' <= ch <= '9'
  }

  predicate AllDigits(s: string) {
    forall i :: 0 <= i < |s| ==> IsDigit(s[i])
  }

  function DigitValue(ch: char): (d: nat)
    requires IsDigit(ch)
    ensures d < 10
  {
    ch as int - '0' as int
  }

  function DigitChar(d: nat): (ch: char)
    requires d < 10
    ensures IsDigit(ch) && DigitValue(ch) == d
  {
    ('0' as int + d) as char
  }

  /** The value of a string of decimal digits, most significant first. */
  function DigitsValue(s: string): nat
    requires AllDigits(s)
    decreases |s|
  {
    if s == [] then 0 else DigitsValue(s[..|s| - 1]) * 10 + DigitValue(s[|s| - 1])
  }

  /** The text after an optional leading sign. */
  function Magnitude(s: string): string {
    if s != [] && (s[0] == '-' || s[0] == '+') then s[1..] else s
  }

  /** An optional sign followed by at least one decimal digit. */
  predicate IsNumeral(s: string) {
    Magnitude(s) != [] && AllDigits(Magnitude(s))
  }

  /** The value a numeral denotes: its digits, negated under a minus sign. */
  function NumeralValue(s: string): int
    requires IsNumeral(s)
  {
    var m: int := DigitsValue(Magnitude(s));
    if s[0] == '-' then -m else m
  }

  /** `Integer.parseInt`: an optional sign, at least one decimal digit, and a
      value that fits in 32 bits; anything else is a NumberFormatException. */
  function ParseInt(s: string): (r: Option<int>)
    ensures r.Some? <==> IsNumeral(s) && IsInt32(NumeralValue(s))
    ensures r.Some? ==> IsNumeral(s) && r.value == NumeralValue(s)
    ensures r.Some? ==> IsInt32(r.value)
    ensures r.Some? ==> s != [] && AllDigits(s[1..])
    ensures r.Some? ==> IsDigit(s[0]) || ((s[0] == '-' || s[0] == '+') && |s| >= 2)
  {
    if s == [] then None
    else
      var signed := s[0] == '-' || s[0] == '+';
      var digits := if signed then s[1..] else s;
      if digits == [] || !AllDigits(digits) then None
      else
        var magnitude: int := DigitsValue(digits);
        var v := if s[0] == '-' then -magnitude else magnitude;
        if IsInt32(v) then Some(v) else None
  }

  /** `Integer.toString` of a non-negative value: no leading zeros. */
  function NatToString(n: nat): (s: string)
    ensures s != [] && AllDigits(s)
    ensures s[0] == '0' ==> n == 0
    decreases n
  {
    if n < 10 then [DigitChar(n)] else NatToString(n / 10) + [DigitChar(n % 10)]
  }

  /** `Integer.toString`, and what `StringBuilder.append(int)` writes. */
  function IntToString(i: int): (s: string)
    ensures s != [] && NoSpace(s) && IsTrimmed(s)
    ensures i >= 0 ==> AllDigits(s)
    ensures i < 0 ==> s[0] == '-' && AllDigits(s[1..])
  {
    if i < 0 then "-" + NatToString(-i) else NatToString(i)
  }

  lemma {:induction false} NatToStringValue(n: nat)
    ensures DigitsValue(NatToString(n)) == n
    decreases n
  {
    if n >= 10 {
      NatToStringValue(n / 10);
      var s := NatToString(n);
      assert s[..|s| - 1] == NatToString(n / 10);
    }
  }

  /** Rendering and parsing agree on every 32-bit value. */
  lemma ParseIntRoundTrip(i: int)
    requires IsInt32(i)
    ensures ParseInt(IntToString(i)) == Some(i)
  {
    var s := IntToString(i);
    if i < 0 {
      NatToStringValue(-i);
      assert s[1..] == NatToString(-i);
    } else {
      NatToStringValue(i);
    }
  }

  /** Lowering never turns text into a number or a number into something else:
      only letters change, and no letter is a digit or a sign. */
  lemma LowerKeepsParse(s: string)
    ensures ParseInt(ToLower(s)) == ParseInt(s)
  {
    var l := ToLower(s);
    if IsNumeral(s) || IsNumeral(l) {
      forall i | 0 <= i < |s| ensures l[i] == s[i] {
        if i > 0 || (s[0] != '-' && s[0] != '+' && l[0] != '-' && l[0] != '+') {
          assert Magnitude(s)[i - |s| + |Magnitude(s)|] == s[i];
          assert Magnitude(l)[i - |l| + |Magnitude(l)|] == l[i];
        }
      }
      assert l == s;
    }
  }

  /** Lowering leaves a rendered number unchanged. */
  lemma LowerKeepsNumber(i: int)
    ensures ToLower(IntToString(i)) == IntToString(i)
  {
  }
}
