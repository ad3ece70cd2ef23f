/**
 * The string primitives the comparison pipeline leans on, restricted to ASCII:
 * Python's `str.split()` / `" ".join(...)`, `str.lower()`, `str.strip()`,
 * `str.startswith`, `int(...)` on a decimal string, `str(...)` of an integer,
 * and the code-point order Python uses to sort strings.
 */
module Text {

  datatype Option<+T> = None | Some(value: T)

  // ---------------------------------------------------------------------------
  // Character classes
  // ---------------------------------------------------------------------------

  /** The ASCII characters Python's `str.isspace()` (and so `split`, `strip`, `\s`) accepts. */
  predicate IsSpace(c: char) {
    c == ' ' || c == '\t' || c == '\n' || c == '\r' || c == '\U{0B}' || c == '\U{0C}'
    || ('\U{1C}' <= c <= '\U{1F}')
  }

  predicate IsDigit(c: char) {
    '0' <= c <= '9'
  }

  predicate IsUpper(c: char) {
    'A' <= c <= 'Z'
  }

  predicate AllSpace(s: string) {
    forall k :: 0 <= k < |s| ==> IsSpace(s[k])
  }

  predicate AllDigits(s: string) {
    forall k :: 0 <= k < |s| ==> IsDigit(s[k])
  }

  predicate NoSpace(s: string) {
    forall k :: 0 <= k < |s| ==> !IsSpace(s[k])
  }

  function StartsWith(s: string, prefix: string): (b: bool)
    ensures b <==> |prefix| <= |s| && s[..|prefix|] == prefix
  {
    |prefix| <= |s| && s[..|prefix|] == prefix
  }

  /** Every character of `s` from position `i` up to `j` satisfies `p`. */
  predicate Run(s: string, i: nat, j: nat, p: char -> bool)
    requires i <= j <= |s|
  {
    forall k :: i <= k < j ==> p(s[k])
  }

  /** The first position at or after `i` where `p` fails, or `|s|`: a greedy regex repetition. */
  function SkipWhile(s: string, i: nat, p: char -> bool): (j: nat)
    requires i <= |s|
    ensures i <= j <= |s|
    ensures Run(s, i, j, p)
    ensures j < |s| ==> !p(s[j])
    decreases |s| - i
  {
    if i == |s| || !p(s[i]) then i else SkipWhile(s, i + 1, p)
  }

  /** A run of `p`-characters that ends where `p` fails is exactly what `SkipWhile` skips. */
  lemma {:induction false} SkipWhileExact(s: string, i: nat, p: char -> bool, j: nat)
    requires i <= j <= |s|
    requires Run(s, i, j, p)
    requires j < |s| ==> !p(s[j])
    ensures SkipWhile(s, i, p) == j
  {
    var m := SkipWhile(s, i, p);
    if m < j {
      assert false;
    }
  }

  // ---------------------------------------------------------------------------
  // Splitting on whitespace and joining with single spaces
  // ---------------------------------------------------------------------------

  /** Length of the longest prefix of `s` that holds no whitespace. */
  function WordLen(s: string): (n: nat)
    ensures n <= |s|
    ensures NoSpace(s[..n])
    ensures n < |s| ==> IsSpace(s[n])
  {
    if |s| == 0 || IsSpace(s[0]) then 0
    else
      var m := WordLen(s[1..]);
      assert s[..m + 1] == [s[0]] + s[1..][..m];
      m + 1
  }

  /** A word as Python's `split()` yields it: non-empty and free of whitespace. */
  predicate IsWord(w: string) {
    |w| > 0 && NoSpace(w)
  }

  predicate AllWords(ws: seq<string>) {
    forall k :: 0 <= k < |ws| ==> IsWord(ws[k])
  }

  /** Python's `s.split()` with no argument: the maximal runs of non-whitespace, in order. */
  function Split(s: string): (ws: seq<string>)
    ensures AllWords(ws)
    decreases |s|
  {
    if |s| == 0 then []
    else if IsSpace(s[0]) then Split(s[1..])
    else
      var n := WordLen(s);
      [s[..n]] + Split(s[n..])
  }

  /** Python's `" ".join(ws)`. */
  function Join(ws: seq<string>): string
  {
    if |ws| == 0 then ""
    else if |ws| == 1 then ws[0]
    else ws[0] + " " + Join(ws[1..])
  }

  /** `" ".join(s.split())`: every run of whitespace becomes one space, none at the ends. */
  function Collapse(s: string): string
  {
    Join(Split(s))
  }

  /** Two adjacent slices from the front make the longer front slice. */
  lemma {:induction false} TakeSplit<T>(s: seq<T>, i: nat, j: nat)
    requires i <= j <= |s|
    ensures s[..i] + s[i..j] == s[..j]
  {
    var w := s[..j];
    assert w[..i] == s[..i] && w[i..] == s[i..j];
    assert w[..i] + w[i..] == w;
  }

  /** Two strings joined: the first, one space, the second. */
  lemma {:induction false} JoinTwo(a: string, b: string)
    ensures Join([a, b]) == a + " " + b
  {
    assert [a, b][1..] == [b];
  }

  lemma {:induction false} JoinAppend(a: seq<string>, b: seq<string>)
    requires |a| > 0 && |b| > 0
    ensures Join(a + b) == Join(a) + " " + Join(b)
  {
    if |a| == 1 {
      assert (a + b)[1..] == b;
    } else {
      assert (a + b)[1..] == a[1..] + b;
      JoinAppend(a[1..], b);
    }
  }

  lemma {:induction false} SplitSkipsSpaces(sp: string, t: string)
    requires AllSpace(sp)
    ensures Split(sp + t) == Split(t)
    decreases |sp|
  {
    if |sp| > 0 {
      assert (sp + t)[1..] == sp[1..] + t;
      SplitSkipsSpaces(sp[1..], t);
    } else {
      assert sp + t == t;
    }
  }

  lemma {:induction false} WordLenOfWord(w: string, t: string)
    requires NoSpace(w)
    requires |t| == 0 || IsSpace(t[0])
    ensures WordLen(w + t) == |w|
    decreases |w|
  {
    if |w| == 0 {
      assert w + t == t;
    } else {
      assert (w + t)[1..] == w[1..] + t;
      WordLenOfWord(w[1..], t);
    }
  }

  lemma {:induction false} SplitAfterWord(w: string, t: string)
    requires IsWord(w)
    requires |t| == 0 || IsSpace(t[0])
    ensures Split(w + t) == [w] + Split(t)
  {
    WordLenOfWord(w, t);
    assert (w + t)[..|w|] == w;
    assert (w + t)[|w|..] == t;
  }

  /** Splitting a space-joined list of words gives the words back. */
  lemma {:induction false} SplitJoin(ws: seq<string>)
    requires AllWords(ws)
    ensures Split(Join(ws)) == ws
  {
    if |ws| == 0 {
    } else if |ws| == 1 {
      SplitAfterWord(ws[0], "");
      assert ws[0] + "" == ws[0];
    } else {
      SplitJoin(ws[1..]);
      var rest := " " + Join(ws[1..]);
      assert ws[0] + " " + Join(ws[1..]) == ws[0] + rest;
      SplitAfterWord(ws[0], rest);
      SplitSkipsSpaces(" ", Join(ws[1..]));
      assert ws == [ws[0]] + ws[1..];
    }
  }

  /** Collapsing whitespace twice is collapsing it once. */
  lemma {:induction false} CollapseIdempotent(s: string)
    ensures Collapse(Collapse(s)) == Collapse(s)
  {
    SplitJoin(Split(s));
  }

  /** A collapsed string has no leading, trailing or doubled whitespace, and no whitespace but ' '. */
  lemma {:induction false} CollapseShape(ws: seq<string>)
    requires AllWords(ws)
    ensures var r := Join(ws);
      (|r| > 0 ==> !IsSpace(r[0]) && !IsSpace(r[|r| - 1]))
      && (forall k :: 0 <= k < |r| && IsSpace(r[k]) ==> r[k] == ' ')
      && (forall k :: 0 <= k < |r| - 1 && IsSpace(r[k]) ==> !IsSpace(r[k + 1]))
  {
    if |ws| > 1 {
      CollapseShape(ws[1..]);
      var j := Join(ws[1..]);
      var r := ws[0] + " " + j;
      assert Join(ws) == r;
      forall k | 0 <= k < |r| && IsSpace(r[k]) ensures r[k] == ' ' {
        if k > |ws[0]| { assert r[k] == j[k - |ws[0]| - 1]; }
      }
      forall k | 0 <= k < |r| - 1 && IsSpace(r[k]) ensures !IsSpace(r[k + 1]) {
        if k > |ws[0]| { assert r[k] == j[k - |ws[0]| - 1] && r[k + 1] == j[k - |ws[0]|]; }
        else if k == |ws[0]| { assert r[k + 1] == j[0]; }
      }
      assert r[|r| - 1] == j[|j| - 1];
    }
  }

  // ---------------------------------------------------------------------------
  // Case folding and stripping
  // ---------------------------------------------------------------------------

  function LowerChar(c: char): (d: char)
    ensures !IsUpper(d)
    ensures IsUpper(c) ==> d as int == c as int + 32
    ensures !IsUpper(c) ==> d == c
  {
    if IsUpper(c) then (c as int + 32) as char else c
  }

  /** Python's `s.lower()` on ASCII letters; every other character is left as it is. */
  function Lower(s: string): (r: string)
    ensures |r| == |s|
    ensures forall k :: 0 <= k < |s| ==> r[k] == LowerChar(s[k])
  {
    seq(|s|, k requires 0 <= k < |s| => LowerChar(s[k]))
  }

  /** Lower-casing twice is lower-casing once. */
  lemma {:induction false} LowerIdempotent(s: string)
    ensures Lower(Lower(s)) == Lower(s)
  {
  }

  lemma {:induction false} LowerAppend(a: string, b: string)
    ensures Lower(a + b) == Lower(a) + Lower(b)
  {
  }

  function LowerAll(ws: seq<string>): (r: seq<string>)
    ensures |r| == |ws| && forall k :: 0 <= k < |ws| ==> r[k] == Lower(ws[k])
  {
    seq(|ws|, k requires 0 <= k < |ws| => Lower(ws[k]))
  }

  lemma {:induction false} WordLenLower(s: string)
    ensures WordLen(Lower(s)) == WordLen(s)
  {
    if |s| > 0 && !IsSpace(s[0]) {
      assert Lower(s)[1..] == Lower(s[1..]);
      WordLenLower(s[1..]);
    }
  }

  /** Lower-casing does not move word boundaries: the words of `lower(s)` are the lower-cased words of `s`. */
  lemma {:induction false} SplitLower(s: string)
    ensures Split(Lower(s)) == LowerAll(Split(s))
    decreases |s|
  {
    var t := Lower(s);
    if |s| == 0 {
    } else if IsSpace(s[0]) {
      assert t[1..] == Lower(s[1..]);
      SplitLower(s[1..]);
    } else {
      var n := WordLen(s);
      WordLenLower(s);
      assert t[..n] == Lower(s[..n]);
      assert t[n..] == Lower(s[n..]);
      SplitLower(s[n..]);
      assert LowerAll([s[..n]] + Split(s[n..])) == [Lower(s[..n])] + LowerAll(Split(s[n..]));
    }
  }

  lemma {:induction false} JoinLower(ws: seq<string>)
    ensures Join(LowerAll(ws)) == Lower(Join(ws))
  {
    if |ws| > 1 {
      JoinLower(ws[1..]);
      assert LowerAll(ws)[1..] == LowerAll(ws[1..]);
      LowerAppend(ws[0] + " ", Join(ws[1..]));
      LowerAppend(ws[0], " ");
    }
  }

  /** Collapsing whitespace and lower-casing commute. */
  lemma {:induction false} CollapseLower(s: string)
    ensures Collapse(Lower(s)) == Lower(Collapse(s))
  {
    SplitLower(s);
    JoinLower(Split(s));
  }

  /** Python's `s.strip()`: drop whitespace at both ends. */
  function Strip(s: string): (r: string)
    ensures |r| <= |s|
    ensures |r| > 0 ==> !IsSpace(r[0]) && !IsSpace(r[|r| - 1])
  {
    var l := LeadingSpaces(s);
    var t := TrailingSpaces(s[l..]);
    s[l..][..|s[l..]| - t]
  }

  /**
   * What `strip` removes is whitespace at the two ends, and nothing else: the result is the
   * part of `s` after its leading whitespace, followed in `s` only by whitespace.
   */
  lemma {:induction false} StripIsInfix(s: string)
    ensures var r, l := Strip(s), LeadingSpaces(s);
      && l + |r| <= |s| && r == s[l..l + |r|]
      && AllSpace(s[..l]) && AllSpace(s[l + |r|..])
  {
    var l := LeadingSpaces(s);
    SliceOfSuffix(s, l, TrailingSpaces(s[l..]));
  }

  lemma {:induction false} SliceOfSuffix(s: string, l: nat, t: nat)
    requires l <= |s| && t <= |s| - l
    ensures var m := s[l..]; var r := m[..|m| - t];
      r == s[l..l + |r|] && s[l + |r|..] == m[|m| - t..]
  {
  }

  /** A string of nothing but whitespace strips to the empty string. */
  lemma {:induction false} StripAllSpace(s: string)
    requires AllSpace(s)
    ensures Strip(s) == ""
  {
  }

  function LeadingSpaces(s: string): (n: nat)
    ensures n <= |s| && AllSpace(s[..n])
    ensures n < |s| ==> !IsSpace(s[n])
  {
    if |s| == 0 || !IsSpace(s[0]) then 0
    else
      var m := LeadingSpaces(s[1..]);
      assert s[..m + 1] == [s[0]] + s[1..][..m];
      m + 1
  }

  function TrailingSpaces(s: string): (n: nat)
    ensures n <= |s| && AllSpace(s[|s| - n..])
    ensures n < |s| ==> !IsSpace(s[|s| - n - 1])
  {
    if |s| == 0 || !IsSpace(s[|s| - 1]) then 0
    else
      var m := TrailingSpaces(s[..|s| - 1]);
      TrailingStep(s, m);
      m + 1
  }

  /** One more whitespace character at the end extends the trailing run by one. */
  lemma {:induction false} TrailingStep(s: string, m: nat)
    requires |s| > 0 && IsSpace(s[|s| - 1])
    requires var init := s[..|s| - 1];
      m <= |init| && AllSpace(init[|init| - m..])
      && (m < |init| ==> !IsSpace(init[|init| - m - 1]))
    ensures AllSpace(s[|s| - m - 1..])
    ensures m + 1 < |s| ==> !IsSpace(s[|s| - m - 2])
  {
    var init := s[..|s| - 1];
    var tail := s[|s| - m - 1..];
    forall k | 0 <= k < |tail|
      ensures IsSpace(tail[k])
    {
      if k < m {
        assert tail[k] == init[|init| - m..][k];
      } else {
        assert tail[k] == s[|s| - 1];
      }
    }
    if m + 1 < |s| {
      assert s[|s| - m - 2] == init[|init| - m - 1];
    }
  }

  // ---------------------------------------------------------------------------
  // Decimal integers: `str(n)` and `int(s)`
  // ---------------------------------------------------------------------------

  function DigitChar(d: nat): (c: char)
    requires d < 10
    ensures IsDigit(c)
  {
    ('0' as int + d) as char
  }

  function DigitValue(c: char): (d: nat)
    requires IsDigit(c)
    ensures d < 10 && DigitChar(d) == c
  {
    c as int - '0' as int
  }

  /** Python's `str(n)` for a natural number. */
  function NatToString(n: nat): (s: string)
    ensures |s| > 0 && AllDigits(s)
    decreases n
  {
    if n < 10 then [DigitChar(n)] else NatToString(n / 10) + [DigitChar(n % 10)]
  }

  /** Python's `str(i)` for an integer. */
  function IntToString(i: int): string
  {
    if i < 0 then "-" + NatToString(-i) else NatToString(i)
  }

  /** The value of a string of decimal digits, most significant first. */
  function DigitsValue(s: string): nat
    requires AllDigits(s)
  {
    if |s| == 0 then 0 else DigitsValue(s[..|s| - 1]) * 10 + DigitValue(s[|s| - 1])
  }

  lemma {:induction false} DigitsOfNat(n: nat)
    ensures DigitsValue(NatToString(n)) == n
    decreases n
  {
    var s := NatToString(n);
    if n >= 10 {
      DigitsOfNat(n / 10);
      assert s[..|s| - 1] == NatToString(n / 10);
    }
  }

  /**
   * Python's `int(s)` on text: surrounding whitespace is ignored, then an optional
   * sign and at least one decimal digit; anything else raises ValueError (`None`).
   */
  function ParseInt(s: string): (r: Option<int>)
  {
    var t := Strip(s);
    if |t| > 0 && (t[0] == '-' || t[0] == '+') then
      var d := t[1..];
      if |d| > 0 && AllDigits(d) then
        Some(if t[0] == '-' then 0 - DigitsValue(d) else DigitsValue(d))
      else None
    else if |t| > 0 && AllDigits(t) then Some(DigitsValue(t))
    else None
  }

  /** The value a sign (`""`, `"+"` or `"-"`) gives a digit string. */
  function Signed(sign: string, d: string): int
    requires AllDigits(d)
  {
    if sign == "-" then 0 - DigitsValue(d) else DigitsValue(d)
  }

  /** The text `int` accepts: whitespace, an optional sign, digits, whitespace. */
  predicate IntShape(w1: string, sign: string, d: string, w2: string) {
    AllSpace(w1) && AllSpace(w2) && (sign == "" || sign == "+" || sign == "-")
    && |d| > 0 && AllDigits(d)
  }

  /** Every text of that shape parses, to the signed value of its digits. */
  lemma {:induction false} ParseIntAccepts(w1: string, sign: string, d: string, w2: string)
    requires IntShape(w1, sign, d, w2)
    ensures ParseInt(w1 + sign + d + w2) == Some(Signed(sign, d))
  {
    hide Strip;
    var t := sign + d;
    assert w1 + sign + d + w2 == w1 + t + w2;
    assert !IsSpace(t[0]) && !IsSpace(t[|t| - 1]) by {
      assert t[|t| - 1] == d[|d| - 1];
      if sign == "" { assert t[0] == d[0]; }
    }
    StripBetween(w1, t, w2);
    if sign == "" {
      assert t == d;
    } else {
      assert t[1..] == d;
    }
  }

  /** Stripping text framed by whitespace gives the text, when it has none at its ends. */
  lemma {:induction false} StripBetween(w1: string, t: string, w2: string)
    requires AllSpace(w1) && AllSpace(w2) && |t| > 0 && !IsSpace(t[0]) && !IsSpace(t[|t| - 1])
    ensures Strip(w1 + t + w2) == t
  {
    var s := w1 + t + w2;
    LeadingSpacesOf(w1, t + w2);
    assert s == w1 + (t + w2);
    assert s[|w1|..] == t + w2;
    TrailingSpacesOf(t, w2);
    assert (t + w2)[..|t|] == t;
  }

  /** And only text of that shape parses: a parsed text splits into the four parts. */
  lemma {:induction false} ParseIntShape(s: string) returns (w1: string, sign: string, d: string, w2: string)
    requires ParseInt(s).Some?
    ensures IntShape(w1, sign, d, w2) && s == w1 + sign + d + w2
    ensures ParseInt(s) == Some(Signed(sign, d))
  {
    hide Strip, ParseInt, LeadingSpaces, TrailingSpaces, DigitsValue, Signed;
    sign, d := ParsedText(s);
    w1, w2 := StripFrame(s);
    assert w1 + (sign + d) + w2 == w1 + sign + d + w2;
  }

  /** What `int` reads once the whitespace is stripped: an optional sign, then digits. */
  lemma {:induction false} ParsedText(s: string) returns (sign: string, d: string)
    requires ParseInt(s).Some?
    ensures Strip(s) == sign + d && (sign == "" || sign == "+" || sign == "-")
    ensures |d| > 0 && AllDigits(d) && ParseInt(s) == Some(Signed(sign, d))
  {
    hide Strip;
    var t := Strip(s);
    if t[0] == '-' || t[0] == '+' {
      sign, d := t[..1], t[1..];
      assert t == sign + d;
    } else {
      sign, d := "", t;
      assert t == sign + d;
    }
  }

  /** A string is its stripped text framed by the whitespace `strip` removed. */
  lemma {:induction false} StripFrame(s: string) returns (w1: string, w2: string)
    ensures s == w1 + Strip(s) + w2 && AllSpace(w1) && AllSpace(w2)
  {
    hide Strip;
    var t := Strip(s);
    var l := LeadingSpaces(s);
    StripIsInfix(s);
    w1, w2 := s[..l], s[l + |t|..];
    SliceThree(s, l, l + |t|);
  }

  /** A sequence is its three slices at `i` and `j` put back together. */
  lemma {:induction false} SliceThree<T>(s: seq<T>, i: nat, j: nat)
    requires i <= j <= |s|
    ensures s == s[..i] + s[i..j] + s[j..]
  {
    assert s[..j] == s[..i] + s[i..j];
    assert s == s[..j] + s[j..];
  }

  /** Leading whitespace is counted up to the first character that is not whitespace. */
  lemma {:induction false} LeadingSpacesOf(w: string, x: string)
    requires AllSpace(w) && |x| > 0 && !IsSpace(x[0])
    ensures LeadingSpaces(w + x) == |w|
  {
    var s := w + x;
    assert forall k :: 0 <= k < |w| ==> s[k] == w[k];
    assert s[|w|] == x[0];
  }

  /** Trailing whitespace is counted back to the last character that is not whitespace. */
  lemma {:induction false} TrailingSpacesOf(x: string, w: string)
    requires AllSpace(w) && |x| > 0 && !IsSpace(x[|x| - 1])
    ensures TrailingSpaces(x + w) == |w|
  {
    hide TrailingSpaces;
    var s := x + w;
    assert s[|s| - |w|..] == w;
    assert s[|s| - |w| - 1] == x[|x| - 1];
    TrailingRunUnique(s, TrailingSpaces(s), |w|);
  }

  /** Only one length of trailing whitespace is followed, going back, by a non-space. */
  lemma {:induction false} TrailingRunUnique(s: string, n: nat, c: nat)
    requires n <= |s| && AllSpace(s[|s| - n..]) && (n < |s| ==> !IsSpace(s[|s| - n - 1]))
    requires c <= |s| && AllSpace(s[|s| - c..]) && (c < |s| ==> !IsSpace(s[|s| - c - 1]))
    ensures n == c
  {
    assert forall k :: |s| - n <= k < |s| ==> s[k] == s[|s| - n..][k - (|s| - n)];
    assert forall k :: |s| - c <= k < |s| ==> s[k] == s[|s| - c..][k - (|s| - c)];
  }

  /** `int(str(i)) == i`: the integer parser reads back what the renderer writes. */
  lemma {:induction false} ParseRendered(i: int)
    ensures ParseInt(IntToString(i)) == Some(i)
  {
    if i < 0 {
      ParseRenderedNegative(i);
    } else {
      ParseRenderedNat(i);
    }
  }

  lemma {:induction false} ParseRenderedNat(i: int)
    requires i >= 0
    ensures ParseInt(IntToString(i)) == Some(i)
  {
    ParseUnsigned(NatToString(i));
    DigitsOfNat(i);
  }

  lemma {:induction false} ParseRenderedNegative(i: int)
    requires i < 0
    ensures ParseInt(IntToString(i)) == Some(i)
  {
    var n: nat := -i;
    var d := NatToString(n);
    assert IntToString(i) == "-" + d;
    DigitsOfNat(n);
    ParseNegative(d, i);
  }

  lemma {:induction false} ParseUnsigned(d: string)
    requires |d| > 0 && AllDigits(d)
    ensures ParseInt(d) == Some(DigitsValue(d))
  {
    assert IsDigit(d[0]) && IsDigit(d[|d| - 1]);
    StripNoSpaceEnds(d);
  }

  lemma {:induction false} ParseNegative(d: string, i: int)
    requires |d| > 0 && AllDigits(d) && DigitsValue(d) == -i
    ensures ParseInt("-" + d) == Some(i)
  {
    var s := "-" + d;
    assert s[0] == '-' && s[|s| - 1] == d[|d| - 1];
    assert IsDigit(d[|d| - 1]);
    StripNoSpaceEnds(s);
    assert s[1..] == d;
  }

  lemma {:induction false} StripNoSpaceEnds(s: string)
    requires |s| > 0 && !IsSpace(s[0]) && !IsSpace(s[|s| - 1])
    ensures Strip(s) == s
  {
    assert LeadingSpaces(s) == 0;
    assert s[0..] == s;
    assert TrailingSpaces(s) == 0;
  }

  // ---------------------------------------------------------------------------
  // The order Python's `sorted` puts strings in: code point by code point
  // ---------------------------------------------------------------------------

  predicate Less(a: string, b: string) {
    if |a| == 0 then |b| > 0
    else if |b| == 0 then false
    else if a[0] != b[0] then a[0] < b[0]
    else Less(a[1..], b[1..])
  }

  lemma {:induction false} LessIrreflexive(a: string)
    ensures !Less(a, a)
  {
    if |a| > 0 { LessIrreflexive(a[1..]); }
  }

  lemma {:induction false} LessTransitive(a: string, b: string, c: string)
    requires Less(a, b) && Less(b, c)
    ensures Less(a, c)
  {
    if |a| > 0 && |b| > 0 && |c| > 0 && a[0] == b[0] && b[0] == c[0] {
      LessTransitive(a[1..], b[1..], c[1..]);
    }
  }

  lemma {:induction false} LessAsymmetric(a: string, b: string)
    ensures !(Less(a, b) && Less(b, a))
  {
    if Less(a, b) && Less(b, a) {
      LessTransitive(a, b, a);
      LessIrreflexive(a);
      assert false;
    }
  }

  lemma {:induction false} LessTotal(a: string, b: string)
    requires a != b
    ensures Less(a, b) || Less(b, a)
  {
    if |a| > 0 && |b| > 0 && a[0] == b[0] {
      assert a == [a[0]] + a[1..] && b == [b[0]] + b[1..];
      LessTotal(a[1..], b[1..]);
    }
  }
}
