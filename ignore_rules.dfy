/**
 * `apply_ignore_rules` (app.py:103-149): per line, in this order, collapse whitespace, lower-case,
 * drop on a full match of the user's pattern, drop bare page numbers and "Page N [of M]" lines.
 * Sentinel lines pass through untouched. The user's pattern is evaluated by Python's `re`,
 * which this model takes as a parameter `userMatch(pattern, line)` that matches, does not
 * match, or raises one of the errors the loop catches (`re.error`, `TimeoutError`).
 */
module IgnoreRules {
  import opened Text
  import opened Pages

  datatype RegexOutcome = Match | NoMatch | RegexError

  /** The four recognised options; an empty pattern is an absent one (Python truthiness). */
  datatype IgnoreOptions = IgnoreOptions(
    ignoreWhitespace: bool,
    ignoreCase: bool,
    ignorePattern: string,
    ignoreHeadersFooters: bool)

  /** Patterns longer than this are not evaluated at all. */
  const MaxPatternLength: nat := 500

  // ---------------------------------------------------------------------------
  // The two fixed header/footer patterns (app.py:142, app.py:145)
  // ---------------------------------------------------------------------------

  /** The class `[-–—\s]`: hyphen, en dash, em dash, whitespace. */
  predicate IsPadding(c: char) {
    c == '-' || c == '\U{2013}' || c == '\U{2014}' || IsSpace(c)
  }

  /** `re.fullmatch(r'[-–—\s]*\d+[-–—\s]*', s)`, as a greedy left-to-right scan. */
  predicate IsBarePageNumber(s: string) {
    var i := SkipWhile(s, 0, IsPadding);
    var j := SkipWhile(s, i, IsDigit);
    i < j && SkipWhile(s, j, IsPadding) == |s|
  }

  /** The language of `[-–—\s]*\d+[-–—\s]*`: padding, at least one digit, padding. */
  ghost predicate BarePageNumberLanguage(s: string) {
    exists i, j :: 0 <= i < j <= |s| && Run(s, 0, i, IsPadding) && Run(s, i, j, IsDigit) && Run(s, j, |s|, IsPadding)
  }

  /** The scan accepts exactly the strings the first fixed pattern matches in full. */
  lemma {:induction false} BarePageNumberIsRegex(s: string)
    ensures IsBarePageNumber(s) <==> BarePageNumberLanguage(s)
  {
    if BarePageNumberLanguage(s) {
      var i, j :| 0 <= i < j <= |s| && Run(s, 0, i, IsPadding) && Run(s, i, j, IsDigit) && Run(s, j, |s|, IsPadding);
      assert IsDigit(s[i]);
      SkipWhileExact(s, 0, IsPadding, i);
      if j < |s| {
        assert IsPadding(s[j]);
      }
      SkipWhileExact(s, i, IsDigit, j);
      SkipWhileExact(s, j, IsPadding, |s|);
    }
  }

  /** The literal `word` (lower case) at position `i` of `s`, matched under `re.IGNORECASE`. */
  predicate CaselessAt(s: string, i: nat, word: string) {
    i + |word| <= |s| && forall k :: 0 <= k < |word| ==> LowerChar(s[i + k]) == word[k]
  }

  /** `\s+of\s+\d+` (ignoring case) from position `b` to the very end of `s`. */
  predicate IsOfClause(s: string, b: nat)
    requires b <= |s|
  {
    var c := SkipWhile(s, b, IsSpace);
    b < c && CaselessAt(s, c, "of") &&
    var d := SkipWhile(s, c + 2, IsSpace);
    var e := SkipWhile(s, d, IsDigit);
    c + 2 < d < e == |s|
  }

  /** `re.fullmatch(r'page\s+\d+(\s+of\s+\d+)?', s, re.IGNORECASE)`, as a greedy scan. */
  predicate IsPageFooter(s: string) {
    CaselessAt(s, 0, "page") &&
    var a := SkipWhile(s, 4, IsSpace);
    var b := SkipWhile(s, a, IsDigit);
    4 < a < b && (b == |s| || IsOfClause(s, b))
  }

  /** The language of `\s+of\s+\d+`, ignoring case, for the suffix of `s` from `b`. */
  ghost predicate OfClauseLanguage(s: string, b: nat)
    requires b <= |s|
  {
    exists c, d :: b < c && c + 2 < d < |s| && Run(s, b, c, IsSpace) && CaselessAt(s, c, "of")
      && Run(s, c + 2, d, IsSpace) && Run(s, d, |s|, IsDigit)
  }

  /** The language of `page\s+\d+(\s+of\s+\d+)?`, ignoring case. */
  ghost predicate PageFooterLanguage(s: string) {
    exists a, b :: 4 < a < b <= |s| && CaselessAt(s, 0, "page") && Run(s, 4, a, IsSpace) && Run(s, a, b, IsDigit)
      && (b == |s| || OfClauseLanguage(s, b))
  }

  lemma {:induction false} OfClauseIsRegex(s: string, b: nat)
    requires b <= |s|
    ensures IsOfClause(s, b) <==> OfClauseLanguage(s, b)
  {
    if OfClauseLanguage(s, b) {
      var c, d :| b < c && c + 2 < d < |s| && Run(s, b, c, IsSpace) && CaselessAt(s, c, "of")
        && Run(s, c + 2, d, IsSpace) && Run(s, d, |s|, IsDigit);
      assert LowerChar(s[c + 0]) == "of"[0];
      assert !IsSpace(s[c]);
      SkipWhileExact(s, b, IsSpace, c);
      assert IsDigit(s[d]);
      SkipWhileExact(s, c + 2, IsSpace, d);
      SkipWhileExact(s, d, IsDigit, |s|);
    }
  }

  /** The scan accepts exactly the strings the second fixed pattern matches in full. */
  lemma {:induction false} PageFooterIsRegex(s: string)
    ensures IsPageFooter(s) <==> PageFooterLanguage(s)
  {
    if IsPageFooter(s) {
      var b := SkipWhile(s, SkipWhile(s, 4, IsSpace), IsDigit);
      if b < |s| {
        OfClauseIsRegex(s, b);
      }
    }
    if PageFooterLanguage(s) {
      var a, b :| 4 < a < b <= |s| && CaselessAt(s, 0, "page") && Run(s, 4, a, IsSpace) && Run(s, a, b, IsDigit)
        && (b == |s| || OfClauseLanguage(s, b));
      assert IsDigit(s[a]);
      SkipWhileExact(s, 4, IsSpace, a);
      if b < |s| {
        OfClauseIsRegex(s, b);
        assert IsSpace(s[b]);
      }
      SkipWhileExact(s, a, IsDigit, b);
    }
  }

  /** Either fixed pattern matches the stripped line. */
  predicate IsHeaderFooter(stripped: string) {
    IsBarePageNumber(stripped) || IsPageFooter(stripped)
  }

  /** "Page 3 of 10" is page boilerplate. */
  lemma {:induction false} PageOfFooterExample(yes: string)
    requires yes == "Page 3 of 10"
    ensures IsHeaderFooter(Strip(yes))
  {
    hide Strip;
    StripNoSpaceEnds(yes);
    assert CaselessAt(yes, 0, "page");
    SkipWhileExact(yes, 4, IsSpace, 5);
    SkipWhileExact(yes, 5, IsDigit, 6);
    SkipWhileExact(yes, 6, IsSpace, 7);
    assert CaselessAt(yes, 7, "of");
    SkipWhileExact(yes, 9, IsSpace, 10);
    SkipWhileExact(yes, 10, IsDigit, 12);
    assert IsOfClause(yes, 6);
  }

  /** "– 5 –" is a bare page number. */
  lemma {:induction false} DashedNumberExample()
    ensures IsHeaderFooter(Strip("\U{2013} 5 \U{2013}"))
  {
    var dash := "\U{2013} 5 \U{2013}";
    hide Strip;
    StripNoSpaceEnds(dash);
    SkipWhileExact(dash, 0, IsPadding, 2);
    SkipWhileExact(dash, 2, IsDigit, 3);
    SkipWhileExact(dash, 3, IsPadding, 5);
  }

  /** "Page 3 Summary" is not: the optional clause must be "of" and a number, to the end. */
  lemma {:induction false} PageSummaryExample()
    ensures !IsHeaderFooter(Strip("Page 3 Summary"))
  {
    var no := "Page 3 Summary";
    hide Strip;
    StripNoSpaceEnds(no);
    SkipWhileExact(no, 0, IsPadding, 0);
    SkipWhileExact(no, 0, IsDigit, 0);
    SkipWhileExact(no, 4, IsSpace, 5);
    SkipWhileExact(no, 5, IsDigit, 6);
    SkipWhileExact(no, 6, IsSpace, 7);
    assert LowerChar(no[7 + 0]) != "of"[0];
  }

  // ---------------------------------------------------------------------------
  // One line, then the whole list
  // ---------------------------------------------------------------------------

  /** The text a non-sentinel line is compared as: collapsed if asked, then lower-cased if asked. */
  function Normalize(line: string, opts: IgnoreOptions): string {
    var l1 := if opts.ignoreWhitespace then Collapse(line) else line;
    if opts.ignoreCase then Lower(l1) else l1
  }

  /** Whether the user's pattern drops a (normalised) line: set, short enough, and matching. */
  predicate PatternDrops(pattern: string, line: string, userMatch: (string, string) -> RegexOutcome) {
    |pattern| > 0 && |pattern| <= MaxPatternLength && userMatch(pattern, line) == Match
  }

  /** What one input line contributes: `None` when it is dropped, else the line as kept. */
  function FilterLine(line: string, opts: IgnoreOptions, userMatch: (string, string) -> RegexOutcome): Option<string>
  {
    if IsPageMarker(line) then Some(line)
    else
      var l := Normalize(line, opts);
      if PatternDrops(opts.ignorePattern, l, userMatch) then None
      else if opts.ignoreHeadersFooters && IsHeaderFooter(Strip(l)) then None
      else Some(l)
  }

  function Kept(o: Option<string>): seq<string> {
    match o
    case None => []
    case Some(l) => [l]
  }

  /** The filtered list: what each line contributes, in input order. */
  function Filtered(lines: seq<string>, opts: IgnoreOptions, userMatch: (string, string) -> RegexOutcome): (r: seq<string>)
    ensures |r| <= |lines|
  {
    FilteredUpTo(lines, |lines|, opts, userMatch)
  }

  /** What the first `n` lines contribute. */
  function FilteredUpTo(lines: seq<string>, n: nat, opts: IgnoreOptions, userMatch: (string, string) -> RegexOutcome): (r: seq<string>)
    requires n <= |lines|
    ensures |r| <= n
  {
    if n == 0 then []
    else FilteredUpTo(lines, n - 1, opts, userMatch) + Kept(FilterLine(lines[n - 1], opts, userMatch))
  }

  /** What the first `n` lines contribute does not depend on the lines after them. */
  lemma {:induction false} FilteredUpToPrefix(lines: seq<string>, more: seq<string>, n: nat,
                                              opts: IgnoreOptions, userMatch: (string, string) -> RegexOutcome)
    requires n <= |lines|
    ensures FilteredUpTo(lines + more, n, opts, userMatch) == FilteredUpTo(lines, n, opts, userMatch)
  {
    if n > 0 {
      FilteredUpToPrefix(lines, more, n - 1, opts, userMatch);
      assert (lines + more)[n - 1] == lines[n - 1];
    }
  }

  /** `apply_ignore_rules`: one pass over the lines, appending each line that survives. */
  method ApplyIgnoreRules(lines: seq<string>, opts: IgnoreOptions, userMatch: (string, string) -> RegexOutcome)
    returns (result: seq<string>)
    ensures result == Filtered(lines, opts, userMatch)
    ensures |result| <= |lines|
  {
    result := [];
    for i := 0 to |lines|
      invariant result == FilteredUpTo(lines, i, opts, userMatch)
    {
      var line := lines[i];
      if IsPageMarker(line) {
        result := result + [line];
        continue;
      }
      if opts.ignoreWhitespace {
        line := Collapse(line);
      }
      if opts.ignoreCase {
        line := Lower(line);
      }
      assert line == Normalize(lines[i], opts);
      if |opts.ignorePattern| > 0 {
        var pattern := opts.ignorePattern;
        if |pattern| > MaxPatternLength {
        } else if userMatch(pattern, line) == Match {
          assert FilterLine(lines[i], opts, userMatch) == None;
          continue;
        }
      }
      assert !PatternDrops(opts.ignorePattern, line, userMatch);
      if opts.ignoreHeadersFooters {
        var stripped := Strip(line);
        if IsBarePageNumber(stripped) {
          assert FilterLine(lines[i], opts, userMatch) == None;
          continue;
        }
        if IsPageFooter(stripped) {
          assert FilterLine(lines[i], opts, userMatch) == None;
          continue;
        }
      }
      assert FilterLine(lines[i], opts, userMatch) == Some(line);
      result := result + [line];
    }
  }

  // ---------------------------------------------------------------------------
  // Properties of the filter
  // ---------------------------------------------------------------------------

  /** The input positions whose lines survive, ascending. */
  function KeptPositions(lines: seq<string>, opts: IgnoreOptions, userMatch: (string, string) -> RegexOutcome): (ps: seq<nat>)
    ensures forall k :: 0 <= k < |ps| ==> ps[k] < |lines| && FilterLine(lines[ps[k]], opts, userMatch).Some?
    ensures forall k, l :: 0 <= k < l < |ps| ==> ps[k] < ps[l]
    ensures forall i :: 0 <= i < |lines| && FilterLine(lines[i], opts, userMatch).Some? ==> i in ps
  {
    KeptUpTo(lines, |lines|, opts, userMatch)
  }

  /** The positions among the first `n` whose lines survive, ascending. */
  function KeptUpTo(lines: seq<string>, n: nat, opts: IgnoreOptions, userMatch: (string, string) -> RegexOutcome): (ps: seq<nat>)
    requires n <= |lines|
    ensures forall k :: 0 <= k < |ps| ==> ps[k] < n && FilterLine(lines[ps[k]], opts, userMatch).Some?
    ensures forall k, l :: 0 <= k < l < |ps| ==> ps[k] < ps[l]
    ensures forall i :: 0 <= i < n && FilterLine(lines[i], opts, userMatch).Some? ==> i in ps
  {
    if n == 0 then []
    else
      var ps := KeptUpTo(lines, n - 1, opts, userMatch);
      if FilterLine(lines[n - 1], opts, userMatch).Some? then ps + [n - 1] else ps
  }

  /** What a surviving line becomes: a sentinel itself, any other line its normalised text. */
  function KeptText(line: string, opts: IgnoreOptions): string {
    if IsPageMarker(line) then line else Normalize(line, opts)
  }

  /** A line that survives is kept as its `KeptText`; a sentinel always survives. */
  lemma {:induction false} FilterLineKeeps(line: string, opts: IgnoreOptions, userMatch: (string, string) -> RegexOutcome)
    ensures FilterLine(line, opts, userMatch).Some? ==> FilterLine(line, opts, userMatch).value == KeptText(line, opts)
    ensures IsPageMarker(line) ==> FilterLine(line, opts, userMatch) == Some(line)
  {
  }

  /** Output line k of the first `n` lines is input line `ps[k]` as kept. */
  predicate OriginsUpTo(lines: seq<string>, n: nat, opts: IgnoreOptions, userMatch: (string, string) -> RegexOutcome)
    requires n <= |lines|
  {
    var r, ps := FilteredUpTo(lines, n, opts, userMatch), KeptUpTo(lines, n, opts, userMatch);
    |r| == |ps| && forall k :: 0 <= k < |r| ==> r[k] == KeptText(lines[ps[k]], opts)
  }

  lemma {:induction false} OriginsStep(lines: seq<string>, n: nat, opts: IgnoreOptions, userMatch: (string, string) -> RegexOutcome)
    requires 0 < n <= |lines| && OriginsUpTo(lines, n - 1, opts, userMatch)
    ensures OriginsUpTo(lines, n, opts, userMatch)
  {
    FilterLineKeeps(lines[n - 1], opts, userMatch);
    var r, r' := FilteredUpTo(lines, n, opts, userMatch), FilteredUpTo(lines, n - 1, opts, userMatch);
    var ps, ps' := KeptUpTo(lines, n, opts, userMatch), KeptUpTo(lines, n - 1, opts, userMatch);
    if FilterLine(lines[n - 1], opts, userMatch).Some? {
      assert r == r' + [KeptText(lines[n - 1], opts)] && ps == ps' + [n - 1];
      forall k | 0 <= k < |r|
        ensures r[k] == KeptText(lines[ps[k]], opts)
      {
        if k < |r'| {
          assert r[k] == r'[k] && ps[k] == ps'[k];
        }
      }
    } else {
      assert r == r' && ps == ps';
    }
  }

  lemma {:induction false} OriginsUpToAll(lines: seq<string>, n: nat, opts: IgnoreOptions, userMatch: (string, string) -> RegexOutcome)
    requires n <= |lines|
    ensures OriginsUpTo(lines, n, opts, userMatch)
  {
    if n > 0 {
      OriginsUpToAll(lines, n - 1, opts, userMatch);
      OriginsStep(lines, n, opts, userMatch);
    }
  }

  /**
   * Nothing is added or reordered: output line k is input line `KeptPositions[k]` as kept.
   */
  lemma {:induction false} FilteredOrigins(lines: seq<string>, opts: IgnoreOptions, userMatch: (string, string) -> RegexOutcome)
    ensures |Filtered(lines, opts, userMatch)| == |KeptPositions(lines, opts, userMatch)|
    ensures forall k :: 0 <= k < |Filtered(lines, opts, userMatch)| ==>
              Filtered(lines, opts, userMatch)[k] == KeptText(lines[KeptPositions(lines, opts, userMatch)[k]], opts)
  {
    OriginsUpToAll(lines, |lines|, opts, userMatch);
  }

  /** Every sentinel of the input is among the kept positions. */
  lemma {:induction false} MarkersKept(lines: seq<string>, opts: IgnoreOptions, userMatch: (string, string) -> RegexOutcome, i: nat)
    requires i < |lines| && IsPageMarker(lines[i])
    ensures i in KeptPositions(lines, opts, userMatch)
  {
    FilterLineKeeps(lines[i], opts, userMatch);
  }

  /** Every sentinel of the input is in the output, unchanged, and in its input order. */
  lemma {:induction false} MarkersSurvive(lines: seq<string>, opts: IgnoreOptions, userMatch: (string, string) -> RegexOutcome, i: nat, j: nat)
    requires i < j < |lines| && IsPageMarker(lines[i]) && IsPageMarker(lines[j])
    ensures var r := Filtered(lines, opts, userMatch);
      exists k, l :: 0 <= k < l < |r| && r[k] == lines[i] && r[l] == lines[j]
  {
    FilteredOrigins(lines, opts, userMatch);
    MarkersKept(lines, opts, userMatch, i);
    MarkersKept(lines, opts, userMatch, j);
    var r := Filtered(lines, opts, userMatch);
    var ps := KeptPositions(lines, opts, userMatch);
    var k :| 0 <= k < |ps| && ps[k] == i;
    var l :| 0 <= l < |ps| && ps[l] == j;
    if l <= k {
      assert false;
    }
    assert r[k] == lines[i] && r[l] == lines[j];
  }

  /** Normalising a normalised line changes nothing. */
  lemma {:induction false} NormalizeIdempotent(line: string, opts: IgnoreOptions)
    ensures Normalize(Normalize(line, opts), opts) == Normalize(line, opts)
  {
    if opts.ignoreWhitespace {
      var c := Collapse(line);
      CollapseIdempotent(line);
      if opts.ignoreCase {
        CollapseLower(c);
        LowerIdempotent(c);
      }
    } else if opts.ignoreCase {
      LowerIdempotent(line);
    }
  }

  /** A line that survives the filter survives it again, as itself. */
  lemma {:induction false} FilterLineIdempotent(line: string, opts: IgnoreOptions, userMatch: (string, string) -> RegexOutcome)
    requires FilterLine(line, opts, userMatch).Some?
    ensures var l := FilterLine(line, opts, userMatch).value;
      FilterLine(l, opts, userMatch) == Some(l)
  {
    if !IsPageMarker(line) {
      NormalizeIdempotent(line, opts);
    }
  }

  /** Running the filter over its own output changes nothing (whitespace and case rules included). */
  lemma {:induction false} FilterIdempotent(lines: seq<string>, opts: IgnoreOptions, userMatch: (string, string) -> RegexOutcome)
    ensures Filtered(Filtered(lines, opts, userMatch), opts, userMatch) == Filtered(lines, opts, userMatch)
  {
    FilterIdempotentUpTo(lines, |lines|, opts, userMatch);
  }

  lemma {:induction false} FilterIdempotentUpTo(lines: seq<string>, n: nat, opts: IgnoreOptions, userMatch: (string, string) -> RegexOutcome)
    requires n <= |lines|
    ensures var r := FilteredUpTo(lines, n, opts, userMatch);
      Filtered(r, opts, userMatch) == r
  {
    if n > 0 {
      var front := FilteredUpTo(lines, n - 1, opts, userMatch);
      var last := Kept(FilterLine(lines[n - 1], opts, userMatch));
      FilterIdempotentUpTo(lines, n - 1, opts, userMatch);
      FilteredAppend(front, last, opts, userMatch);
      if |last| == 1 {
        FilterLineIdempotent(lines[n - 1], opts, userMatch);
        assert Filtered(last, opts, userMatch) == FilteredUpTo(last, 0, opts, userMatch) + last;
      }
    }
  }

  /** Filtering a concatenation filters each part. */
  lemma {:induction false} FilteredAppend(a: seq<string>, b: seq<string>, opts: IgnoreOptions, userMatch: (string, string) -> RegexOutcome)
    ensures Filtered(a + b, opts, userMatch) == Filtered(a, opts, userMatch) + Filtered(b, opts, userMatch)
  {
    FilteredAppendUpTo(a, b, |b|, opts, userMatch);
  }

  lemma {:induction false} FilteredAppendUpTo(a: seq<string>, b: seq<string>, m: nat, opts: IgnoreOptions, userMatch: (string, string) -> RegexOutcome)
    requires m <= |b|
    ensures FilteredUpTo(a + b, |a| + m, opts, userMatch) == Filtered(a, opts, userMatch) + FilteredUpTo(b, m, opts, userMatch)
  {
    if m == 0 {
      FilteredUpToPrefix(a, b, |a|, opts, userMatch);
    } else {
      FilteredAppendUpTo(a, b, m - 1, opts, userMatch);
      assert (a + b)[|a| + m - 1] == b[m - 1];
    }
  }

  /** A pattern over the length cap, or one that never matches (or always raises), drops nothing. */
  lemma {:induction false} InertPatternIgnored(lines: seq<string>, opts: IgnoreOptions, userMatch: (string, string) -> RegexOutcome)
    requires |opts.ignorePattern| > MaxPatternLength
          || forall l :: userMatch(opts.ignorePattern, l) != Match
    ensures Filtered(lines, opts, userMatch) == Filtered(lines, opts.(ignorePattern := ""), userMatch)
  {
    InertPatternUpTo(lines, |lines|, opts, userMatch);
  }

  lemma {:induction false} InertPatternUpTo(lines: seq<string>, n: nat, opts: IgnoreOptions, userMatch: (string, string) -> RegexOutcome)
    requires n <= |lines|
    requires |opts.ignorePattern| > MaxPatternLength
          || forall l :: userMatch(opts.ignorePattern, l) != Match
    ensures FilteredUpTo(lines, n, opts, userMatch) == FilteredUpTo(lines, n, opts.(ignorePattern := ""), userMatch)
  {
    if n > 0 {
      InertPatternUpTo(lines, n - 1, opts, userMatch);
      InertPatternLine(lines[n - 1], opts, userMatch);
    }
  }

  lemma {:induction false} InertPatternLine(line: string, opts: IgnoreOptions, userMatch: (string, string) -> RegexOutcome)
    requires |opts.ignorePattern| > MaxPatternLength
          || forall l :: userMatch(opts.ignorePattern, l) != Match
    ensures FilterLine(line, opts, userMatch) == FilterLine(line, opts.(ignorePattern := ""), userMatch)
  {
    assert !PatternDrops(opts.ignorePattern, Normalize(line, opts), userMatch);
  }

  /** With every option on, a sentinel still passes through unchanged. */
  lemma {:induction false} OptionExamples(userMatch: (string, string) -> RegexOutcome)
    ensures Filtered([MarkerFor(1)], IgnoreOptions(true, true, "", true), userMatch) == [MarkerFor(1)]
  {
    MarkerRoundTrip(1);
  }

  /** With case ignored, "HeLLo" is kept as "hello". */
  lemma {:induction false} CaseExample(userMatch: (string, string) -> RegexOutcome)
    ensures Filtered(["HeLLo"], IgnoreOptions(false, true, "", false), userMatch) == ["hello"]
  {
    var opts := IgnoreOptions(false, true, "", false);
    var lines := ["HeLLo"];
    MixedCaseLine(lines[0], opts, userMatch);
    assert FilteredUpTo(lines, 1, opts, userMatch)
        == FilteredUpTo(lines, 0, opts, userMatch) + Kept(FilterLine(lines[0], opts, userMatch));
  }

  lemma {:induction false} MixedCaseLine(line: string, opts: IgnoreOptions, userMatch: (string, string) -> RegexOutcome)
    requires line == "HeLLo" && opts == IgnoreOptions(false, true, "", false)
    ensures FilterLine(line, opts, userMatch) == Some("hello")
  {
    NotMarkerByFirstChar(line);
    assert Lower(line) == "hello";
  }

  /** With whitespace ignored, "  Hello   World  " becomes "Hello World" and the sentinel after it is untouched. */
  lemma {:induction false} WhitespaceExample(userMatch: (string, string) -> RegexOutcome)
    ensures Filtered(["  Hello   World  ", MarkerFor(1)], IgnoreOptions(true, false, "", false), userMatch)
            == ["Hello World", MarkerFor(1)]
  {
    var opts := IgnoreOptions(true, false, "", false);
    var lines := ["  Hello   World  ", MarkerFor(1)];
    HelloWorldLine(lines[0], opts, userMatch);
    FilterLineKeeps(lines[1], opts, userMatch);
    MarkerRoundTrip(1);
    var first := FilteredUpTo(lines, 1, opts, userMatch);
    assert first == FilteredUpTo(lines, 0, opts, userMatch) + Kept(FilterLine(lines[0], opts, userMatch));
    assert first == ["Hello World"];
    assert FilteredUpTo(lines, 2, opts, userMatch) == first + Kept(FilterLine(lines[1], opts, userMatch));
  }

  lemma {:induction false} HelloWorldLine(line: string, opts: IgnoreOptions, userMatch: (string, string) -> RegexOutcome)
    requires line == "  Hello   World  " && opts == IgnoreOptions(true, false, "", false)
    ensures FilterLine(line, opts, userMatch) == Some("Hello World")
  {
    HelloWorldCollapse(line);
    NotMarkerByFirstChar(line);
    assert Normalize(line, opts) == "Hello World";
  }

  lemma {:induction false} HelloWorldCollapse(line: string)
    requires line == "  Hello   World  "
    ensures Collapse(line) == "Hello World"
  {
    HelloWorldWords(line);
    HelloWorldText();
  }

  lemma {:induction false} HelloWorldText()
    ensures Join(["Hello", "World"]) == "Hello World"
  {
    JoinTwo("Hello", "World");
  }

  lemma {:induction false} HelloWorldWords(line: string)
    requires line == "  Hello   World  "
    ensures Split(line) == ["Hello", "World"]
  {
    hide Split;
    assert IsWord("Hello") && IsWord("World");
    assert AllSpace("  ") && AllSpace("   ") && "   "[0] == ' ' && "  "[0] == ' ';
    TwoWords("  ", "Hello", "   ", "World", "  ");
    assert "  " + "Hello" + "   " + "World" + "  " == "  Hello   World  ";
  }

  /** Two words with whitespace around and between them split into those two words. */
  lemma {:induction false} TwoWords(sp1: string, w1: string, sp2: string, w2: string, sp3: string)
    requires AllSpace(sp1) && AllSpace(sp2) && AllSpace(sp3) && |sp2| > 0
    requires IsWord(w1) && IsWord(w2)
    ensures Split(sp1 + w1 + sp2 + w2 + sp3) == [w1, w2]
  {
    var last := w2 + sp3;
    var rest := sp2 + last;
    SplitSkipsSpaces(sp3, "");
    assert sp3 + "" == sp3;
    SplitAfterWord(w2, sp3);
    SplitSkipsSpaces(sp2, last);
    SplitAfterWord(w1, rest);
    SplitSkipsSpaces(sp1, w1 + rest);
    assert sp1 + w1 + sp2 + w2 + sp3 == sp1 + (w1 + rest);
  }
}
