/**
 * Page-boundary sentinels. Ingestion puts the line `"\0PAGE:" + str(n)` before the text of
 * page n (app.py:52); every later stage either passes these lines through or strips them and
 * keeps, for each surviving line, its position so that the page in effect there can be found.
 */
module Pages {
  import opened Text

  const MarkerPrefix: string := "\0PAGE:"

  /** `_is_page_marker`: the line starts with the sentinel prefix. */
  predicate IsPageMarker(line: string) {
    StartsWith(line, MarkerPrefix)
  }

  /** `_page_number_from_marker`: `int` of what follows the prefix; `None` where `int` raises. */
  function PageNumberFromMarker(line: string): (r: Option<int>)
    requires IsPageMarker(line)
    ensures r.Some? ==> |line| > |MarkerPrefix|
  {
    ParseInt(line[|MarkerPrefix|..])
  }

  /** The sentinel ingestion writes before page `page`. */
  function MarkerFor(page: int): string {
    MarkerPrefix + IntToString(page)
  }

  /** The sentinel written for a page is recognised as one and reads back as that page. */
  lemma {:induction false} MarkerRoundTrip(page: int)
    ensures IsPageMarker(MarkerFor(page))
    ensures PageNumberFromMarker(MarkerFor(page)) == Some(page)
  {
    var m := MarkerFor(page);
    assert m[..|MarkerPrefix|] == MarkerPrefix;
    assert m[|MarkerPrefix|..] == IntToString(page);
    ParseRendered(page);
  }

  /**
   * A sentinel whose suffix is digits, optionally signed and framed by whitespace, reads as
   * their signed value.
   */
  lemma {:induction false} PageNumberOfShape(w1: string, sign: string, d: string, w2: string)
    requires IntShape(w1, sign, d, w2)
    ensures IsPageMarker(MarkerPrefix + w1 + sign + d + w2)
    ensures PageNumberFromMarker(MarkerPrefix + w1 + sign + d + w2) == Some(Signed(sign, d))
  {
    var line := MarkerPrefix + w1 + sign + d + w2;
    assert line == MarkerPrefix + (w1 + sign + d + w2);
    assert line[..|MarkerPrefix|] == MarkerPrefix;
    assert line[|MarkerPrefix|..] == w1 + sign + d + w2;
    ParseIntAccepts(w1, sign, d, w2);
  }

  /** Only such sentinels read as a page: every page number comes from that shape. */
  lemma {:induction false} PageNumberShape(line: string) returns (w1: string, sign: string, d: string, w2: string)
    requires IsPageMarker(line) && PageNumberFromMarker(line).Some?
    ensures IntShape(w1, sign, d, w2) && line == MarkerPrefix + w1 + sign + d + w2
    ensures PageNumberFromMarker(line) == Some(Signed(sign, d))
  {
    hide *;
    var rest := MarkerSuffix(line);
    w1, sign, d, w2 := ParseIntShape(rest);
    assert MarkerPrefix + (w1 + sign + d + w2) == MarkerPrefix + w1 + sign + d + w2;
  }

  /** A sentinel is the prefix followed by the text its page number is read from. */
  lemma {:induction false} MarkerSuffix(line: string) returns (rest: string)
    requires IsPageMarker(line)
    ensures line == MarkerPrefix + rest && PageNumberFromMarker(line) == ParseInt(rest)
  {
    rest := line[|MarkerPrefix|..];
    assert line[..|MarkerPrefix|] == MarkerPrefix;
    assert line == line[..|MarkerPrefix|] + rest;
  }

  /** A padded, signed number reads as its value; trailing text makes `int` raise. */
  lemma {:induction false} PageNumberExamples(padded: string, suffixed: string)
    requires padded == "\0PAGE: +07 " && suffixed == "\0PAGE:7a"
    ensures IsPageMarker(padded) && PageNumberFromMarker(padded) == Some(7)
    ensures IsPageMarker(suffixed) && PageNumberFromMarker(suffixed) == None
  {
    PaddedPage(padded);
    TrailingTextRejected(suffixed);
  }

  lemma {:induction false} PaddedPage(padded: string)
    requires padded == "\0PAGE: +07 "
    ensures IsPageMarker(padded) && PageNumberFromMarker(padded) == Some(7)
  {
    hide PageNumberFromMarker, ParseInt, Strip;
    var d := "07";
    assert DigitsValue(d) == 7 by {
      assert d[..1] == "0";
      assert d[..1][..0] == "";
    }
    assert padded == MarkerPrefix + " " + "+" + d + " ";
    PageNumberOfShape(" ", "+", d, " ");
  }

  lemma {:induction false} TrailingTextRejected(suffixed: string)
    requires suffixed == "\0PAGE:7a"
    ensures IsPageMarker(suffixed) && PageNumberFromMarker(suffixed) == None
  {
    var rest := suffixed[|MarkerPrefix|..];
    assert suffixed[..|MarkerPrefix|] == MarkerPrefix;
    assert rest == "7a";
    NotAnInteger(rest);
  }

  lemma {:induction false} NotAnInteger(rest: string)
    requires rest == "7a"
    ensures ParseInt(rest) == None
  {
    StripNoSpaceEnds(rest);
    assert !IsDigit(rest[1]);
  }

  /** A line that is not a sentinel, or a sentinel whose page number `int` accepts. */
  predicate Readable(line: string) {
    IsPageMarker(line) ==> PageNumberFromMarker(line).Some?
  }

  /** Every sentinel among the first `n` lines carries a page number `int` accepts. */
  predicate ParsesUpTo(lines: seq<string>, n: nat)
    requires n <= |lines|
  {
    forall k :: 0 <= k < n ==> Readable(lines[k])
  }

  lemma {:induction false} ParsesStep(lines: seq<string>, i: nat)
    requires i < |lines| && ParsesUpTo(lines, i) && Readable(lines[i])
    ensures ParsesUpTo(lines, i + 1)
  {
  }

  predicate MarkersParse(lines: seq<string>) {
    ParsesUpTo(lines, |lines|)
  }

  /** The page a line sets: that of a sentinel `int` accepts; `None` for any other line. */
  function PageSetBy(line: string): (r: Option<int>)
    ensures r.Some? <==> IsPageMarker(line) && PageNumberFromMarker(line).Some?
    ensures r.Some? ==> PageNumberFromMarker(line) == r
  {
    if IsPageMarker(line) then PageNumberFromMarker(line) else None
  }

  /** The page each line sets, position by position. */
  function PagesSet(lines: seq<string>): (sets: seq<Option<int>>)
    ensures |sets| == |lines|
  {
    if |lines| == 0 then []
    else PagesSet(lines[..|lines| - 1]) + [PageSetBy(lines[|lines| - 1])]
  }

  lemma {:induction false} PagesSetAt(lines: seq<string>, k: nat)
    requires k < |lines|
    ensures PagesSet(lines)[k] == PageSetBy(lines[k])
  {
    var n := |lines| - 1;
    if k < n {
      PagesSetAt(lines[..n], k);
    }
  }

  /** Given what each position sets, the page in effect at `i`: the last one set at or before `i`, else 1. */
  function PageIn(sets: seq<Option<int>>, i: nat): int
    requires i < |sets|
  {
    match sets[i]
    case Some(page) => page
    case None => if i == 0 then 1 else PageIn(sets, i - 1)
  }

  /**
   * The page in effect at position `i`: that of the nearest sentinel at or before `i`, else 1.
   * It is consulted only where every sentinel up to `i` parses (`_build_page_index` raises at
   * the first one that does not), so a sentinel that does not parse is simply passed over here.
   */
  function PageAt(lines: seq<string>, i: nat): int
    requires i < |lines|
  {
    PageIn(PagesSet(lines), i)
  }

  lemma {:induction false} PageInLastSet(sets: seq<Option<int>>, i: nat, j: nat)
    requires j <= i < |sets| && sets[j].Some?
    requires forall k :: j < k <= i ==> sets[k].None?
    ensures PageIn(sets, i) == sets[j].value
    decreases i
  {
    if i > j {
      PageInLastSet(sets, i - 1, j);
    }
  }

  lemma {:induction false} PageInNoneSet(sets: seq<Option<int>>, i: nat)
    requires i < |sets|
    requires forall k :: 0 <= k <= i ==> sets[k].None?
    ensures PageIn(sets, i) == 1
    decreases i
  {
    if i > 0 {
      PageInNoneSet(sets, i - 1);
    }
  }

  /** At any position, the page is the one named by the last sentinel at or before it. */
  lemma {:induction false} PageAtLastMarker(lines: seq<string>, i: nat, j: nat)
    requires j <= i < |lines|
    requires IsPageMarker(lines[j]) && PageNumberFromMarker(lines[j]).Some?
    requires forall k :: j < k <= i ==> !IsPageMarker(lines[k])
    ensures PageAt(lines, i) == PageNumberFromMarker(lines[j]).value
  {
    var sets := PagesSet(lines);
    forall k | j <= k <= i
      ensures sets[k] == PageSetBy(lines[k])
    {
      PagesSetAt(lines, k);
    }
    PageInLastSet(sets, i, j);
  }

  /** Before the first sentinel, the page defaults to 1. */
  lemma {:induction false} PageAtBeforeAnyMarker(lines: seq<string>, i: nat)
    requires i < |lines|
    requires forall k :: 0 <= k <= i ==> !IsPageMarker(lines[k])
    ensures PageAt(lines, i) == 1
  {
    var sets := PagesSet(lines);
    forall k | 0 <= k <= i
      ensures sets[k] == PageSetBy(lines[k])
    {
      PagesSetAt(lines, k);
    }
    PageInNoneSet(sets, i);
  }

  /**
   * `_build_page_index`: one forward pass; a sentinel sets the current page, and every position
   * records the current page. `None` when some sentinel's number does not parse (`int` raises).
   */
  method BuildPageIndex(lines: seq<string>) returns (r: Option<seq<int>>)
    ensures r.None? <==> !MarkersParse(lines)
    ensures r.Some? ==> |r.value| == |lines|
    ensures r.Some? ==> forall i :: 0 <= i < |lines| ==> r.value[i] == PageAt(lines, i)
  {
    ghost var sets := PagesSet(lines);
    var index: seq<int> := [];
    var current := 1;
    for i := 0 to |lines|
      invariant |index| == i
      invariant ParsesUpTo(lines, i)
      invariant current == if i == 0 then 1 else PageIn(sets, i - 1)
      invariant forall k :: 0 <= k < i ==> index[k] == PageIn(sets, k)
    {
      var line := lines[i];
      PagesSetAt(lines, i);
      if IsPageMarker(line) {
        var page := PageNumberFromMarker(line);
        if page.None? {
          assert !Readable(lines[i]);
          return None;
        }
        current := page.value;
      }
      assert Readable(line);
      ParsesStep(lines, i);
      assert current == PageIn(sets, i);
      index := index + [current];
    }
    r := Some(index);
  }

  /** A line whose first character differs from the sentinel's is ordinary text. */
  lemma {:induction false} NotMarkerByFirstChar(line: string)
    requires |line| > 0 && line[0] != '\0'
    ensures !IsPageMarker(line) && Readable(line)
  {
    assert MarkerPrefix[0] == '\0';
  }

  /** A sentinel that reads back as `page`. */
  predicate MarksPage(line: string, page: int) {
    IsPageMarker(line) && PageNumberFromMarker(line) == Some(page)
  }

  /**
   * Three pages: a sentinel for page `a`, two lines, a sentinel for page `b`, one line, a
   * sentinel for page `c`, one line. Each position gets the page of the sentinel before it.
   */
  lemma {:induction false} ThreePages(lines: seq<string>, a: int, b: int, c: int)
    requires |lines| == 7
    requires MarksPage(lines[0], a) && MarksPage(lines[3], b) && MarksPage(lines[5], c)
    requires !IsPageMarker(lines[1]) && !IsPageMarker(lines[2])
    requires !IsPageMarker(lines[4]) && !IsPageMarker(lines[6])
    ensures MarkersParse(lines)
    ensures PageAt(lines, 0) == a && PageAt(lines, 1) == a && PageAt(lines, 2) == a
    ensures PageAt(lines, 3) == b && PageAt(lines, 4) == b
    ensures PageAt(lines, 5) == c && PageAt(lines, 6) == c
  {
    ParsesStep(lines, 0);
    ParsesStep(lines, 1);
    ParsesStep(lines, 2);
    ParsesStep(lines, 3);
    ParsesStep(lines, 4);
    ParsesStep(lines, 5);
    ParsesStep(lines, 6);
    var sets := PagesSet(lines);
    PagesSetAt(lines, 0);
    PagesSetAt(lines, 1);
    PagesSetAt(lines, 2);
    PagesSetAt(lines, 3);
    PagesSetAt(lines, 4);
    PagesSetAt(lines, 5);
    PagesSetAt(lines, 6);
    assert PageIn(sets, 2) == PageIn(sets, 1) == PageIn(sets, 0) == a;
    assert PageIn(sets, 4) == PageIn(sets, 3) == b;
    assert PageIn(sets, 6) == PageIn(sets, 5) == c;
  }

  /** The worked example: pages 1, 2 and 3 around the lines `Line 1` to `Line 4`. */
  lemma {:induction false} ThreePageExample()
    ensures var lines := [MarkerFor(1), "Line 1", "Line 2", MarkerFor(2), "Line 3", MarkerFor(3), "Line 4"];
      && MarkersParse(lines)
      && PageAt(lines, 0) == 1 && PageAt(lines, 1) == 1 && PageAt(lines, 2) == 1
      && PageAt(lines, 3) == 2 && PageAt(lines, 4) == 2
      && PageAt(lines, 5) == 3 && PageAt(lines, 6) == 3
  {
    MarkerRoundTrip(1);
    MarkerRoundTrip(2);
    MarkerRoundTrip(3);
    NotMarkerByFirstChar("Line 1");
    NotMarkerByFirstChar("Line 2");
    NotMarkerByFirstChar("Line 3");
    NotMarkerByFirstChar("Line 4");
    var lines := [MarkerFor(1), "Line 1", "Line 2", MarkerFor(2), "Line 3", MarkerFor(3), "Line 4"];
    assert MarksPage(lines[0], 1) && MarksPage(lines[3], 2) && MarksPage(lines[5], 3);
    assert !IsPageMarker(lines[1]) && !IsPageMarker(lines[2]);
    assert !IsPageMarker(lines[4]) && !IsPageMarker(lines[6]);
    ThreePages(lines, 1, 2, 3);
  }

  // ---------------------------------------------------------------------------
  // Content-only view: the sentinels stripped, original positions kept
  // ---------------------------------------------------------------------------

  /** The positions of the lines that are not sentinels, ascending (`enumerate` + filter). */
  function ContentPositions(lines: seq<string>): (ps: seq<nat>)
    ensures forall k :: 0 <= k < |ps| ==> ps[k] < |lines| && !IsPageMarker(lines[ps[k]])
    ensures forall k, l :: 0 <= k < l < |ps| ==> ps[k] < ps[l]
    ensures forall i :: 0 <= i < |lines| && !IsPageMarker(lines[i]) ==> i in ps
  {
    if |lines| == 0 then []
    else
      var n := |lines| - 1;
      var ps := ContentPositions(lines[..n]);
      if IsPageMarker(lines[n]) then ps else ps + [n]
  }

  /** The lines that are not sentinels, in order (`[l for l in lines if not _is_page_marker(l)]`). */
  function StripMarkers(lines: seq<string>): (cs: seq<string>)
    ensures |cs| <= |lines|
    ensures forall k :: 0 <= k < |cs| ==> !IsPageMarker(cs[k])
  {
    if |lines| == 0 then []
    else
      var n := |lines| - 1;
      StripMarkers(lines[..n]) + (if IsPageMarker(lines[n]) then [] else [lines[n]])
  }

  /** The content-only list and the position list line up: entry k is the line at position k. */
  lemma {:induction false} StripMarkersAt(lines: seq<string>)
    ensures |StripMarkers(lines)| == |ContentPositions(lines)|
    ensures forall k :: 0 <= k < |StripMarkers(lines)| ==>
              StripMarkers(lines)[k] == lines[ContentPositions(lines)[k]]
  {
    if |lines| > 0 {
      var n := |lines| - 1;
      StripMarkersAt(lines[..n]);
    }
  }

  /** Stripping is all there is to it when nothing is a sentinel. */
  lemma {:induction false} StripMarkersNoMarkers(lines: seq<string>)
    requires forall k :: 0 <= k < |lines| ==> !IsPageMarker(lines[k])
    ensures StripMarkers(lines) == lines
  {
    if |lines| > 0 {
      StripMarkersNoMarkers(lines[..|lines| - 1]);
    }
  }
}
