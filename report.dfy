/**
 * `generate_report` (app.py:315-468): the Markdown report, as the list of lines that the source
 * joins with newlines. The timestamp and the one-decimal rendering of the change percentage are
 * parameters (`date`, `pctText`); the severity decision is made on the exact percentage.
 */
module Report {
  import opened Text
  import opened Opcodes
  import opened LineDiff

  datatype Severity = Low | Medium | High

  /** The three listed kinds of change, in the order their sections appear. */
  datatype Category = Added | Removed | Modified

  /** The consequence bullets, in the order the source considers them. */
  datatype Consequence = RemovedContent | AddedContent | ModifiedSections | HighVolume

  /** Lines of document A the statistics account for: `equal + delete + replace`. */
  function Total(stats: Stats): nat {
    stats.equal + stats.delete + stats.replace
  }

  /** Lines that changed: `insert + delete + replace`. */
  function Changed(stats: Stats): nat {
    stats.insert + stats.delete + stats.replace
  }

  /** The change percentage, exactly; 0 when document A contributed no lines (app.py:325-327). */
  function Pct(stats: Stats): real {
    if Total(stats) != 0 then Changed(stats) as real / Total(stats) as real * 100.0 else 0.0
  }

  /** The severity tiers of app.py:360-366. */
  function SeverityOf(stats: Stats): Severity {
    var pct := Pct(stats);
    if pct > 30.0 then High else if pct > 10.0 then Medium else Low
  }

  function SeverityText(s: Severity): string {
    match s
    case High =>
      "**High** \U{2014} The documents differ "
      + "substantially. "
      + "This likely represents a major revision "
      + "affecting the overall meaning and "
      + "structure of the document."
    case Medium =>
      "**Medium** \U{2014} Notable differences "
      + "exist. "
      + "Specific sections have been altered "
      + "which may affect interpretation of "
      + "those sections."
    case Low =>
      "**Low** \U{2014} Minor differences "
      + "detected. "
      + "The documents are largely the same with "
      + "small edits."
  }

  /** The summary part every report starts with (app.py:329-354). */
  function Header(stats: Stats, nameA: string, nameB: string, date: string, pctText: string): (r: seq<string>)
    ensures |r| == 24
  {
    [ "# PDF Comparison Report",
      "",
      "**Date:** " + date,
      "",
      "**Document A:** " + nameA,
      "**Document B:** " + nameB,
      "",
      "---",
      "",
      "## Summary Statistics",
      "",
      "| Metric | Count |",
      "|--------|-------|",
      "| Unchanged lines | " + NatToString(stats.equal) + " |",
      "| Inserted lines | " + NatToString(stats.insert) + " |",
      "| Deleted lines | " + NatToString(stats.delete) + " |",
      "| Modified lines | " + NatToString(stats.replace) + " |",
      "| **Total changed** | **" + NatToString(Changed(stats)) + "** |",
      "| Change percentage | " + pctText + "% |",
      "",
      "---",
      "",
      "## Impact Analysis",
      "" ]
  }

  const IdenticalLine: string := "The two documents are **identical** in "
    + "textual content. No differences found."

  /** `[b for b in diff_blocks if b["tag"] == tag]` */
  function OfTag(blocks: seq<Block>, tag: Tag): (r: seq<Block>)
    ensures |r| <= |blocks|
    ensures forall b :: b in r <==> b in blocks && b.tag == tag
  {
    if |blocks| == 0 then []
    else
      var n := |blocks| - 1;
      OfTag(blocks[..n], tag) + (if blocks[n].tag == tag then [blocks[n]] else [])
  }

  /**
   * The filter keeps document order: filtering a concatenation filters each part. With
   * `OfTagSingle` and `OfTag([], tag) == []` this determines the result, so each listing
   * shows the tagged blocks in the order the diff produced them.
   */
  lemma {:induction false} OfTagAppend(a: seq<Block>, b: seq<Block>, tag: Tag)
    ensures OfTag(a + b, tag) == OfTag(a, tag) + OfTag(b, tag)
    decreases |b|
  {
    if |b| == 0 {
      assert a + b == a;
    } else {
      hide OfTag;
      var n := |b| - 1;
      var last := if b[n].tag == tag then [b[n]] else [];
      var ab := a + b;
      assert ab[..|ab| - 1] == a + b[..n];
      assert ab[|ab| - 1] == b[n];
      calc {
        OfTag(ab, tag);
        { OfTagLast(ab, tag); }
        OfTag(a + b[..n], tag) + last;
        { OfTagAppend(a, b[..n], tag); }
        OfTag(a, tag) + OfTag(b[..n], tag) + last;
        OfTag(a, tag) + (OfTag(b[..n], tag) + last);
        { OfTagLast(b, tag); }
        OfTag(a, tag) + OfTag(b, tag);
      }
    }
  }

  lemma {:induction false} OfTagLast(s: seq<Block>, tag: Tag)
    requires |s| > 0
    ensures var n := |s| - 1;
      OfTag(s, tag) == OfTag(s[..n], tag) + (if s[n].tag == tag then [s[n]] else [])
  {
  }

  /** One block is kept exactly when it has the tag. */
  lemma {:induction false} OfTagSingle(x: Block, tag: Tag)
    ensures OfTag([x], tag) == if x.tag == tag then [x] else []
  {
    assert [x][..0] == [];
  }


  /** `s` cut to `n` characters with `…` appended when it is longer (app.py:391-392, 426-429). */
  function Truncate(s: string, n: nat): (r: string)
    ensures |s| <= n ==> r == s
    ensures |s| > n ==> |r| == n + 1 && r[..n] == s[..n] && r[n] == '\U{2026}'
  {
    if |s| > n then s[..n] + "\U{2026}" else s
  }

  /** The first `count` lines (fewer if there are fewer), space-joined and truncated at `width`. */
  function Preview(lines: seq<string>, count: nat, width: nat): string {
    Truncate(Join(lines[..if count < |lines| then count else |lines|]), width)
  }

  /** `_page_label`: nothing when the page is missing or 0 (Python's `if pg`). */
  function PageLabel(page: Option<int>): string {
    if page.Some? && page.value != 0 then " (page " + IntToString(page.value) + ")" else ""
  }

  function Heading(c: Category, n: nat): string {
    match c
    case Added => "### New Content (" + NatToString(n) + " section(s) added)"
    case Removed => "### Removed Content (" + NatToString(n) + " section(s) deleted)"
    case Modified => "### Modified Content (" + NatToString(n) + " section(s) changed)"
  }

  function Intro(c: Category): string {
    match c
    case Added =>
      "New content was introduced in Document "
      + "B that does not appear in Document A. "
      + "This may represent additional clauses, "
      + "information, or context that changes "
      + "the scope or meaning of the document."
    case Removed =>
      "Content present in Document A has been "
      + "removed in Document B. "
      + "Removed text may eliminate obligations, "
      + "rights, definitions, or "
      + "qualifications that previously applied."
    case Modified =>
      "Existing text was altered between the "
      + "two versions. Modifications can "
      + "change meaning, adjust figures, update "
      + "references, or shift the tone "
      + "of the document."
  }

  /** How many report lines `k` listed blocks take: three each when modified, one otherwise. */
  function ListedLines(c: Category, k: nat): nat {
    if c == Modified then 3 * k else k
  }

  /** The lines for the `i`-th listed block of a category (numbered from 1). */
  function ItemLines(c: Category, i: nat, b: Block): (r: seq<string>)
    ensures |r| == ListedLines(c, 1)
  {
    match c
    case Added =>
      [NatToString(i) + ". Near line " + NatToString(b.rightStart + 1) + PageLabel(b.rightPage)
       + ": *\"" + Preview(b.rightLines, 3, 200) + "\"*"]
    case Removed =>
      [NatToString(i) + ". Near line " + NatToString(b.leftStart + 1) + PageLabel(b.leftPage)
       + ": *\"" + Preview(b.leftLines, 3, 200) + "\"*"]
    case Modified =>
      [NatToString(i) + ". Line " + NatToString(b.leftStart + 1) + PageLabel(b.leftPage) + ":",
       "   - **Was:** *\"" + Preview(b.leftLines, 2, 150) + "\"*",
       "   - **Now:** *\"" + Preview(b.rightLines, 2, 150) + "\"*"]
  }

  /** The lines of the first `k` listed blocks. */
  function Listing(c: Category, items: seq<Block>, k: nat): seq<string>
    requires k <= |items|
  {
    if k == 0 then [] else Listing(c, items, k - 1) + ItemLines(c, k, items[k - 1])
  }

  function MoreLine(n: nat): string {
    "   *(and " + NatToString(n) + " more\U{2026})*"
  }

  function Min(a: nat, b: nat): nat {
    if a < b then a else b
  }

  /** The heading and introduction of a category's section (`n` blocks). */
  function SectionHead(c: Category, n: nat): (r: seq<string>)
    ensures |r| == 4
  {
    [Heading(c, n), "", Intro(c), ""]
  }

  /** The `(and N more…)` line, present only beyond ten blocks. */
  function MoreLines(n: nat): (r: seq<string>)
    ensures |r| == if n > 10 then 1 else 0
  {
    if n > 10 then [MoreLine(n - 10)] else []
  }

  /** A category's section: empty when it has no blocks; at most ten blocks are listed. */
  function Section(c: Category, items: seq<Block>): seq<string> {
    if |items| == 0 then []
    else SectionHead(c, |items|) + Listing(c, items, Min(|items|, 10)) + MoreLines(|items|) + [""]
  }

  /** The consequence bullets that apply (app.py:445-461). */
  function Consequences(removed: bool, added: bool, modified: bool, high: bool): seq<Consequence> {
    (if removed then [RemovedContent] else []) + (if added then [AddedContent] else [])
    + (if modified then [ModifiedSections] else []) + (if high then [HighVolume] else [])
  }

  function ConsequenceText(c: Consequence): string {
    match c
    case RemovedContent =>
      "- **Removed content** may eliminate "
      + "previously established terms, "
      + "conditions, or information. Reviewers "
      + "should verify that no critical "
      + "clauses were unintentionally dropped."
    case AddedContent =>
      "- **Added content** introduces new "
      + "information or requirements. "
      + "Stakeholders should review these "
      + "additions for compliance and "
      + "alignment with expectations."
    case ModifiedSections =>
      "- **Modified sections** could alter the "
      + "interpretation of existing "
      + "provisions. A careful line-by-line "
      + "review of changed sections is "
      + "recommended to assess whether the "
      + "intent has shifted."
    case HighVolume =>
      "- Given the **high volume of changes**, "
      + "a full re-review of "
      + "Document B is advisable rather than "
      + "relying on a delta review alone."
  }

  function ConsequenceTexts(cs: seq<Consequence>): (r: seq<string>)
    ensures |r| == |cs|
  {
    seq(|cs|, i requires 0 <= i < |cs| => ConsequenceText(cs[i]))
  }

  function ConsequencesHead(): (r: seq<string>)
    ensures |r| == 4
  {
    ["---", "", "## Consequences", ""]
  }

  function Footer(): (r: seq<string>)
    ensures |r| == 3
  {
    ["", "---", "*Report generated by PDFCompare.*"]
  }

  function SeverityLines(s: Severity): (r: seq<string>)
    ensures |r| == 2
  {
    ["**Overall severity:** " + SeverityText(s), ""]
  }

  /** The analysis that follows the summary when something changed (app.py:368-466). */
  function Analysis(blocks: seq<Block>, severity: Severity, high: bool): seq<string> {
    var additions, deletions, modifications := OfTag(blocks, Insert), OfTag(blocks, Delete), OfTag(blocks, Replace);
    SeverityLines(severity)
    + Section(Added, additions) + Section(Removed, deletions) + Section(Modified, modifications)
    + ConsequencesHead()
    + ConsequenceTexts(Consequences(|deletions| > 0, |additions| > 0, |modifications| > 0, high))
    + Footer()
  }

  /** Everything after the summary: the "identical" sentence alone, or the analysis. */
  function Body(blocks: seq<Block>, stats: Stats): seq<string> {
    if Changed(stats) == 0 then [IdenticalLine]
    else Analysis(blocks, SeverityOf(stats), Pct(stats) > 30.0)
  }

  /** The whole report, line by line. */
  function Report(blocks: seq<Block>, stats: Stats, nameA: string, nameB: string, date: string, pctText: string): seq<string> {
    Header(stats, nameA, nameB, date, pctText) + Body(blocks, stats)
  }

  // ---------------------------------------------------------------------------
  // The report as the source builds it: appending to a list of lines
  // ---------------------------------------------------------------------------

  /** The numbered listing of the first `shown` blocks appended to the report. */
  method AppendListing(lines: seq<string>, c: Category, items: seq<Block>, shown: nat) returns (out: seq<string>)
    requires shown <= |items|
    ensures out == lines + Listing(c, items, shown)
  {
    out := lines;
    for k := 0 to shown
      invariant out == lines + Listing(c, items, k)
    {
      var item := ItemLines(c, k + 1, items[k]);
      assert Listing(c, items, k + 1) == Listing(c, items, k) + item;
      AppendAssoc(lines, Listing(c, items, k), item);
      out := out + item;
    }
  }

  /** One category's section appended to the report (app.py:381-435). */
  method AppendSection(lines: seq<string>, c: Category, items: seq<Block>) returns (out: seq<string>)
    ensures out == lines + Section(c, items)
  {
    if |items| == 0 {
      return lines;
    }
    var head := SectionHead(c, |items|);
    var listed := AppendListing(lines + head, c, items, Min(|items|, 10));
    var listing := Listing(c, items, Min(|items|, 10));
    out := listed + MoreLines(|items|) + [""];
    AppendAssoc(lines, head, listing);
    AppendAssoc(lines, head + listing, MoreLines(|items|));
    AppendAssoc(lines, head + listing + MoreLines(|items|), [""]);
  }

  lemma {:induction false} AppendAssoc<T>(a: seq<T>, b: seq<T>, c: seq<T>)
    ensures a + b + c == a + (b + c)
  {
  }

  /** The consequence bullets collected in the source's order (app.py:445-461). */
  method CollectConsequences(removed: bool, added: bool, modified: bool, high: bool) returns (cs: seq<Consequence>)
    ensures cs == Consequences(removed, added, modified, high)
  {
    cs := [];
    if removed {
      cs := cs + [RemovedContent];
    }
    if added {
      cs := cs + [AddedContent];
    }
    if modified {
      cs := cs + [ModifiedSections];
    }
    if high {
      cs := cs + [HighVolume];
    }
  }

  /** The severity verdict, the three sections and the consequences (app.py:368-466). */
  method AppendAnalysis(blocks: seq<Block>, severity: Severity, high: bool) returns (lines: seq<string>)
    ensures lines == Analysis(blocks, severity, high)
  {
    lines := SeverityLines(severity);
    var additions := OfTag(blocks, Insert);
    var deletions := OfTag(blocks, Delete);
    var modifications := OfTag(blocks, Replace);
    lines := AppendSection(lines, Added, additions);
    lines := AppendSection(lines, Removed, deletions);
    lines := AppendSection(lines, Modified, modifications);
    lines := lines + ConsequencesHead();
    var consequences := CollectConsequences(|deletions| > 0, |additions| > 0, |modifications| > 0, high);
    lines := lines + ConsequenceTexts(consequences) + Footer();
  }

  /** `generate_report`. */
  method GenerateReport(blocks: seq<Block>, stats: Stats, nameA: string, nameB: string, date: string, pctText: string)
    returns (lines: seq<string>)
    ensures lines == Report(blocks, stats, nameA, nameB, date, pctText)
  {
    var total := stats.equal + stats.delete + stats.replace;
    var changed := stats.insert + stats.delete + stats.replace;
    var pct: real := if total != 0 then changed as real / total as real * 100.0 else 0.0;
    var header := Header(stats, nameA, nameB, date, pctText);
    assert total == Total(stats) && changed == Changed(stats) && pct == Pct(stats);
    if changed == 0 {
      return header + [IdenticalLine];
    }
    var severity := if pct > 30.0 then High else if pct > 10.0 then Medium else Low;
    assert severity == SeverityOf(stats);
    var analysis := AppendAnalysis(blocks, severity, pct > 30.0);
    assert analysis == Body(blocks, stats);
    lines := header + analysis;
  }

  // ---------------------------------------------------------------------------
  // Properties
  // ---------------------------------------------------------------------------

  /**
   * When nothing changed the report stops right after the summary, with the "identical"
   * sentence as its last line; otherwise the line after the summary is the severity verdict
   * and more follows.
   */
  lemma {:induction false} EarlyExit(blocks: seq<Block>, stats: Stats, nameA: string, nameB: string, date: string, pctText: string)
    ensures var r := Report(blocks, stats, nameA, nameB, date, pctText);
      && r[..24] == Header(stats, nameA, nameB, date, pctText)
      && (Changed(stats) == 0 <==> |r| == 25)
      && (Changed(stats) == 0 ==> r[24] == IdenticalLine)
      && (Changed(stats) > 0 ==> r[24] == "**Overall severity:** " + SeverityText(SeverityOf(stats)))
  {
    var header := Header(stats, nameA, nameB, date, pctText);
    var body := Body(blocks, stats);
    assert (header + body)[..24] == header;
    assert (header + body)[24] == body[0] by {
      assert |body| > 0;
    }
    if Changed(stats) > 0 {
      var rest := body[2..];
      assert body == SeverityLines(SeverityOf(stats)) + rest;
      assert |rest| >= 3;
    }
  }

  /**
   * The tiers in integer form: High exactly when `changed * 100 > 30 * total`, Medium exactly
   * when `10 * total < changed * 100 <= 30 * total`, and always Low when `total` is 0.
   */
  lemma {:induction false} SeverityTiers(stats: Stats)
    ensures var t, c := Total(stats), Changed(stats);
      && (SeverityOf(stats) == High <==> t > 0 && c * 100 > 30 * t)
      && (SeverityOf(stats) == Medium <==> t > 0 && 10 * t < c * 100 <= 30 * t)
      && (t == 0 ==> SeverityOf(stats) == Low)
  {
    var t, c := Total(stats), Changed(stats);
    if t > 0 {
      PctCompare(c, t, 30);
      PctCompare(c, t, 10);
    }
  }

  /** `c / t * 100 > k` exactly when `c * 100 > k * t`. */
  lemma {:induction false} PctCompare(c: nat, t: nat, k: nat)
    requires t > 0
    ensures c as real / t as real * 100.0 > k as real <==> c * 100 > k * t
  {
    var q := c as real / t as real;
    assert q * t as real == c as real;
    assert q * 100.0 > k as real <==> q * 100.0 * t as real > k as real * t as real;
  }

  /** The consequences come in the order removed, added, modified, high volume; each only when it applies. */
  function Rank(c: Consequence): nat {
    match c
    case RemovedContent => 0
    case AddedContent => 1
    case ModifiedSections => 2
    case HighVolume => 3
  }

  lemma {:induction false} ConsequencesOrder(removed: bool, added: bool, modified: bool, high: bool)
    ensures var cs := Consequences(removed, added, modified, high);
      && (forall i, j :: 0 <= i < j < |cs| ==> Rank(cs[i]) < Rank(cs[j]))
      && (RemovedContent in cs <==> removed) && (AddedContent in cs <==> added)
      && (ModifiedSections in cs <==> modified) && (HighVolume in cs <==> high)
  {
  }

  /** The high-volume bullet appears exactly when the severity is High. */
  lemma {:induction false} HighVolumeIffHigh(blocks: seq<Block>, stats: Stats)
    ensures var cs := Consequences(|OfTag(blocks, Delete)| > 0, |OfTag(blocks, Insert)| > 0,
                                   |OfTag(blocks, Replace)| > 0, Pct(stats) > 30.0);
      HighVolume in cs <==> SeverityOf(stats) == High
  {
    ConsequencesOrder(|OfTag(blocks, Delete)| > 0, |OfTag(blocks, Insert)| > 0,
                      |OfTag(blocks, Replace)| > 0, Pct(stats) > 30.0);
  }

  lemma {:induction false} ListingLength(c: Category, items: seq<Block>, k: nat)
    requires k <= |items|
    ensures |Listing(c, items, k)| == ListedLines(c, k)
  {
    if k > 0 {
      ListingLength(c, items, k - 1);
    }
  }

  /** A line of the form `   *(and N more…)*`. */
  predicate IsMoreLine(line: string) {
    |line| >= 9 && line[..9] == "   *(and "
  }

  /** How many of the lines are "more" lines. */
  function CountMore(lines: seq<string>): nat {
    CountMoreUpTo(lines, |lines|)
  }

  function CountMoreUpTo(lines: seq<string>, n: nat): nat
    requires n <= |lines|
  {
    if n == 0 then 0 else CountMoreUpTo(lines, n - 1) + (if IsMoreLine(lines[n - 1]) then 1 else 0)
  }

  lemma {:induction false} CountMoreUpToPrefix(lines: seq<string>, more: seq<string>, n: nat)
    requires n <= |lines|
    ensures CountMoreUpTo(lines + more, n) == CountMoreUpTo(lines, n)
  {
    if n > 0 {
      CountMoreUpToPrefix(lines, more, n - 1);
      assert (lines + more)[n - 1] == lines[n - 1];
    }
  }

  lemma {:induction false} CountMoreAppend(a: seq<string>, b: seq<string>)
    ensures CountMore(a + b) == CountMore(a) + CountMore(b)
  {
    CountMoreAppendUpTo(a, b, |b|);
  }

  lemma {:induction false} CountMoreAppendUpTo(a: seq<string>, b: seq<string>, m: nat)
    requires m <= |b|
    ensures CountMoreUpTo(a + b, |a| + m) == CountMore(a) + CountMoreUpTo(b, m)
  {
    if m == 0 {
      CountMoreUpToPrefix(a, b, |a|);
    } else {
      CountMoreAppendUpTo(a, b, m - 1);
      assert (a + b)[|a| + m - 1] == b[m - 1];
    }
  }

  /** A "more" line starts with three blanks and an asterisk. */
  lemma {:induction false} MoreLineShape(line: string)
    ensures IsMoreLine(line) ==> line[0] == ' ' && line[3] == '*'
  {
    if IsMoreLine(line) {
      assert line[0] == line[..9][0] && line[3] == line[..9][3];
    }
  }

  /** Lines none of which is a "more" line count zero. */
  lemma {:induction false} CountMoreNone(lines: seq<string>)
    requires forall k :: 0 <= k < |lines| ==> !IsMoreLine(lines[k])
    ensures CountMore(lines) == 0
  {
    CountMoreNoneUpTo(lines, |lines|);
  }

  lemma {:induction false} CountMoreNoneUpTo(lines: seq<string>, n: nat)
    requires n <= |lines|
    requires forall k :: 0 <= k < |lines| ==> !IsMoreLine(lines[k])
    ensures CountMoreUpTo(lines, n) == 0
  {
    if n > 0 {
      CountMoreNoneUpTo(lines, n - 1);
    }
  }

  /** Numbered item lines and the `Was`/`Now` lines are never mistaken for the "more" line. */
  lemma {:induction false} ItemLinesNotMore(c: Category, i: nat, b: Block)
    ensures CountMore(ItemLines(c, i, b)) == 0
  {
    var r := ItemLines(c, i, b);
    forall k | 0 <= k < |r|
      ensures !IsMoreLine(r[k])
    {
      ItemLineNotMore(c, i, b, k);
    }
    CountMoreNone(r);
  }

  /** Line `k` of an item starts with its number, or with `   - `. */
  lemma {:induction false} ItemLineNotMore(c: Category, i: nat, b: Block, k: nat)
    requires k < |ItemLines(c, i, b)|
    ensures !IsMoreLine(ItemLines(c, i, b)[k])
  {
    var line := ItemLines(c, i, b)[k];
    MoreLineShape(line);
    if k == 0 {
      var d := NatToString(i)[0];
      assert IsDigit(d);
      assert line[0] == d;
    } else {
      assert line[3] == '-';
    }
  }

  lemma {:induction false} ListingNotMore(c: Category, items: seq<Block>, k: nat)
    requires k <= |items|
    ensures CountMore(Listing(c, items, k)) == 0
  {
    if k > 0 {
      ListingNotMore(c, items, k - 1);
      ItemLinesNotMore(c, k, items[k - 1]);
      CountMoreAppend(Listing(c, items, k - 1), ItemLines(c, k, items[k - 1]));
    }
  }

  /** The "more" lines of a section: one exactly when there are more than ten blocks. */
  lemma {:induction false} MoreLinesCount(n: nat)
    ensures CountMore(MoreLines(n)) == if n > 10 then 1 else 0
  {
    if n > 10 {
      var m := MoreLines(n);
      assert IsMoreLine(m[0]);
      assert CountMore(m) == CountMoreUpTo(m, 0) + 1;
    }
  }

  /**
   * A section is empty exactly when it has no blocks; otherwise it holds four heading lines,
   * the lines of at most ten blocks, the `(and N more…)` line with N = count - 10 only
   * when there are more than ten, and a closing blank line.
   */
  lemma {:induction false} SectionShape(c: Category, items: seq<Block>)
    ensures var s := Section(c, items);
      && (|items| == 0 <==> s == [])
      && (|items| > 0 ==> |s| == 5 + ListedLines(c, Min(|items|, 10)) + (if |items| > 10 then 1 else 0))
      && (|items| > 10 ==> s[|s| - 2] == MoreLine(|items| - 10))
  {
    if |items| > 0 {
      var listing := Listing(c, items, Min(|items|, 10));
      ListingLength(c, items, Min(|items|, 10));
      var front := SectionHead(c, |items|) + listing;
      assert Section(c, items) == front + MoreLines(|items|) + [""];
      if |items| > 10 {
        assert (front + MoreLines(|items|) + [""])[|front|] == MoreLine(|items| - 10);
      }
    }
  }

  /**
   * Below its heading, a section holds one `(and N more…)` line when there are more than ten
   * blocks and none otherwise: no listed block's lines can be taken for it.
   */
  lemma {:induction false} SectionMoreLines(c: Category, items: seq<Block>)
    requires |items| > 0
    ensures CountMore(Section(c, items)[4..]) == if |items| > 10 then 1 else 0
  {
    var head := SectionHead(c, |items|);
    var listing := Listing(c, items, Min(|items|, 10));
    var more := MoreLines(|items|);
    AfterHead(head, listing, more);
    ListingNotMore(c, items, Min(|items|, 10));
    MoreLinesCount(|items|);
    CountMoreTail(listing, more);
  }

  lemma {:induction false} AfterHead(head: seq<string>, listing: seq<string>, more: seq<string>)
    requires |head| == 4
    ensures (head + listing + more + [""])[4..] == listing + more + [""]
  {
  }

  /** Lines without a "more" line, then `more`, then a blank: as many as `more` holds. */
  lemma {:induction false} CountMoreTail(lines: seq<string>, more: seq<string>)
    requires CountMore(lines) == 0
    ensures CountMore(lines + more + [""]) == CountMore(more)
  {
    CountMoreAppend(lines, more);
    CountMoreAppend(lines + more, [""]);
    assert CountMore([""]) == 0 by {
      CountMoreNone([""]);
    }
  }

  /** Every preview is at most `width + 1` characters and starts like the joined lines. */
  lemma {:induction false} PreviewBound(lines: seq<string>, count: nat, width: nat)
    ensures |Preview(lines, count, width)| <= width + 1
    ensures var joined := Join(lines[..if count < |lines| then count else |lines|]);
      |joined| <= width ==> Preview(lines, count, width) == joined
  {
  }
}
