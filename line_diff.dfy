/**
 * `compute_diff` (app.py:156-230): the sentinels are stripped from both line lists, the line
 * matcher's opcodes for what remains become diff blocks (with the page each side starts on, and
 * word diffs for replaced blocks), and per-tag line counts are accumulated.
 */
module LineDiff {
  import opened Text
  import opened Pages
  import opened Opcodes
  import opened WordDiff

  /** One region of the comparison; `leftPage`/`rightPage` are `None` at the very end of a side. */
  datatype Block = Block(
    tag: Tag,
    leftStart: nat, leftEnd: nat, rightStart: nat, rightEnd: nat,
    leftLines: seq<string>, rightLines: seq<string>,
    leftPage: Option<int>, rightPage: Option<int>,
    wordDiffs: Option<seq<LinePair>>)

  datatype Stats = Stats(equal: nat, insert: nat, delete: nat, replace: nat)

  datatype DiffResult = DiffResult(blocks: seq<Block>, stats: Stats)

  /**
   * What `compute_diff` prepares for one document: the content lines (sentinels stripped), the
   * original position of each, and the page index of all original lines.
   */
  datatype Side = Side(text: seq<string>, pos: seq<nat>, pages: seq<int>)

  /** Every content line has an original position, and the page index covers it. */
  predicate SideOk(side: Side) {
    |side.pos| == |side.text| && forall k :: 0 <= k < |side.pos| ==> side.pos[k] < |side.pages|
  }

  /** The page index of a document whose sentinels all parse: the page in effect at each line. */
  function PageIndex(lines: seq<string>): (pages: seq<int>)
    requires MarkersParse(lines)
    ensures |pages| == |lines|
  {
    seq(|lines|, i requires 0 <= i < |lines| => PageAt(lines, i))
  }

  /**
   * The side `compute_diff` prepares for a document whose sentinels all parse. It is
   * consistent: content line k is the original line at position `pos[k]`.
   */
  function SideOf(lines: seq<string>): (side: Side)
    requires MarkersParse(lines)
    ensures SideOk(side)
    ensures forall k :: 0 <= k < |side.pos| ==> side.pos[k] < |lines| && lines[side.pos[k]] == side.text[k]
  {
    StripMarkersAt(lines);
    Side(StripMarkers(lines), ContentPositions(lines), PageIndex(lines))
  }

  /** The page a block side starting at content line `start` is attributed to (app.py:202-203). */
  function PageOf(side: Side, start: nat): Option<int>
    requires SideOk(side)
  {
    if start < |side.pos| then Some(side.pages[side.pos[start]]) else None
  }

  /** The block for one opcode. */
  function BlockFor(op: Opcode, sa: Side, sb: Side,
                    wordMatcher: (seq<string>, seq<string>) -> seq<Opcode>): Block
    requires SideOk(sa) && SideOk(sb) && IsMatcher(wordMatcher)
    requires op.i1 <= op.i2 <= |sa.text| && op.j1 <= op.j2 <= |sb.text|
  {
    var left := sa.text[op.i1..op.i2];
    var right := sb.text[op.j1..op.j2];
    Block(op.tag, op.i1, op.i2, op.j1, op.j2, left, right, PageOf(sa, op.i1), PageOf(sb, op.j1),
          if op.tag == Replace then Some(WordDiffs(left, right, wordMatcher)) else None)
  }

  /** The blocks of the first `k` opcodes. */
  function BlocksUpTo(ops: seq<Opcode>, sa: Side, sb: Side,
                      wordMatcher: (seq<string>, seq<string>) -> seq<Opcode>, k: nat): (bs: seq<Block>)
    requires SideOk(sa) && SideOk(sb) && IsMatcher(wordMatcher)
    requires WellFormed(ops, sa.text, sb.text) && k <= |ops|
    ensures |bs| == k
  {
    if k == 0 then []
    else
      assert Fits(ops[k - 1], sa.text, sb.text);
      BlocksUpTo(ops, sa, sb, wordMatcher, k - 1) + [BlockFor(ops[k - 1], sa, sb, wordMatcher)]
  }

  /** What one opcode adds to the statistics (app.py:221-228). */
  function OpStats(op: Opcode): Stats
    requires op.i1 <= op.i2 && op.j1 <= op.j2
  {
    match op.tag
    case Equal => Stats(op.i2 - op.i1, 0, 0, 0)
    case Insert => Stats(0, op.j2 - op.j1, 0, 0)
    case Delete => Stats(0, 0, op.i2 - op.i1, 0)
    case Replace => Stats(0, 0, 0, Max(op.i2 - op.i1, op.j2 - op.j1))
  }

  function Add(s: Stats, t: Stats): Stats {
    Stats(s.equal + t.equal, s.insert + t.insert, s.delete + t.delete, s.replace + t.replace)
  }

  /** Every opcode's ranges run forwards. */
  predicate Forward(ops: seq<Opcode>) {
    forall i :: 0 <= i < |ops| ==> ops[i].i1 <= ops[i].i2 && ops[i].j1 <= ops[i].j2
  }

  /** The statistics of the first `k` opcodes. */
  function StatsUpTo(ops: seq<Opcode>, k: nat): Stats
    requires k <= |ops| && Forward(ops)
  {
    if k == 0 then Stats(0, 0, 0, 0) else Add(StatsUpTo(ops, k - 1), OpStats(ops[k - 1]))
  }

  /** The line matcher's script for the two marker-free texts. */
  function LineOps(linesA: seq<string>, linesB: seq<string>,
                   lineMatcher: (seq<string>, seq<string>) -> seq<Opcode>): (ops: seq<Opcode>)
    requires IsMatcher(lineMatcher)
    ensures WellFormed(ops, StripMarkers(linesA), StripMarkers(linesB))
  {
    lineMatcher(StripMarkers(linesA), StripMarkers(linesB))
  }

  /** What `compute_diff` returns when every sentinel's page number parses. */
  function Diff(linesA: seq<string>, linesB: seq<string>,
                lineMatcher: (seq<string>, seq<string>) -> seq<Opcode>,
                wordMatcher: (seq<string>, seq<string>) -> seq<Opcode>): DiffResult
    requires MarkersParse(linesA) && MarkersParse(linesB)
    requires IsMatcher(lineMatcher) && IsMatcher(wordMatcher)
  {
    var ops := LineOps(linesA, linesB, lineMatcher);
    DiffResult(BlocksUpTo(ops, SideOf(linesA), SideOf(linesB), wordMatcher, |ops|), StatsUpTo(ops, |ops|))
  }

  /** The loop body of `compute_diff` that builds the block for one opcode (app.py:193-218). */
  method MakeBlock(op: Opcode, sa: Side, sb: Side, wordMatcher: (seq<string>, seq<string>) -> seq<Opcode>)
    returns (block: Block)
    requires SideOk(sa) && SideOk(sb) && IsMatcher(wordMatcher)
    requires op.i1 <= op.i2 <= |sa.text| && op.j1 <= op.j2 <= |sb.text|
    ensures block == BlockFor(op, sa, sb, wordMatcher)
  {
    var left := sa.text[op.i1..op.i2];
    var right := sb.text[op.j1..op.j2];
    var wordDiffs: Option<seq<LinePair>> := None;
    if op.tag == Replace {
      var wd := ComputeWordDiffs(left, right, wordMatcher);
      wordDiffs := Some(wd);
    }
    var leftPage := if op.i1 < |sa.pos| then Some(sa.pages[sa.pos[op.i1]]) else None;
    var rightPage := if op.j1 < |sb.pos| then Some(sb.pages[sb.pos[op.j1]]) else None;
    block := Block(op.tag, op.i1, op.i2, op.j1, op.j2, left, right, leftPage, rightPage, wordDiffs);
  }

  /** One opcode's contribution to the running counts (app.py:221-228). */
  method CountOp(stats: Stats, op: Opcode) returns (next: Stats)
    requires op.i1 <= op.i2 && op.j1 <= op.j2
    ensures next == Add(stats, OpStats(op))
  {
    match op.tag {
      case Equal => next := stats.(equal := stats.equal + (op.i2 - op.i1));
      case Insert => next := stats.(insert := stats.insert + (op.j2 - op.j1));
      case Delete => next := stats.(delete := stats.delete + (op.i2 - op.i1));
      case Replace => next := stats.(replace := stats.replace + Max(op.i2 - op.i1, op.j2 - op.j1));
    }
  }

  /** The opcode loop of `compute_diff` (app.py:192-228): one block per opcode, and the counts. */
  method ProcessOpcodes(ops: seq<Opcode>, sa: Side, sb: Side, wordMatcher: (seq<string>, seq<string>) -> seq<Opcode>)
    returns (blocks: seq<Block>, stats: Stats)
    requires SideOk(sa) && SideOk(sb) && IsMatcher(wordMatcher)
    requires WellFormed(ops, sa.text, sb.text)
    ensures blocks == BlocksUpTo(ops, sa, sb, wordMatcher, |ops|)
    ensures stats == StatsUpTo(ops, |ops|)
  {
    blocks := [];
    stats := Stats(0, 0, 0, 0);
    for k := 0 to |ops|
      invariant blocks == BlocksUpTo(ops, sa, sb, wordMatcher, k)
      invariant stats == StatsUpTo(ops, k)
    {
      var op := ops[k];
      assert Fits(op, sa.text, sb.text);
      var block := MakeBlock(op, sa, sb, wordMatcher);
      blocks := blocks + [block];
      stats := CountOp(stats, op);
    }
  }

  /**
   * `compute_diff`: index the pages, strip the sentinels, and turn each opcode into a block while
   * counting lines. `None` when a sentinel's page number does not parse (`int` raises).
   */
  method ComputeDiff(linesA: seq<string>, linesB: seq<string>,
                     lineMatcher: (seq<string>, seq<string>) -> seq<Opcode>,
                     wordMatcher: (seq<string>, seq<string>) -> seq<Opcode>)
    returns (r: Option<DiffResult>)
    requires IsMatcher(lineMatcher) && IsMatcher(wordMatcher)
    ensures r.None? <==> !(MarkersParse(linesA) && MarkersParse(linesB))
    ensures r.Some? ==> r.value == Diff(linesA, linesB, lineMatcher, wordMatcher)
  {
    var pageIndexA := BuildPageIndex(linesA);
    if pageIndexA.None? {
      return None;
    }
    var pageIndexB := BuildPageIndex(linesB);
    if pageIndexB.None? {
      return None;
    }
    assert pageIndexA.value == PageIndex(linesA);
    assert pageIndexB.value == PageIndex(linesB);
    var sa := Side(StripMarkers(linesA), ContentPositions(linesA), pageIndexA.value);
    var sb := Side(StripMarkers(linesB), ContentPositions(linesB), pageIndexB.value);
    assert sa == SideOf(linesA) && sb == SideOf(linesB);
    var ops := lineMatcher(sa.text, sb.text);
    assert ops == LineOps(linesA, linesB, lineMatcher);
    var blocks, stats := ProcessOpcodes(ops, sa, sb, wordMatcher);
    r := Some(DiffResult(blocks, stats));
  }

  // ---------------------------------------------------------------------------
  // Properties of the blocks and the statistics
  // ---------------------------------------------------------------------------

  /** Block `i` is the block of opcode `i`. */
  lemma {:induction false} BlocksAt(ops: seq<Opcode>, sa: Side, sb: Side,
                                    wordMatcher: (seq<string>, seq<string>) -> seq<Opcode>, k: nat, i: nat)
    requires SideOk(sa) && SideOk(sb) && IsMatcher(wordMatcher)
    requires WellFormed(ops, sa.text, sb.text) && i < k <= |ops|
    ensures Fits(ops[i], sa.text, sb.text)
    ensures BlocksUpTo(ops, sa, sb, wordMatcher, k)[i] == BlockFor(ops[i], sa, sb, wordMatcher)
  {
    if i < k - 1 {
      BlocksAt(ops, sa, sb, wordMatcher, k - 1, i);
    }
  }

  /** The left lines of the first `k` blocks, concatenated. */
  function LeftLinesUpTo(blocks: seq<Block>, k: nat): seq<string>
    requires k <= |blocks|
  {
    if k == 0 then [] else LeftLinesUpTo(blocks, k - 1) + blocks[k - 1].leftLines
  }

  /** The right lines of the first `k` blocks, concatenated. */
  function RightLinesUpTo(blocks: seq<Block>, k: nat): seq<string>
    requires k <= |blocks|
  {
    if k == 0 then [] else RightLinesUpTo(blocks, k - 1) + blocks[k - 1].rightLines
  }

  /** Concatenating the first `k` blocks only looks at those blocks. */
  lemma {:induction false} LinesUpToPrefix(blocks: seq<Block>, more: seq<Block>, k: nat)
    requires k <= |blocks|
    ensures LeftLinesUpTo(blocks + more, k) == LeftLinesUpTo(blocks, k)
    ensures RightLinesUpTo(blocks + more, k) == RightLinesUpTo(blocks, k)
  {
    if k > 0 {
      LinesUpToPrefix(blocks, more, k - 1);
      assert (blocks + more)[k - 1] == blocks[k - 1];
    }
  }

  /** One more block extends the concatenated lines by that block's own lines. */
  lemma {:induction false} LinesStep(prev: seq<Block>, block: Block, a: seq<string>, b: seq<string>, op: Opcode)
    requires op.i1 <= op.i2 <= |a| && op.j1 <= op.j2 <= |b|
    requires block.leftLines == a[op.i1..op.i2] && block.rightLines == b[op.j1..op.j2]
    requires LeftLinesUpTo(prev, |prev|) == a[..op.i1] && RightLinesUpTo(prev, |prev|) == b[..op.j1]
    ensures LeftLinesUpTo(prev + [block], |prev| + 1) == a[..op.i2]
    ensures RightLinesUpTo(prev + [block], |prev| + 1) == b[..op.j2]
  {
    LinesUpToAppend(prev, block);
    TakeSplit(a, op.i1, op.i2);
    TakeSplit(b, op.j1, op.j2);
  }

  /** Appending one block appends its lines. */
  lemma {:induction false} LinesUpToAppend(prev: seq<Block>, block: Block)
    ensures LeftLinesUpTo(prev + [block], |prev| + 1) == LeftLinesUpTo(prev, |prev|) + block.leftLines
    ensures RightLinesUpTo(prev + [block], |prev| + 1) == RightLinesUpTo(prev, |prev|) + block.rightLines
  {
    var all := prev + [block];
    LinesUpToPrefix(prev, [block], |prev|);
    assert all[|prev|] == block;
    assert LeftLinesUpTo(all, |prev| + 1) == LeftLinesUpTo(all, |prev|) + all[|prev|].leftLines;
    assert RightLinesUpTo(all, |prev| + 1) == RightLinesUpTo(all, |prev|) + all[|prev|].rightLines;
  }

  /** The first `k` blocks hold exactly the content lines before opcode `k`, on each side. */
  lemma {:induction false} LinesUpTo(ops: seq<Opcode>, sa: Side, sb: Side,
                                     wordMatcher: (seq<string>, seq<string>) -> seq<Opcode>, k: nat)
    requires SideOk(sa) && SideOk(sb) && IsMatcher(wordMatcher)
    requires WellFormed(ops, sa.text, sb.text) && k <= |ops|
    ensures LeftPos(ops, k) <= |sa.text| && RightPos(ops, k) <= |sb.text|
    ensures LeftLinesUpTo(BlocksUpTo(ops, sa, sb, wordMatcher, k), k) == sa.text[..LeftPos(ops, k)]
    ensures RightLinesUpTo(BlocksUpTo(ops, sa, sb, wordMatcher, k), k) == sb.text[..RightPos(ops, k)]
  {
    if k > 0 {
      LinesUpTo(ops, sa, sb, wordMatcher, k - 1);
      PosStep(ops, sa.text, sb.text, k - 1);
      var op := ops[k - 1];
      var prev := BlocksUpTo(ops, sa, sb, wordMatcher, k - 1);
      var block := BlockFor(op, sa, sb, wordMatcher);
      assert BlocksUpTo(ops, sa, sb, wordMatcher, k) == prev + [block];
      LinesStep(prev, block, sa.text, sb.text, op);
    }
  }

  /**
   * The blocks lose and invent nothing: their left lines, in order, are exactly the left
   * document's lines without sentinels, and likewise on the right.
   */
  lemma {:induction false} BlocksReconstruct(linesA: seq<string>, linesB: seq<string>,
                          lineMatcher: (seq<string>, seq<string>) -> seq<Opcode>,
                          wordMatcher: (seq<string>, seq<string>) -> seq<Opcode>)
    requires MarkersParse(linesA) && MarkersParse(linesB)
    requires IsMatcher(lineMatcher) && IsMatcher(wordMatcher)
    ensures var blocks := Diff(linesA, linesB, lineMatcher, wordMatcher).blocks;
      && LeftLinesUpTo(blocks, |blocks|) == StripMarkers(linesA)
      && RightLinesUpTo(blocks, |blocks|) == StripMarkers(linesB)
  {
    var ops := LineOps(linesA, linesB, lineMatcher);
    var sa, sb := SideOf(linesA), SideOf(linesB);
    LinesUpTo(ops, sa, sb, wordMatcher, |ops|);
    assert sa.text[..|sa.text|] == sa.text;
    assert sb.text[..|sb.text|] == sb.text;
  }

  /**
   * A block's left page is `None` exactly when it starts after the last left content line;
   * otherwise it is the page in effect at the original position of content line `leftStart`
   * (a position that holds that very line). Likewise on the right.
   */
  lemma {:induction false} BlockPages(linesA: seq<string>, linesB: seq<string>,
                   lineMatcher: (seq<string>, seq<string>) -> seq<Opcode>,
                   wordMatcher: (seq<string>, seq<string>) -> seq<Opcode>, k: nat)
    requires MarkersParse(linesA) && MarkersParse(linesB)
    requires IsMatcher(lineMatcher) && IsMatcher(wordMatcher)
    requires k < |LineOps(linesA, linesB, lineMatcher)|
    ensures var b := Diff(linesA, linesB, lineMatcher, wordMatcher).blocks[k];
      var cpA, cpB := ContentPositions(linesA), ContentPositions(linesB);
      && (b.leftPage.None? <==> b.leftStart >= |StripMarkers(linesA)|)
      && (b.leftStart < |cpA| ==> b.leftPage == Some(PageAt(linesA, cpA[b.leftStart]))
                                  && linesA[cpA[b.leftStart]] == StripMarkers(linesA)[b.leftStart])
      && (b.rightPage.None? <==> b.rightStart >= |StripMarkers(linesB)|)
      && (b.rightStart < |cpB| ==> b.rightPage == Some(PageAt(linesB, cpB[b.rightStart]))
                                   && linesB[cpB[b.rightStart]] == StripMarkers(linesB)[b.rightStart])
  {
    var ops := LineOps(linesA, linesB, lineMatcher);
    var sa, sb := SideOf(linesA), SideOf(linesB);
    BlocksAt(ops, sa, sb, wordMatcher, |ops|, k);
  }

  /** Replaced blocks, and only they, carry word diffs: one per line of their longer side. */
  lemma {:induction false} BlockWordDiffs(linesA: seq<string>, linesB: seq<string>,
                       lineMatcher: (seq<string>, seq<string>) -> seq<Opcode>,
                       wordMatcher: (seq<string>, seq<string>) -> seq<Opcode>, k: nat)
    requires MarkersParse(linesA) && MarkersParse(linesB)
    requires IsMatcher(lineMatcher) && IsMatcher(wordMatcher)
    requires k < |LineOps(linesA, linesB, lineMatcher)|
    ensures var b := Diff(linesA, linesB, lineMatcher, wordMatcher).blocks[k];
      && (b.wordDiffs.Some? <==> b.tag == Replace)
      && (b.wordDiffs.Some? ==> |b.wordDiffs.value| == Max(|b.leftLines|, |b.rightLines|))
  {
    var ops := LineOps(linesA, linesB, lineMatcher);
    BlocksAt(ops, SideOf(linesA), SideOf(linesB), wordMatcher, |ops|, k);
  }

  /** Counted per side, the statistics cover at least all the lines passed so far. */
  lemma {:induction false} StatsCoverUpTo(ops: seq<Opcode>, a: seq<string>, b: seq<string>, k: nat)
    requires WellFormed(ops, a, b) && k <= |ops|
    ensures var s := StatsUpTo(ops, k);
      && s.equal + s.delete + s.replace >= LeftPos(ops, k)
      && s.equal + s.insert + s.replace >= RightPos(ops, k)
  {
    if k > 0 {
      StatsCoverUpTo(ops, a, b, k - 1);
      PosStep(ops, a, b, k - 1);
    }
  }

  /**
   * `equal + delete + replace` is at least the number of left content lines and
   * `equal + insert + replace` at least the number of right ones.
   */
  lemma {:induction false} StatsCover(linesA: seq<string>, linesB: seq<string>,
                   lineMatcher: (seq<string>, seq<string>) -> seq<Opcode>,
                   wordMatcher: (seq<string>, seq<string>) -> seq<Opcode>)
    requires MarkersParse(linesA) && MarkersParse(linesB)
    requires IsMatcher(lineMatcher) && IsMatcher(wordMatcher)
    ensures var s := Diff(linesA, linesB, lineMatcher, wordMatcher).stats;
      && s.equal + s.delete + s.replace >= |StripMarkers(linesA)|
      && s.equal + s.insert + s.replace >= |StripMarkers(linesB)|
  {
    var ops := LineOps(linesA, linesB, lineMatcher);
    StatsCoverUpTo(ops, StripMarkers(linesA), StripMarkers(linesB), |ops|);
  }

  /** The simple prefix/suffix matcher always answers with a well-formed script. */
  lemma {:induction false} TrimIsMatcher()
    ensures IsMatcher(TrimMatcher)
  {
    forall x, y
      ensures WellFormed(TrimMatcher(x, y), x, y)
    {
      TrimMatcherWellFormed(x, y);
    }
  }

  /** For ["A", "B", "C"] against ["A", "X", "C"] the simple matcher keeps A and C and replaces B. */
  lemma {:induction false} TrimExample()
    ensures TrimMatcher(["A", "B", "C"], ["A", "X", "C"])
            == [Opcode(Equal, 0, 1, 0, 1), Opcode(Replace, 1, 2, 1, 2), Opcode(Equal, 2, 3, 2, 3)]
  {
    var a: seq<string>, b: seq<string> := ["A", "B", "C"], ["A", "X", "C"];
    assert a[..0] == b[..0];
    assert a[1] != b[1];
    assert CommonPrefix(a, b, 1) == 1;
    assert CommonPrefix(a, b, 0) == 1;
    assert a[|a| - 0..] == b[|b| - 0..];
    assert a[|a| - 1..] == b[|b| - 1..];
    assert CommonSuffix(a, b, 2, 1) == 1;
    assert CommonSuffix(a, b, 2, 0) == 1;
  }

  /**
   * The basic comparison: "A", "B", "C" against "A", "X", "C", each after a page-1 sentinel.
   * With the simple matcher, two lines are unchanged, one is modified, and the middle block is
   * a replacement.
   */
  lemma {:induction false} BasicDiffExample(a: seq<string>, b: seq<string>)
    requires a == [MarkerFor(1), "A", "B", "C"] && b == [MarkerFor(1), "A", "X", "C"]
    ensures MarkersParse(a) && MarkersParse(b) && IsMatcher(TrimMatcher)
    ensures Diff(a, b, TrimMatcher, TrimMatcher).stats == Stats(2, 0, 0, 1)
    ensures |Diff(a, b, TrimMatcher, TrimMatcher).blocks| == 3
    ensures Diff(a, b, TrimMatcher, TrimMatcher).blocks[1].tag == Replace
  {
    TrimIsMatcher();
    SentinelThenText(a);
    SentinelThenText(b);
    DiffOfTexts(a, b);
  }

  /** The same comparison for any two documents whose content lines are those texts. */
  lemma {:induction false} DiffOfTexts(a: seq<string>, b: seq<string>)
    requires MarkersParse(a) && MarkersParse(b) && IsMatcher(TrimMatcher)
    requires StripMarkers(a) == ["A", "B", "C"] && StripMarkers(b) == ["A", "X", "C"]
    ensures Diff(a, b, TrimMatcher, TrimMatcher).stats == Stats(2, 0, 0, 1)
    ensures |Diff(a, b, TrimMatcher, TrimMatcher).blocks| == 3
    ensures Diff(a, b, TrimMatcher, TrimMatcher).blocks[1].tag == Replace
  {
    TrimExample();
    var ops := LineOps(a, b, TrimMatcher);
    var o0, o1, o2 := Opcode(Equal, 0, 1, 0, 1), Opcode(Replace, 1, 2, 1, 2), Opcode(Equal, 2, 3, 2, 3);
    ExampleStats(o0, o1, o2);
    assert ops == [o0, o1, o2];
    BlocksAt(ops, SideOf(a), SideOf(b), TrimMatcher, 3, 1);
  }

  /** The statistics of the example's script: two unchanged lines and one replaced line. */
  lemma {:induction false} ExampleStats(o0: Opcode, o1: Opcode, o2: Opcode)
    requires o0.tag == Equal && o0.i1 == 0 && o0.i2 == 1 && o0.j1 == 0 && o0.j2 == 1
    requires o1.tag == Replace && o1.i1 == 1 && o1.i2 == 2 && o1.j1 == 1 && o1.j2 == 2
    requires o2.tag == Equal && o2.i1 == 2 && o2.i2 == 3 && o2.j1 == 2 && o2.j2 == 3
    ensures Forward([o0, o1, o2]) && StatsUpTo([o0, o1, o2], 3) == Stats(2, 0, 0, 1)
  {
    OneEqualLine(o0);
    OneReplacedLine(o1);
    OneEqualLine(o2);
    StatsOfThree(o0, o1, o2);
    ExampleSum(OpStats(o0), OpStats(o1), OpStats(o2));
  }

  /** A one-line `equal` opcode counts one unchanged line. */
  lemma {:induction false} OneEqualLine(op: Opcode)
    requires op.tag == Equal && op.i1 + 1 == op.i2 && op.j1 + 1 == op.j2
    ensures OpStats(op) == Stats(1, 0, 0, 0)
  {
  }

  /** A one-line `replace` opcode counts one modified line. */
  lemma {:induction false} OneReplacedLine(op: Opcode)
    requires op.tag == Replace && op.i1 + 1 == op.i2 && op.j1 + 1 == op.j2
    ensures OpStats(op) == Stats(0, 0, 0, 1)
  {
  }

  /** The example's contributions added up. */
  lemma {:induction false} ExampleSum(x: Stats, y: Stats, z: Stats)
    requires x == Stats(1, 0, 0, 0) && y == Stats(0, 0, 0, 1) && z == Stats(1, 0, 0, 0)
    ensures Add(Add(x, y), z) == Stats(2, 0, 0, 1)
  {
  }

  /** The statistics of a three-opcode script, opcode by opcode. */
  lemma {:induction false} StatsOfThree(o0: Opcode, o1: Opcode, o2: Opcode)
    requires o0.i1 <= o0.i2 && o0.j1 <= o0.j2 && o1.i1 <= o1.i2 && o1.j1 <= o1.j2
    requires o2.i1 <= o2.i2 && o2.j1 <= o2.j2
    ensures Forward([o0, o1, o2])
    ensures StatsUpTo([o0, o1, o2], 3) == Add(Add(OpStats(o0), OpStats(o1)), OpStats(o2))
  {
    var ops := [o0, o1, o2];
    assert Forward(ops) by {
      forall i | 0 <= i < |ops|
        ensures ops[i].i1 <= ops[i].i2 && ops[i].j1 <= ops[i].j2
      {
        assert i == 0 || i == 1 || i == 2;
      }
    }
    assert StatsUpTo(ops, 1) == OpStats(o0);
    assert StatsUpTo(ops, 2) == Add(OpStats(o0), OpStats(o1));
    assert StatsUpTo(ops, 3) == Add(StatsUpTo(ops, 2), OpStats(o2));
  }

  /** A page-1 sentinel followed by three ordinary lines: it parses and stripping drops just it. */
  lemma {:induction false} SentinelThenText(lines: seq<string>)
    requires |lines| == 4 && lines[0] == MarkerFor(1)
    requires |lines[1]| == |lines[2]| == |lines[3]| == 1
    requires lines[1][0] != '\0' && lines[2][0] != '\0' && lines[3][0] != '\0'
    ensures MarkersParse(lines) && StripMarkers(lines) == lines[1..]
  {
    MarkerRoundTrip(1);
    NotMarkerByFirstChar(lines[1]);
    NotMarkerByFirstChar(lines[2]);
    NotMarkerByFirstChar(lines[3]);
    ParsesStep(lines, 0);
    ParsesStep(lines, 1);
    ParsesStep(lines, 2);
    ParsesStep(lines, 3);
    StripStep(lines, 1);
    StripStep(lines, 2);
    StripStep(lines, 3);
    StripStep(lines, 4);
    assert lines[..0] == [] && lines[..4] == lines;
    assert lines[1..] == [lines[1], lines[2], lines[3]];
  }

  lemma {:induction false} StripStep(lines: seq<string>, n: nat)
    requires 0 < n <= |lines|
    ensures StripMarkers(lines[..n])
            == StripMarkers(lines[..n - 1]) + (if IsPageMarker(lines[n - 1]) then [] else [lines[n - 1]])
  {
    assert lines[..n][..n - 1] == lines[..n - 1];
  }
}
