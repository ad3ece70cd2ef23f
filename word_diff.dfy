/**
 * `compute_word_diffs` (app.py:233-272): inside a replaced block, lines are paired by position
 * (the shorter side padded with empty lines), each pair is split into words, the words are
 * matched, and each word opcode becomes a tagged span on the left, the right, or both.
 */
module WordDiff {
  import opened Text
  import opened Opcodes

  /** A run of words and how it is shown: `Equal` or `Delete` on the left, `Equal` or `Insert` on the right. */
  datatype Span = Span(text: string, tag: Tag)

  /** The spans of one line pair. */
  datatype LinePair = LinePair(leftSpans: seq<Span>, rightSpans: seq<Span>)

  /** A word matcher whose every answer is a well-formed script for the word lists it is given. */
  ghost predicate IsMatcher(matcher: (seq<string>, seq<string>) -> seq<Opcode>) {
    forall x, y :: WellFormed(matcher(x, y), x, y)
  }

  /** The span a word opcode adds on the left (app.py:259-269). */
  function LeftSpan(op: Opcode, lw: seq<string>): (s: seq<Span>)
    requires op.i1 <= op.i2 <= |lw|
    ensures |s| <= 1
  {
    match op.tag
    case Equal => [Span(Join(lw[op.i1..op.i2]), Equal)]
    case Delete => [Span(Join(lw[op.i1..op.i2]), Delete)]
    case Insert => []
    case Replace => [Span(Join(lw[op.i1..op.i2]), Delete)]
  }

  /** The span a word opcode adds on the right; an `Equal` span reuses the left words' text. */
  function RightSpan(op: Opcode, lw: seq<string>, rw: seq<string>): (s: seq<Span>)
    requires op.i1 <= op.i2 <= |lw| && op.j1 <= op.j2 <= |rw|
    ensures |s| <= 1
  {
    match op.tag
    case Equal => [Span(Join(lw[op.i1..op.i2]), Equal)]
    case Delete => []
    case Insert => [Span(Join(rw[op.j1..op.j2]), Insert)]
    case Replace => [Span(Join(rw[op.j1..op.j2]), Insert)]
  }

  /** The left spans of the first `k` opcodes, in order. */
  function LeftSpans(ops: seq<Opcode>, lw: seq<string>, rw: seq<string>, k: nat): seq<Span>
    requires Bounded(ops, lw, rw) && k <= |ops|
  {
    if k == 0 then [] else LeftSpans(ops, lw, rw, k - 1) + LeftSpan(ops[k - 1], lw)
  }

  /** The right spans of the first `k` opcodes, in order. */
  function RightSpans(ops: seq<Opcode>, lw: seq<string>, rw: seq<string>, k: nat): seq<Span>
    requires Bounded(ops, lw, rw) && k <= |ops|
  {
    if k == 0 then [] else RightSpans(ops, lw, rw, k - 1) + RightSpan(ops[k - 1], lw, rw)
  }

  /** The spans of one line pair, as the word matcher's opcodes for the two word lists dictate. */
  function Refine(left: string, right: string, matcher: (seq<string>, seq<string>) -> seq<Opcode>): LinePair
    requires IsMatcher(matcher)
  {
    var lw, rw := Split(left), Split(right);
    var ops := matcher(lw, rw);
    assert WellFormed(ops, lw, rw);
    WellFormedTiles(ops, lw, rw);
    LinePair(LeftSpans(ops, lw, rw, |ops|), RightSpans(ops, lw, rw, |ops|))
  }

  /** The inner loop of `compute_word_diffs`: one line pair, one pass over the word opcodes. */
  method PairSpans(left: string, right: string, matcher: (seq<string>, seq<string>) -> seq<Opcode>)
    returns (pair: LinePair)
    requires IsMatcher(matcher)
    ensures pair == Refine(left, right, matcher)
  {
    var leftWords := Split(left);
    var rightWords := Split(right);
    var ops := matcher(leftWords, rightWords);
    assert WellFormed(ops, leftWords, rightWords);
    WellFormedBounded(ops, leftWords, rightWords);
    var leftSpans: seq<Span> := [];
    var rightSpans: seq<Span> := [];
    for k := 0 to |ops|
      invariant leftSpans == LeftSpans(ops, leftWords, rightWords, k)
      invariant rightSpans == RightSpans(ops, leftWords, rightWords, k)
    {
      var op := ops[k];
      BoundedAt(ops, leftWords, rightWords, k);
      assert LeftSpans(ops, leftWords, rightWords, k + 1) == leftSpans + LeftSpan(op, leftWords);
      assert RightSpans(ops, leftWords, rightWords, k + 1) == rightSpans + RightSpan(op, leftWords, rightWords);
      match op.tag {
        case Equal =>
          var text := Join(leftWords[op.i1..op.i2]);
          leftSpans := leftSpans + [Span(text, Equal)];
          rightSpans := rightSpans + [Span(text, Equal)];
        case Delete =>
          leftSpans := leftSpans + [Span(Join(leftWords[op.i1..op.i2]), Delete)];
        case Insert =>
          rightSpans := rightSpans + [Span(Join(rightWords[op.j1..op.j2]), Insert)];
        case Replace =>
          leftSpans := leftSpans + [Span(Join(leftWords[op.i1..op.i2]), Delete)];
          rightSpans := rightSpans + [Span(Join(rightWords[op.j1..op.j2]), Insert)];
      }
    }
    pair := LinePair(leftSpans, rightSpans);
  }

  function Max(a: nat, b: nat): nat {
    if a < b then b else a
  }

  /** Line `i` of a side, or the empty line once that side has run out. */
  function LineOr(lines: seq<string>, i: nat): string {
    if i < |lines| then lines[i] else ""
  }

  /** The word diffs of a replaced block: one entry per position of the longer side. */
  function WordDiffs(leftLines: seq<string>, rightLines: seq<string>, matcher: (seq<string>, seq<string>) -> seq<Opcode>): seq<LinePair>
    requires IsMatcher(matcher)
  {
    seq(Max(|leftLines|, |rightLines|),
        i requires 0 <= i => Refine(LineOr(leftLines, i), LineOr(rightLines, i), matcher))
  }

  /** `compute_word_diffs`: pairs the lines by position and refines each pair. */
  method ComputeWordDiffs(leftLines: seq<string>, rightLines: seq<string>, matcher: (seq<string>, seq<string>) -> seq<Opcode>)
    returns (result: seq<LinePair>)
    requires IsMatcher(matcher)
    ensures |result| == Max(|leftLines|, |rightLines|)
    ensures forall i :: 0 <= i < |result| ==>
              result[i] == Refine(LineOr(leftLines, i), LineOr(rightLines, i), matcher)
    ensures result == WordDiffs(leftLines, rightLines, matcher)
  {
    result := [];
    var maxLen := Max(|leftLines|, |rightLines|);
    for i := 0 to maxLen
      invariant |result| == i
      invariant forall k :: 0 <= k < i ==> result[k] == Refine(LineOr(leftLines, k), LineOr(rightLines, k), matcher)
    {
      var left := if i < |leftLines| then leftLines[i] else "";
      var right := if i < |rightLines| then rightLines[i] else "";
      var pair := PairSpans(left, right, matcher);
      assert pair == Refine(LineOr(leftLines, i), LineOr(rightLines, i), matcher);
      result := result + [pair];
    }
    WordDiffsOf(result, leftLines, rightLines, matcher);
  }

  /** A list with one refined pair per position of the longer side is the word diffs. */
  lemma {:induction false} WordDiffsOf(r: seq<LinePair>, leftLines: seq<string>, rightLines: seq<string>,
                                       matcher: (seq<string>, seq<string>) -> seq<Opcode>)
    requires IsMatcher(matcher)
    requires |r| == Max(|leftLines|, |rightLines|)
    requires forall i :: 0 <= i < |r| ==> r[i] == Refine(LineOr(leftLines, i), LineOr(rightLines, i), matcher)
    ensures r == WordDiffs(leftLines, rightLines, matcher)
  {
  }

  // ---------------------------------------------------------------------------
  // Properties of the spans
  // ---------------------------------------------------------------------------

  /** The texts of the spans, in order. */
  function Texts(spans: seq<Span>): (ts: seq<string>)
    ensures |ts| == |spans|
  {
    TextsUpTo(spans, |spans|)
  }

  /** The texts of the first `n` spans. */
  function TextsUpTo(spans: seq<Span>, n: nat): (ts: seq<string>)
    requires n <= |spans|
    ensures |ts| == n
  {
    if n == 0 then [] else TextsUpTo(spans, n - 1) + [spans[n - 1].text]
  }

  lemma {:induction false} TextsUpToPrefix(spans: seq<Span>, more: seq<Span>, n: nat)
    requires n <= |spans|
    ensures TextsUpTo(spans + more, n) == TextsUpTo(spans, n)
  {
    if n > 0 {
      TextsUpToPrefix(spans, more, n - 1);
      assert (spans + more)[n - 1] == spans[n - 1];
    }
  }

  lemma {:induction false} TextsAppend(spans: seq<Span>, more: seq<Span>)
    requires |more| <= 1
    ensures Texts(spans + more) == Texts(spans) + Texts(more)
  {
    TextsUpToPrefix(spans, more, |spans|);
    if |more| == 1 {
      assert (spans + more)[|spans|] == more[0];
      assert TextsUpTo(more, 0) == [];
    } else {
      assert spans + more == spans;
    }
  }

  /** The texts of the `Equal` spans, in order. */
  function EqualTexts(spans: seq<Span>): seq<string> {
    EqualTextsUpTo(spans, |spans|)
  }

  /** The texts of the `Equal` spans among the first `n`. */
  function EqualTextsUpTo(spans: seq<Span>, n: nat): seq<string>
    requires n <= |spans|
  {
    if n == 0 then []
    else EqualTextsUpTo(spans, n - 1) + (if spans[n - 1].tag == Equal then [spans[n - 1].text] else [])
  }

  lemma {:induction false} EqualTextsUpToPrefix(spans: seq<Span>, more: seq<Span>, n: nat)
    requires n <= |spans|
    ensures EqualTextsUpTo(spans + more, n) == EqualTextsUpTo(spans, n)
  {
    if n > 0 {
      EqualTextsUpToPrefix(spans, more, n - 1);
      assert (spans + more)[n - 1] == spans[n - 1];
    }
  }

  lemma {:induction false} EqualTextsAppend(spans: seq<Span>, more: seq<Span>)
    requires |more| <= 1
    ensures EqualTexts(spans + more) == EqualTexts(spans) + EqualTexts(more)
  {
    EqualTextsUpToPrefix(spans, more, |spans|);
    if |more| == 1 {
      assert (spans + more)[|spans|] == more[0];
      assert EqualTextsUpTo(more, 0) == [];
    } else {
      assert spans + more == spans;
    }
  }

  /** Every span is shown as `Equal` or as `other`. */
  predicate TaggedOr(spans: seq<Span>, other: Tag) {
    forall s :: s in spans ==> s.tag == Equal || s.tag == other
  }

  lemma {:induction false} TaggedAppend(spans: seq<Span>, more: seq<Span>, other: Tag)
    requires TaggedOr(spans, other) && TaggedOr(more, other)
    ensures TaggedOr(spans + more, other)
  {
  }

  /** Left spans are only ever `Equal` or `Delete`, right spans only `Equal` or `Insert`. */
  lemma {:induction false} SpanTags(ops: seq<Opcode>, lw: seq<string>, rw: seq<string>, k: nat)
    requires Bounded(ops, lw, rw) && k <= |ops|
    ensures TaggedOr(LeftSpans(ops, lw, rw, k), Delete)
    ensures TaggedOr(RightSpans(ops, lw, rw, k), Insert)
  {
    if k > 0 {
      SpanTags(ops, lw, rw, k - 1);
      BoundedAt(ops, lw, rw, k - 1);
      var op := ops[k - 1];
      assert TaggedOr(LeftSpan(op, lw), Delete);
      assert TaggedOr(RightSpan(op, lw, rw), Insert);
      TaggedAppend(LeftSpans(ops, lw, rw, k - 1), LeftSpan(op, lw), Delete);
      TaggedAppend(RightSpans(ops, lw, rw, k - 1), RightSpan(op, lw, rw), Insert);
    }
  }

  /** Every `Equal` span appears on both sides, with the same text and in the same order. */
  lemma {:induction false} EqualSpansAgree(ops: seq<Opcode>, lw: seq<string>, rw: seq<string>, k: nat)
    requires Bounded(ops, lw, rw) && k <= |ops|
    ensures SameEqualTexts(LeftSpans(ops, lw, rw, k), RightSpans(ops, lw, rw, k))
  {
    if k > 0 {
      EqualSpansAgree(ops, lw, rw, k - 1);
      EqualSpansStep(ops, lw, rw, k);
    }
  }

  lemma {:induction false} EqualSpansStep(ops: seq<Opcode>, lw: seq<string>, rw: seq<string>, k: nat)
    requires Bounded(ops, lw, rw) && 0 < k <= |ops|
    requires SameEqualTexts(LeftSpans(ops, lw, rw, k - 1), RightSpans(ops, lw, rw, k - 1))
    ensures SameEqualTexts(LeftSpans(ops, lw, rw, k), RightSpans(ops, lw, rw, k))
  {
    BoundedAt(ops, lw, rw, k - 1);
    var op := ops[k - 1];
    OpEqualTexts(op, lw, rw);
    EqualTextsCongruent(LeftSpans(ops, lw, rw, k - 1), LeftSpan(op, lw),
                        RightSpans(ops, lw, rw, k - 1), RightSpan(op, lw, rw));
  }

  /** Appending spans with the same `Equal` texts to lists with the same `Equal` texts keeps them the same. */
  lemma {:induction false} EqualTextsCongruent(left: seq<Span>, more: seq<Span>, right: seq<Span>, moreRight: seq<Span>)
    requires |more| <= 1 && |moreRight| <= 1
    requires SameEqualTexts(left, right) && SameEqualTexts(more, moreRight)
    ensures SameEqualTexts(left + more, right + moreRight)
  {
    EqualTextsAppend(left, more);
    EqualTextsAppend(right, moreRight);
  }

  /** Two span lists whose `Equal` spans carry the same texts in the same order. */
  predicate SameEqualTexts(left: seq<Span>, right: seq<Span>) {
    EqualTexts(left) == EqualTexts(right)
  }

  /** One opcode contributes the same `Equal` texts to both sides. */
  lemma {:induction false} OpEqualTexts(op: Opcode, lw: seq<string>, rw: seq<string>)
    requires op.i1 <= op.i2 <= |lw| && op.j1 <= op.j2 <= |rw|
    ensures SameEqualTexts(LeftSpan(op, lw), RightSpan(op, lw, rw))
  {
    var l, r := LeftSpan(op, lw), RightSpan(op, lw, rw);
    assert |l| > 0 ==> EqualTextsUpTo(l, 0) == [];
    assert |r| > 0 ==> EqualTextsUpTo(r, 0) == [];
  }

  /** Joining the texts of a list with one more non-empty run of words joins all the words. */
  lemma {:induction false} JoinStep(texts: seq<string>, words: seq<string>, i1: nat, i2: nat)
    requires i1 < i2 <= |words|
    requires |texts| == 0 <==> i1 == 0
    requires Join(texts) == Join(words[..i1])
    ensures Join(texts + [Join(words[i1..i2])]) == Join(words[..i2])
  {
    if i1 == 0 {
      assert texts + [Join(words[i1..i2])] == [Join(words[i1..i2])];
      assert words[i1..i2] == words[..i2];
    } else {
      JoinAppend(texts, [Join(words[i1..i2])]);
      JoinAppend(words[..i1], words[i1..i2]);
      TakeSplit(words, i1, i2);
    }
  }

  /** The spans' texts, joined with spaces, are the first `pos` words joined with spaces. */
  predicate JoinedUpTo(spans: seq<Span>, words: seq<string>, pos: nat) {
    && pos <= |words|
    && (|spans| == 0 <==> pos == 0)
    && Join(Texts(spans)) == Join(words[..pos])
  }

  /** What one opcode adds on the left: nothing for an `Insert`, else its left words joined. */
  lemma {:induction false} LeftJoinStep(spans: seq<Span>, lw: seq<string>, pos: nat, op: Opcode)
    requires pos == op.i1 <= op.i2 <= |lw|
    requires if op.tag == Insert then op.i1 == op.i2 else op.i1 < op.i2
    requires JoinedUpTo(spans, lw, pos)
    ensures JoinedUpTo(spans + LeftSpan(op, lw), lw, op.i2)
  {
    var l := LeftSpan(op, lw);
    TextsAppend(spans, l);
    if op.tag == Insert {
      assert Texts(spans) + Texts(l) == Texts(spans);
    } else {
      assert TextsUpTo(l, 0) == [];
      assert Texts(l) == [Join(lw[op.i1..op.i2])];
      JoinStep(Texts(spans), lw, op.i1, op.i2);
    }
  }

  /** What one opcode adds on the right: nothing for a `Delete`, else its right words joined. */
  lemma {:induction false} RightJoinStep(spans: seq<Span>, lw: seq<string>, rw: seq<string>, pos: nat, op: Opcode)
    requires op.i1 <= op.i2 <= |lw| && pos == op.j1 <= op.j2 <= |rw|
    requires if op.tag == Delete then op.j1 == op.j2 else op.j1 < op.j2
    requires op.tag == Equal ==> lw[op.i1..op.i2] == rw[op.j1..op.j2]
    requires JoinedUpTo(spans, rw, pos)
    ensures JoinedUpTo(spans + RightSpan(op, lw, rw), rw, op.j2)
  {
    var r := RightSpan(op, lw, rw);
    TextsAppend(spans, r);
    if op.tag == Delete {
      assert Texts(spans) + Texts(r) == Texts(spans);
    } else {
      assert TextsUpTo(r, 0) == [];
      assert Texts(r) == [Join(rw[op.j1..op.j2])];
      JoinStep(Texts(spans), rw, op.j1, op.j2);
    }
  }

  /** The left spans of the first `k` opcodes, joined, are the left words they cover, joined. */
  lemma {:induction false} LeftSpansJoin(ops: seq<Opcode>, lw: seq<string>, rw: seq<string>, k: nat)
    requires LeftTiles(ops, lw, rw) && k <= |ops|
    ensures JoinedUpTo(LeftSpans(ops, lw, rw, k), lw, LeftPos(ops, k))
  {
    if k > 0 {
      LeftSpansJoin(ops, lw, rw, k - 1);
      LeftTilesAt(ops, lw, rw, k - 1);
      var prev, op := LeftSpans(ops, lw, rw, k - 1), ops[k - 1];
      assert LeftSpans(ops, lw, rw, k) == prev + LeftSpan(op, lw) && LeftPos(ops, k) == op.i2;
      LeftJoinStep(prev, lw, LeftPos(ops, k - 1), op);
    }
  }

  /** The right spans of the first `k` opcodes, joined, are the right words they cover, joined. */
  lemma {:induction false} RightSpansJoin(ops: seq<Opcode>, lw: seq<string>, rw: seq<string>, k: nat)
    requires RightTiles(ops, lw, rw) && EqualsMatch(ops, lw, rw) && k <= |ops|
    ensures JoinedUpTo(RightSpans(ops, lw, rw, k), rw, RightPos(ops, k))
  {
    if k > 0 {
      RightSpansJoin(ops, lw, rw, k - 1);
      EqualsMatchAt(ops, lw, rw, k - 1);
      RightTilesAt(ops, lw, rw, k - 1);
      var prev, op := RightSpans(ops, lw, rw, k - 1), ops[k - 1];
      assert RightSpans(ops, lw, rw, k) == prev + RightSpan(op, lw, rw) && RightPos(ops, k) == op.j2;
      RightJoinStep(prev, lw, rw, RightPos(ops, k - 1), op);
    }
  }

  /**
   * The spans of a line pair lose and invent nothing: joined with single spaces, each side's
   * span texts give that line with its whitespace collapsed.
   */
  lemma {:induction false} RefineReconstructs(left: string, right: string, matcher: (seq<string>, seq<string>) -> seq<Opcode>)
    requires IsMatcher(matcher)
    ensures Join(Texts(Refine(left, right, matcher).leftSpans)) == Collapse(left)
    ensures Join(Texts(Refine(left, right, matcher).rightSpans)) == Collapse(right)
  {
    var lw, rw := Split(left), Split(right);
    var ops := matcher(lw, rw);
    assert WellFormed(ops, lw, rw);
    WellFormedTiles(ops, lw, rw);
    LeftSpansJoin(ops, lw, rw, |ops|);
    RightSpansJoin(ops, lw, rw, |ops|);
    assert lw[..|lw|] == lw && rw[..|rw|] == rw;
  }

  /** The tags and the shared `Equal` spans of a line pair. */
  lemma {:induction false} RefineTags(left: string, right: string, matcher: (seq<string>, seq<string>) -> seq<Opcode>)
    requires IsMatcher(matcher)
    ensures var pair := Refine(left, right, matcher);
      && (forall s :: s in pair.leftSpans ==> s.tag == Equal || s.tag == Delete)
      && (forall s :: s in pair.rightSpans ==> s.tag == Equal || s.tag == Insert)
      && EqualTexts(pair.leftSpans) == EqualTexts(pair.rightSpans)
  {
    var lw, rw := Split(left), Split(right);
    var ops := matcher(lw, rw);
    assert WellFormed(ops, lw, rw);
    WellFormedTiles(ops, lw, rw);
    SpanTags(ops, lw, rw, |ops|);
    EqualSpansAgree(ops, lw, rw, |ops|);
  }
}
