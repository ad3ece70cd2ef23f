/**
 * The edit script a sequence matcher reports for two sequences: a list of opcodes
 * `(tag, i1, i2, j1, j2)`, each saying how `a[i1..i2]` becomes `b[j1..j2]`. The matcher
 * itself is not modelled; every consumer takes its output as an input that is well formed.
 */
module Opcodes {
  datatype Tag = Equal | Insert | Delete | Replace

  datatype Opcode = Opcode(tag: Tag, i1: nat, i2: nat, j1: nat, j2: nat)

  /**
   * One opcode is consistent with `a` and `b`: its ranges lie inside them, an `Equal` pairs
   * equally long, identical, non-empty ranges, an `Insert` has an empty left range, a `Delete`
   * an empty right range, and a `Replace` is non-empty on both sides.
   */
  predicate Fits(op: Opcode, a: seq<string>, b: seq<string>) {
    op.i1 <= op.i2 <= |a| && op.j1 <= op.j2 <= |b| &&
    match op.tag
    case Equal => 0 < op.i2 - op.i1 == op.j2 - op.j1 && a[op.i1..op.i2] == b[op.j1..op.j2]
    case Insert => op.i1 == op.i2 && op.j1 < op.j2
    case Delete => op.i1 < op.i2 && op.j1 == op.j2
    case Replace => op.i1 < op.i2 && op.j1 < op.j2
  }

  /** Where on the left the `k`-th opcode starts (and the `k-1`-th ends). */
  function LeftPos(ops: seq<Opcode>, k: nat): nat
    requires k <= |ops|
  {
    if k == 0 then 0 else ops[k - 1].i2
  }

  /** Where on the right the `k`-th opcode starts (and the `k-1`-th ends). */
  function RightPos(ops: seq<Opcode>, k: nat): nat
    requires k <= |ops|
  {
    if k == 0 then 0 else ops[k - 1].j2
  }

  /**
   * A matcher's output for `a` and `b`: every opcode fits, each starts where the previous one
   * ended (the first at 0, 0), and the last ends at `|a|`, `|b|`; so the ranges tile both
   * sequences without gaps or overlaps.
   */
  predicate WellFormed(ops: seq<Opcode>, a: seq<string>, b: seq<string>) {
    (forall k :: 0 <= k < |ops| ==> Fits(ops[k], a, b)) &&
    (forall k {:trigger LeftPos(ops, k)} :: 0 <= k < |ops| ==> ops[k].i1 == LeftPos(ops, k)) &&
    (forall k {:trigger RightPos(ops, k)} :: 0 <= k < |ops| ==> ops[k].j1 == RightPos(ops, k)) &&
    LeftPos(ops, |ops|) == |a| && RightPos(ops, |ops|) == |b|
  }

  /** Every opcode's ranges lie inside the two sequences. */
  predicate Bounded(ops: seq<Opcode>, a: seq<string>, b: seq<string>) {
    forall k :: 0 <= k < |ops| ==> ops[k].i1 <= ops[k].i2 <= |a| && ops[k].j1 <= ops[k].j2 <= |b|
  }

  lemma {:induction false} WellFormedBounded(ops: seq<Opcode>, a: seq<string>, b: seq<string>)
    requires WellFormed(ops, a, b)
    ensures Bounded(ops, a, b)
  {
    forall k | 0 <= k < |ops| ensures ops[k].i1 <= ops[k].i2 <= |a| && ops[k].j1 <= ops[k].j2 <= |b| {
      assert Fits(ops[k], a, b);
    }
  }

  lemma {:induction false} BoundedAt(ops: seq<Opcode>, a: seq<string>, b: seq<string>, k: nat)
    requires Bounded(ops, a, b) && k < |ops|
    ensures ops[k].i1 <= ops[k].i2 <= |a| && ops[k].j1 <= ops[k].j2 <= |b|
  {
  }

  /** The left ranges tile `a`; an `Insert` takes no item of it, every other opcode at least one. */
  predicate LeftTiles(ops: seq<Opcode>, a: seq<string>, b: seq<string>) {
    Bounded(ops, a, b) &&
    (forall k {:trigger LeftPos(ops, k)} :: 0 <= k < |ops| ==> ops[k].i1 == LeftPos(ops, k)) &&
    (forall k :: 0 <= k < |ops| ==>
      if ops[k].tag == Insert then ops[k].i1 == ops[k].i2 else ops[k].i1 < ops[k].i2) &&
    LeftPos(ops, |ops|) == |a|
  }

  /** The right ranges tile `b`; a `Delete` takes no item of it, every other opcode at least one. */
  predicate RightTiles(ops: seq<Opcode>, a: seq<string>, b: seq<string>) {
    Bounded(ops, a, b) &&
    (forall k {:trigger RightPos(ops, k)} :: 0 <= k < |ops| ==> ops[k].j1 == RightPos(ops, k)) &&
    (forall k :: 0 <= k < |ops| ==>
      if ops[k].tag == Delete then ops[k].j1 == ops[k].j2 else ops[k].j1 < ops[k].j2) &&
    RightPos(ops, |ops|) == |b|
  }

  lemma {:induction false} LeftTilesAt(ops: seq<Opcode>, a: seq<string>, b: seq<string>, k: nat)
    requires LeftTiles(ops, a, b) && k < |ops|
    ensures ops[k].i1 == LeftPos(ops, k) <= ops[k].i2 <= |a|
    ensures if ops[k].tag == Insert then ops[k].i1 == ops[k].i2 else ops[k].i1 < ops[k].i2
  {
  }

  lemma {:induction false} RightTilesAt(ops: seq<Opcode>, a: seq<string>, b: seq<string>, k: nat)
    requires RightTiles(ops, a, b) && k < |ops|
    ensures ops[k].j1 == RightPos(ops, k) <= ops[k].j2 <= |b|
    ensures if ops[k].tag == Delete then ops[k].j1 == ops[k].j2 else ops[k].j1 < ops[k].j2
  {
  }

  /** Every `Equal` opcode pairs identical ranges. */
  predicate EqualsMatch(ops: seq<Opcode>, a: seq<string>, b: seq<string>) {
    forall k {:trigger RangesMatch(ops[k], a, b)} :: 0 <= k < |ops| ==> RangesMatch(ops[k], a, b)
  }

  /** An `Equal` opcode within bounds pairs identical ranges. */
  predicate RangesMatch(op: Opcode, a: seq<string>, b: seq<string>) {
    op.tag == Equal && op.i1 <= op.i2 <= |a| && op.j1 <= op.j2 <= |b| ==> a[op.i1..op.i2] == b[op.j1..op.j2]
  }

  lemma {:induction false} EqualsMatchAt(ops: seq<Opcode>, a: seq<string>, b: seq<string>, k: nat)
    requires Bounded(ops, a, b) && EqualsMatch(ops, a, b) && k < |ops|
    ensures ops[k].i1 <= ops[k].i2 <= |a| && ops[k].j1 <= ops[k].j2 <= |b|
    ensures ops[k].tag == Equal ==> a[ops[k].i1..ops[k].i2] == b[ops[k].j1..ops[k].j2]
  {
    assert RangesMatch(ops[k], a, b);
  }

  /** What a well-formed script says about each side on its own, and about its `Equal` opcodes. */
  lemma {:induction false} WellFormedTiles(ops: seq<Opcode>, a: seq<string>, b: seq<string>)
    requires WellFormed(ops, a, b)
    ensures Bounded(ops, a, b) && LeftTiles(ops, a, b) && RightTiles(ops, a, b) && EqualsMatch(ops, a, b)
  {
    forall k | 0 <= k < |ops|
      ensures ops[k].i1 <= ops[k].i2 <= |a| && ops[k].j1 <= ops[k].j2 <= |b|
      ensures if ops[k].tag == Insert then ops[k].i1 == ops[k].i2 else ops[k].i1 < ops[k].i2
      ensures if ops[k].tag == Delete then ops[k].j1 == ops[k].j2 else ops[k].j1 < ops[k].j2
      ensures RangesMatch(ops[k], a, b)
    {
      assert Fits(ops[k], a, b);
    }
  }

  /** Opcode `k` of a well-formed script spans from position `k` to position `k + 1`. */
  lemma {:induction false} PosStep(ops: seq<Opcode>, a: seq<string>, b: seq<string>, k: nat)
    requires WellFormed(ops, a, b) && k < |ops|
    ensures ops[k].i1 == LeftPos(ops, k) <= ops[k].i2 == LeftPos(ops, k + 1) <= |a|
    ensures ops[k].j1 == RightPos(ops, k) <= ops[k].j2 == RightPos(ops, k + 1) <= |b|
  {
    assert Fits(ops[k], a, b);
  }

  /** The tiling advances: positions only grow along the script. */
  lemma {:induction false} PosMonotone(ops: seq<Opcode>, a: seq<string>, b: seq<string>, k: nat, l: nat)
    requires WellFormed(ops, a, b) && k <= l <= |ops|
    ensures LeftPos(ops, k) <= LeftPos(ops, l) <= |a|
    ensures RightPos(ops, k) <= RightPos(ops, l) <= |b|
    decreases |ops| - k
  {
    if k < |ops| {
      PosStep(ops, a, b, k);
      PosMonotone(ops, a, b, k + 1, if l == k then k + 1 else l);
    }
  }

  // ---------------------------------------------------------------------------
  // A simple matcher: common prefix, one change, common suffix
  // ---------------------------------------------------------------------------

  /** The length of the longest common prefix of `a` and `b`, counting from `k`. */
  function CommonPrefix(a: seq<string>, b: seq<string>, k: nat): (p: nat)
    requires k <= |a| && k <= |b| && a[..k] == b[..k]
    ensures k <= p <= |a| && p <= |b| && a[..p] == b[..p]
    ensures p < |a| && p < |b| ==> a[p] != b[p]
    decreases |a| - k
  {
    if k < |a| && k < |b| && a[k] == b[k] then
      assert a[..k + 1] == a[..k] + [a[k]] && b[..k + 1] == b[..k] + [b[k]];
      CommonPrefix(a, b, k + 1)
    else k
  }

  /** The length of the longest common suffix of `a` and `b`, at most `limit`, counting from `k`. */
  function CommonSuffix(a: seq<string>, b: seq<string>, limit: nat, k: nat): (q: nat)
    requires limit <= |a| && limit <= |b| && k <= limit
    requires a[|a| - k..] == b[|b| - k..]
    ensures k <= q <= limit && a[|a| - q..] == b[|b| - q..]
    ensures q < limit ==> a[|a| - q - 1] != b[|b| - q - 1]
    decreases limit - k
  {
    if k < limit && a[|a| - k - 1] == b[|b| - k - 1] then
      assert a[|a| - k - 1..] == [a[|a| - k - 1]] + a[|a| - k..];
      assert b[|b| - k - 1..] == [b[|b| - k - 1]] + b[|b| - k..];
      CommonSuffix(a, b, limit, k + 1)
    else k
  }

  /** The opcode for the changed middle `a[i1..i2]` / `b[j1..j2]`, if it is not empty. */
  function MiddleOp(i1: nat, i2: nat, j1: nat, j2: nat): seq<Opcode> {
    if i1 < i2 && j1 < j2 then [Opcode(Replace, i1, i2, j1, j2)]
    else if i1 < i2 then [Opcode(Delete, i1, i2, j1, j2)]
    else if j1 < j2 then [Opcode(Insert, i1, i2, j1, j2)]
    else []
  }

  /** The script for a common prefix of length `p`, a changed middle, a common suffix of length `q`. */
  function Assemble(a: seq<string>, b: seq<string>, p: nat, q: nat): seq<Opcode>
    requires p + q <= |a| && p + q <= |b|
  {
    (if p > 0 then [Opcode(Equal, 0, p, 0, p)] else []) +
    MiddleOp(p, |a| - q, p, |b| - q) +
    (if q > 0 then [Opcode(Equal, |a| - q, |a|, |b| - q, |b|)] else [])
  }

  /** A matcher that keeps the common prefix and suffix and replaces everything in between. */
  function TrimMatcher(a: seq<string>, b: seq<string>): seq<Opcode> {
    var p := CommonPrefix(a, b, 0);
    var q := CommonSuffix(a, b, if |a| < |b| then |a| - p else |b| - p, 0);
    Assemble(a, b, p, q)
  }

  /** A script of one opcode is well formed when that opcode fits and spans both sequences. */
  lemma {:induction false} Tiles1(a: seq<string>, b: seq<string>, o1: Opcode)
    requires Fits(o1, a, b) && o1.i1 == 0 && o1.j1 == 0 && o1.i2 == |a| && o1.j2 == |b|
    ensures WellFormed([o1], a, b)
  {
  }

  /** A script of two opcodes is well formed when they fit and follow on from each other. */
  lemma {:induction false} Tiles2(a: seq<string>, b: seq<string>, o1: Opcode, o2: Opcode)
    requires Fits(o1, a, b) && o1.i1 == 0 && o1.j1 == 0
    requires Fits(o2, a, b) && o2.i1 == o1.i2 && o2.j1 == o1.j2 && o2.i2 == |a| && o2.j2 == |b|
    ensures WellFormed([o1, o2], a, b)
  {
  }

  /** A script of three opcodes is well formed when they fit and follow on from each other. */
  lemma {:induction false} Tiles3(a: seq<string>, b: seq<string>, o1: Opcode, o2: Opcode, o3: Opcode)
    requires Fits(o1, a, b) && o1.i1 == 0 && o1.j1 == 0
    requires Fits(o2, a, b) && o2.i1 == o1.i2 && o2.j1 == o1.j2
    requires Fits(o3, a, b) && o3.i1 == o2.i2 && o3.j1 == o2.j2 && o3.i2 == |a| && o3.j2 == |b|
    ensures WellFormed([o1, o2, o3], a, b)
  {
  }

  /**
   * The assembled script is well formed when the prefix and suffix really are common and do
   * not both exist around an empty middle (that would be one common run counted twice).
   */
  lemma {:induction false} AssembleWellFormed(a: seq<string>, b: seq<string>, p: nat, q: nat)
    requires p + q <= |a| && p + q <= |b|
    requires a[..p] == b[..p] && a[|a| - q..] == b[|b| - q..]
    requires p > 0 && q > 0 ==> p + q < |a| || p + q < |b|
    ensures WellFormed(Assemble(a, b, p, q), a, b)
  {
    var front := Opcode(Equal, 0, p, 0, p);
    var back := Opcode(Equal, |a| - q, |a|, |b| - q, |b|);
    FrontFits(a, b, p);
    BackFits(a, b, q);
    var mid := MiddleOp(p, |a| - q, p, |b| - q);
    if mid == [] {
      AssembleNoMiddle(a, b, p, q, front, back);
    } else {
      MiddleFits(a, b, p, q);
      AssembleMiddle(a, b, p, q, front, mid[0], back);
    }
  }

  lemma {:induction false} FrontFits(a: seq<string>, b: seq<string>, p: nat)
    requires p <= |a| && p <= |b| && a[..p] == b[..p]
    ensures p > 0 ==> Fits(Opcode(Equal, 0, p, 0, p), a, b)
  {
    assert a[0..p] == a[..p] && b[0..p] == b[..p];
  }

  lemma {:induction false} BackFits(a: seq<string>, b: seq<string>, q: nat)
    requires q <= |a| && q <= |b| && a[|a| - q..] == b[|b| - q..]
    ensures q > 0 ==> Fits(Opcode(Equal, |a| - q, |a|, |b| - q, |b|), a, b)
  {
    assert a[|a| - q..|a|] == a[|a| - q..] && b[|b| - q..|b|] == b[|b| - q..];
  }

  lemma {:induction false} MiddleFits(a: seq<string>, b: seq<string>, p: nat, q: nat)
    requires p + q <= |a| && p + q <= |b|
    requires MiddleOp(p, |a| - q, p, |b| - q) != []
    ensures var mid := MiddleOp(p, |a| - q, p, |b| - q);
      && mid == [mid[0]] && Fits(mid[0], a, b)
      && mid[0].i1 == p && mid[0].j1 == p && mid[0].i2 == |a| - q && mid[0].j2 == |b| - q
  {
  }

  lemma {:induction false} AssembleNoMiddle(a: seq<string>, b: seq<string>, p: nat, q: nat, front: Opcode, back: Opcode)
    requires p + q <= |a| && p + q <= |b|
    requires MiddleOp(p, |a| - q, p, |b| - q) == []
    requires p > 0 && q > 0 ==> p + q < |a| || p + q < |b|
    requires front == Opcode(Equal, 0, p, 0, p) && (p > 0 ==> Fits(front, a, b))
    requires back == Opcode(Equal, |a| - q, |a|, |b| - q, |b|) && (q > 0 ==> Fits(back, a, b))
    ensures WellFormed(Assemble(a, b, p, q), a, b)
  {
    if p > 0 {
      assert Assemble(a, b, p, q) == [front];
      Tiles1(a, b, front);
    } else if q > 0 {
      assert Assemble(a, b, p, q) == [back];
      Tiles1(a, b, back);
    }
  }

  lemma {:induction false} AssembleMiddle(a: seq<string>, b: seq<string>, p: nat, q: nat, front: Opcode, m: Opcode, back: Opcode)
    requires p + q <= |a| && p + q <= |b|
    requires MiddleOp(p, |a| - q, p, |b| - q) == [m]
    requires Fits(m, a, b) && m.i1 == p && m.j1 == p && m.i2 == |a| - q && m.j2 == |b| - q
    requires front == Opcode(Equal, 0, p, 0, p) && (p > 0 ==> Fits(front, a, b))
    requires back == Opcode(Equal, |a| - q, |a|, |b| - q, |b|) && (q > 0 ==> Fits(back, a, b))
    ensures WellFormed(Assemble(a, b, p, q), a, b)
  {
    if p > 0 && q > 0 {
      assert Assemble(a, b, p, q) == [front, m, back];
      Tiles3(a, b, front, m, back);
    } else if p > 0 {
      assert Assemble(a, b, p, q) == [front, m];
      Tiles2(a, b, front, m);
    } else if q > 0 {
      assert Assemble(a, b, p, q) == [m, back];
      Tiles2(a, b, m, back);
    } else {
      assert Assemble(a, b, p, q) == [m];
      Tiles1(a, b, m);
    }
  }

  /** The simple matcher's output is well formed, so well-formed matchers exist. */
  lemma {:induction false} TrimMatcherWellFormed(a: seq<string>, b: seq<string>)
    ensures WellFormed(TrimMatcher(a, b), a, b)
  {
    var p := CommonPrefix(a, b, 0);
    var q := CommonSuffix(a, b, if |a| < |b| then |a| - p else |b| - p, 0);
    // a common suffix right after a maximal common prefix would have extended it
    assert q > 0 && p + q == |a| ==> a[|a| - q..][0] == a[p];
    assert q > 0 && p + q == |b| ==> b[|b| - q..][0] == b[p];
    AssembleWellFormed(a, b, p, q);
  }

  /** Identical inputs give one `Equal` block, or nothing at all when they are empty. */
  lemma {:induction false} TrimMatcherIdentical(a: seq<string>)
    ensures TrimMatcher(a, a) == if |a| == 0 then [] else [Opcode(Equal, 0, |a|, 0, |a|)]
  {
    var p := CommonPrefix(a, a, 0);
    assert p == |a|;
  }
}
