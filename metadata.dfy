/**
 * `compare_metadata` (app.py:279-291): the union of both documents' metadata keys, in sorted
 * order, keeping each key whose values differ once rendered with `str` (a missing key counts
 * as the empty string).
 */
module Metadata {
  import opened Text

  /** A metadata value as the PDF reader hands it over: text or a number. */
  datatype Value = Str(s: string) | Int(i: int)

  /** Python's `str` of a value. */
  function Render(v: Value): string {
    match v
    case Str(s) => s
    case Int(i) => IntToString(i)
  }

  /** `str(meta.get(key, ""))` */
  function Lookup(meta: map<string, Value>, key: string): string {
    if key in meta then Render(meta[key]) else ""
  }

  datatype FieldDiff = FieldDiff(field: string, valueA: string, valueB: string)

  /** Strictly ascending in Python's string order, hence also free of duplicates. */
  predicate Ascending(keys: seq<string>) {
    forall i, j :: 0 <= i < j < |keys| ==> Less(keys[i], keys[j])
  }

  function Fields(diffs: seq<FieldDiff>): (fs: seq<string>)
    ensures |fs| == |diffs|
  {
    seq(|diffs|, i requires 0 <= i < |diffs| => diffs[i].field)
  }

  /** Each entry carries the rendered value of its key on both sides. */
  predicate CarriesValues(metaA: map<string, Value>, metaB: map<string, Value>, diffs: seq<FieldDiff>) {
    forall i :: 0 <= i < |diffs| ==>
      diffs[i].valueA == Lookup(metaA, diffs[i].field) && diffs[i].valueB == Lookup(metaB, diffs[i].field)
  }

  /** The listed keys are exactly those present in either map whose rendered values differ. */
  ghost predicate ExactlyDiffering(metaA: map<string, Value>, metaB: map<string, Value>, diffs: seq<FieldDiff>) {
    forall key :: key in Fields(diffs) <==>
      key in metaA.Keys + metaB.Keys && Lookup(metaA, key) != Lookup(metaB, key)
  }

  /** What `compare_metadata` promises of its result. */
  ghost predicate IsMetadataDiff(metaA: map<string, Value>, metaB: map<string, Value>, diffs: seq<FieldDiff>) {
    Ascending(Fields(diffs)) && CarriesValues(metaA, metaB, diffs) && ExactlyDiffering(metaA, metaB, diffs)
  }

  /** Every non-empty finite set of strings has a least element. */
  lemma {:induction false} LeastExists(s: set<string>) returns (least: string)
    requires s != {}
    ensures least in s && forall y :: y in s ==> y == least || Less(least, y)
    decreases |s|
  {
    var x :| x in s;
    if s == {x} {
      least := x;
    } else {
      var r := LeastExists(s - {x});
      LessTotal(x, r);
      if Less(x, r) {
        least := x;
        forall y | y in s
          ensures y == least || Less(least, y)
        {
          if y != x && y != r {
            LessTransitive(x, r, y);
          }
        }
      } else {
        least := r;
      }
    }
  }

  /** `sorted(set(keys))`: the keys in ascending order, each once. */
  method SortKeys(keys: set<string>) returns (sorted: seq<string>)
    ensures Ascending(sorted)
    ensures forall k :: k in sorted <==> k in keys
  {
    sorted := [];
    var rest := keys;
    while rest != {}
      invariant Ascending(sorted)
      invariant forall k :: k in sorted <==> k in keys && k !in rest
      invariant rest <= keys
      invariant forall i, y :: 0 <= i < |sorted| && y in rest ==> Less(sorted[i], y)
      decreases |rest|
    {
      ghost var _ := LeastExists(rest);
      var x :| x in rest && forall y :: y in rest ==> y == x || Less(x, y);
      sorted := sorted + [x];
      rest := rest - {x};
    }
  }

  /**
   * `compare_metadata`: walk the sorted union of keys and record each key whose rendered values
   * differ, with both values.
   */
  method CompareMetadata(metaA: map<string, Value>, metaB: map<string, Value>) returns (diffs: seq<FieldDiff>)
    ensures Ascending(Fields(diffs))
    ensures CarriesValues(metaA, metaB, diffs)
    ensures ExactlyDiffering(metaA, metaB, diffs)
  {
    var keys := SortKeys(metaA.Keys + metaB.Keys);
    diffs := [];
    for n := 0 to |keys|
      invariant Ascending(Fields(diffs))
      invariant CarriesValues(metaA, metaB, diffs)
      invariant forall i :: 0 <= i < |diffs| ==> diffs[i].field in keys[..n]
      invariant forall key :: key in Fields(diffs) <==>
                  key in keys[..n] && Lookup(metaA, key) != Lookup(metaB, key)
    {
      var key := keys[n];
      var valueA := Lookup(metaA, key);
      var valueB := Lookup(metaB, key);
      if valueA != valueB {
        forall i | 0 <= i < |diffs|
          ensures Less(diffs[i].field, key)
        {
          assert diffs[i].field in keys[..n];
          var q :| 0 <= q < n && keys[q] == diffs[i].field;
        }
        ghost var before := Fields(diffs);
        diffs := diffs + [FieldDiff(key, valueA, valueB)];
        assert Fields(diffs) == before + [key];
      }
      assert keys[..n + 1] == keys[..n] + [key];
    }
    assert keys[..|keys|] == keys;
  }

  /** Two ascending sequences holding the same strings are the same sequence. */
  lemma {:induction false} AscendingUnique(x: seq<string>, y: seq<string>)
    requires Ascending(x) && Ascending(y)
    requires forall k :: k in x <==> k in y
    ensures x == y
  {
    assert |x| > 0 ==> x[0] in y;
    assert |y| > 0 ==> y[0] in x;
    if |x| > 0 {
      var j :| 0 <= j < |y| && y[j] == x[0];
      var i :| 0 <= i < |x| && x[i] == y[0];
      LessAsymmetric(x[0], y[0]);
      assert x[0] == y[0];
      forall k
        ensures k in x[1..] <==> k in y[1..]
      {
        LessIrreflexive(x[0]);
        if k in x[1..] {
          assert k in y && k != y[0];
        }
        if k in y[1..] {
          assert k in x && k != x[0];
        }
      }
      AscendingUnique(x[1..], y[1..]);
      assert x == [x[0]] + x[1..] && y == [y[0]] + y[1..];
    }
  }

  /** The contract of `compare_metadata` pins its result down completely. */
  lemma {:induction false} MetadataDiffUnique(metaA: map<string, Value>, metaB: map<string, Value>,
                           d1: seq<FieldDiff>, d2: seq<FieldDiff>)
    requires IsMetadataDiff(metaA, metaB, d1) && IsMetadataDiff(metaA, metaB, d2)
    ensures d1 == d2
  {
    AscendingUnique(Fields(d1), Fields(d2));
    assert |d1| == |d2|;
    forall i | 0 <= i < |d1|
      ensures d1[i] == d2[i]
    {
      assert Fields(d1)[i] == Fields(d2)[i];
    }
  }
}
