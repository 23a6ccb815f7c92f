/** src/transformers/numericCompare.ts: comparing two attributes of one
    dataset row by row, adding a difference column and a status column
    coloured by the size of the difference relative to the largest one.
    The records are annotated in place; the collections are cloned. */
module NumericCompare {
  import opened Wrappers
  import opened Data
  import Join
  import Diff
  import Compare

  const NoContext := "Please select a data context"
  const NoAttributes := "Please select two attributes"
  const FirstNotFound := "First attribute not found in dataset"
  const SecondNotFound := "Second attribute not found in dataset"

  /** Which colour a difference is interpolated towards from grey. The
      interpolation and its string form (utils/colors) are a parameter
      `paint`; the grey string is a parameter `grey`. */
  datatype Shade = TowardGreen | TowardRed

  function Abs(x: real): (r: real)
    ensures r >= 0.0 && (r == x || r == -x)
  {
    if x < 0.0 then -x else x
  }

  /** The two numbers of a pair that can be compared: neither value is null
      or undefined and both string forms parse. */
  function Comparable(v1: Cell, v2: Cell): Option<(real, real)> {
    if v1 == Null || v2 == Null || v1 == Undef || v2 == Undef then None
    else if ParseFloatOf(v1).None? || ParseFloatOf(v2).None? then None
    else Some((ParseFloatOf(v1).value, ParseFloatOf(v2).value))
  }

  /** The second number minus the first. */
  function Gap(p: (real, real)): real {
    p.1 - p.0
  }

  /** The pairs this transformer compares are exactly those the numeric
      comparison of two datasets gives a difference for, and the difference
      is the same. */
  lemma ComparableAgreesWithCompare(v1: Cell, v2: Cell)
    ensures Comparable(v1, v2).Some? <==> Compare.CompareDifference(v1, v2).Num?
    ensures Comparable(v1, v2).Some? ==> Compare.CompareDifference(v1, v2) == Num(Gap(Comparable(v1, v2).value))
  {
    Compare.CompareDifferenceSpec(v1, v2);
  }

  /** `validIndicesAndValues` after the first `n` indices. */
  function ValidUpTo(values1: seq<Cell>, values2: seq<Cell>, n: nat): map<nat, (real, real)> {
    map i | 0 <= i < n && Comparable(At(values1, i), At(values2, i)).Some? :: Comparable(At(values1, i), At(values2, i)).value
  }

  lemma ValidUpToStep(values1: seq<Cell>, values2: seq<Cell>, i: nat)
    ensures var p := Comparable(At(values1, i), At(values2, i));
            ValidUpTo(values1, values2, i + 1) ==
              if p.Some? then ValidUpTo(values1, values2, i)[i := p.value] else ValidUpTo(values1, values2, i)
  {
    var p := Comparable(At(values1, i), At(values2, i));
    var a := ValidUpTo(values1, values2, i + 1);
    var b := if p.Some? then ValidUpTo(values1, values2, i)[i := p.value] else ValidUpTo(values1, values2, i);
    forall k | k in a
      ensures k in b && a[k] == b[k]
    {
      if k < i {
        assert k in ValidUpTo(values1, values2, i);
      }
    }
    forall k | k in b
      ensures k in a
    {
      if k < i {
        assert k in ValidUpTo(values1, values2, i);
      }
    }
    assert a.Keys == b.Keys;
  }

  /** The first loop: the comparable indices and their numbers. */
  method ValidPairs(values1: seq<Cell>, values2: seq<Cell>) returns (valid: map<nat, (real, real)>)
    ensures forall i: nat :: i in valid <==> i < Diff.MaxLength(values1, values2) && Comparable(At(values1, i), At(values2, i)).Some?
    ensures forall i :: i in valid ==> valid[i] == Comparable(At(values1, i), At(values2, i)).value
    ensures valid == ValidUpTo(values1, values2, Diff.MaxLength(values1, values2))
  {
    valid := map[];
    var n := if |values1| < |values2| then |values2| else |values1|;
    for i := 0 to n
      invariant valid == ValidUpTo(values1, values2, i)
    {
      var v1 := if i < |values1| then values1[i] else Undef;
      var v2 := if i < |values2| then values2[i] else Undef;
      ValidUpToStep(values1, values2, i);
      if v1 == Null || v2 == Null || v1 == Undef || v2 == Undef {
        continue;
      }
      var parsed1 := ParseFloatOf(v1);
      var parsed2 := ParseFloatOf(v2);
      if parsed1.None? || parsed2.None? {
        continue;
      }
      valid := valid[i := (parsed1.value, parsed2.value)];
    }
  }

  /** The largest difference among the valid indices below `n`, visited in
      ascending order (the order of an integer-keyed object's entries): a
      difference replaces the current one only when its absolute value is
      strictly larger, so the first of equal ones wins; 0 when none. */
  function LargestUpTo(valid: map<nat, (real, real)>, n: nat): real {
    if n == 0 then 0.0
    else
      var prev := LargestUpTo(valid, n - 1);
      if n - 1 in valid && Abs(Gap(valid[n - 1])) > Abs(prev) then Gap(valid[n - 1]) else prev
  }

  /** The largest difference is at least as large, in absolute value, as
      every valid one. */
  lemma {:induction false} LargestBounds(valid: map<nat, (real, real)>, n: nat)
    ensures forall i: nat :: i in valid && i < n ==> Abs(Gap(valid[i])) <= Abs(LargestUpTo(valid, n))
  {
    if n > 0 {
      LargestBounds(valid, n - 1);
    }
  }

  /** Unless it is 0, the largest difference is the difference at the first
      valid index reaching its size. */
  lemma {:induction false} LargestAttained(valid: map<nat, (real, real)>, n: nat)
    ensures LargestUpTo(valid, n) != 0.0 ==>
              exists i: nat :: i in valid && i < n && Gap(valid[i]) == LargestUpTo(valid, n) &&
                               forall j: nat :: j in valid && j < i ==> Abs(Gap(valid[j])) < Abs(LargestUpTo(valid, n))
  {
    if n > 0 {
      var prev := LargestUpTo(valid, n - 1);
      var r := LargestUpTo(valid, n);
      if n - 1 in valid && Abs(Gap(valid[n - 1])) > Abs(prev) {
        LargestBounds(valid, n - 1);
        assert Gap(valid[n - 1]) == r;
        assert forall j: nat :: j in valid && j < n - 1 ==> Abs(Gap(valid[j])) < Abs(r);
      } else {
        LargestAttained(valid, n - 1);
      }
    }
  }

  /** The second loop. */
  method LargestDifference(valid: map<nat, (real, real)>, n: nat) returns (largest: real)
    ensures largest == LargestUpTo(valid, n)
  {
    largest := 0.0;
    for i := 0 to n
      invariant largest == LargestUpTo(valid, i)
    {
      if i in valid {
        var difference := valid[i].1 - valid[i].0;
        if Abs(difference) > Abs(largest) {
          largest := difference;
        }
      }
    }
  }

  /** `Math.abs(difference / largestDifference)`. JavaScript gives NaN when
      both are 0; the scalar is then unused, and 0 stands for it. */
  function Scalar(difference: real, largest: real): real {
    if largest == 0.0 then 0.0 else Abs(difference / largest)
  }

  /** The colour of a difference: towards green when positive, towards red
      when negative, by the scalar; grey when zero. */
  function Status(difference: real, largest: real, paint: (Shade, real) -> string, grey: string): string {
    if difference > 0.0 then paint(TowardGreen, Scalar(difference, largest))
    else if difference < 0.0 then paint(TowardRed, Scalar(difference, largest))
    else grey
  }

  /** The scalar passed to the interpolation lies in (0, 1] for every
      non-zero difference. */
  lemma ScalarBounded(valid: map<nat, (real, real)>, n: nat, i: nat)
    requires i in valid && i < n && Gap(valid[i]) != 0.0
    ensures 0.0 < Scalar(Gap(valid[i]), LargestUpTo(valid, n)) <= 1.0
  {
    var d := Gap(valid[i]);
    var largest := LargestUpTo(valid, n);
    LargestBounds(valid, n);
    assert Abs(d) <= Abs(largest);
    QuotientBounded(d, largest);
  }

  lemma FactorAtMostOne(q: real, y: real, p: real)
    requires y > 0.0 && p == q * y && p <= y
    ensures q <= 1.0
  {
  }

  lemma FactorPositive(q: real, y: real, p: real)
    requires y > 0.0 && p == q * y && p > 0.0
    ensures q > 0.0
  {
  }

  lemma AbsProduct(q: real, l: real, p: real)
    requires p == q * l
    ensures Abs(p) == Abs(q) * Abs(l)
  {
    if q < 0.0 && l < 0.0 {
      assert Abs(q) * Abs(l) == q * l;
    } else if q < 0.0 {
      assert Abs(q) * Abs(l) == -(q * l);
    } else if l < 0.0 {
      assert Abs(q) * Abs(l) == -(q * l);
    }
  }

  /** A non-zero quotient of a number by one at least as large lies in (0, 1]. */
  lemma QuotientBounded(d: real, l: real)
    requires d != 0.0 && l != 0.0 && Abs(d) <= Abs(l)
    ensures 0.0 < Abs(d / l) <= 1.0
  {
    var q := d / l;
    assert q * l == d;
    AbsProduct(q, l, d);
    FactorAtMostOne(Abs(q), Abs(l), Abs(d));
    FactorPositive(Abs(q), Abs(l), Abs(d));
  }

  /** The output columns: the difference and the status. */
  datatype OutputNames = OutputNames(value: string, status: string)

  /** Both names made unique against every attribute of the dataset. */
  function ColumnNames(dataset: DataSet, unique: (string, seq<string>) -> string): OutputNames {
    OutputNames(unique(Compare.ValueColumnBase, Compare.AllAttrNames(dataset)),
                unique(Compare.StatusColumnBase, Compare.AllAttrNames(dataset)))
  }

  /** The record at index `i` with its two new fields: the difference and
      its colour when the index is valid, empty strings otherwise. */
  function Annotated(record: Record, i: nat, valid: map<nat, (real, real)>, largest: real, names: OutputNames,
                     paint: (Shade, real) -> string, grey: string): Record {
    if i in valid then
      var difference := Gap(valid[i]);
      record[names.value := Num(difference)][names.status := Str(Status(difference, largest, paint, grey))]
    else
      record[names.value := Str("")][names.status := Str("")]
  }

  /** Every record annotated with its index. */
  function AnnotatedRecords(records: seq<Record>, valid: map<nat, (real, real)>, largest: real, names: OutputNames,
                            paint: (Shade, real) -> string, grey: string): (r: seq<Record>)
    ensures |r| == |records|
    ensures forall i :: 0 <= i < |r| ==> r[i] == Annotated(records[i], i, valid, largest, names, paint, grey)
  {
    seq(|records|, i requires 0 <= i < |records| => Annotated(records[i], i, valid, largest, names, paint, grey))
  }

  /** The clones of the collections, the one at `index` with the two new
      attributes appended (its attribute list created when absent). */
  function WithCompareColumns(collections: seq<Collection>, index: nat, names: OutputNames): (r: seq<Collection>)
    requires index < |collections|
    ensures |r| == |collections|
    ensures forall k :: 0 <= k < |r| && k != index ==> r[k] == collections[k]
    ensures AttrsOf(r[index]) == AttrsOf(collections[index]) +
              [Diff.AddedAttribute(names.value, "numeric"), Diff.AddedAttribute(names.status, "categorical")]
    ensures r[index] == collections[index].(attrs := r[index].attrs)
  {
    var target := collections[index];
    collections[index := target.(attrs := Some(AttrsOf(target) +
      [Diff.AddedAttribute(names.value, "numeric"), Diff.AddedAttribute(names.status, "categorical")]))]
  }

  /** Some collection up to index `k` holds an attribute `name`. */
  predicate HeldBy(collections: seq<Collection>, name: string, k: nat) {
    exists j :: 0 <= j <= k && j < |collections| && Diff.Holds(collections[j], name)
  }

  /** The rightmost of the first collections holding each attribute. */
  function TargetIndex(collections: seq<Collection>, name1: string, name2: string): (r: Result<nat>)
    ensures r.Ok? ==> r.value < |collections|
  {
    match Join.FindCollectionWithAttr(collections, name1)
    case None => Err(FirstNotFound)
    case Some(i1) =>
      match Join.FindCollectionWithAttr(collections, name2)
      case None => Err(SecondNotFound)
      case Some(i2) => Ok(if i1 < i2 then i2 else i1)
  }

  /** uncheckedNumericCompare, as a function of the dataset. The attribute
      data (getAttributeDataFromDataset) are inputs. */
  function NumericCompared(dataset: DataSet, attributeData1: Result<Attribute>, attributeData2: Result<Attribute>,
                           unique: (string, seq<string>) -> string, paint: (Shade, real) -> string,
                           grey: string): Result<DataSet> {
    var attr1 :- attributeData1;
    var attr2 :- attributeData2;
    var index :- TargetIndex(dataset.collections, attr1.name, attr2.name);
    var names := ColumnNames(dataset, unique);
    var values1 := Column(dataset.records, attr1.name);
    var values2 := Column(dataset.records, attr2.name);
    var valid := ValidUpTo(values1, values2, |dataset.records|);
    var largest := LargestUpTo(valid, |dataset.records|);
    Ok(DataSet(WithCompareColumns(dataset.collections, index, names),
               AnnotatedRecords(dataset.records, valid, largest, names, paint, grey)))
  }

  /** `after` is `before` annotated for the value pair `pair`: every other
      field is kept; the difference column is a number exactly when there
      is a pair, and is then the second number minus the first; without a
      pair both new columns are empty strings; with one the status is grey
      for a zero difference and otherwise the colour `paint` gives towards
      green (positive) or red (negative) at the difference's scalar. */
  ghost predicate AnnotatedAs(before: Record, after: Record, names: OutputNames, pair: Option<(real, real)>,
                        largest: real, paint: (Shade, real) -> string, grey: string) {
    (forall k :: k != names.value && k != names.status ==> Get(after, k) == Get(before, k)) &&
    (Get(after, names.value).Num? <==> pair.Some?) &&
    (pair.Some? ==> Get(after, names.value) == Num(Gap(pair.value))) &&
    (pair.None? ==> Get(after, names.value) == Str("") && Get(after, names.status) == Str("")) &&
    (pair.Some? && Gap(pair.value) == 0.0 ==> Get(after, names.status) == Str(grey)) &&
    (pair.Some? && Gap(pair.value) > 0.0 ==>
       Get(after, names.status) == Str(paint(TowardGreen, Scalar(Gap(pair.value), largest)))) &&
    (pair.Some? && Gap(pair.value) < 0.0 ==>
       Get(after, names.status) == Str(paint(TowardRed, Scalar(Gap(pair.value), largest))))
  }

  /** The record at index `i` is annotated for its pair in `valid`, if any. */
  lemma AnnotatedSpec(record: Record, i: nat, valid: map<nat, (real, real)>, largest: real, names: OutputNames,
                      paint: (Shade, real) -> string, grey: string)
    requires names.value != names.status
    ensures AnnotatedAs(record, Annotated(record, i, valid, largest, names, paint, grey), names,
                        if i in valid then Some(valid[i]) else None, largest, paint, grey)
  {
  }

  /** What the comparison does to the records: it keeps their number, and
      each is annotated for the pair of its two values when both are
      comparable, with the largest difference over all records as the
      scale. */
  lemma NumericComparedRecords(dataset: DataSet, attributeData1: Result<Attribute>, attributeData2: Result<Attribute>,
                               unique: (string, seq<string>) -> string, paint: (Shade, real) -> string,
                               grey: string, i: nat)
    requires NumericCompared(dataset, attributeData1, attributeData2, unique, paint, grey).Ok?
    requires ColumnNames(dataset, unique).value != ColumnNames(dataset, unique).status
    requires i < |dataset.records|
    ensures var out := NumericCompared(dataset, attributeData1, attributeData2, unique, paint, grey).value;
            var largest := LargestUpTo(ValidUpTo(Column(dataset.records, attributeData1.value.name),
                                                 Column(dataset.records, attributeData2.value.name),
                                                 |dataset.records|), |dataset.records|);
            |out.records| == |dataset.records| &&
            AnnotatedAs(dataset.records[i], out.records[i], ColumnNames(dataset, unique),
                        Comparable(Get(dataset.records[i], attributeData1.value.name),
                                   Get(dataset.records[i], attributeData2.value.name)),
                        largest, paint, grey)
  {
    var names := ColumnNames(dataset, unique);
    var values1 := Column(dataset.records, attributeData1.value.name);
    var values2 := Column(dataset.records, attributeData2.value.name);
    var valid := ValidUpTo(values1, values2, |dataset.records|);
    var largest := LargestUpTo(valid, |dataset.records|);
    var out := NumericCompared(dataset, attributeData1, attributeData2, unique, paint, grey).value;
    assert out.records == AnnotatedRecords(dataset.records, valid, largest, names, paint, grey);
    assert At(values1, i) == Get(dataset.records[i], attributeData1.value.name);
    assert At(values2, i) == Get(dataset.records[i], attributeData2.value.name);
    assert (if i in valid then Some(valid[i]) else None) == Comparable(At(values1, i), At(values2, i));
    AnnotatedSpec(dataset.records[i], i, valid, largest, names, paint, grey);
  }

  /** The target is the first index by which both attributes have
      appeared; the first error is for the first attribute, when no
      collection holds it, and the second for the second. */
  lemma TargetIndexSpec(collections: seq<Collection>, name1: string, name2: string)
    ensures var r := TargetIndex(collections, name1, name2);
            (r == Err(FirstNotFound) <==> forall k :: 0 <= k < |collections| ==> !Diff.Holds(collections[k], name1)) &&
            (r == Err(SecondNotFound) <==>
               (exists k :: 0 <= k < |collections| && Diff.Holds(collections[k], name1)) &&
               forall k :: 0 <= k < |collections| ==> !Diff.Holds(collections[k], name2)) &&
            (r.Ok? ==> HeldBy(collections, name1, r.value) && HeldBy(collections, name2, r.value) &&
                       forall k: nat :: k < r.value ==> !(HeldBy(collections, name1, k) && HeldBy(collections, name2, k)))
  {
    var r := TargetIndex(collections, name1, name2);
    if r.Ok? {
      var i1 := Join.FindCollectionWithAttr(collections, name1).value;
      var i2 := Join.FindCollectionWithAttr(collections, name2).value;
      assert HeldBy(collections, name1, r.value) by { assert Diff.Holds(collections[i1], name1); }
      assert HeldBy(collections, name2, r.value) by { assert Diff.Holds(collections[i2], name2); }
      forall k: nat | k < r.value
        ensures !(HeldBy(collections, name1, k) && HeldBy(collections, name2, k))
      {
        if r.value == i1 {
          assert !HeldBy(collections, name1, k);
        } else {
          assert !HeldBy(collections, name2, k);
        }
      }
    }
  }

  /** The two new attributes land in the target collection, after its own
      attributes; every other collection is unchanged. */
  lemma NumericComparedCollections(dataset: DataSet, attributeData1: Result<Attribute>, attributeData2: Result<Attribute>,
                                   unique: (string, seq<string>) -> string, paint: (Shade, real) -> string, grey: string)
    requires NumericCompared(dataset, attributeData1, attributeData2, unique, paint, grey).Ok?
    ensures var out := NumericCompared(dataset, attributeData1, attributeData2, unique, paint, grey).value;
            var names := ColumnNames(dataset, unique);
            var t := TargetIndex(dataset.collections, attributeData1.value.name, attributeData2.value.name);
            t.Ok? && |out.collections| == |dataset.collections| &&
            AttrsOf(out.collections[t.value]) == AttrsOf(dataset.collections[t.value]) +
              [Diff.AddedAttribute(names.value, "numeric"), Diff.AddedAttribute(names.status, "categorical")] &&
            forall k :: 0 <= k < |out.collections| && k != t.value ==> out.collections[k] == dataset.collections[k]
  {
    var names := ColumnNames(dataset, unique);
    var t := TargetIndex(dataset.collections, attributeData1.value.name, attributeData2.value.name).value;
    var out := NumericCompared(dataset, attributeData1, attributeData2, unique, paint, grey).value;
    assert out.collections == WithCompareColumns(dataset.collections, t, names);
  }

  /** The names chosen for the new columns are not names of attributes of
      the dataset. */
  lemma ColumnNamesFresh(dataset: DataSet, unique: (string, seq<string>) -> string, c: Collection, a: Attribute)
    requires Join.Avoids(unique)
    requires c in dataset.collections && a in AttrsOf(c)
    ensures a.name != ColumnNames(dataset, unique).value && a.name != ColumnNames(dataset, unique).status
  {
    var all := Join.AllAttrs(dataset.collections);
    assert a in all;
    var k :| 0 <= k < |all| && all[k] == a;
    assert Names(all)[k] == a.name;
  }

  /** The third loop of uncheckedNumericCompare: the records of the context
      annotated in place, one at a time. */
  method AnnotateRecords(d: DataContext, valid: map<nat, (real, real)>, largest: real, names: OutputNames,
                         paint: (Shade, real) -> string, grey: string)
    modifies d
    ensures d.records == AnnotatedRecords(old(d.records), valid, largest, names, paint, grey)
    ensures d.collections == old(d.collections)
  {
    for i := 0 to |d.records|
      invariant |d.records| == |old(d.records)|
      invariant forall k :: 0 <= k < i ==> d.records[k] == Annotated(old(d.records)[k], k, valid, largest, names, paint, grey)
      invariant forall k :: i <= k < |d.records| ==> d.records[k] == old(d.records)[k]
      invariant d.collections == old(d.collections)
    {
      if i in valid {
        var difference := valid[i].1 - valid[i].0;
        var color := if difference > 0.0 then paint(TowardGreen, Scalar(difference, largest))
                     else if difference < 0.0 then paint(TowardRed, Scalar(difference, largest))
                     else grey;
        d.records := d.records[i := d.records[i][names.value := Num(difference)][names.status := Str(color)]];
      } else {
        d.records := d.records[i := d.records[i][names.value := Str("")][names.status := Str("")]];
      }
    }
  }

  /** uncheckedNumericCompare on a data context: the collections are cloned
      and extended, the records annotated in place. */
  method UncheckedNumericCompare(d: DataContext, attributeData1: Result<Attribute>, attributeData2: Result<Attribute>,
                                 unique: (string, seq<string>) -> string, paint: (Shade, real) -> string,
                                 grey: string) returns (r: Result<DataSet>)
    modifies d
    ensures r == NumericCompared(old(d.Value()), attributeData1, attributeData2, unique, paint, grey)
    ensures d.collections == old(d.collections)
    ensures r.Ok? ==> d.records == r.value.records
    ensures r.Err? ==> d.records == old(d.records)
  {
    var attr1 :- attributeData1;
    var attr2 :- attributeData2;
    var collections := d.collections;
    var index1 := Join.FindCollectionWithAttr(collections, attr1.name);
    var index2 := Join.FindCollectionWithAttr(collections, attr2.name);
    if index1.None? {
      return Err(FirstNotFound);
    }
    if index2.None? {
      return Err(SecondNotFound);
    }
    var toAdd := if index1.value < index2.value then index2.value else index1.value;
    assert TargetIndex(collections, attr1.name, attr2.name) == Ok(toAdd);
    var names := ColumnNames(d.Value(), unique);
    collections := WithCompareColumns(collections, toAdd, names);
    var values1 := Column(d.records, attr1.name);
    var values2 := Column(d.records, attr2.name);
    var valid := ValidPairs(values1, values2);
    var n := if |values1| < |values2| then |values2| else |values1|;
    var largest := LargestDifference(valid, n);
    AnnotateRecords(d, valid, largest, names, paint, grey);
    return Ok(DataSet(collections, d.records));
  }

  /** numericCompare: the argument checks, then the comparison with its name
      and description. `contextName` is the readable name of the context. */
  method NumericCompareTransform(inputContext: Option<string>, inputAttribute1: Option<string>,
                                 inputAttribute2: Option<string>, contextName: string, d: DataContext,
                                 attributeData1: Result<Attribute>, attributeData2: Result<Attribute>,
                                 unique: (string, seq<string>) -> string, paint: (Shade, real) -> string,
                                 grey: string) returns (r: Result<(DataSet, string, string)>)
    modifies d
    ensures !Compare.Given(inputContext) ==> r == Err(NoContext) && d.records == old(d.records)
    ensures Compare.Given(inputContext) && !(Compare.Given(inputAttribute1) && Compare.Given(inputAttribute2)) ==>
              r == Err(NoAttributes) && d.records == old(d.records)
    ensures Compare.Given(inputContext) && Compare.Given(inputAttribute1) && Compare.Given(inputAttribute2) ==>
              var output := NumericCompared(old(d.Value()), attributeData1, attributeData2, unique, paint, grey);
              (output.Err? ==> r == Err(output.error) && d.records == old(d.records)) &&
              (output.Ok? ==> r.Ok? && r.value.0 == output.value && d.records == output.value.records)
    ensures d.collections == old(d.collections)
    ensures r.Ok? ==>
              Compare.Given(inputContext) && Compare.Given(inputAttribute1) && Compare.Given(inputAttribute2) &&
              NumericCompared(old(d.Value()), attributeData1, attributeData2, unique, paint, grey) == Ok(r.value.0) &&
              r.value.1 == "Compare of " + contextName &&
              r.value.2 == "A numeric comparison of the attributes " + inputAttribute1.value + " and " +
                           inputAttribute2.value + " (from " + contextName + ")"
  {
    if !Compare.Given(inputContext) {
      return Err(NoContext);
    }
    if !(Compare.Given(inputAttribute1) && Compare.Given(inputAttribute2)) {
      return Err(NoAttributes);
    }
    var output :- UncheckedNumericCompare(d, attributeData1, attributeData2, unique, paint, grey);
    return Ok((output, "Compare of " + contextName,
               "A numeric comparison of the attributes " + inputAttribute1.value + " and " +
               inputAttribute2.value + " (from " + contextName + ")"));
  }
}
