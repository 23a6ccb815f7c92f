/** src/transformations/diff.ts: a table setting two attributes side by
    side, either as a categorical diff of the two columns (records expanded
    from a change list of the `diff` library, an input here) or row by row
    with a numeric difference. */
module Diff {
  import opened Wrappers
  import opened Data
  import opened Changes

  const StatusColumn := "Diff Status"
  const ValueColumn := "Difference"
  const FirstNotFound := "Couldn't find first selected attribute in selected context"
  const SecondNotFound := "Couldn't find second selected attribute in selected context"

  predicate Holds(c: Collection, name: string) {
    FindAttr(AttrsOf(c), name).Some?
  }

  /** The index of the LAST collection holding an attribute `name`. */
  function LastHolder(collections: seq<Collection>, name: string): (r: Option<nat>)
    ensures r.None? ==> forall i :: 0 <= i < |collections| ==> !Holds(collections[i], name)
    ensures r.Some? ==> r.value < |collections| && Holds(collections[r.value], name)
    ensures r.Some? ==> forall k :: r.value < k < |collections| ==> !Holds(collections[k], name)
  {
    if collections == [] then None
    else
      var n := |collections| - 1;
      if Holds(collections[n], name) then Some(n)
      else
        assert forall i :: 0 <= i < n ==> collections[..n][i] == collections[i];
        LastHolder(collections[..n], name)
  }

  /** The attribute `name` of the last collection holding one: the search
      loop overwrites its finding with every later collection's. */
  function LastWithAttr(collections: seq<Collection>, name: string): (r: Option<Attribute>)
    ensures r.None? <==> forall i :: 0 <= i < |collections| ==> !Holds(collections[i], name)
    ensures r.Some? ==> r.value.name == name
  {
    match LastHolder(collections, name)
    case None => None
    case Some(i) => Some(AttrsOf(collections[i])[FindAttr(AttrsOf(collections[i]), name).value])
  }

  /** The search loop of `diff` for one attribute. */
  method FindAttributeData(collections: seq<Collection>, name: string) returns (r: Option<Attribute>)
    ensures r == LastWithAttr(collections, name)
  {
    r := None;
    for i := 0 to |collections|
      invariant r == LastWithAttr(collections[..i], name)
    {
      var found := FindAttr(AttrsOf(collections[i]), name);
      assert collections[..i + 1][..i] == collections[..i];
      if found.Some? {
        r := Some(AttrsOf(collections[i])[found.value]);
      }
    }
    assert collections[..|collections|] == collections;
  }

  /** The attribute added for the numeric difference or the status. */
  function AddedAttribute(name: string, attrType: string): Attribute {
    Attribute(name, Some(attrType), Some(""), None, Some(true), Some(false))
  }

  /** The one output collection: the two attributes, "Difference" when not
      categorical, then "Diff Status". */
  function DiffCollection(attr1: Attribute, attr2: Attribute, name1: string, name2: string,
                          isCategorical: bool): Collection {
    var attrs := [attr1, attr2] + (if isCategorical then [] else [AddedAttribute(ValueColumn, "numeric")])
                 + [AddedAttribute(StatusColumn, "categorical")];
    Collection("Diff of " + name1 + " and " + name2, None, None, Some(attrs), Some(map[]))
  }

  /** A truthy value whose `parseFloat` is a non-zero number: `parsed && ...`
      passes it. */
  function TruthyParse(guard: Cell, c: Cell): Option<real> {
    if Truthy(guard) && TruthyNumber(ParseFloatOf(c)) then ParseFloatOf(c) else None
  }

  /** The difference column: parsed1 - parsed2 when both parsed values are
      truthy, `""` otherwise. The second value is guarded by the FIRST value,
      as the source does. */
  function Difference(v1: Cell, v2: Cell): Cell {
    var parsed1 := TruthyParse(v1, v1);
    var parsed2 := TruthyParse(v1, v2);
    if parsed1.Some? && parsed2.Some? then Num(parsed1.value - parsed2.value) else Str("")
  }

  /** `difference > 0 ? GREEN : difference < 0 ? RED : ""`; `""` compares as 0. */
  function DiffStatus(difference: Cell): string {
    match difference
    case Num(d) => if d > 0.0 then Green else if d < 0.0 then Red else ""
    case _ => ""
  }

  /** The numeric record for the values at one index. */
  function NumericalRecord(name1: string, name2: string, v1: Cell, v2: Cell): Record {
    var difference := Difference(v1, v2);
    map[name1 := v1][name2 := v2][ValueColumn := difference][StatusColumn := Str(DiffStatus(difference))]
  }

  function MaxLength(values1: seq<Cell>, values2: seq<Cell>): nat {
    if |values1| < |values2| then |values2| else |values1|
  }

  /** One record per index up to the longer column. */
  function NumericalRecords(name1: string, name2: string, values1: seq<Cell>, values2: seq<Cell>): (r: seq<Record>)
    ensures |r| == MaxLength(values1, values2)
    ensures forall i :: 0 <= i < |r| ==> r[i] == NumericalRecord(name1, name2, At(values1, i), At(values2, i))
  {
    seq(MaxLength(values1, values2), i requires 0 <= i < MaxLength(values1, values2) =>
      NumericalRecord(name1, name2, At(values1, i), At(values2, i)))
  }

  /** diffRecordsNumerical: the loop. */
  method DiffRecordsNumerical(name1: string, name2: string, values1: seq<Cell>, values2: seq<Cell>)
    returns (records: seq<Record>)
    ensures records == NumericalRecords(name1, name2, values1, values2)
  {
    records := [];
    var n := if |values1| < |values2| then |values2| else |values1|;
    for i := 0 to n
      invariant |records| == i
      invariant forall k :: 0 <= k < i ==> records[k] == NumericalRecord(name1, name2, At(values1, k), At(values2, k))
    {
      var v1 := if i < |values1| then values1[i] else Undef;
      var v2 := if i < |values2| then values2[i] else Undef;
      var parsed1 := if Truthy(v1) then ParseFloatOf(v1) else None;
      var parsed2 := if Truthy(v1) then ParseFloatOf(v2) else None;
      var difference := if TruthyNumber(parsed1) && TruthyNumber(parsed2) then Num(parsed1.value - parsed2.value) else Str("");
      var status := if difference.Num? && difference.n > 0.0 then Green
                    else if difference.Num? && difference.n < 0.0 then Red
                    else "";
      records := records + [map[name1 := v1][name2 := v2][ValueColumn := difference][StatusColumn := Str(status)]];
    }
  }

  /** The difference is a number exactly when both values are truthy and
      parse to non-zero numbers; it is then the first minus the second, and
      the status is green when it is positive, red when negative and empty
      when zero. So an input of 0, or a missing value, gives no difference. */
  lemma DifferenceSpec(v1: Cell, v2: Cell)
    ensures Difference(v1, v2).Num? <==>
              Truthy(v1) && TruthyNumber(ParseFloatOf(v1)) && TruthyNumber(ParseFloatOf(v2))
    ensures Difference(v1, v2).Num? ==>
              Difference(v1, v2).n == ParseFloatOf(v1).value - ParseFloatOf(v2).value
    ensures Difference(v1, v2).Str? ==> DiffStatus(Difference(v1, v2)) == ""
    ensures Difference(v1, v2).Num? ==>
              (DiffStatus(Difference(v1, v2)) == Green <==> ParseFloatOf(v1).value > ParseFloatOf(v2).value) &&
              (DiffStatus(Difference(v1, v2)) == Red <==> ParseFloatOf(v1).value < ParseFloatOf(v2).value)
  {
  }

  /** A parse that is a non-zero number comes from a truthy value. */
  lemma TruthyNumberIsTruthy(c: Cell)
    requires TruthyNumber(ParseFloatOf(c))
    ensures Truthy(c)
  {
    if c.Str? {
      assert c.s != "" by {
        if c.s == "" {
          Numerals.EmptyIsNotDecimal();
        }
      }
    }
  }

  /** Guarding the second value by the first one, as the source does,
      changes nothing: a second value that is falsy never parses to a
      non-zero number, so the difference is the one a guard on the second
      value would give. */
  lemma GuardOnFirstValueHarmless(v1: Cell, v2: Cell)
    ensures Difference(v1, v2) ==
              (var p1 := TruthyParse(v1, v1);
               var p2 := TruthyParse(v2, v2);
               if p1.Some? && p2.Some? then Num(p1.value - p2.value) else Str(""))
  {
    if TruthyNumber(ParseFloatOf(v2)) {
      TruthyNumberIsTruthy(v2);
    }
  }

  /** diff: find the attributes (the last collection holding each wins),
      then build the collection and the records. `changes` is the change
      list `diffArrays` returns for the two value columns. */
  method DiffDataSets(dataset1: DataSet, dataset2: DataSet, name1: string, name2: string,
                      isCategorical: bool, changes: seq<Change>) returns (r: Result<DataSet>)
    ensures LastWithAttr(dataset1.collections, name1).None? ==> r == Err(FirstNotFound)
    ensures LastWithAttr(dataset1.collections, name1).Some? && LastWithAttr(dataset2.collections, name2).None? ==>
              r == Err(SecondNotFound)
    ensures LastWithAttr(dataset1.collections, name1).Some? && LastWithAttr(dataset2.collections, name2).Some? ==>
              var collection := DiffCollection(LastWithAttr(dataset1.collections, name1).value,
                                               LastWithAttr(dataset2.collections, name2).value, name1, name2, isCategorical);
              var records := if isCategorical then Expanded(Columns(name1, name2, StatusColumn, ""), changes)
                             else Ok(NumericalRecords(name1, name2, Column(dataset1.records, name1), Column(dataset2.records, name2)));
              (records.Err? ==> r == Err(records.error)) &&
              (records.Ok? ==> r == Ok(DataSet([collection], records.value)))
  {
    var attributeData1 := FindAttributeData(dataset1.collections, name1);
    if attributeData1.None? {
      return Err(FirstNotFound);
    }
    var attributeData2 := FindAttributeData(dataset2.collections, name2);
    if attributeData2.None? {
      return Err(SecondNotFound);
    }
    var collection := DiffCollection(attributeData1.value, attributeData2.value, name1, name2, isCategorical);
    var values1 := Column(dataset1.records, name1);
    var values2 := Column(dataset2.records, name2);
    if isCategorical {
      var records := ExpandChanges(Columns(name1, name2, StatusColumn, ""), changes);
      if records.Err? {
        return Err(records.error);
      }
      return Ok(DataSet([collection], records.value));
    }
    var records := DiffRecordsNumerical(name1, name2, values1, values2);
    return Ok(DataSet([collection], records));
  }

  /** The categorical diff of two columns holds both columns: when the
      change list is a diff of the two value columns and the column names
      are distinct, reading the output's first column without the added
      (green) rows gives the first column, and its second column without
      the removed (red) rows the second. */
  lemma CategoricalDiffRecoversColumns(dataset1: DataSet, dataset2: DataSet, name1: string, name2: string,
                                       changes: seq<Change>)
    requires name1 != name2 && name1 != StatusColumn && name2 != StatusColumn
    requires WellFormed(changes)
    requires OldSide(changes) == Column(dataset1.records, name1)
    requires NewSide(changes) == Column(dataset2.records, name2)
    ensures var cols := Columns(name1, name2, StatusColumn, "");
            Expanded(cols, changes).Ok? &&
            Left(cols, Expanded(cols, changes).value) == Column(dataset1.records, name1) &&
            Right(cols, Expanded(cols, changes).value) == Column(dataset2.records, name2)
  {
    ExpandedRecoversColumns(Columns(name1, name2, StatusColumn, ""), changes);
  }
}
