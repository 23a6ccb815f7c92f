/** src/transformations/dotProduct.ts: the sum over the records of the
    product of the given attributes' numeric values. */
module DotProduct {
  import opened Wrappers
  import opened Data

  const NoContext := "Please choose a valid dataset to transform."
  const NoAttributes := "Please choose at least one attribute to take the dot product of."
  const ZeroColumns := "Cannot take the dot product of zero columns."
  /** What `reduce` without a seed throws on an empty array. */
  const EmptyReduce := "Reduce of empty array with no initial value"

  /** The numeric value of a field, or the error the product reports for it. */
  function FieldValue(row: Record, attribute: string): Result<real> {
    if Get(row, attribute) == Undef then Err("Invalid attribute name: " + attribute)
    else if NumberOf(Get(row, attribute)).None? then
      Err("Expected number in attribute " + attribute + ", instead got " + ToStr(Get(row, attribute)))
    else Ok(NumberOf(Get(row, attribute)).value)
  }

  /** The numbers the row holds under the attributes, visited from the
      left: the first attribute in order that is undefined or not a number
      is the error. */
  function RowValues(row: Record, attributes: seq<string>): Result<seq<real>> {
    if attributes == [] then Ok([])
    else
      var init :- RowValues(row, attributes[..|attributes| - 1]);
      var value :- FieldValue(row, attributes[|attributes| - 1]);
      Ok(init + [value])
  }

  /** The product of a list of numbers, seed 1, multiplied from the left:
      `((1 * v0) * v1) * ...`. */
  function ProductOf(s: seq<real>): real {
    if s == [] then 1.0 else ProductOf(s[..|s| - 1]) * s[|s| - 1]
  }

  /** The row's `attributes.reduce((product, attribute) => product * value, 1)`. */
  function RowProduct(row: Record, attributes: seq<string>): Result<real> {
    var values :- RowValues(row, attributes);
    Ok(ProductOf(values))
  }

  predicate AllNumeric(row: Record, attributes: seq<string>) {
    forall a :: a in attributes ==> FieldValue(row, a).Ok?
  }

  /** The numbers under the attributes, in order. */
  function FieldValues(row: Record, attributes: seq<string>): (r: seq<real>)
    requires AllNumeric(row, attributes)
    ensures |r| == |attributes|
    ensures forall i :: 0 <= i < |r| ==> FieldValue(row, attributes[i]) == Ok(r[i])
  {
    if attributes == [] then []
    else
      var n := |attributes| - 1;
      assert attributes[n] in attributes;
      assert AllNumeric(row, attributes[..n]) by {
        forall a | a in attributes[..n]
          ensures FieldValue(row, a).Ok?
        {
          assert a in attributes;
        }
      }
      var init := FieldValues(row, attributes[..n]);
      var r := init + [FieldValue(row, attributes[n]).value];
      assert forall i :: 0 <= i < n ==> attributes[..n][i] == attributes[i] && r[i] == init[i];
      assert FieldValue(row, attributes[n]) == Ok(r[n]);
      r
  }

  /** A row's values are defined exactly when every attribute holds a
      number, and are then the numbers in attribute order. */
  lemma {:induction false} RowValuesSpec(row: Record, attributes: seq<string>)
    ensures RowValues(row, attributes).Ok? <==> AllNumeric(row, attributes)
    ensures RowValues(row, attributes).Ok? ==> RowValues(row, attributes).value == FieldValues(row, attributes)
  {
    if attributes != [] {
      var n := |attributes| - 1;
      assert attributes == attributes[..n] + [attributes[n]];
      RowValuesSpec(row, attributes[..n]);
    }
  }

  /** A row's product is defined exactly when every attribute holds a
      number, and is then the product of those numbers. */
  lemma RowProductSpec(row: Record, attributes: seq<string>)
    ensures RowProduct(row, attributes).Ok? <==> AllNumeric(row, attributes)
    ensures RowProduct(row, attributes).Ok? ==> RowProduct(row, attributes).value == ProductOf(FieldValues(row, attributes))
  {
    RowValuesSpec(row, attributes);
  }

  /** `records.map(...)`: each row's product, in order; the first failing
      row's error otherwise. */
  function RowProducts(records: seq<Record>, attributes: seq<string>): (r: Result<seq<real>>)
    ensures r.Ok? ==> |r.value| == |records|
    ensures r.Ok? ==> forall i :: 0 <= i < |records| ==> RowProduct(records[i], attributes) == Ok(r.value[i])
    ensures r.Err? <==> exists i :: 0 <= i < |records| && RowProduct(records[i], attributes).Err?
  {
    if records == [] then Ok([])
    else
      var n := |records| - 1;
      assert forall i :: 0 <= i < n ==> records[..n][i] == records[i];
      var init :- RowProducts(records[..n], attributes);
      var last :- RowProduct(records[n], attributes);
      Ok(init + [last])
  }

  /** `reduce((a, b) => a + b)` without a seed: the first element, then each
      next one added on the right. */
  function ReduceSum(s: seq<real>): real
    requires s != []
  {
    if |s| == 1 then s[0] else ReduceSum(s[..|s| - 1]) + s[|s| - 1]
  }

  /** The sum of a list, taken from the right with seed 0. */
  function SumOf(s: seq<real>): real {
    if s == [] then 0.0 else s[0] + SumOf(s[1..])
  }

  lemma {:induction false} SumOfSnoc(s: seq<real>, x: real)
    ensures SumOf(s + [x]) == SumOf(s) + x
  {
    if s != [] {
      assert (s + [x])[1..] == s[1..] + [x];
      SumOfSnoc(s[1..], x);
    }
  }

  /** Reducing without a seed sums the list. */
  lemma {:induction false} ReduceSumIsSum(s: seq<real>)
    requires s != []
    ensures ReduceSum(s) == SumOf(s)
  {
    if |s| > 1 {
      var init := s[..|s| - 1];
      ReduceSumIsSum(init);
      assert s == init + [s[|s| - 1]];
      SumOfSnoc(init, s[|s| - 1]);
    } else {
      assert s[1..] == [];
    }
  }

  /** uncheckedDotProduct. */
  function UncheckedDotProduct(dataset: DataSet, attributes: seq<string>): Result<real> {
    if attributes == [] then Err(ZeroColumns)
    else
      var products :- RowProducts(dataset.records, attributes);
      if products == [] then Err(EmptyReduce) else Ok(ReduceSum(products))
  }

  /** The dot product is defined exactly when there is an attribute, a
      record, and every record holds a number under every attribute; it is
      then the sum of the row products. */
  lemma DotProductSpec(dataset: DataSet, attributes: seq<string>)
    ensures UncheckedDotProduct(dataset, attributes).Ok? <==>
              attributes != [] && dataset.records != [] &&
              forall i :: 0 <= i < |dataset.records| ==> AllNumeric(dataset.records[i], attributes)
    ensures UncheckedDotProduct(dataset, attributes).Ok? ==>
              UncheckedDotProduct(dataset, attributes).value == SumOf(RowProducts(dataset.records, attributes).value) &&
              forall i :: 0 <= i < |dataset.records| ==>
                RowProducts(dataset.records, attributes).value[i] == ProductOf(FieldValues(dataset.records[i], attributes))
  {
    forall i | 0 <= i < |dataset.records| {
      RowProductSpec(dataset.records[i], attributes);
    }
    if UncheckedDotProduct(dataset, attributes).Ok? {
      ReduceSumIsSum(RowProducts(dataset.records, attributes).value);
    }
  }

  /** dotProductTable: one collection "Cases" with the single attribute
      "Dot Product" and one record holding the result. */
  function DotProductTable(dataset: DataSet, attributes: seq<string>): (r: Result<DataSet>)
    ensures r.Ok? <==> UncheckedDotProduct(dataset, attributes).Ok?
    ensures r.Err? ==> r.error == UncheckedDotProduct(dataset, attributes).error
    ensures r.Ok? ==> r.value.records == [map["Dot Product" := Num(UncheckedDotProduct(dataset, attributes).value)]]
    ensures r.Ok? ==> |r.value.collections| == 1 && r.value.collections[0].name == "Cases" &&
                      r.value.collections[0].attrs == Some([NamedAttribute("Dot Product")])
  {
    var product :- UncheckedDotProduct(dataset, attributes);
    Ok(DataSet([Collection("Cases", None, None, Some([NamedAttribute("Dot Product")]), Some(map[]))],
               [map["Dot Product" := Num(product)]]))
  }

  /** dotProduct: the argument checks, then the product and its name. */
  function DotProductTransform(contextName: Option<string>, attributes: seq<string>, readable: string,
                               dataset: DataSet): (r: Result<(real, string)>)
    ensures contextName.None? ==> r == Err(NoContext)
    ensures contextName.Some? && attributes == [] ==> r == Err(NoAttributes)
    ensures contextName.Some? && attributes != [] ==>
              (r.Ok? <==> UncheckedDotProduct(dataset, attributes).Ok?) &&
              (r.Err? ==> r.error == UncheckedDotProduct(dataset, attributes).error) &&
              (r.Ok? ==> r.value == (UncheckedDotProduct(dataset, attributes).value, "Dot Product of " + readable))
  {
    if contextName.None? then Err(NoContext)
    else if attributes == [] then Err(NoAttributes)
    else
      var product :- UncheckedDotProduct(dataset, attributes);
      Ok((product, "Dot Product of " + readable))
  }
}
