/** src/transformations/transformColumn.ts: replacing an attribute's values
    by values the host computed from a formula. The values, one per
    record, and the outcome of the type check on them are inputs here. The
    records and attributes are the dataset's own objects, so the method
    works on a DataContext in place. */
module TransformColumn {
  import opened Wrappers
  import opened Data
  import Join

  /** The index of the first record without a defined value for `name`. */
  function FirstLacking(records: seq<Record>, name: string): (r: Option<nat>)
    ensures r.Some? ==> r.value < |records| && Get(records[r.value], name) == Undef
    ensures r.Some? ==> forall i :: 0 <= i < r.value ==> Get(records[i], name) != Undef
    ensures r.None? ==> forall i :: 0 <= i < |records| ==> Get(records[i], name) != Undef
  {
    if records == [] then None
    else if Get(records[0], name) == Undef then Some(0)
    else match FirstLacking(records[1..], name)
      case None => None
      case Some(k) => Some(k + 1)
  }

  /** The first `n` records with `name` replaced by their value. */
  function Replaced(records: seq<Record>, name: string, values: seq<Cell>, n: nat): (r: seq<Record>)
    requires |values| == |records| && n <= |records|
    ensures |r| == |records|
    ensures forall i :: 0 <= i < n ==> r[i].Keys == records[i].Keys + {name} && r[i][name] == values[i]
    ensures forall i, k :: 0 <= i < n && k in records[i] && k != name ==> r[i][k] == records[i][k]
    ensures forall i :: n <= i < |r| ==> r[i] == records[i]
  {
    seq(|records|, i requires 0 <= i < |records| => if i < n then records[i][name := values[i]] else records[i])
  }

  /** Replacing one more record extends the replaced prefix by one. */
  lemma ReplacedStep(records: seq<Record>, name: string, values: seq<Cell>, n: nat)
    requires |values| == |records| && n < |records|
    ensures Replaced(records, name, values, n + 1) ==
              Replaced(records, name, values, n)[n := records[n][name := values[n]]]
  {
  }

  /** A record lacking the attribute after defined ones is the first
      lacking it. */
  lemma FirstLackingAt(records: seq<Record>, name: string, i: nat)
    requires i < |records| && Get(records[i], name) == Undef
    requires forall j :: 0 <= j < i ==> Get(records[j], name) != Undef
    ensures FirstLacking(records, name) == Some(i)
  {
  }

  function TransformedDescription(name: string, expression: string): string {
    "The " + name + " attribute, transformed by the formula " + expression
  }

  /** Only the first collection holding the attribute changes: its first
      attribute of that name loses its formula and gets a new description. */
  function Described(collections: seq<Collection>, name: string, expression: string): (r: seq<Collection>)
    ensures |r| == |collections|
    ensures Join.FindCollectionWithAttr(collections, name).None? ==> r == collections
    ensures Join.FindCollectionWithAttr(collections, name).Some? ==>
              var k := Join.FindCollectionWithAttr(collections, name).value;
              var j := FindAttr(AttrsOf(collections[k]), name).value;
              (forall i :: 0 <= i < |r| && i != k ==> r[i] == collections[i]) &&
              r[k] == collections[k].(attrs := Some(AttrsOf(collections[k])[j := AttrsOf(collections[k])[j].(
                        formula := None, description := Some(TransformedDescription(name, expression)))]))
  {
    match Join.FindCollectionWithAttr(collections, name)
    case None => collections
    case Some(k) =>
      var attrs := AttrsOf(collections[k]);
      var j := FindAttr(attrs, name).value;
      collections[k := collections[k].(attrs := Some(attrs[j := attrs[j].(
        formula := None, description := Some(TransformedDescription(name, expression)))]))]
  }

  /** The change `Described` makes when collection i is the first holding
      the attribute. */
  lemma DescribedAt(collections: seq<Collection>, name: string, expression: string, i: nat)
    requires i < |collections| && FindAttr(AttrsOf(collections[i]), name).Some?
    requires forall n :: 0 <= n < i ==> FindAttr(AttrsOf(collections[n]), name).None?
    ensures var attrs := AttrsOf(collections[i]);
            var j := FindAttr(attrs, name).value;
            Described(collections, name, expression) ==
              collections[i := collections[i].(attrs := Some(attrs[j := attrs[j].(
                formula := None, description := Some(TransformedDescription(name, expression)))]))]
  {
    assert Join.FindCollectionWithAttr(collections, name) == Some(i);
  }

  /** The loop over the collections, stopping at the first one holding the
      attribute. */
  method DescribeTransformed(collections: seq<Collection>, attributeName: string, expression: string)
    returns (r: seq<Collection>)
    ensures r == Described(collections, attributeName, expression)
  {
    r := collections;
    var i := 0;
    var done := false;
    while i < |collections| && !done
      invariant i <= |collections|
      invariant forall n :: 0 <= n < i ==> FindAttr(AttrsOf(collections[n]), attributeName).None?
      invariant !done ==> r == collections
      invariant done ==> r == Described(collections, attributeName, expression)
      decreases |collections| - i, if done then 0 else 1
    {
      var attr := FindAttr(AttrsOf(collections[i]), attributeName);
      if attr.Some? {
        DescribedAt(collections, attributeName, expression, i);
        var attrs := AttrsOf(collections[i]);
        var j := attr.value;
        r := collections[i := collections[i].(attrs := Some(attrs[j := attrs[j].(
          formula := None, description := Some(TransformedDescription(attributeName, expression)))]))];
        done := true;
      } else {
        i := i + 1;
      }
    }
    if !done {
      assert Join.FindCollectionWithAttr(collections, attributeName).None?;
    }
  }

  /** transformColumn. `typeError` is the error the type check of the
      values reports, if any. A record lacking the attribute stops the loop
      with the records before it already changed. */
  method TransformColumn(d: DataContext, attributeName: string, expression: string,
                         exprValues: seq<Cell>, typeError: Option<string>) returns (r: Result<DataSet>)
    requires |exprValues| == |d.records|
    modifies d
    ensures typeError.Some? ==> r == Err(typeError.value) && unchanged(d)
    ensures typeError.None? && FirstLacking(old(d.records), attributeName).Some? ==>
              r == Err("Invalid attribute to transform: " + attributeName) &&
              d.collections == old(d.collections) &&
              d.records == Replaced(old(d.records), attributeName, exprValues, FirstLacking(old(d.records), attributeName).value)
    ensures typeError.None? && FirstLacking(old(d.records), attributeName).None? ==>
              d.records == Replaced(old(d.records), attributeName, exprValues, |exprValues|) &&
              d.collections == Described(old(d.collections), attributeName, expression) &&
              r == Ok(d.Value())
  {
    if typeError.Some? {
      return Err(typeError.value);
    }
    ghost var before := d.records;
    for i := 0 to |exprValues|
      invariant forall j :: 0 <= j < i ==> Get(before[j], attributeName) != Undef
      invariant d.records == Replaced(before, attributeName, exprValues, i)
      invariant d.collections == old(d.collections)
    {
      var record := d.records[i];
      if Get(record, attributeName) == Undef {
        FirstLackingAt(before, attributeName, i);
        return Err("Invalid attribute to transform: " + attributeName);
      }
      ReplacedStep(before, attributeName, exprValues, i);
      d.records := d.records[i := record[attributeName := exprValues[i]]];
    }
    d.collections := DescribeTransformed(d.collections, attributeName, expression);
    return Ok(d.Value());
  }
}
