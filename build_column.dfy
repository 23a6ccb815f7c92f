/** src/transformations/buildColumn.ts: adding an attribute whose values
    the host computed from a formula. The values, one per record, and the
    outcome of the type check on them are inputs here. The target
    collection and the records are the dataset's own objects, so the
    method works on a DataContext in place. */
module BuildColumn {
  import opened Wrappers
  import opened Data
  import TransformUtil

  /** The index of the first collection of the given name. */
  function FindCollectionNamed(collections: seq<Collection>, name: string): (r: Option<nat>)
    ensures r.Some? ==> r.value < |collections| && collections[r.value].name == name
    ensures r.Some? ==> forall i :: 0 <= i < r.value ==> collections[i].name != name
    ensures r.None? ==> forall i :: 0 <= i < |collections| ==> collections[i].name != name
  {
    if collections == [] then None
    else if collections[0].name == name then Some(0)
    else match FindCollectionNamed(collections[1..], name)
      case None => None
      case Some(k) => Some(k + 1)
  }

  /** Some collection already has an attribute of this name. */
  predicate NameInUse(collections: seq<Collection>, name: string) {
    exists i :: 0 <= i < |collections| && FindAttr(AttrsOf(collections[i]), name).Some?
  }

  /** The attribute buildColumn adds. */
  function NewAttribute(name: string, expression: string): Attribute {
    NamedAttribute(name).(description := Some("An attribute whose values were computed with the formula " + expression))
  }

  /** Record i with `name` set to values[i]. */
  function WithColumn(records: seq<Record>, name: string, values: seq<Cell>): (r: seq<Record>)
    requires |values| == |records|
    ensures |r| == |records|
    ensures forall i :: 0 <= i < |r| ==> r[i].Keys == records[i].Keys + {name} && r[i][name] == values[i]
    ensures forall i, k :: 0 <= i < |r| && k in records[i] && k != name ==> r[i][k] == records[i][k]
  {
    seq(|records|, i requires 0 <= i < |records| => records[i][name := values[i]])
  }

  /** The scan over every collection's attributes for the new name. */
  method AnyCollectionHolds(collections: seq<Collection>, name: string) returns (inUse: bool)
    ensures inUse == NameInUse(collections, name)
  {
    inUse := false;
    for i := 0 to |collections|
      invariant inUse <==> exists j :: 0 <= j < i && FindAttr(AttrsOf(collections[j]), name).Some?
    {
      if FindAttr(AttrsOf(collections[i]), name).Some? {
        inUse := true;
      }
    }
  }

  /** buildColumn. `typeError` is the error the type check of the values
      reports, if any. */
  method BuildColumn(d: DataContext, newAttributeName: string, collectionName: string, expression: string,
                     colValues: seq<Cell>, typeError: Option<string>) returns (r: Result<DataSet>)
    requires |colValues| == |d.records|
    modifies d
    ensures FindCollectionNamed(old(d.collections), collectionName).None? ==>
              r == Err("Invalid collection name: " + collectionName) && unchanged(d)
    ensures FindCollectionNamed(old(d.collections), collectionName).Some? && NameInUse(old(d.collections), newAttributeName) ==>
              r == Err("Attribute name already in use: " + newAttributeName) && unchanged(d)
    ensures FindCollectionNamed(old(d.collections), collectionName).Some? && !NameInUse(old(d.collections), newAttributeName) ==>
              var k := FindCollectionNamed(old(d.collections), collectionName).value;
              d.collections == old(d.collections)[k := TransformUtil.InsertColumn(old(d.collections)[k], NewAttribute(newAttributeName, expression))] &&
              (typeError.Some? ==> r == Err(typeError.value) && d.records == old(d.records)) &&
              (typeError.None? ==> d.records == WithColumn(old(d.records), newAttributeName, colValues) && r == Ok(d.Value()))
  {
    var toAdd := FindCollectionNamed(d.collections, collectionName);
    if toAdd.None? {
      return Err("Invalid collection name: " + collectionName);
    }
    var k := toAdd.value;
    var inUse := AnyCollectionHolds(d.collections, newAttributeName);
    if inUse {
      return Err("Attribute name already in use: " + newAttributeName);
    }
    d.collections := d.collections[k := TransformUtil.InsertColumn(d.collections[k], NewAttribute(newAttributeName, expression))];
    if typeError.Some? {
      return Err(typeError.value);
    }
    ghost var before := d.records;
    ghost var collections := d.collections;
    for i := 0 to |colValues|
      invariant d.collections == collections
      invariant |d.records| == |before|
      invariant forall j :: 0 <= j < i ==> d.records[j] == before[j][newAttributeName := colValues[j]]
      invariant forall j :: i <= j < |before| ==> d.records[j] == before[j]
    {
      d.records := d.records[i := d.records[i][newAttributeName := colValues[i]]];
    }
    return Ok(d.Value());
  }
}
