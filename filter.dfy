/** src/transformations/filter.ts: keeping the records for which a
    predicate evaluated to true. The host evaluates the predicate; its
    values, one per record, are an input here. */
module Filter {
  import opened Wrappers
  import opened Data
  import Numerals
  import Sequences

  const NoContext := "Please choose a valid dataset to transform."
  const EmptyPredicate := "Please enter a non-empty expression to filter by"

  /** The error for a predicate value at 0-based index `i` that is not a
      boolean; cases are counted from 1 in the message. */
  function NotBooleanError(value: Cell, i: nat): string {
    "Expected predicate to evaluate to true/false, but it evaluated to " + ToStr(value)
      + " at case " + Numerals.NatToString(i + 1)
  }

  /** The index of the first predicate value that is not a boolean. */
  function FirstNotBoolean(values: seq<Cell>): (r: Option<nat>)
    ensures r.Some? ==> r.value < |values| && !values[r.value].Bool?
    ensures r.Some? ==> forall i :: 0 <= i < r.value ==> values[i].Bool?
    ensures r.None? ==> forall i :: 0 <= i < |values| ==> values[i].Bool?
  {
    if values == [] then None
    else if !values[0].Bool? then Some(0)
    else match FirstNotBoolean(values[1..])
      case None => None
      case Some(k) => Some(k + 1)
  }

  /** A non-boolean value after boolean ones is the first non-boolean. */
  lemma FirstNotBooleanAt(values: seq<Cell>, i: nat)
    requires i < |values| && !values[i].Bool?
    requires forall j :: 0 <= j < i ==> values[j].Bool?
    ensures FirstNotBoolean(values) == Some(i)
  {
  }

  /** The records whose predicate value is true, in order. */
  function Kept(records: seq<Record>, values: seq<Cell>): (r: seq<Record>)
    requires |values| == |records|
    ensures |r| <= |records|
  {
    if records == [] then []
    else
      var n := |records| - 1;
      Kept(records[..n], values[..n]) + (if values[n] == Bool(true) then [records[n]] else [])
  }

  /** The predicate value that keeps a record. */
  predicate IsTrue(v: Cell) {
    v == Bool(true)
  }

  /** The kept records are, in order and each once, the records at the
      positions whose value is true. */
  lemma {:induction false} KeptInOrder(records: seq<Record>, values: seq<Cell>)
    requires |values| == |records|
    ensures var p := Sequences.Positions(values, IsTrue);
            |Kept(records, values)| == |p| &&
            forall k :: 0 <= k < |p| ==> Kept(records, values)[k] == records[p[k]]
    decreases |records|
  {
    if records != [] {
      var n := |records| - 1;
      KeptInOrder(records[..n], values[..n]);
      var p0 := Sequences.Positions(values[..n], IsTrue);
      var prefix := Kept(records[..n], values[..n]);
      assert Sequences.Positions(values, IsTrue) == p0 + (if IsTrue(values[n]) then [n] else []);
      assert Kept(records, values) == prefix + (if IsTrue(values[n]) then [records[n]] else []);
      forall k | 0 <= k < |p0|
        ensures prefix[k] == records[p0[k]]
      {
        assert records[..n][p0[k]] == records[p0[k]];
      }
    }
  }

  /** With all values true every record is kept, with all false none. */
  lemma {:induction false} KeptAllOrNone(records: seq<Record>, values: seq<Cell>)
    requires |values| == |records|
    ensures (forall i :: 0 <= i < |values| ==> values[i] == Bool(true)) ==> Kept(records, values) == records
    ensures (forall i :: 0 <= i < |values| ==> values[i] == Bool(false)) ==> Kept(records, values) == []
  {
    if records != [] {
      var n := |records| - 1;
      KeptAllOrNone(records[..n], values[..n]);
      var prefix := Kept(records[..n], values[..n]);
      assert Kept(records, values) == prefix + (if values[n] == Bool(true) then [records[n]] else []);
      if forall i :: 0 <= i < |values| ==> values[i] == Bool(true) {
        assert forall i :: 0 <= i < n ==> values[..n][i] == Bool(true);
        assert prefix == records[..n];
        assert records == records[..n] + [records[n]];
      }
      if forall i :: 0 <= i < |values| ==> values[i] == Bool(false) {
        assert forall i :: 0 <= i < n ==> values[..n][i] == Bool(false);
        assert prefix == [];
      }
    }
  }

  /** A record is kept exactly when some position holding it has the value
      true. */
  lemma {:induction false} KeptSpec(records: seq<Record>, values: seq<Cell>)
    requires |values| == |records|
    ensures forall r :: r in Kept(records, values) <==> exists i :: 0 <= i < |records| && values[i] == Bool(true) && records[i] == r
  {
    if records != [] {
      var n := |records| - 1;
      KeptSpec(records[..n], values[..n]);
      var prefix := Kept(records[..n], values[..n]);
      assert Kept(records, values) == prefix + (if values[n] == Bool(true) then [records[n]] else []);
      forall r | r in Kept(records, values)
        ensures exists i :: 0 <= i < |records| && values[i] == Bool(true) && records[i] == r
      {
        if r in prefix {
          var i :| 0 <= i < n && values[..n][i] == Bool(true) && records[..n][i] == r;
          assert values[i] == Bool(true) && records[i] == r;
        } else {
          assert values[n] == Bool(true) && records[n] == r;
        }
      }
      forall r | exists i :: 0 <= i < |records| && values[i] == Bool(true) && records[i] == r
        ensures r in Kept(records, values)
      {
        var i :| 0 <= i < |records| && values[i] == Bool(true) && records[i] == r;
        if i < n {
          assert values[..n][i] == Bool(true) && records[..n][i] == r;
        }
      }
    }
  }

  /** uncheckedFilter as a value: the first non-boolean predicate value is
      an error; otherwise the collections with the kept records. */
  function Filtered(dataset: DataSet, values: seq<Cell>): Result<DataSet>
    requires |values| == |dataset.records|
  {
    match FirstNotBoolean(values)
    case Some(i) => Err(NotBooleanError(values[i], i))
    case None => Ok(DataSet(dataset.collections, Kept(dataset.records, values)))
  }

  /** uncheckedFilter: the loop over the predicate values. */
  method UncheckedFilter(dataset: DataSet, predValues: seq<Cell>) returns (r: Result<DataSet>)
    requires |predValues| == |dataset.records|
    ensures r == Filtered(dataset, predValues)
  {
    var filteredRecords: seq<Record> := [];
    for i := 0 to |predValues|
      invariant forall j :: 0 <= j < i ==> predValues[j].Bool?
      invariant filteredRecords == Kept(dataset.records[..i], predValues[..i])
    {
      var value := predValues[i];
      if value != Bool(true) && value != Bool(false) {
        FirstNotBooleanAt(predValues, i);
        return Err(NotBooleanError(value, i));
      }
      assert dataset.records[..i + 1][..i] == dataset.records[..i];
      assert predValues[..i + 1][..i] == predValues[..i];
      if value == Bool(true) {
        filteredRecords := filteredRecords + [dataset.records[i]];
      }
    }
    assert dataset.records[..|predValues|] == dataset.records;
    assert predValues[..|predValues|] == predValues;
    return Ok(DataSet(dataset.collections, filteredRecords));
  }

  /** filter: the argument checks, then the filtered dataset with its name
      and description. `contextName` is None for no chosen dataset;
      `readable` is the readable name of the context, and `dataset` and
      `predValues` what the host returns for it. */
  method FilterTransform(contextName: Option<string>, pred: string, readable: string,
                         dataset: DataSet, predValues: seq<Cell>) returns (r: Result<(DataSet, string, string)>)
    requires |predValues| == |dataset.records|
    ensures contextName.None? ==> r == Err(NoContext)
    ensures contextName.Some? && pred == "" ==> r == Err(EmptyPredicate)
    ensures contextName.Some? && pred != "" ==>
              (Filtered(dataset, predValues).Err? ==> r == Err(Filtered(dataset, predValues).error)) &&
              (Filtered(dataset, predValues).Ok? ==> r == Ok((Filtered(dataset, predValues).value,
                 "Filter of " + readable,
                 "A copy of " + readable + " that only includes the cases for which the predicate `" + pred + "` is true.")))
  {
    if contextName.None? {
      return Err(NoContext);
    }
    if pred == "" {
      return Err(EmptyPredicate);
    }
    var filtered := UncheckedFilter(dataset, predValues);
    if filtered.Err? {
      return Err(filtered.error);
    }
    return Ok((filtered.value, "Filter of " + readable,
      "A copy of " + readable + " that only includes the cases for which the predicate `" + pred + "` is true."));
  }
}
