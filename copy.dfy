/** src/transformations/copy.ts: a dataset identical to the original. */
module Copy {
  import opened Wrappers
  import opened Data

  const NoContext := "Please choose a valid dataset to transform."

  /** uncheckedCopy: fresh arrays holding the same collections and records. */
  function UncheckedCopy(dataset: DataSet): (r: DataSet)
    ensures |r.collections| == |dataset.collections|
    ensures forall i :: 0 <= i < |r.collections| ==> r.collections[i] == dataset.collections[i]
    ensures |r.records| == |dataset.records|
    ensures forall i :: 0 <= i < |r.records| ==> r.records[i] == dataset.records[i]
  {
    DataSet(dataset.collections[..], dataset.records[..])
  }

  /** Copying a copy gives the same dataset as copying once. */
  lemma CopyIdempotent(dataset: DataSet)
    ensures UncheckedCopy(UncheckedCopy(dataset)) == UncheckedCopy(dataset)
    ensures UncheckedCopy(dataset) == dataset
  {
  }

  /** copy: the null check, then the copy and its name. */
  function CopyTransform(contextName: Option<string>, readable: string, dataset: DataSet): (r: Result<(DataSet, string)>)
    ensures r.Err? <==> contextName.None?
    ensures r.Err? ==> r.error == NoContext
    ensures r.Ok? ==> r.value.0 == dataset && r.value.1 == "Copy of " + readable
  {
    if contextName.None? then Err(NoContext) else Ok((UncheckedCopy(dataset), "Copy of " + readable))
  }
}
