/** Expanding a change list of the `diff` library into comparison records.
    src/transformations/diff.ts (`diffRecordsCategorical`) and
    src/transformers/compare.ts (`compareRecordsStructural`) run the same
    loop; they differ only in the status column's name and in the status
    given to values common to both sides, which are parameters here. The
    change list itself, what `diffArrays` returns, is an input. */
module Changes {
  import opened Wrappers
  import opened Data

  const Green := "rgb(0,255,0)"
  const Red := "rgb(255,0,0)"
  const Grey := "rgb(100,100,100)"
  const UnknownCount := "Change object had unknown count"

  /** One change object: a run of `count` values that were removed from the
      first column, added in the second, or common to both. */
  datatype Change = Change(value: seq<Cell>, count: Option<nat>, added: bool, removed: bool)

  /** The output columns: the two value columns, the status column, and the
      status of a common value. */
  datatype Columns = Columns(name1: string, name2: string, status: string, common: string)

  /** `!change.count` is false: the count is present and not 0. */
  predicate Counted(c: Change) {
    c.count.Some? && c.count.value != 0
  }

  /** The j-th record of a change. A removed value sits in the first column
      only (red), an added one in the second only (green), a common one in
      both. */
  function ChangeRecord(cols: Columns, c: Change, j: nat): Record {
    if c.removed then
      map[cols.name1 := At(c.value, j)][cols.name2 := Str("")][cols.status := Str(Red)]
    else if c.added then
      map[cols.name1 := Str("")][cols.name2 := At(c.value, j)][cols.status := Str(Green)]
    else
      map[cols.name1 := At(c.value, j)][cols.name2 := At(c.value, j)][cols.status := Str(cols.common)]
  }

  /** The records of one change, one per counted value. */
  function ChangeBlock(cols: Columns, c: Change): (r: seq<Record>)
    requires c.count.Some?
    ensures |r| == c.count.value
    ensures forall j :: 0 <= j < |r| ==> r[j] == ChangeRecord(cols, c, j)
  {
    seq(c.count.value, j requires 0 <= j < c.count.value => ChangeRecord(cols, c, j))
  }

  /** The records of a change list, change by change; a change without a
      count is an error. */
  function Expanded(cols: Columns, changes: seq<Change>): Result<seq<Record>> {
    if changes == [] then Ok([])
    else
      var n := |changes| - 1;
      var init :- Expanded(cols, changes[..n]);
      if !Counted(changes[n]) then Err(UnknownCount)
      else Ok(init + ChangeBlock(cols, changes[n]))
  }

  /** The sum of the counts of a list of counted changes. */
  function TotalCount(changes: seq<Change>): nat
    requires forall c :: c in changes ==> Counted(c)
  {
    if changes == [] then 0
    else
      var n := |changes| - 1;
      assert changes[n] in changes && Counted(changes[n]);
      assert forall c :: c in changes[..n] ==> c in changes;
      TotalCount(changes[..n]) + changes[n].count.value
  }

  /** The expansion fails exactly when some change has no count, and
      otherwise holds one record per counted value. */
  lemma {:induction false} ExpandedSize(cols: Columns, changes: seq<Change>)
    ensures Expanded(cols, changes).Ok? <==> forall c :: c in changes ==> Counted(c)
    ensures Expanded(cols, changes).Err? ==> Expanded(cols, changes).error == UnknownCount
    ensures Expanded(cols, changes).Ok? ==> |Expanded(cols, changes).value| == TotalCount(changes)
  {
    if changes != [] {
      var n := |changes| - 1;
      assert changes == changes[..n] + [changes[n]];
      ExpandedSize(cols, changes[..n]);
    }
  }

  /** diffRecordsCategorical / compareRecordsStructural: the nested loops. */
  method ExpandChanges(cols: Columns, changes: seq<Change>) returns (r: Result<seq<Record>>)
    ensures r == Expanded(cols, changes)
  {
    var records: seq<Record> := [];
    for i := 0 to |changes|
      invariant Expanded(cols, changes[..i]) == Ok(records)
    {
      var change := changes[i];
      assert changes[..i + 1][..i] == changes[..i];
      if change.count.None? || change.count.value == 0 {
        assert change in changes;
        ExpandedSize(cols, changes);
        return Err(UnknownCount);
      }
      ghost var before := records;
      for j := 0 to change.count.value
        invariant records == before + ChangeBlock(cols, change)[..j]
      {
        records := records + [ChangeRecord(cols, change, j)];
      }
      assert ChangeBlock(cols, change)[..change.count.value] == ChangeBlock(cols, change);
    }
    assert changes[..|changes|] == changes;
    return Ok(records);
  }

  /** A well-formed change list, as `diffArrays` produces: every change
      counts exactly its non-empty value list and is not both added and
      removed. */
  predicate WellFormed(changes: seq<Change>) {
    forall c :: c in changes ==> c.count == Some(|c.value|) && |c.value| > 0 && !(c.added && c.removed)
  }

  /** The first column the change list describes: removed and common runs. */
  function OldSide(changes: seq<Change>): seq<Cell> {
    if changes == [] then []
    else
      var c := changes[|changes| - 1];
      OldSide(changes[..|changes| - 1]) + (if c.added then [] else c.value)
  }

  /** The second column the change list describes: added and common runs. */
  function NewSide(changes: seq<Change>): seq<Cell> {
    if changes == [] then []
    else
      var c := changes[|changes| - 1];
      NewSide(changes[..|changes| - 1]) + (if c.removed then [] else c.value)
  }

  /** The first column of the output, skipping the green (added) rows. */
  function Left(cols: Columns, rs: seq<Record>): seq<Cell> {
    if rs == [] then []
    else
      var r := rs[|rs| - 1];
      Left(cols, rs[..|rs| - 1]) + (if Get(r, cols.status) == Str(Green) then [] else [Get(r, cols.name1)])
  }

  /** The second column of the output, skipping the red (removed) rows. */
  function Right(cols: Columns, rs: seq<Record>): seq<Cell> {
    if rs == [] then []
    else
      var r := rs[|rs| - 1];
      Right(cols, rs[..|rs| - 1]) + (if Get(r, cols.status) == Str(Red) then [] else [Get(r, cols.name2)])
  }

  /** Three distinct column names, and a common status that is neither red
      nor green. */
  predicate Distinct(cols: Columns) {
    cols.name1 != cols.name2 && cols.name1 != cols.status && cols.name2 != cols.status &&
    cols.common != Green && cols.common != Red
  }

  lemma {:induction false} LeftRightAppend(cols: Columns, a: seq<Record>, b: seq<Record>)
    ensures Left(cols, a + b) == Left(cols, a) + Left(cols, b)
    ensures Right(cols, a + b) == Right(cols, a) + Right(cols, b)
  {
    if b != [] {
      var n := |b| - 1;
      var ab := a + b;
      var r := b[n];
      assert ab[..|ab| - 1] == a + b[..n];
      assert ab[|ab| - 1] == r;
      LeftRightAppend(cols, a, b[..n]);
      var l := if Get(r, cols.status) == Str(Green) then [] else [Get(r, cols.name1)];
      assert Left(cols, b) == Left(cols, b[..n]) + l;
      assert Left(cols, ab) == Left(cols, a + b[..n]) + l;
      var rr := if Get(r, cols.status) == Str(Red) then [] else [Get(r, cols.name2)];
      assert Right(cols, b) == Right(cols, b[..n]) + rr;
      assert Right(cols, ab) == Right(cols, a + b[..n]) + rr;
    } else {
      assert a + b == a;
    }
  }

  /** What each column of a change's j-th record holds. */
  lemma RecordColumns(cols: Columns, c: Change, j: nat)
    requires Distinct(cols)
    ensures var r := ChangeRecord(cols, c, j);
            Get(r, cols.status) == Str(if c.removed then Red else if c.added then Green else cols.common) &&
            Get(r, cols.name1) == (if c.added && !c.removed then Str("") else At(c.value, j)) &&
            Get(r, cols.name2) == (if c.removed then Str("") else At(c.value, j))
  {
  }

  lemma LeftSnoc(cols: Columns, rs: seq<Record>, r: Record)
    ensures Left(cols, rs + [r]) == Left(cols, rs) + (if Get(r, cols.status) == Str(Green) then [] else [Get(r, cols.name1)])
  {
    var s := rs + [r];
    assert s[..|s| - 1] == rs;
  }

  lemma RightSnoc(cols: Columns, rs: seq<Record>, r: Record)
    ensures Right(cols, rs + [r]) == Right(cols, rs) + (if Get(r, cols.status) == Str(Red) then [] else [Get(r, cols.name2)])
  {
    var s := rs + [r];
    assert s[..|s| - 1] == rs;
  }

  /** A record of a change of the given kind showing value `v`: what
      `RecordColumns` says each column holds. */
  predicate Shows(cols: Columns, r: Record, v: Cell, added: bool, removed: bool) {
    Get(r, cols.status) == Str(if removed then Red else if added then Green else cols.common) &&
    Get(r, cols.name1) == (if added && !removed then Str("") else v) &&
    Get(r, cols.name2) == (if removed then Str("") else v)
  }

  /** The columns of a run of records showing `values`: the first column
      holds them unless the run was added, the second unless it was
      removed. */
  lemma {:induction false} RunColumns(cols: Columns, rs: seq<Record>, values: seq<Cell>, added: bool, removed: bool)
    requires Distinct(cols) && !(added && removed) && |rs| == |values|
    requires forall k :: 0 <= k < |rs| ==> Shows(cols, rs[k], values[k], added, removed)
    ensures Left(cols, rs) == (if added then [] else values)
    ensures Right(cols, rs) == (if removed then [] else values)
  {
    if rs != [] {
      var n := |rs| - 1;
      assert rs == rs[..n] + [rs[n]];
      assert values == values[..n] + [values[n]];
      RunColumns(cols, rs[..n], values[..n], added, removed);
      LeftSnoc(cols, rs[..n], rs[n]);
      RightSnoc(cols, rs[..n], rs[n]);
    }
  }

  /** The output holds both input columns: reading the first column without
      the added rows gives the old side of the change list, and reading the
      second without the removed rows gives the new side. When the change
      list is the diff of two columns, these are the two columns. */
  lemma {:induction false} ExpandedRecoversColumns(cols: Columns, changes: seq<Change>)
    requires Distinct(cols) && WellFormed(changes)
    ensures Expanded(cols, changes).Ok?
    ensures Left(cols, Expanded(cols, changes).value) == OldSide(changes)
    ensures Right(cols, Expanded(cols, changes).value) == NewSide(changes)
  {
    if changes != [] {
      var n := |changes| - 1;
      var c := changes[n];
      assert c in changes;
      assert forall d :: d in changes[..n] ==> d in changes;
      ExpandedRecoversColumns(cols, changes[..n]);
      var init := Expanded(cols, changes[..n]).value;
      var block := ChangeBlock(cols, c);
      LeftRightAppend(cols, init, block);
      forall k | 0 <= k < |block|
        ensures Shows(cols, block[k], c.value[k], c.added, c.removed)
      {
        RecordColumns(cols, c, k);
      }
      RunColumns(cols, block, c.value, c.added, c.removed);
    }
  }
}
