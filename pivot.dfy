/** src/transformations/pivot.ts: pivoting a single-collection dataset
    longer (attribute names become values) and wider (values become
    attribute names). */
module Pivot {
  import opened Wrappers
  import opened Data
  import Sequences

  /** `record` without the listed keys. */
  function Without(record: Record, fields: seq<string>): (r: Record)
    ensures r.Keys == record.Keys - set f | f in fields
    ensures forall k :: k in r ==> r[k] == record[k]
  {
    map k | k in record && k !in fields :: record[k]
  }

  /** removeFields on a copy of the record: delete the listed keys one by one. */
  method RemoveFields(record: Record, fields: seq<string>) returns (r: Record)
    ensures r == Without(record, fields)
  {
    r := record;
    for i := 0 to |fields|
      invariant r == Without(record, fields[..i])
    {
      assert fields[..i + 1] == fields[..i] + [fields[i]];
      r := r - {fields[i]};
    }
    assert fields[..|fields|] == fields;
  }

  /** The records agree, by strict equality, on every key of `recA` outside
      `except`. `except` holds values, and a key is skipped only when it
      equals one of them as a string. */
  predicate AgreeOutside(recA: Record, recB: Record, except: seq<Cell>) {
    forall k :: k in recA && Str(k) !in except ==> Get(recB, k) == recA[k]
  }

  /** equivExcept: a loop over the keys of `recA` that returns early on the
      first disagreement. */
  method EquivExcept(recA: Record, recB: Record, except: seq<Cell>) returns (b: bool)
    ensures b == AgreeOutside(recA, recB, except)
  {
    var keys := recA.Keys;
    while keys != {}
      invariant keys <= recA.Keys
      invariant forall k :: k in recA && k !in keys && Str(k) !in except ==> Get(recB, k) == recA[k]
      decreases keys
    {
      var k :| k in keys;
      if Str(k) !in except && recA[k] != Get(recB, k) {
        return false;
      }
      keys := keys - {k};
    }
    return true;
  }

  function NameNotIn(names: seq<string>): Attribute -> bool {
    (attr: Attribute) => attr.name !in names
  }

  /** The attributes whose names are not listed. */
  function AttrsNotNamed(attrs: seq<Attribute>, names: seq<string>): (r: seq<Attribute>)
    ensures |r| <= |attrs|
    ensures forall a :: a in r <==> a in attrs && a.name !in names
  {
    Sequences.FilterMembers(attrs, NameNotIn(names));
    Sequences.Filter(attrs, NameNotIn(names))
  }

  /** The attributes not listed keep their order. */
  lemma AttrsNotNamedInOrder(attrs: seq<Attribute>, names: seq<string>)
    ensures Sequences.IsFilter(AttrsNotNamed(attrs, names), attrs, NameNotIn(names))
  {
    Sequences.FilterInOrder(attrs, NameNotIn(names));
  }

  // ---- pivotLonger ----

  /** The attributes after pivoting longer: the originals minus the pivoted
      ones with formulas cleared, then `namesTo` (categorical), then `valuesTo`. */
  function LongerAttrs(collection: Collection, toPivot: seq<string>, namesTo: string, valuesTo: string): seq<Attribute> {
    var kept := AttrsNotNamed(if collection.attrs.Some? then collection.attrs.value else [], toPivot);
    EraseFormulas(kept) + [NamedAttribute(namesTo).(attrType := Some("categorical")), NamedAttribute(valuesTo)]
  }

  /** The long record made from `record` for the pivoted attribute `attr`. */
  function LongRecord(record: Record, toPivot: seq<string>, namesTo: string, valuesTo: string, attr: string): Record {
    Without(record, toPivot)[namesTo := Str(attr)][valuesTo := Get(record, attr)]
  }

  /** The long records of one record, one per pivoted attribute. */
  function LongBlock(record: Record, toPivot: seq<string>, namesTo: string, valuesTo: string): (r: seq<Record>)
    ensures |r| == |toPivot|
    ensures forall j :: 0 <= j < |toPivot| ==> r[j] == LongRecord(record, toPivot, namesTo, valuesTo, toPivot[j])
  {
    seq(|toPivot|, j requires 0 <= j < |toPivot| => LongRecord(record, toPivot, namesTo, valuesTo, toPivot[j]))
  }

  /** One long record per pivoted attribute for each record, record by record. */
  function LongRecords(records: seq<Record>, toPivot: seq<string>, namesTo: string, valuesTo: string): seq<Record> {
    if records == [] then []
    else
      LongRecords(records[..|records| - 1], toPivot, namesTo, valuesTo)
        + LongBlock(records[|records| - 1], toPivot, namesTo, valuesTo)
  }

  /** One more record appends its block. */
  lemma LongRecordsSnoc(records: seq<Record>, toPivot: seq<string>, namesTo: string, valuesTo: string, i: nat)
    requires i < |records|
    ensures LongRecords(records[..i + 1], toPivot, namesTo, valuesTo) ==
            LongRecords(records[..i], toPivot, namesTo, valuesTo) + LongBlock(records[i], toPivot, namesTo, valuesTo)
  {
    assert records[..i + 1][..i] == records[..i];
  }

  /** Row-major indices of an m-by-n table stay below m * n. */
  lemma RowMajorBound(i: int, j: int, m: int, n: int)
    requires 0 <= i < m && 0 <= j < n
    ensures i * n + j < m * n
    decreases m
  {
    assert m * n == (m - 1) * n + n;
    if i < m - 1 {
      RowMajorBound(i, j, m - 1, n);
    }
  }

  /** Row-major index `i * n + j` into an m-by-n table followed by one more
      row of n: the last row is that one row. */
  lemma RowMajorConcat<T>(front: seq<T>, back: seq<T>, m: nat, i: nat, j: nat)
    requires |front| == m * |back| && i <= m && j < |back|
    ensures i * |back| + j < |front| + |back|
    ensures i < m ==> i * |back| + j < |front| && (front + back)[i * |back| + j] == front[i * |back| + j]
    ensures i == m ==> (front + back)[i * |back| + j] == back[j]
  {
    if i < m {
      RowMajorBound(i, j, m, |back|);
    }
  }

  /** pivotLonger emits |records| * |toPivot| records. */
  lemma {:induction false} LongRecordsLength(records: seq<Record>, toPivot: seq<string>, namesTo: string, valuesTo: string)
    ensures |LongRecords(records, toPivot, namesTo, valuesTo)| == |records| * |toPivot|
  {
    if records != [] {
      var init := records[..|records| - 1];
      LongRecordsLength(init, toPivot, namesTo, valuesTo);
      assert |records| * |toPivot| == |init| * |toPivot| + |toPivot|;
    }
  }

  /** The long record at row-major position (i, j) is record i pivoted on
      attribute j. */
  lemma {:induction false} LongRecordAt(records: seq<Record>, toPivot: seq<string>, namesTo: string, valuesTo: string,
                                        i: nat, j: nat)
    requires i < |records| && j < |toPivot|
    ensures i * |toPivot| + j < |LongRecords(records, toPivot, namesTo, valuesTo)|
    ensures LongRecords(records, toPivot, namesTo, valuesTo)[i * |toPivot| + j] ==
            LongRecord(records[i], toPivot, namesTo, valuesTo, toPivot[j])
  {
    var init := records[..|records| - 1];
    var front := LongRecords(init, toPivot, namesTo, valuesTo);
    var back := LongBlock(records[|records| - 1], toPivot, namesTo, valuesTo);
    LongRecordsLength(init, toPivot, namesTo, valuesTo);
    RowMajorConcat(front, back, |init|, i, j);
    if i < |init| {
      LongRecordAt(init, toPivot, namesTo, valuesTo, i, j);
      assert records[i] == init[i];
    }
  }

  /** A long record has none of the pivoted fields (but `namesTo` and
      `valuesTo`), holds the pivoted attribute's name under `namesTo` and its
      value under `valuesTo`, and keeps every other field. */
  lemma LongRecordFields(record: Record, toPivot: seq<string>, namesTo: string, valuesTo: string, attr: string, k: string)
    ensures var r := LongRecord(record, toPivot, namesTo, valuesTo, attr);
            (k in toPivot && k != namesTo && k != valuesTo ==> k !in r) &&
            (k !in toPivot && k != namesTo && k != valuesTo ==> Get(r, k) == Get(record, k)) &&
            r[valuesTo] == Get(record, attr) &&
            (namesTo != valuesTo ==> r[namesTo] == Str(attr))
  {
  }

  const LongerError := "pivot longer can only be used on a single-collection dataset"

  /** pivotLonger. The input records are left as they are: each long record
      is built from a copy. */
  method PivotLonger(dataset: DataSet, toPivot: seq<string>, namesTo: string, valuesTo: string) returns (r: Result<DataSet>)
    ensures r.Err? <==> |dataset.collections| != 1
    ensures r.Err? ==> r.error == LongerError
    ensures r.Ok? ==>
              r.value.collections == [dataset.collections[0].(attrs := Some(LongerAttrs(dataset.collections[0], toPivot, namesTo, valuesTo)))]
    ensures r.Ok? ==> r.value.records == LongRecords(dataset.records, toPivot, namesTo, valuesTo)
  {
    if |dataset.collections| != 1 {
      return Err(LongerError);
    }
    var collection := dataset.collections[0];
    var attrs := AttrsNotNamed(if collection.attrs.Some? then collection.attrs.value else [], toPivot);
    attrs := EraseFormulas(attrs);
    attrs := attrs + [NamedAttribute(namesTo).(attrType := Some("categorical")), NamedAttribute(valuesTo)];
    collection := collection.(attrs := Some(attrs));

    var records: seq<Record> := [];
    for i := 0 to |dataset.records|
      invariant records == LongRecords(dataset.records[..i], toPivot, namesTo, valuesTo)
    {
      var block := PivotRecord(dataset.records[i], toPivot, namesTo, valuesTo);
      LongRecordsSnoc(dataset.records, toPivot, namesTo, valuesTo, i);
      records := records + block;
    }
    assert dataset.records[..|dataset.records|] == dataset.records;
    return Ok(DataSet([collection], records));
  }

  /** The inner loop of pivotLonger: one long record per pivoted attribute. */
  method PivotRecord(record: Record, toPivot: seq<string>, namesTo: string, valuesTo: string)
    returns (block: seq<Record>)
    ensures block == LongBlock(record, toPivot, namesTo, valuesTo)
  {
    block := [];
    for j := 0 to |toPivot|
      invariant |block| == j
      invariant forall k :: 0 <= k < j ==> block[k] == LongRecord(record, toPivot, namesTo, valuesTo, toPivot[k])
    {
      var shortRecord := RemoveFields(record, toPivot);
      shortRecord := shortRecord[namesTo := Str(toPivot[j])];
      shortRecord := shortRecord[valuesTo := Get(record, toPivot[j])];
      block := block + [shortRecord];
    }
  }

  // ---- pivotWider ----

  const WiderError := "pivot wider can only be used on a single-collection dataset"

  /** The values under `namesFrom`, record by record; the first record where
      it is undefined or an object (null) is an error. */
  function NameCells(records: seq<Record>, namesFrom: string): (r: Result<seq<Cell>>)
    ensures r.Ok? ==> |r.value| == |records|
    ensures r.Ok? ==> forall i :: 0 <= i < |records| ==> r.value[i] == Get(records[i], namesFrom)
    ensures r.Ok? ==> forall c :: c in r.value ==> c != Undef && c != Null
  {
    if records == [] then Ok([])
    else
      var v := Get(records[0], namesFrom);
      if v == Undef then Err("invalid attribute to retrieve names from: " + namesFrom)
      else if v == Null then Err("cannot use object values (" + namesFrom + ") as attribute names")
      else
        var rest :- NameCells(records[1..], namesFrom);
        Ok([v] + rest)
  }

  /** A name error is reported exactly when some record's `namesFrom`
      value is undefined or null. */
  lemma {:induction false} NameCellsErr(records: seq<Record>, namesFrom: string)
    ensures NameCells(records, namesFrom).Err? <==>
            exists i :: 0 <= i < |records| && Get(records[i], namesFrom) in {Undef, Null}
  {
    if records != [] {
      NameCellsErr(records[1..], namesFrom);
      if Get(records[0], namesFrom) !in {Undef, Null} {
        forall i | 1 <= i < |records|
          ensures Get(records[i], namesFrom) == Get(records[1..][i - 1], namesFrom)
        {
        }
        assert (exists i :: 0 <= i < |records| && Get(records[i], namesFrom) in {Undef, Null}) <==>
               (exists i :: 0 <= i < |records[1..]| && Get(records[1..][i], namesFrom) in {Undef, Null});
      }
    }
  }

  predicate NoDuplicates(s: seq<Cell>) {
    forall i, j :: 0 <= i < j < |s| ==> s[i] != s[j]
  }

  /** `Array.from(new Set(s))`: each value once, in order of first occurrence. */
  function Distinct(s: seq<Cell>): (r: seq<Cell>)
    ensures NoDuplicates(r)
    ensures forall c :: c in r <==> c in s
    ensures forall i, j :: 0 <= i < j < |r| ==> Sequences.FirstIndex(s, r[i]) < Sequences.FirstIndex(s, r[j])
  {
    if s == [] then []
    else
      var n := |s| - 1;
      var d := Distinct(s[..n]);
      var last := s[n];
      assert s == s[..n] + [last];
      forall c | c in d
        ensures Sequences.FirstIndex(s, c) == Sequences.FirstIndex(s[..n], c) < n
      {
        Sequences.FirstIndexPrefix(s, n, c);
      }
      if last in d then d
      else
        assert last !in s[..n];
        Sequences.FirstIndexUnique(s, last, n);
        d + [last]
  }

  /** The attribute a new column `name` inherits from `valuesFrom`'s
      attribute, without its formula. */
  function WideAttr(valuesFromAttr: Attribute, name: Cell): Attribute {
    valuesFromAttr.(formula := None, name := ToStr(name))
  }

  /** One attribute per new name. */
  function WideAttrs(valuesFromAttr: Attribute, newAttrs: seq<Cell>): (r: seq<Attribute>)
    ensures |r| == |newAttrs|
    ensures forall i :: 0 <= i < |r| ==> r[i] == WideAttr(valuesFromAttr, newAttrs[i])
  {
    seq(|newAttrs|, i requires 0 <= i < |newAttrs| => WideAttr(valuesFromAttr, newAttrs[i]))
  }

  /** The attributes after pivoting wider. */
  function WiderAttrs(collection: Collection, namesFrom: string, valuesFrom: string,
                      newAttrs: seq<Cell>, valuesFromAttr: Attribute): seq<Attribute> {
    EraseFormulas(AttrsNotNamed(AttrsOf(collection), [namesFrom, valuesFrom]))
      + WideAttrs(valuesFromAttr, newAttrs)
  }

  /** The index of the first wide record the record agrees with outside
      `except`, or |wide| when there is none. */
  function FirstAgreeing(wide: seq<Record>, record: Record, except: seq<Cell>): (k: nat)
    ensures k <= |wide|
    ensures k < |wide| ==> AgreeOutside(record, wide[k], except)
    ensures forall i :: 0 <= i < k ==> !AgreeOutside(record, wide[i], except)
  {
    if wide == [] then 0
    else if AgreeOutside(record, wide[0], except) then 0
    else 1 + FirstAgreeing(wide[1..], record, except)
  }

  /** The fields the pivot moves into new attributes are compared by value. */
  function WideExcept(newAttrs: seq<Cell>, namesFrom: string, valuesFrom: string): seq<Cell> {
    newAttrs + [Str(namesFrom), Str(valuesFrom)]
  }

  function MultipleValuesError(valuesFrom: string, namesFrom: string, held: Cell, record: Record): string {
    "case has multiple " + valuesFrom + " values (" + ToStr(held) + " and "
      + ToStr(Get(record, valuesFrom)) + ") for same " + namesFrom + " ("
      + ToStr(Get(record, namesFrom)) + ")"
  }

  /** Folds one record into the wide records: into the first one it agrees
      with, or into a new one made from it without `namesFrom` and
      `valuesFrom`. The record's value goes under its name; a name already
      holding a value is an error. */
  function Collapse(wide: seq<Record>, record: Record, newAttrs: seq<Cell>,
                    namesFrom: string, valuesFrom: string): (r: Result<seq<Record>>)
    ensures r.Ok? ==> |wide| <= |r.value| <= |wide| + 1
  {
    var k := FirstAgreeing(wide, record, WideExcept(newAttrs, namesFrom, valuesFrom));
    var wide' := if k < |wide| then wide else wide + [Without(record, [namesFrom, valuesFrom])];
    var key := ToStr(Get(record, namesFrom));
    if Get(wide'[k], key) != Undef then
      Err(MultipleValuesError(valuesFrom, namesFrom, Get(wide'[k], key), record))
    else
      Ok(wide'[k := wide'[k][key := Get(record, valuesFrom)]])
  }

  /** All records folded in order; the first failing record is the error. */
  function WideRecords(records: seq<Record>, newAttrs: seq<Cell>,
                       namesFrom: string, valuesFrom: string): Result<seq<Record>> {
    if records == [] then Ok([])
    else
      var wide :- WideRecords(records[..|records| - 1], newAttrs, namesFrom, valuesFrom);
      Collapse(wide, records[|records| - 1], newAttrs, namesFrom, valuesFrom)
  }

  /** A failure on a prefix of the records is the failure of the whole fold. */
  lemma {:induction false} WideRecordsFailedPrefix(records: seq<Record>, i: nat, newAttrs: seq<Cell>, namesFrom: string, valuesFrom: string)
    requires i <= |records|
    requires WideRecords(records[..i], newAttrs, namesFrom, valuesFrom).Err?
    ensures WideRecords(records, newAttrs, namesFrom, valuesFrom) == WideRecords(records[..i], newAttrs, namesFrom, valuesFrom)
    decreases |records|
  {
    if i < |records| {
      var init := records[..|records| - 1];
      assert init[..i] == records[..i];
      WideRecordsFailedPrefix(init, i, newAttrs, namesFrom, valuesFrom);
    } else {
      assert records[..i] == records;
    }
  }

  /** Pivoting wider never produces more records than it was given. */
  lemma {:induction false} WideRecordsFewer(records: seq<Record>, newAttrs: seq<Cell>, namesFrom: string, valuesFrom: string)
    ensures var r := WideRecords(records, newAttrs, namesFrom, valuesFrom);
            r.Ok? ==> |r.value| <= |records|
  {
    if records != [] {
      WideRecordsFewer(records[..|records| - 1], newAttrs, namesFrom, valuesFrom);
    }
  }

  /** After a record is folded in, the wide record it went to holds its value
      under its name, and every other wide record is unchanged. */
  lemma CollapsePlaces(wide: seq<Record>, record: Record, newAttrs: seq<Cell>, namesFrom: string, valuesFrom: string)
    requires Collapse(wide, record, newAttrs, namesFrom, valuesFrom).Ok?
    ensures var r := Collapse(wide, record, newAttrs, namesFrom, valuesFrom).value;
            var k := FirstAgreeing(wide, record, WideExcept(newAttrs, namesFrom, valuesFrom));
            k < |r| &&
            r[k][ToStr(Get(record, namesFrom))] == Get(record, valuesFrom) &&
            (forall i :: 0 <= i < |wide| && i != k ==> r[i] == wide[i]) &&
            (k == |wide| ==> Without(r[k], [ToStr(Get(record, namesFrom))]) ==
                             Without(Without(record, [namesFrom, valuesFrom]), [ToStr(Get(record, namesFrom))]))
  {
    var k := FirstAgreeing(wide, record, WideExcept(newAttrs, namesFrom, valuesFrom));
    var key := ToStr(Get(record, namesFrom));
    if k == |wide| {
      var collapsed := Without(record, [namesFrom, valuesFrom]);
      var wide' := wide + [collapsed];
      assert wide'[k] == collapsed;
      WithoutUpdated(collapsed, key, Get(record, valuesFrom));
    }
  }

  /** Setting a field and then removing it is removing it. */
  lemma WithoutUpdated(record: Record, key: string, v: Cell)
    ensures Without(record[key := v], [key]) == Without(record, [key])
  {
  }

  /** A record whose name is already filled in the wide record it agrees
      with is an error. */
  lemma CollapseDuplicate(wide: seq<Record>, record: Record, newAttrs: seq<Cell>, namesFrom: string, valuesFrom: string)
    requires var k := FirstAgreeing(wide, record, WideExcept(newAttrs, namesFrom, valuesFrom));
             k < |wide| && Get(wide[k], ToStr(Get(record, namesFrom))) != Undef
    ensures Collapse(wide, record, newAttrs, namesFrom, valuesFrom).Err?
  {
  }

  /** One step of the loop over the records: find the wide record the
      record collapses into and store its value there. */
  method CollapseOne(wideRecords: seq<Record>, record: Record, except: seq<Cell>, newAttrs: seq<Cell>,
                     namesFrom: string, valuesFrom: string) returns (r: Result<seq<Record>>)
    requires except == WideExcept(newAttrs, namesFrom, valuesFrom)
    ensures r == Collapse(wideRecords, record, newAttrs, namesFrom, valuesFrom)
  {
    var k := 0;
    var equiv := false;
    while k < |wideRecords| && !equiv
      invariant k <= |wideRecords|
      invariant forall n :: 0 <= n < k ==> !AgreeOutside(record, wideRecords[n], except)
      invariant equiv ==> k < |wideRecords| && AgreeOutside(record, wideRecords[k], except)
      decreases |wideRecords| - k, if equiv then 0 else 1
    {
      equiv := EquivExcept(record, wideRecords[k], except);
      if !equiv {
        k := k + 1;
      }
    }
    assert k == FirstAgreeing(wideRecords, record, except);
    var wide := wideRecords;
    if k == |wide| {
      var collapsed := RemoveFields(record, [namesFrom, valuesFrom]);
      wide := wide + [collapsed];
    }
    var key := ToStr(Get(record, namesFrom));
    if Get(wide[k], key) != Undef {
      return Err(MultipleValuesError(valuesFrom, namesFrom, Get(wide[k], key), record));
    }
    return Ok(wide[k := wide[k][key := Get(record, valuesFrom)]]);
  }

  /** The loop over the records of pivotWider. */
  method CollapseRecords(records: seq<Record>, newAttrs: seq<Cell>, namesFrom: string, valuesFrom: string)
    returns (r: Result<seq<Record>>)
    ensures r == WideRecords(records, newAttrs, namesFrom, valuesFrom)
  {
    var except := newAttrs + [Str(namesFrom), Str(valuesFrom)];
    var wideRecords: seq<Record> := [];
    for i := 0 to |records|
      invariant WideRecords(records[..i], newAttrs, namesFrom, valuesFrom) == Ok(wideRecords)
    {
      assert records[..i + 1][..i] == records[..i];
      var next := CollapseOne(wideRecords, records[i], except, newAttrs, namesFrom, valuesFrom);
      if next.Err? {
        WideRecordsFailedPrefix(records, i + 1, newAttrs, namesFrom, valuesFrom);
        return next;
      }
      wideRecords := next.value;
    }
    assert records[..|records|] == records;
    return Ok(wideRecords);
  }

  /** The loop of pivotWider adding one attribute per new name, each a
      copy of the values attribute without its formula. */
  method AppendWideAttrs(kept: seq<Attribute>, valuesFromAttr: Attribute, newAttrs: seq<Cell>)
    returns (attrs: seq<Attribute>)
    ensures attrs == kept + WideAttrs(valuesFromAttr, newAttrs)
  {
    attrs := kept;
    for i := 0 to |newAttrs|
      invariant attrs == kept + WideAttrs(valuesFromAttr, newAttrs[..i])
    {
      assert WideAttrs(valuesFromAttr, newAttrs[..i + 1])
          == WideAttrs(valuesFromAttr, newAttrs[..i]) + [WideAttr(valuesFromAttr, newAttrs[i])];
      attrs := attrs + [valuesFromAttr.(formula := None, name := ToStr(newAttrs[i]))];
    }
    assert newAttrs[..|newAttrs|] == newAttrs;
  }

  /** pivotWider. */
  method PivotWider(dataset: DataSet, namesFrom: string, valuesFrom: string) returns (r: Result<DataSet>)
    ensures |dataset.collections| != 1 ==> r == Err(WiderError)
    ensures |dataset.collections| == 1 && NameCells(dataset.records, namesFrom).Err? ==>
              r == Err(NameCells(dataset.records, namesFrom).error)
    ensures |dataset.collections| == 1 && NameCells(dataset.records, namesFrom).Ok? &&
            FindAttr(AttrsOf(dataset.collections[0]), valuesFrom).None? ==>
              r == Err("invalid attribute to retrieve values from: " + valuesFrom)
    ensures |dataset.collections| == 1 && NameCells(dataset.records, namesFrom).Ok? &&
            FindAttr(AttrsOf(dataset.collections[0]), valuesFrom).Some? ==>
              var collection := dataset.collections[0];
              var attrs := AttrsOf(collection);
              var newAttrs := Distinct(NameCells(dataset.records, namesFrom).value);
              var valuesFromAttr := attrs[FindAttr(attrs, valuesFrom).value];
              var wide := WideRecords(dataset.records, newAttrs, namesFrom, valuesFrom);
              (wide.Err? ==> r == Err(wide.error)) &&
              (wide.Ok? ==> r == Ok(DataSet(
                 [collection.(attrs := Some(WiderAttrs(collection, namesFrom, valuesFrom, newAttrs, valuesFromAttr)))],
                 wide.value)))
  {
    if |dataset.collections| != 1 {
      return Err(WiderError);
    }
    var collection := dataset.collections[0];

    var names := NameCells(dataset.records, namesFrom);
    if names.Err? {
      return Err(names.error);
    }
    var newAttrs := Distinct(names.value);

    var found := FindAttr(AttrsOf(collection), valuesFrom);
    if found.None? {
      return Err("invalid attribute to retrieve values from: " + valuesFrom);
    }
    var valuesFromAttr := AttrsOf(collection)[found.value];

    var attrs := EraseFormulas(AttrsNotNamed(AttrsOf(collection), [namesFrom, valuesFrom]));
    attrs := AppendWideAttrs(attrs, valuesFromAttr, newAttrs);
    collection := collection.(attrs := Some(attrs));

    var wideRecords := CollapseRecords(dataset.records, newAttrs, namesFrom, valuesFrom);
    if wideRecords.Err? {
      return Err(wideRecords.error);
    }
    return Ok(DataSet([collection], wideRecords.value));
  }
}
