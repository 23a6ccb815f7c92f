/** src/transformers/compare.ts: comparing an attribute of one dataset with
    an attribute of another, numerically (row by row), structurally (as a
    diff of the two columns) or categorically (matching whole records on
    the attributes the two datasets share). */
module Compare {
  import opened Wrappers
  import opened Data
  import opened Changes
  import Join
  import Diff

  const StatusColumnBase := "Compare Status"
  const ValueColumnBase := "Difference"
  const Decision1 := "Category 1"
  const Decision2 := "Category 2"

  const MissingInputs := "Please choose two datasets and two attributes"
  const BadCompareType := "Please select a valid compare type"
  const FirstNoCollections := "First dataset doesn't have any collections"
  const SecondNoCollections := "Second dataset doesn't have any collections"
  /** What reading `.attrs` of the missing first collection throws. */
  const NoFirstCollection := "Cannot read properties of undefined (reading 'attrs')"

  function ReservedMessage(name: string): string {
    "Attribute `" + name + "` is needed by     Compare. Please do not use it in the input datasets."
  }

  datatype CompareType = Numeric | Categorical | Structural

  function KindName(kind: CompareType): string {
    match kind
    case Numeric => "numeric"
    case Categorical => "categorical"
    case Structural => "structural"
  }

  /** isCompareType: the dropdown value names one of the three kinds. */
  function ParseCompareType(s: Option<string>): (r: Option<CompareType>)
    ensures r.Some? <==> s.Some? && s.value in {"numeric", "categorical", "structural"}
    ensures r.Some? ==> KindName(r.value) == s.value
  {
    if s == Some("numeric") then Some(Numeric)
    else if s == Some("categorical") then Some(Categorical)
    else if s == Some("structural") then Some(Structural)
    else None
  }

  /** Every kind's name is recognised as that kind. */
  lemma ParseKindName(kind: CompareType)
    ensures ParseCompareType(Some(KindName(kind))) == Some(kind)
  {
  }

  /** A selection that is present and not the empty string. */
  predicate Given(s: Option<string>) {
    s.Some? && s.value != ""
  }

  // ---------------------------------------------------------------------
  // Column names

  /** The second attribute's name in the output, and the names of the value
      and status columns, each made unique against the two attribute names. */
  datatype OutputNames = OutputNames(name2: string, value: string, status: string)

  function ColumnNames(name1: string, name2: string, unique: (string, seq<string>) -> string): OutputNames {
    var safe2 := unique(name2, [name1]);
    OutputNames(safe2, unique(ValueColumnBase, [name1, safe2]), unique(StatusColumnBase, [name1, safe2]))
  }

  /** The comparison collection: copies of the two attributes without
      formulas (the second under its safe name), the value column when
      numeric, then the status column. */
  function ComparisonCollection(attr1: Attribute, attr2: Attribute, name1: string, name2: string,
                                names: OutputNames, kind: CompareType): Collection {
    var attrs := [attr1.(formula := None), attr2.(name := names.name2, formula := None)]
                 + (if kind == Numeric then [Diff.AddedAttribute(names.value, "numeric")] else [])
                 + [Diff.AddedAttribute(names.status, "categorical")];
    Collection("Comparison of " + name1 + " and " + name2, None, None, Some(attrs), Some(map[]))
  }

  // ---------------------------------------------------------------------
  // Numerical comparison

  /** The value column for one pair: `""` when either value is null or
      undefined or its string form does not parse (a boolean's does not),
      otherwise the second minus the first. */
  function CompareDifference(v1: Cell, v2: Cell): Cell {
    if v1 == Null || v2 == Null || v1 == Undef || v2 == Undef then Str("")
    else if ParseFloatOf(v1).None? || ParseFloatOf(v2).None? then Str("")
    else Num(ParseFloatOf(v2).value - ParseFloatOf(v1).value)
  }

  /** The status: `""` when there is no difference, otherwise green when it
      is positive, red when negative and grey when zero. */
  function CompareStatus(difference: Cell): string {
    match difference
    case Num(d) => if d > 0.0 then Green else if d < 0.0 then Red else Grey
    case _ => ""
  }

  function NumericRecord(name1: string, names: OutputNames, v1: Cell, v2: Cell): Record {
    var difference := CompareDifference(v1, v2);
    map[name1 := v1][names.name2 := v2][names.value := difference][names.status := Str(CompareStatus(difference))]
  }

  /** One record per index up to the longer column. */
  function NumericRecords(name1: string, names: OutputNames, values1: seq<Cell>, values2: seq<Cell>): (r: seq<Record>)
    ensures |r| == Diff.MaxLength(values1, values2)
    ensures forall i :: 0 <= i < |r| ==> r[i] == NumericRecord(name1, names, At(values1, i), At(values2, i))
  {
    seq(Diff.MaxLength(values1, values2), i requires 0 <= i < Diff.MaxLength(values1, values2) =>
      NumericRecord(name1, names, At(values1, i), At(values2, i)))
  }

  /** compareRecordsNumerical: the loop, with its two early `continue`s. */
  method CompareRecordsNumerical(name1: string, names: OutputNames, values1: seq<Cell>, values2: seq<Cell>)
    returns (records: seq<Record>)
    ensures records == NumericRecords(name1, names, values1, values2)
  {
    records := [];
    var n := if |values1| < |values2| then |values2| else |values1|;
    for i := 0 to n
      invariant |records| == i
      invariant forall k :: 0 <= k < i ==> records[k] == NumericRecord(name1, names, At(values1, k), At(values2, k))
    {
      var v1 := if i < |values1| then values1[i] else Undef;
      var v2 := if i < |values2| then values2[i] else Undef;
      assert v1 == At(values1, i) && v2 == At(values2, i);
      if v1 == Null || v2 == Null || v1 == Undef || v2 == Undef {
        assert CompareDifference(v1, v2) == Str("");
        records := records + [map[name1 := v1][names.name2 := v2][names.value := Str("")][names.status := Str("")]];
        continue;
      }
      var parsed1 := ParseFloatOf(v1);
      var parsed2 := ParseFloatOf(v2);
      if parsed1.None? || parsed2.None? {
        assert CompareDifference(v1, v2) == Str("");
        records := records + [map[name1 := v1][names.name2 := v2][names.value := Str("")][names.status := Str("")]];
        continue;
      }
      var difference := parsed2.value - parsed1.value;
      var status := if difference > 0.0 then Green else if difference < 0.0 then Red else Grey;
      assert CompareDifference(v1, v2) == Num(difference);
      records := records + [map[name1 := v1][names.name2 := v2][names.value := Num(difference)][names.status := Str(status)]];
    }
  }

  /** Both values present and numeric: only then is there a difference, it
      is the second minus the first, and the status orders the two. */
  lemma CompareDifferenceSpec(v1: Cell, v2: Cell)
    ensures CompareDifference(v1, v2).Num? <==> ParseFloatOf(v1).Some? && ParseFloatOf(v2).Some?
    ensures CompareDifference(v1, v2).Num? ==> CompareDifference(v1, v2).n == ParseFloatOf(v2).value - ParseFloatOf(v1).value
    ensures CompareDifference(v1, v2).Str? <==> CompareStatus(CompareDifference(v1, v2)) == ""
    ensures CompareDifference(v1, v2).Num? ==>
              (CompareStatus(CompareDifference(v1, v2)) == Green <==> ParseFloatOf(v2).value > ParseFloatOf(v1).value) &&
              (CompareStatus(CompareDifference(v1, v2)) == Red <==> ParseFloatOf(v2).value < ParseFloatOf(v1).value) &&
              (CompareStatus(CompareDifference(v1, v2)) == Grey <==> ParseFloatOf(v2).value == ParseFloatOf(v1).value)
  {
  }

  /** Swapping the two columns negates the difference and swaps green and
      red, keeping grey. */
  lemma CompareAntisymmetric(v1: Cell, v2: Cell)
    ensures CompareDifference(v2, v1).Num? <==> CompareDifference(v1, v2).Num?
    ensures CompareDifference(v1, v2).Num? ==> CompareDifference(v2, v1).n == -CompareDifference(v1, v2).n
    ensures CompareStatus(CompareDifference(v1, v2)) == Green <==> CompareStatus(CompareDifference(v2, v1)) == Red
    ensures CompareStatus(CompareDifference(v1, v2)) == Grey <==> CompareStatus(CompareDifference(v2, v1)) == Grey
  {
    CompareDifferenceSpec(v1, v2);
    CompareDifferenceSpec(v2, v1);
  }

  /** Numeric compare and the numeric diff transformation disagree only in
      sign and in what they skip: wherever the diff finds a difference, the
      comparison finds its negation. Where either value reads as 0 the diff
      finds nothing, while the comparison still finds a number. */
  lemma CompareAgreesWithDiff(v1: Cell, v2: Cell)
    ensures Diff.Difference(v1, v2).Num? ==>
              CompareDifference(v1, v2).Num? && CompareDifference(v1, v2).n == -Diff.Difference(v1, v2).n
    ensures ParseFloatOf(v1).Some? && ParseFloatOf(v2).Some? &&
            (ParseFloatOf(v1).value == 0.0 || ParseFloatOf(v2).value == 0.0) ==>
              CompareDifference(v1, v2).Num? && Diff.Difference(v1, v2) == Str("")
  {
    Diff.DifferenceSpec(v1, v2);
    CompareDifferenceSpec(v1, v2);
  }

  /** With a `unique` that avoids the names it is given, the numeric
      records hold the first column under its name, the second under its
      safe name, and the difference and status alongside. */
  lemma NumericRecordsColumns(name1: string, name2: string, unique: (string, seq<string>) -> string,
                              values1: seq<Cell>, values2: seq<Cell>, i: nat)
    requires Join.Avoids(unique)
    requires i < Diff.MaxLength(values1, values2)
    ensures var names := ColumnNames(name1, name2, unique);
            var r := NumericRecords(name1, names, values1, values2)[i];
            Get(r, name1) == At(values1, i) && Get(r, names.name2) == At(values2, i) &&
            Get(r, names.status) == Str(CompareStatus(CompareDifference(At(values1, i), At(values2, i))))
  {
    var names := ColumnNames(name1, name2, unique);
    assert names.name2 !in [name1];
    assert names.value !in [name1, names.name2];
    assert names.status !in [name1, names.name2];
  }

  // ---------------------------------------------------------------------
  // Structural comparison

  function StructuralColumns(name1: string, names: OutputNames): Columns {
    Columns(name1, names.name2, names.status, Grey)
  }

  /** With a `unique` that avoids the names it is given, the structural
      comparison of two columns holds both: given the diff of the two
      value columns, reading the first output column without the added
      (green) rows gives the first column, and the second without the
      removed (red) rows gives the second. */
  lemma StructuralRecoversColumns(name1: string, name2: string, unique: (string, seq<string>) -> string,
                                  values1: seq<Cell>, values2: seq<Cell>, changes: seq<Change>)
    requires Join.Avoids(unique)
    requires WellFormed(changes) && OldSide(changes) == values1 && NewSide(changes) == values2
    ensures var cols := StructuralColumns(name1, ColumnNames(name1, name2, unique));
            Expanded(cols, changes).Ok? &&
            Left(cols, Expanded(cols, changes).value) == values1 &&
            Right(cols, Expanded(cols, changes).value) == values2
  {
    var names := ColumnNames(name1, name2, unique);
    assert names.name2 !in [name1];
    assert names.status !in [name1, names.name2];
    ExpandedRecoversColumns(StructuralColumns(name1, names), changes);
  }

  // ---------------------------------------------------------------------
  // Categorical comparison

  /** objectsAreEqualForKeys: the two records agree on every key. The
      source compares `JSON.stringify` of the values, which for the cells
      modelled here is equality. */
  function EqualForKeys(record1: Record, record2: Record, keys: seq<string>): (r: bool)
    ensures r <==> forall k :: k in keys ==> Get(record1, k) == Get(record2, k)
  {
    keys == [] || (Get(record1, keys[0]) == Get(record2, keys[0]) && EqualForKeys(record1, record2, keys[1..]))
  }

  /** Agreement on keys is an equivalence: the two loops may search in
      either direction. */
  lemma EqualForKeysEquivalence(a: Record, b: Record, c: Record, keys: seq<string>)
    ensures EqualForKeys(a, a, keys)
    ensures EqualForKeys(a, b, keys) ==> EqualForKeys(b, a, keys)
    ensures EqualForKeys(a, b, keys) && EqualForKeys(b, c, keys) ==> EqualForKeys(a, c, keys)
    ensures EqualForKeys(a, b, [])
  {
  }

  /** `find`: the index of the first candidate agreeing with the record on
      the keys. */
  function FindMatch(record: Record, candidates: seq<Record>, keys: seq<string>): (r: Option<nat>)
    ensures r.Some? ==> r.value < |candidates| && EqualForKeys(record, candidates[r.value], keys)
    ensures r.Some? ==> forall i :: 0 <= i < r.value ==> !EqualForKeys(record, candidates[i], keys)
    ensures r.None? ==> forall i :: 0 <= i < |candidates| ==> !EqualForKeys(record, candidates[i], keys)
  {
    if candidates == [] then None
    else if EqualForKeys(record, candidates[0], keys) then Some(0)
    else match FindMatch(record, candidates[1..], keys)
      case None => None
      case Some(k) => Some(k + 1)
  }

  /** intersectionWithPredicate on names: the first list's attributes whose
      name the second list also has. */
  function SharedAttrs(attrs1: seq<Attribute>, attrs2: seq<Attribute>): (r: seq<Attribute>)
    ensures forall a :: a in r <==> a in attrs1 && a.name in Names(attrs2)
  {
    if attrs1 == [] then []
    else
      var n := |attrs1| - 1;
      var init := SharedAttrs(attrs1[..n], attrs2);
      assert attrs1 == attrs1[..n] + [attrs1[n]];
      if attrs1[n].name in Names(attrs2) then init + [attrs1[n]] else init
  }

  /** The shared attributes other than the two compared ones. */
  function ValueAttrs(attrs: seq<Attribute>, name1: string, name2: string): (r: seq<Attribute>)
    ensures forall a :: a in r <==> a in attrs && a.name != name1 && a.name != name2
  {
    if attrs == [] then []
    else
      var n := |attrs| - 1;
      var init := ValueAttrs(attrs[..n], name1, name2);
      assert attrs == attrs[..n] + [attrs[n]];
      if attrs[n].name != name1 && attrs[n].name != name2 then init + [attrs[n]] else init
  }

  /** A record of the first dataset with its decision: when a record of the
      second agrees with it on the shared keys, the two are merged (the
      second's fields winning) and both decisions are set. */
  function Decided(record1: Record, records2: seq<Record>, keys: seq<string>, name1: string, name2: string): Record {
    match FindMatch(record1, records2, keys)
    case None => record1[Decision1 := Get(record1, name1)]
    case Some(j) => (record1 + records2[j])[Decision1 := Get(record1, name1)][Decision2 := Get(records2[j], name2)]
  }

  /** The first loop: every record of the first dataset, decided. */
  function FirstPass(records1: seq<Record>, records2: seq<Record>, keys: seq<string>, name1: string, name2: string): (r: seq<Record>)
    ensures |r| == |records1|
    ensures forall i :: 0 <= i < |r| ==> r[i] == Decided(records1[i], records2, keys, name1, name2)
  {
    seq(|records1|, i requires 0 <= i < |records1| => Decided(records1[i], records2, keys, name1, name2))
  }

  /** A record of the second dataset that no record of the first matches. */
  function Unmatched(record2: Record, name2: string): Record {
    record2[Decision2 := Get(record2, name2)]
  }

  /** The second loop: the records of the second dataset that match no
      record of the first, in order, each with its decision. */
  function SecondPass(records1: seq<Record>, records2: seq<Record>, keys: seq<string>, name2: string): (r: seq<Record>)
    ensures |r| <= |records2|
  {
    if records2 == [] then []
    else
      var n := |records2| - 1;
      var init := SecondPass(records1, records2[..n], keys, name2);
      if FindMatch(records2[n], records1, keys).None? then init + [Unmatched(records2[n], name2)] else init
  }

  /** The second pass on one more record of the second dataset. */
  lemma SecondPassSnoc(records1: seq<Record>, records2: seq<Record>, keys: seq<string>, name2: string)
    requires records2 != []
    ensures var n := |records2| - 1;
            SecondPass(records1, records2, keys, name2) ==
              SecondPass(records1, records2[..n], keys, name2) +
              (if FindMatch(records2[n], records1, keys).None? then [Unmatched(records2[n], name2)] else [])
  {
  }

  /** Every record the second loop adds is an unmatched second record. */
  lemma {:induction false} SecondPassSound(records1: seq<Record>, records2: seq<Record>, keys: seq<string>, name2: string)
    ensures forall x :: x in SecondPass(records1, records2, keys, name2) ==>
              exists j :: 0 <= j < |records2| && FindMatch(records2[j], records1, keys).None? && x == Unmatched(records2[j], name2)
  {
    if records2 != [] {
      var n := |records2| - 1;
      var init := SecondPass(records1, records2[..n], keys, name2);
      SecondPassSound(records1, records2[..n], keys, name2);
      SecondPassSnoc(records1, records2, keys, name2);
      forall x | x in SecondPass(records1, records2, keys, name2)
        ensures exists j :: 0 <= j < |records2| && FindMatch(records2[j], records1, keys).None? && x == Unmatched(records2[j], name2)
      {
        if x in init {
          var j :| 0 <= j < n && FindMatch(records2[..n][j], records1, keys).None? && x == Unmatched(records2[..n][j], name2);
          assert records2[..n][j] == records2[j];
        } else {
          assert FindMatch(records2[n], records1, keys).None? && x == Unmatched(records2[n], name2);
        }
      }
    }
  }

  /** Every unmatched second record is added by the second loop. */
  lemma {:induction false} SecondPassComplete(records1: seq<Record>, records2: seq<Record>, keys: seq<string>, name2: string)
    ensures forall j :: 0 <= j < |records2| && FindMatch(records2[j], records1, keys).None? ==>
              Unmatched(records2[j], name2) in SecondPass(records1, records2, keys, name2)
  {
    if records2 != [] {
      var n := |records2| - 1;
      var init := SecondPass(records1, records2[..n], keys, name2);
      var r := SecondPass(records1, records2, keys, name2);
      SecondPassComplete(records1, records2[..n], keys, name2);
      SecondPassSnoc(records1, records2, keys, name2);
      var last := FindMatch(records2[n], records1, keys).None?;
      assert last ==> r == init + [Unmatched(records2[n], name2)];
      assert !last ==> r == init;
      forall j | 0 <= j < |records2| && FindMatch(records2[j], records1, keys).None?
        ensures Unmatched(records2[j], name2) in r
      {
        if j < n {
          assert records2[..n][j] == records2[j];
          assert Unmatched(records2[j], name2) in init;
        } else {
          assert r == init + [Unmatched(records2[n], name2)];
        }
      }
    }
  }

  /** Whether record2 has a match among records1, searched as the source
      does (`objectsAreEqualForKeys(record1, record2, ...)`). */
  function MatchIn(records1: seq<Record>, record2: Record, keys: seq<string>): (r: Option<nat>)
    ensures r.Some? <==> FindMatch(record2, records1, keys).Some?
  {
    if records1 == [] then None
    else if EqualForKeys(records1[0], record2, keys) then Some(0)
    else match MatchIn(records1[1..], record2, keys)
      case None => None
      case Some(k) => Some(k + 1)
  }

  /** The two loops of compareCategorical. */
  method CategoricalRecords(records1: seq<Record>, records2: seq<Record>, keys: seq<string>, name1: string, name2: string)
    returns (records: seq<Record>)
    ensures records == FirstPass(records1, records2, keys, name1, name2) + SecondPass(records1, records2, keys, name2)
  {
    records := [];
    for i := 0 to |records1|
      invariant records == FirstPass(records1[..i], records2, keys, name1, name2)
    {
      var record1 := records1[i];
      var duplicate := FindMatch(record1, records2, keys);
      if duplicate.None? {
        records := records + [record1[Decision1 := Get(record1, name1)]];
      } else {
        var record2 := records2[duplicate.value];
        records := records + [(record1 + record2)[Decision1 := Get(record1, name1)][Decision2 := Get(record2, name2)]];
      }
    }
    assert records1[..|records1|] == records1;
    ghost var first := records;
    for j := 0 to |records2|
      invariant records == first + SecondPass(records1, records2[..j], keys, name2)
    {
      var record2 := records2[j];
      var duplicate := MatchIn(records1, record2, keys);
      assert records2[..j + 1][..j] == records2[..j];
      if duplicate.Some? {
        // already added in the first loop
      } else {
        records := records + [record2[Decision2 := Get(record2, name2)]];
      }
    }
    assert records2[..|records2|] == records2;
  }

  /** The first pass keeps each first record's fields outside the decision
      columns, records its first attribute as decision 1, and for a merged
      record its partner's second attribute as decision 2; on the shared
      keys a merged record agrees with both records it merges. */
  lemma DecidedSpec(record1: Record, records2: seq<Record>, keys: seq<string>, name1: string, name2: string)
    ensures var r := Decided(record1, records2, keys, name1, name2);
            Get(r, Decision1) == Get(record1, name1) &&
            (FindMatch(record1, records2, keys).None? ==>
               forall k :: k != Decision1 ==> Get(r, k) == Get(record1, k)) &&
            (FindMatch(record1, records2, keys).Some? ==>
               var other := records2[FindMatch(record1, records2, keys).value];
               Get(r, Decision2) == Get(other, name2) &&
               forall k :: k in keys && k != Decision1 && k != Decision2 ==>
                 Get(r, k) == Get(record1, k) && Get(r, k) == Get(other, k))
  {
    var m := FindMatch(record1, records2, keys);
    if m.Some? {
      var other := records2[m.value];
      forall k | k in keys && k != Decision1 && k != Decision2
        ensures Get(Decided(record1, records2, keys, name1, name2), k) == Get(other, k)
      {
        assert EqualForKeys(record1, other, keys);
        assert Get(record1, k) == Get(other, k);
      }
    }
  }

  /** Every record of either dataset is accounted for: each first record
      once, and each second record either through a first record that
      matches it or on its own. */
  lemma CategoricalCoversBoth(records1: seq<Record>, records2: seq<Record>, keys: seq<string>, name1: string, name2: string)
    ensures var out := FirstPass(records1, records2, keys, name1, name2) + SecondPass(records1, records2, keys, name2);
            (forall i :: 0 <= i < |records1| ==> out[i] == Decided(records1[i], records2, keys, name1, name2)) &&
            (forall j :: 0 <= j < |records2| ==>
               (exists i :: 0 <= i < |records1| && EqualForKeys(records1[i], records2[j], keys)) ||
               Unmatched(records2[j], name2) in out[|records1|..])
  {
    var first := FirstPass(records1, records2, keys, name1, name2);
    var out := first + SecondPass(records1, records2, keys, name2);
    assert out[|records1|..] == SecondPass(records1, records2, keys, name2);
    SecondPassComplete(records1, records2, keys, name2);
    forall j | 0 <= j < |records2|
      ensures (exists i :: 0 <= i < |records1| && EqualForKeys(records1[i], records2[j], keys)) ||
              Unmatched(records2[j], name2) in out[|records1|..]
    {
      var m := FindMatch(records2[j], records1, keys);
      if m.Some? {
        assert EqualForKeys(records1[m.value], records2[j], keys);
      }
    }
  }

  /** The names of all attributes of a dataset (allAttrNames). */
  function AllAttrNames(d: DataSet): seq<string> {
    Names(Join.AllAttrs(d.collections))
  }

  /** The two output collections of compareCategorical: the decisions,
      and beneath them the shared value attributes. */
  function DecisionCollections(shared: seq<Attribute>): seq<Collection> {
    [Collection("Decisions", None, None, Some([NamedAttribute(Decision1), NamedAttribute(Decision2)]), Some(map[])),
     Collection("Values", None, Some("Decisions"), Some(shared), Some(map[]))]
  }

  /** compareCategorical, as a function of the two flattened datasets. */
  function CategoricalCompared(flat1: DataSet, flat2: DataSet, name1: string, name2: string): Result<DataSet> {
    if flat1.collections == [] then Err(NoFirstCollection)
    else if flat1.collections[0].attrs.None? then Err(FirstNoCollections)
    else if flat2.collections == [] then Err(NoFirstCollection)
    else if flat2.collections[0].attrs.None? then Err(SecondNoCollections)
    else
      var shared := EraseFormulas(ValueAttrs(SharedAttrs(flat1.collections[0].attrs.value,
                                                         flat2.collections[0].attrs.value), name1, name2));
      var allAttributes := AllAttrNames(flat1) + AllAttrNames(flat2);
      if Decision1 in allAttributes then Err(ReservedMessage(Decision1))
      else if Decision2 in allAttributes then Err(ReservedMessage(Decision2))
      else Ok(DataSet(DecisionCollections(shared),
                      FirstPass(flat1.records, flat2.records, Names(shared), name1, name2) +
                      SecondPass(flat1.records, flat2.records, Names(shared), name2)))
  }

  /** The categorical comparison fails for a missing first or second
      collection or attribute list, in that order, and then for each reserved
      decision name in use; it succeeds exactly when none of these holds,
      with the decision and value collections and the records of the first
      pass followed by those of the second. */
  lemma CategoricalSpec(flat1: DataSet, flat2: DataSet, name1: string, name2: string)
    ensures var r := CategoricalCompared(flat1, flat2, name1, name2);
            var ready := flat1.collections != [] && flat1.collections[0].attrs.Some? &&
                         flat2.collections != [] && flat2.collections[0].attrs.Some?;
            var allAttributes := AllAttrNames(flat1) + AllAttrNames(flat2);
            (flat1.collections == [] ==> r == Err(NoFirstCollection)) &&
            (flat1.collections != [] && flat1.collections[0].attrs.None? ==> r == Err(FirstNoCollections)) &&
            (flat1.collections != [] && flat1.collections[0].attrs.Some? && flat2.collections == [] ==>
               r == Err(NoFirstCollection)) &&
            ((flat1.collections != [] && flat1.collections[0].attrs.Some? &&
              flat2.collections != [] && flat2.collections[0].attrs.None?) ==> r == Err(SecondNoCollections)) &&
            (ready && Decision1 in allAttributes ==> r == Err(ReservedMessage(Decision1))) &&
            (ready && Decision1 !in allAttributes && Decision2 in allAttributes ==> r == Err(ReservedMessage(Decision2))) &&
            (r.Ok? <==> ready && Decision1 !in allAttributes && Decision2 !in allAttributes) &&
            (r.Ok? ==>
               var shared := EraseFormulas(ValueAttrs(SharedAttrs(flat1.collections[0].attrs.value,
                                                                  flat2.collections[0].attrs.value), name1, name2));
               r.value.collections == DecisionCollections(shared) &&
               r.value.records ==
                 FirstPass(flat1.records, flat2.records, Names(shared), name1, name2) +
                 SecondPass(flat1.records, flat2.records, Names(shared), name2))
  {
  }

  /** compareCategorical on the two flattened datasets. */
  method CompareCategorical(flat1: DataSet, flat2: DataSet, name1: string, name2: string) returns (r: Result<DataSet>)
    ensures r == CategoricalCompared(flat1, flat2, name1, name2)
  {
    if flat1.collections == [] {
      return Err(NoFirstCollection);
    }
    var attributes1 := flat1.collections[0].attrs;
    if attributes1.None? {
      return Err(FirstNoCollections);
    }
    if flat2.collections == [] {
      return Err(NoFirstCollection);
    }
    var attributes2 := flat2.collections[0].attrs;
    if attributes2.None? {
      return Err(SecondNoCollections);
    }
    var shared := EraseFormulas(ValueAttrs(SharedAttrs(attributes1.value, attributes2.value), name1, name2));
    var allAttributes := AllAttrNames(flat1) + AllAttrNames(flat2);
    if Decision1 in allAttributes {
      return Err(ReservedMessage(Decision1));
    }
    if Decision2 in allAttributes {
      return Err(ReservedMessage(Decision2));
    }
    var collections := DecisionCollections(shared);
    var records := CategoricalRecords(flat1.records, flat2.records, Names(shared), name1, name2);
    return Ok(DataSet(collections, records));
  }

  // ---------------------------------------------------------------------
  // The transformer

  /** uncheckedCompare, as a function: the attribute errors, then the
      categorical comparison, or one comparison collection with the
      structural expansion or the numeric records. */
  function Compared(dataset1: DataSet, dataset2: DataSet, name1: string, name2: string, kind: CompareType,
                    attributeData1: Result<Attribute>, attributeData2: Result<Attribute>,
                    flat1: DataSet, flat2: DataSet, changes: seq<Change>,
                    unique: (string, seq<string>) -> string): Result<DataSet> {
    var attr1 :- attributeData1;
    var attr2 :- attributeData2;
    if kind == Categorical then CategoricalCompared(flat1, flat2, attr1.name, attr2.name)
    else
      var names := ColumnNames(name1, name2, unique);
      var collection := ComparisonCollection(attr1, attr2, name1, name2, names, kind);
      if kind == Structural then
        var records :- Expanded(StructuralColumns(name1, names), changes);
        Ok(DataSet([collection], records))
      else
        Ok(DataSet([collection], NumericRecords(name1, names, Column(dataset1.records, name1), Column(dataset2.records, name2))))
  }

  /** A successful comparison has two collections when categorical and one
      otherwise. */
  lemma ComparedCollections(dataset1: DataSet, dataset2: DataSet, name1: string, name2: string, kind: CompareType,
                            attributeData1: Result<Attribute>, attributeData2: Result<Attribute>,
                            flat1: DataSet, flat2: DataSet, changes: seq<Change>,
                            unique: (string, seq<string>) -> string)
    ensures var r := Compared(dataset1, dataset2, name1, name2, kind, attributeData1, attributeData2, flat1, flat2, changes, unique);
            r.Ok? ==> |r.value.collections| == if kind == Categorical then 2 else 1
  {
  }

  /** uncheckedCompare. The attribute data (getAttributeDataFromDataset),
      the flattened datasets (uncheckedFlatten) and the change list of the
      two value columns (diffArrays) are inputs. */
  method UncheckedCompare(dataset1: DataSet, dataset2: DataSet, name1: string, name2: string, kind: CompareType,
                          attributeData1: Result<Attribute>, attributeData2: Result<Attribute>,
                          flat1: DataSet, flat2: DataSet, changes: seq<Change>,
                          unique: (string, seq<string>) -> string) returns (r: Result<DataSet>)
    ensures r == Compared(dataset1, dataset2, name1, name2, kind, attributeData1, attributeData2, flat1, flat2, changes, unique)
    ensures attributeData1.Err? ==> r == Err(attributeData1.error)
    ensures attributeData1.Ok? && attributeData2.Err? ==> r == Err(attributeData2.error)
    ensures attributeData1.Ok? && attributeData2.Ok? && kind != Categorical ==>
              var names := ColumnNames(name1, name2, unique);
              var collection := ComparisonCollection(attributeData1.value, attributeData2.value, name1, name2, names, kind);
              var values1 := Column(dataset1.records, name1);
              var values2 := Column(dataset2.records, name2);
              var records := if kind == Structural then Expanded(StructuralColumns(name1, names), changes)
                             else Ok(NumericRecords(name1, names, values1, values2));
              (records.Err? ==> r == Err(records.error)) &&
              (records.Ok? ==> r == Ok(DataSet([collection], records.value)))
    ensures attributeData1.Ok? && attributeData2.Ok? && kind == Categorical ==>
              r == CategoricalCompared(flat1, flat2, attributeData1.value.name, attributeData2.value.name)
  {
    var attr1 :- attributeData1;
    var attr2 :- attributeData2;
    if kind == Categorical {
      r := CompareCategorical(flat1, flat2, attr1.name, attr2.name);
      return;
    }
    var names := ColumnNames(name1, name2, unique);
    var collection := ComparisonCollection(attr1, attr2, name1, name2, names, kind);
    var values1 := Column(dataset1.records, name1);
    var values2 := Column(dataset2.records, name2);
    if kind == Structural {
      var records := ExpandChanges(StructuralColumns(name1, names), changes);
      if records.Err? {
        return Err(records.error);
      }
      return Ok(DataSet([collection], records.value));
    }
    var records := CompareRecordsNumerical(name1, names, values1, values2);
    return Ok(DataSet([collection], records));
  }

  /** compare: the argument checks, then the comparison with its name and
      description. `context1`/`context2` are the readable names of the two
      contexts the source fetches. */
  method CompareTransform(inputContext1: Option<string>, inputContext2: Option<string>,
                          inputAttribute1: Option<string>, inputAttribute2: Option<string>, dropdown: Option<string>,
                          context1: string, context2: string, dataset1: DataSet, dataset2: DataSet,
                          attributeData1: Result<Attribute>, attributeData2: Result<Attribute>,
                          flat1: DataSet, flat2: DataSet, changes: seq<Change>,
                          unique: (string, seq<string>) -> string) returns (r: Result<(DataSet, string, string)>)
    ensures !(Given(inputContext1) && Given(inputContext2) && Given(inputAttribute1) && Given(inputAttribute2)) ==>
              r == Err(MissingInputs)
    ensures (Given(inputContext1) && Given(inputContext2) && Given(inputAttribute1) && Given(inputAttribute2) &&
             ParseCompareType(dropdown).None?) ==> r == Err(BadCompareType)
    ensures (Given(inputContext1) && Given(inputContext2) && Given(inputAttribute1) && Given(inputAttribute2) &&
             ParseCompareType(dropdown).Some?) ==>
              var output := Compared(dataset1, dataset2, inputAttribute1.value, inputAttribute2.value,
                                     ParseCompareType(dropdown).value, attributeData1, attributeData2,
                                     flat1, flat2, changes, unique);
              (output.Err? ==> r == Err(output.error)) &&
              (output.Ok? ==> r.Ok? && r.value.0 == output.value)
    ensures r.Ok? ==>
              r.value.1 == "Compare of " + context1 + " and " + context2 &&
              r.value.2 == "A " + dropdown.value + " comparison of the attributes " + inputAttribute1.value +
                           " (from " + context1 + ") and " + inputAttribute2.value + " (from " + context2 + ")"
  {
    if !Given(inputContext1) || !Given(inputContext2) || !Given(inputAttribute1) || !Given(inputAttribute2) {
      return Err(MissingInputs);
    }
    var kind := ParseCompareType(dropdown);
    if kind.None? {
      return Err(BadCompareType);
    }
    var output :- UncheckedCompare(dataset1, dataset2, inputAttribute1.value, inputAttribute2.value, kind.value,
                                   attributeData1, attributeData2, flat1, flat2, changes, unique);
    return Ok((output, "Compare of " + context1 + " and " + context2,
               "A " + KindName(kind.value) + " comparison of the attributes " + inputAttribute1.value +
               " (from " + context1 + ") and " + inputAttribute2.value + " (from " + context2 + ")"));
  }
}
