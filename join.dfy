/** src/transformations/join.ts: adding to each record of a base dataset the
    fields of the first record of a joining dataset that matches it. */
module Join {
  import opened Wrappers
  import opened Data

  /** findCollectionWithAttr: the index of the first collection holding an
      attribute of the given name. */
  function FindCollectionWithAttr(collections: seq<Collection>, attribute: string): (r: Option<nat>)
    ensures r.Some? ==> r.value < |collections| && FindAttr(AttrsOf(collections[r.value]), attribute).Some?
    ensures r.Some? ==> forall i :: 0 <= i < r.value ==> FindAttr(AttrsOf(collections[i]), attribute).None?
    ensures r.None? ==> forall i :: 0 <= i < |collections| ==> FindAttr(AttrsOf(collections[i]), attribute).None?
  {
    if collections == [] then None
    else if FindAttr(AttrsOf(collections[0]), attribute).Some? then Some(0)
    else match FindCollectionWithAttr(collections[1..], attribute)
      case None => None
      case Some(k) => Some(k + 1)
  }

  /** The attributes of all collections, in order (`coll.attrs || []` each):
      exactly the attributes some collection holds. */
  function AllAttrs(collections: seq<Collection>): (r: seq<Attribute>)
    ensures forall c, a :: c in collections && a in AttrsOf(c) ==> a in r
    ensures forall a :: a in r ==> exists c :: c in collections && a in AttrsOf(c)
  {
    if collections == [] then []
    else
      var init := collections[..|collections| - 1];
      assert collections == init + [collections[|collections| - 1]];
      AllAttrs(init) + AttrsOf(collections[|collections| - 1])
  }

  /** The attributes of a concatenation of collection lists are those of
      each list, in order: with `AllAttrsOfOne`, `AllAttrs` is the
      concatenation of the attribute lists. */
  lemma {:induction false} AllAttrsConcat(xs: seq<Collection>, ys: seq<Collection>)
    ensures AllAttrs(xs + ys) == AllAttrs(xs) + AllAttrs(ys)
    decreases |ys|
  {
    if ys == [] {
      assert xs + ys == xs;
    } else {
      var n := |ys| - 1;
      assert AllAttrs(xs + ys) == AllAttrs(xs + ys[..n]) + AttrsOf(ys[n]) by {
        assert (xs + ys)[..|xs + ys| - 1] == xs + ys[..n];
        assert (xs + ys)[|xs + ys| - 1] == ys[n];
      }
      AllAttrsConcat(xs, ys[..n]);
      assert AllAttrs(ys) == AllAttrs(ys[..n]) + AttrsOf(ys[n]);
      assert AllAttrs(xs) + AllAttrs(ys[..n]) + AttrsOf(ys[n]) == AllAttrs(xs) + (AllAttrs(ys[..n]) + AttrsOf(ys[n]));
    }
  }

  /** The attributes of one collection are its own. */
  lemma AllAttrsOfOne(c: Collection)
    ensures AllAttrs([c]) == AttrsOf(c)
  {
    assert [c][..0] == [];
  }

  /** The added attributes renamed in order: each takes the name `unique`
      picks for it against the base attributes and the attributes renamed
      before it. `unique` stands for the helper uniqueAttrName. */
  function RenamedAttrs(added: seq<Attribute>, avoid: seq<Attribute>, unique: (string, seq<string>) -> string): (r: seq<Attribute>)
    ensures |r| == |added|
    ensures forall i :: 0 <= i < |r| ==> r[i] == added[i].(name := r[i].name)
  {
    if added == [] then []
    else
      var init := RenamedAttrs(added[..|added| - 1], avoid, unique);
      var last := added[|added| - 1];
      init + [last.(name := unique(last.name, Names(avoid + init)))]
  }

  /** attrToUnique: each original name mapped to its new name; a name that
      occurs twice keeps the later one. */
  function UniqueMap(added: seq<Attribute>, renamed: seq<Attribute>): (m: map<string, string>)
    requires |added| == |renamed|
    ensures m.Keys == set a | a in added :: a.name
  {
    if added == [] then map[]
    else
      var n := |added| - 1;
      assert added == added[..n] + [added[n]];
      UniqueMap(added[..n], renamed[..n])[added[n].name := renamed[n].name]
  }

  /** One more attribute renamed. */
  lemma RenameStep(added: seq<Attribute>, i: nat, avoid: seq<Attribute>, unique: (string, seq<string>) -> string, renamed: seq<Attribute>)
    requires i < |added| && renamed == RenamedAttrs(added[..i], avoid, unique)
    ensures RenamedAttrs(added[..i + 1], avoid, unique) == renamed + [added[i].(name := unique(added[i].name, Names(avoid + renamed)))]
  {
    var pre := added[..i + 1];
    assert pre[..|pre| - 1] == added[..i];
    assert pre[|pre| - 1] == added[i];
  }

  /** One more entry of attrToUnique. */
  lemma UniqueStep(added: seq<Attribute>, i: nat, renamed: seq<Attribute>, attr: Attribute)
    requires i < |added| && |renamed| == i
    ensures UniqueMap(added[..i + 1], renamed + [attr]) == UniqueMap(added[..i], renamed)[added[i].name := attr.name]
  {
    var pre := added[..i + 1];
    assert pre[..i] == added[..i];
    assert (renamed + [attr])[..i] == renamed;
  }

  lemma AppendAssoc<T>(a: seq<T>, b: seq<T>, c: seq<T>)
    ensures (a + b) + c == a + (b + c)
  {
  }

  /** The loop renaming the added attributes. */
  method RenameAdded(added: seq<Attribute>, baseAttrs: seq<Attribute>, unique: (string, seq<string>) -> string)
    returns (renamed: seq<Attribute>, attrToUnique: map<string, string>)
    ensures renamed == RenamedAttrs(added, baseAttrs, unique)
    ensures attrToUnique == UniqueMap(added, renamed)
  {
    var namesToAvoid := baseAttrs;
    renamed := [];
    attrToUnique := map[];
    for i := 0 to |added|
      invariant |renamed| == i
      invariant renamed == RenamedAttrs(added[..i], baseAttrs, unique)
      invariant attrToUnique == UniqueMap(added[..i], renamed)
      invariant namesToAvoid == baseAttrs + renamed
    {
      var u := unique(added[i].name, Names(namesToAvoid));
      var attr := added[i].(name := u);
      RenameStep(added, i, baseAttrs, unique, renamed);
      UniqueStep(added, i, renamed, attr);
      AppendAssoc(baseAttrs, renamed, [attr]);
      attrToUnique := attrToUnique[added[i].name := u];
      namesToAvoid := namesToAvoid + [attr];
      renamed := renamed + [attr];
    }
    assert added[..|added|] == added;
  }

  /** The index of the first joining record whose `joiningAttr` value is
      strictly equal to `value` (an absent field is undefined). */
  function FirstMatch(records: seq<Record>, joiningAttr: string, value: Cell): (r: Option<nat>)
    ensures r.Some? ==> r.value < |records| && Get(records[r.value], joiningAttr) == value
    ensures r.Some? ==> forall i :: 0 <= i < r.value ==> Get(records[i], joiningAttr) != value
    ensures r.None? ==> forall i :: 0 <= i < |records| ==> Get(records[i], joiningAttr) != value
  {
    if records == [] then None
    else if Get(records[0], joiningAttr) == value then Some(0)
    else match FirstMatch(records[1..], joiningAttr, value)
      case None => None
      case Some(k) => Some(k + 1)
  }

  /** The record with, for each original name in order, the matching
      record's value stored under the name's new name. */
  function CopyFields(record: Record, from: Record, names: seq<string>, attrToUnique: map<string, string>): (r: Record)
    requires forall n :: n in names ==> n in attrToUnique
    ensures r.Keys == record.Keys + set n | n in names :: attrToUnique[n]
  {
    if names == [] then record
    else
      var n := |names| - 1;
      assert names == names[..n] + [names[n]];
      CopyFields(record, from, names[..n], attrToUnique)[attrToUnique[names[n]] := Get(from, names[n])]
  }

  /** One more field copied. */
  lemma CopyFieldsStep(record: Record, from: Record, names: seq<string>, i: nat, attrToUnique: map<string, string>)
    requires i < |names| && forall n :: n in names ==> n in attrToUnique
    ensures CopyFields(record, from, names[..i + 1], attrToUnique) ==
            CopyFields(record, from, names[..i], attrToUnique)[attrToUnique[names[i]] := Get(from, names[i])]
  {
    var pre := names[..i + 1];
    assert pre[..i] == names[..i];
  }

  /** When distinct names get distinct new names, every new field holds the
      matching record's value of the original field; fields that are no new
      name keep their value. */
  lemma {:induction false} CopyFieldsValues(record: Record, from: Record, names: seq<string>, attrToUnique: map<string, string>)
    requires forall n :: n in names ==> n in attrToUnique
    requires forall m, n :: m in names && n in names && m != n ==> attrToUnique[m] != attrToUnique[n]
    ensures forall n :: n in names ==> CopyFields(record, from, names, attrToUnique)[attrToUnique[n]] == Get(from, n)
    ensures forall k :: k in record && (forall n :: n in names ==> attrToUnique[n] != k) ==>
              CopyFields(record, from, names, attrToUnique)[k] == record[k]
  {
    if names != [] {
      var last := |names| - 1;
      var init := names[..last];
      assert names == init + [names[last]];
      CopyFieldsValues(record, from, init, attrToUnique);
    }
  }

  /** A base record after the join. */
  function JoinedRecord(record: Record, joining: seq<Record>, baseAttr: string, joiningAttr: string,
                        originalNames: seq<string>, attrToUnique: map<string, string>): Record
    requires forall n :: n in originalNames ==> n in attrToUnique
  {
    var m := FirstMatch(joining, joiningAttr, Get(record, baseAttr));
    if m.None? then record else CopyFields(record, joining[m.value], originalNames, attrToUnique)
  }

  /** The inner loop: copy the matching record's fields. */
  method CopyMatch(record: Record, matching: Record, originalNames: seq<string>, attrToUnique: map<string, string>)
    returns (r: Record)
    requires forall n :: n in originalNames ==> n in attrToUnique
    ensures r == CopyFields(record, matching, originalNames, attrToUnique)
  {
    r := record;
    for i := 0 to |originalNames|
      invariant r == CopyFields(record, matching, originalNames[..i], attrToUnique)
    {
      var attrName := originalNames[i];
      CopyFieldsStep(record, matching, originalNames, i, attrToUnique);
      var unique := attrToUnique[attrName];
      r := r[unique := Get(matching, attrName)];
    }
    assert originalNames[..|originalNames|] == originalNames;
  }

  /** The loop over the base records. */
  method JoinRecords(records: seq<Record>, joining: seq<Record>, baseAttr: string, joiningAttr: string,
                     originalNames: seq<string>, attrToUnique: map<string, string>) returns (r: seq<Record>)
    requires forall n :: n in originalNames ==> n in attrToUnique
    ensures |r| == |records|
    ensures forall i :: 0 <= i < |r| ==> r[i] == JoinedRecord(records[i], joining, baseAttr, joiningAttr, originalNames, attrToUnique)
  {
    r := records;
    for i := 0 to |records|
      invariant |r| == |records|
      invariant forall j :: 0 <= j < i ==> r[j] == JoinedRecord(records[j], joining, baseAttr, joiningAttr, originalNames, attrToUnique)
      invariant forall j :: i <= j < |r| ==> r[j] == records[j]
    {
      var record := r[i];
      var matching := FirstMatch(joining, joiningAttr, Get(record, baseAttr));
      if matching.Some? {
        record := CopyMatch(record, joining[matching.value], originalNames, attrToUnique);
        r := r[i := record];
      }
    }
  }

  /** The collection joined into gains the renamed attributes at its end. */
  function JoinedCollections(collections: seq<Collection>, into: nat, renamed: seq<Attribute>): (r: seq<Collection>)
    requires into < |collections|
    ensures |r| == |collections|
    ensures forall i :: 0 <= i < |r| && i != into ==> r[i] == collections[i]
    ensures r[into] == collections[into].(attrs := Some(AttrsOf(collections[into]) + renamed))
  {
    collections[into := collections[into].(attrs := Some(AttrsOf(collections[into]) + renamed))]
  }

  /** join. */
  method JoinDataSets(base: DataSet, baseAttr: string, joining: DataSet, joiningAttr: string,
                      unique: (string, seq<string>) -> string) returns (r: Result<DataSet>)
    ensures FindCollectionWithAttr(joining.collections, joiningAttr).None? ==>
              r == Err("invalid joining attribute: " + joiningAttr)
    ensures FindCollectionWithAttr(joining.collections, joiningAttr).Some? &&
            FindCollectionWithAttr(base.collections, baseAttr).None? ==>
              r == Err("invalid base attribute: " + baseAttr)
    ensures FindCollectionWithAttr(joining.collections, joiningAttr).Some? &&
            FindCollectionWithAttr(base.collections, baseAttr).Some? ==>
              var added := AttrsOf(joining.collections[FindCollectionWithAttr(joining.collections, joiningAttr).value]);
              var renamed := RenamedAttrs(added, AllAttrs(base.collections), unique);
              var attrToUnique := AttrToUnique(added, AllAttrs(base.collections), unique);
              r.Ok? &&
              r.value.collections == JoinedCollections(base.collections, FindCollectionWithAttr(base.collections, baseAttr).value, renamed) &&
              |r.value.records| == |base.records| &&
              forall i :: 0 <= i < |base.records| ==>
                r.value.records[i] == JoinedRecord(base.records[i], joining.records, baseAttr, joiningAttr, Names(added), attrToUnique)
  {
    var collToJoin := FindCollectionWithAttr(joining.collections, joiningAttr);
    if collToJoin.None? {
      return Err("invalid joining attribute: " + joiningAttr);
    }
    var addedAttrs := AttrsOf(joining.collections[collToJoin.value]);
    var addedAttrOriginalNames := Names(addedAttrs);

    var collections := base.collections;
    var collToJoinInto := FindCollectionWithAttr(collections, baseAttr);
    if collToJoinInto.None? {
      return Err("invalid base attribute: " + baseAttr);
    }

    var allBaseAttrs := AllAttrs(base.collections);
    var renamed, attrToUnique := RenameAdded(addedAttrs, allBaseAttrs, unique);
    assert forall n :: n in addedAttrOriginalNames ==> n in attrToUnique;

    collections := JoinedCollections(collections, collToJoinInto.value, renamed);
    var records := JoinRecords(base.records, joining.records, baseAttr, joiningAttr, addedAttrOriginalNames, attrToUnique);
    return Ok(DataSet(collections, records));
  }

  /** `unique` picks a name outside the names it is given. */
  ghost predicate Avoids(unique: (string, seq<string>) -> string) {
    forall n, ns :: unique(n, ns) !in ns
  }

  /** With such a helper the new names are pairwise distinct and none is
      the name of a base attribute. */
  lemma {:induction false} RenamedFresh(added: seq<Attribute>, avoid: seq<Attribute>, unique: (string, seq<string>) -> string)
    requires Avoids(unique)
    ensures forall i :: 0 <= i < |added| ==> RenamedAttrs(added, avoid, unique)[i].name !in Names(avoid)
    ensures forall i, j :: 0 <= i < j < |added| ==>
              RenamedAttrs(added, avoid, unique)[i].name != RenamedAttrs(added, avoid, unique)[j].name
  {
    if added != [] {
      var init := RenamedAttrs(added[..|added| - 1], avoid, unique);
      RenamedFresh(added[..|added| - 1], avoid, unique);
      var all := Names(avoid + init);
      var r := RenamedAttrs(added, avoid, unique);
      var last := |added| - 1;
      assert r == init + [r[last]];
      assert r[last].name !in all;
      forall k | 0 <= k < |avoid|
        ensures Names(avoid)[k] != r[last].name
      {
        assert all[k] == (avoid + init)[k].name;
      }
      forall i | 0 <= i < last
        ensures r[i].name != r[last].name
      {
        assert all[|avoid| + i] == init[i].name;
      }
    }
  }

  /** When the original names are distinct, each maps to its own new name. */
  lemma {:induction false} UniqueMapAt(added: seq<Attribute>, renamed: seq<Attribute>, i: nat)
    requires |added| == |renamed| && i < |added|
    requires forall j, k :: 0 <= j < k < |added| ==> added[j].name != added[k].name
    ensures UniqueMap(added, renamed)[added[i].name] == renamed[i].name
  {
    var n := |added| - 1;
    if i < n {
      UniqueMapAt(added[..n], renamed[..n], i);
    }
  }

  /** attrToUnique as join builds it; it has an entry for every original name. */
  function AttrToUnique(added: seq<Attribute>, avoid: seq<Attribute>, unique: (string, seq<string>) -> string): (m: map<string, string>)
    ensures forall n :: n in Names(added) ==> n in m
  {
    var m := UniqueMap(added, RenamedAttrs(added, avoid, unique));
    assert forall i :: 0 <= i < |added| ==> Names(added)[i] == added[i].name;
    m
  }

  /** With distinct original names, `AttrToUnique` sends each to its own
      new name, and distinct names to distinct new names. */
  lemma AttrToUniqueInjective(added: seq<Attribute>, avoid: seq<Attribute>, unique: (string, seq<string>) -> string)
    requires Avoids(unique)
    requires forall j, k :: 0 <= j < k < |added| ==> added[j].name != added[k].name
    ensures forall i :: 0 <= i < |added| ==>
              AttrToUnique(added, avoid, unique)[added[i].name] == RenamedAttrs(added, avoid, unique)[i].name
    ensures forall m, n :: m in Names(added) && n in Names(added) && m != n ==>
              AttrToUnique(added, avoid, unique)[m] != AttrToUnique(added, avoid, unique)[n]
  {
    var renamed := RenamedAttrs(added, avoid, unique);
    RenamedFresh(added, avoid, unique);
    forall i | 0 <= i < |added|
      ensures AttrToUnique(added, avoid, unique)[added[i].name] == renamed[i].name
    {
      UniqueMapAt(added, renamed, i);
    }
  }

  /** A base record with a match holds, under each new name, the matching
      record's value of the original attribute, and keeps every field that
      is not a new name. */
  lemma JoinedMatchedFields(record: Record, matching: Record, added: seq<Attribute>, avoid: seq<Attribute>,
                            unique: (string, seq<string>) -> string)
    requires Avoids(unique)
    requires forall j, k :: 0 <= j < k < |added| ==> added[j].name != added[k].name
    ensures forall i :: 0 <= i < |added| ==>
              Get(CopyFields(record, matching, Names(added), AttrToUnique(added, avoid, unique)), RenamedAttrs(added, avoid, unique)[i].name)
                == Get(matching, added[i].name)
    ensures forall k :: k in record && k !in Names(RenamedAttrs(added, avoid, unique)) ==>
              CopyFields(record, matching, Names(added), AttrToUnique(added, avoid, unique))[k] == record[k]
  {
    var attrToUnique := AttrToUnique(added, avoid, unique);
    var renamed := RenamedAttrs(added, avoid, unique);
    var names := Names(added);
    var copied := CopyFields(record, matching, names, attrToUnique);
    AttrToUniqueInjective(added, avoid, unique);
    CopyFieldsValues(record, matching, names, attrToUnique);
    forall i | 0 <= i < |added|
      ensures Get(copied, renamed[i].name) == Get(matching, added[i].name)
    {
      assert names[i] == added[i].name && names[i] in names;
      assert attrToUnique[names[i]] == renamed[i].name;
    }
    forall k | k in record && k !in Names(renamed)
      ensures copied[k] == record[k]
    {
      forall n | n in names
        ensures attrToUnique[n] != k
      {
        var i :| 0 <= i < |names| && names[i] == n;
        assert Names(renamed)[i] == renamed[i].name;
      }
    }
  }
}
