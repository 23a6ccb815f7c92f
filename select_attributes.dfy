/** src/transformations/selectAttributes.ts: keeping only some attributes of
    a dataset, in its records and in its collections. */
module SelectAttributes {
  import opened Wrappers
  import opened Data
  import TransformUtil
  import Sequences
  import Join
  import BuildColumn

  /** The attributes of a collection not in `attributes`, for each
      collection that has an attribute list, in order: the names of all
      attributes, collection by collection, filtered with their order kept. */
  function NamesNotIn(collections: seq<Collection>, attributes: seq<string>): (r: seq<string>)
    ensures r == Sequences.Filter(Names(Join.AllAttrs(collections)), NotGiven(attributes))
  {
    if collections == [] then []
    else
      var init := collections[..|collections| - 1];
      var last := collections[|collections| - 1];
      assert collections == init + [last];
      FilteredNamesSnoc(init, last, attributes);
      NamesNotIn(init, attributes) + (if last.attrs.Some? then NotIn(Names(last.attrs.value), attributes) else [])
  }

  /** A name is selected by `allBut` exactly when it is not given and some
      collection with an attribute list has an attribute of that name. */
  lemma NamesNotInMembers(collections: seq<Collection>, attributes: seq<string>, n: string)
    ensures n in NamesNotIn(collections, attributes) <==>
              n !in attributes && exists c :: c in collections && c.attrs.Some? && n in Names(c.attrs.value)
  {
    var all := Join.AllAttrs(collections);
    assert n in NamesNotIn(collections, attributes) <==> n in Names(all) && n !in attributes by {
      Sequences.FilterMembers(Names(all), NotGiven(attributes));
      assert NotGiven(attributes)(n) <==> n !in attributes;
    }
    if n in Names(all) {
      var a := NamedIn(all, n);
      var c :| c in collections && a in AttrsOf(c);
      NamedInNames(c.attrs.value, a);
    }
    if exists c :: c in collections && c.attrs.Some? && n in Names(c.attrs.value) {
      var c :| c in collections && c.attrs.Some? && n in Names(c.attrs.value);
      var a := NamedIn(c.attrs.value, n);
      assert a in AttrsOf(c);
      NamedInNames(all, a);
    }
  }

  /** An attribute bearing a name in the names of a list. */
  lemma NamedIn(attrs: seq<Attribute>, n: string) returns (a: Attribute)
    requires n in Names(attrs)
    ensures a in attrs && a.name == n
  {
    var i :| 0 <= i < |Names(attrs)| && Names(attrs)[i] == n;
    a := attrs[i];
  }

  lemma NamedInNames(attrs: seq<Attribute>, a: Attribute)
    requires a in attrs
    ensures a.name in Names(attrs)
  {
    var i :| 0 <= i < |attrs| && attrs[i] == a;
    assert Names(attrs)[i] == a.name;
  }

  /** Filtering the names of one more collection's attributes appends that
      collection's filtered names. */
  lemma FilteredNamesSnoc(init: seq<Collection>, last: Collection, attributes: seq<string>)
    ensures Sequences.Filter(Names(Join.AllAttrs(init + [last])), NotGiven(attributes)) ==
            Sequences.Filter(Names(Join.AllAttrs(init)), NotGiven(attributes)) + NotIn(Names(AttrsOf(last)), attributes)
  {
    Join.AllAttrsConcat(init, [last]);
    Join.AllAttrsOfOne(last);
    NamesConcat(Join.AllAttrs(init), AttrsOf(last));
    Sequences.FilterConcat(Names(Join.AllAttrs(init)), Names(AttrsOf(last)), NotGiven(attributes));
  }

  /** The names of a concatenation are the names of its parts. */
  lemma {:induction false} NamesConcat(a: seq<Attribute>, b: seq<Attribute>)
    ensures Names(a + b) == Names(a) + Names(b)
  {
  }

  function NotGiven(attributes: seq<string>): string -> bool {
    (name: string) => name !in attributes
  }

  /** `names.filter((name) => !attributes.includes(name))`: the names not
      given, in their order. */
  function NotIn(names: seq<string>, attributes: seq<string>): (r: seq<string>)
    ensures Sequences.IsFilter(r, names, NotGiven(attributes))
    ensures forall n :: n in r <==> n in names && n !in attributes
  {
    Sequences.FilterInOrder(names, NotGiven(attributes));
    Sequences.FilterMembers(names, NotGiven(attributes));
    Sequences.Filter(names, NotGiven(attributes))
  }

  function Selection(dataset: DataSet, attributes: seq<string>, allBut: bool): seq<string> {
    if allBut then NamesNotIn(dataset.collections, attributes) else attributes
  }

  /** attrsToSelect: the given attributes, or with `allBut` every attribute
      of the dataset that is not given. */
  method AttrsToSelect(dataset: DataSet, attributes: seq<string>, allBut: bool) returns (selected: seq<string>)
    ensures selected == Selection(dataset, attributes, allBut)
  {
    if !allBut {
      return attributes;
    }
    selected := [];
    for i := 0 to |dataset.collections|
      invariant selected == NamesNotIn(dataset.collections[..i], attributes)
    {
      var coll := dataset.collections[i];
      assert dataset.collections[..i + 1][..i] == dataset.collections[..i];
      if coll.attrs.Some? {
        var attrs := NotIn(Names(coll.attrs.value), attributes);
        selected := selected + attrs;
      }
    }
    assert dataset.collections[..|dataset.collections|] == dataset.collections;
  }

  /** A record cut down to the selected fields; the first selected name the
      record has no defined value for is an error. */
  function SelectFields(record: Record, names: seq<string>): Result<Record> {
    if names == [] then Ok(map[])
    else
      var copy :- SelectFields(record, names[..|names| - 1]);
      var name := names[|names| - 1];
      if Get(record, name) == Undef then Err("invalid attribute name: " + name)
      else Ok(copy[name := record[name]])
  }

  /** The cut-down record exists exactly when every selected field is
      defined; it has exactly the selected fields, with the record's values. */
  lemma {:induction false} SelectFieldsSpec(record: Record, names: seq<string>)
    ensures SelectFields(record, names).Ok? <==> forall n :: n in names ==> Get(record, n) != Undef
    ensures SelectFields(record, names).Ok? ==>
              SelectFields(record, names).value.Keys == (set n | n in names) &&
              forall n :: n in names ==> SelectFields(record, names).value[n] == record[n]
  {
    if names != [] {
      var init := names[..|names| - 1];
      assert names == init + [names[|names| - 1]];
      SelectFieldsSpec(record, init);
    }
  }

  /** The inner loop over the selected names. */
  method CopySelected(record: Record, names: seq<string>) returns (r: Result<Record>)
    ensures r == SelectFields(record, names)
  {
    var copy: Record := map[];
    for j := 0 to |names|
      invariant SelectFields(record, names[..j]) == Ok(copy)
    {
      var attrName := names[j];
      assert names[..j + 1][..j] == names[..j];
      if Get(record, attrName) == Undef {
        SelectFieldsFailedPrefix(record, names, j + 1);
        return Err("invalid attribute name: " + attrName);
      }
      copy := copy[attrName := record[attrName]];
    }
    assert names[..|names|] == names;
    return Ok(copy);
  }

  /** A failure on a prefix of the names is the failure of the whole copy. */
  lemma {:induction false} SelectFieldsFailedPrefix(record: Record, names: seq<string>, j: nat)
    requires j <= |names| && SelectFields(record, names[..j]).Err?
    ensures SelectFields(record, names) == SelectFields(record, names[..j])
    decreases |names|
  {
    if j < |names| {
      var init := names[..|names| - 1];
      assert init[..j] == names[..j];
      SelectFieldsFailedPrefix(record, init, j);
    } else {
      assert names[..j] == names;
    }
  }

  /** All records cut down, in order; the first failing record is the error. */
  function SelectRecords(records: seq<Record>, names: seq<string>): (r: Result<seq<Record>>)
    ensures r.Ok? ==> |r.value| == |records|
    ensures r.Ok? ==> forall i :: 0 <= i < |records| ==> SelectFields(records[i], names) == Ok(r.value[i])
  {
    if records == [] then Ok([])
    else
      var init :- SelectRecords(records[..|records| - 1], names);
      var copy :- SelectFields(records[|records| - 1], names);
      Ok(init + [copy])
  }

  /** A failure on a prefix of the records is the failure of the whole loop. */
  lemma {:induction false} SelectRecordsFailedPrefix(records: seq<Record>, names: seq<string>, i: nat)
    requires i <= |records| && SelectRecords(records[..i], names).Err?
    ensures SelectRecords(records, names) == SelectRecords(records[..i], names)
    decreases |records|
  {
    if i < |records| {
      var init := records[..|records| - 1];
      assert init[..i] == records[..i];
      SelectRecordsFailedPrefix(init, names, i);
    } else {
      assert records[..i] == records;
    }
  }

  /** The outer loop over the records. */
  method CopyRecords(records: seq<Record>, names: seq<string>) returns (r: Result<seq<Record>>)
    ensures r == SelectRecords(records, names)
  {
    var out: seq<Record> := [];
    for i := 0 to |records|
      invariant SelectRecords(records[..i], names) == Ok(out)
    {
      assert records[..i + 1][..i] == records[..i];
      var copy := CopySelected(records[i], names);
      if copy.Err? {
        SelectRecordsFailedPrefix(records, names, i + 1);
        return Err(copy.error);
      }
      out := out + [copy.value];
    }
    assert records[..|records|] == records;
    return Ok(out);
  }

  function NameIn(names: seq<string>): Attribute -> bool {
    (attr: Attribute) => attr.name in names
  }

  /** `attrs.filter((attr) => selected.includes(attr.name))`: the
      attributes whose names are selected, in their order. */
  function AttrsNamed(attrs: seq<Attribute>, names: seq<string>): (r: seq<Attribute>)
    ensures |r| <= |attrs|
    ensures forall a :: a in r <==> a in attrs && a.name in names
  {
    Sequences.FilterMembers(attrs, NameIn(names));
    Sequences.Filter(attrs, NameIn(names))
  }

  /** The selected attributes keep their order. */
  lemma AttrsNamedInOrder(attrs: seq<Attribute>, names: seq<string>)
    ensures Sequences.IsFilter(AttrsNamed(attrs, names), attrs, NameIn(names))
  {
    Sequences.FilterInOrder(attrs, NameIn(names));
  }

  function FilterAttrs(coll: Collection, names: seq<string>): Collection {
    coll.(attrs := if coll.attrs.Some? then Some(AttrsNamed(coll.attrs.value, names)) else None)
  }

  /** A collection is kept unless its attribute list became empty. */
  predicate Kept(coll: Collection) {
    coll.attrs.None? || |coll.attrs.value| > 0
  }

  /** The loop over the collections from index `i` on: each has its
      attributes filtered; a collection left with none is removed and its
      children reparented, in the whole list (the collections already kept
      and those still to come). `kept` lists the indices kept so far. */
  function Prune(all: seq<Collection>, i: nat, kept: seq<nat>, names: seq<string>): (r: seq<Collection>)
    requires i <= |all| && forall j :: 0 <= j < |kept| ==> kept[j] < i
    decreases |all| - i
  {
    if i == |all| then seq(|kept|, j requires 0 <= j < |kept| => all[kept[j]])
    else
      var coll := FilterAttrs(all[i], names);
      var all' := all[i := coll];
      if Kept(coll) then Prune(all', i + 1, kept + [i], names)
      else Prune(TransformUtil.Reparented(all', coll), i + 1, kept, names)
  }

  /** The collections selected from `all`. */
  function SelectCollections(all: seq<Collection>, names: seq<string>): seq<Collection> {
    Prune(all, 0, [], names)
  }

  /** Whether a collection survives the selection: its attribute list
      filtered by `names` is absent or not empty. */
  function Survives(names: seq<string>): Collection -> bool {
    (c: Collection) => Kept(FilterAttrs(c, names))
  }

  /** `a` is `b` except perhaps for its parent. */
  predicate SameButParent(a: Collection, b: Collection) {
    a.name == b.name && a.title == b.title && a.attrs == b.attrs && a.labels == b.labels
  }

  /** The collections of `all0` with those before `i` filtered. */
  function Staged(all0: seq<Collection>, names: seq<string>, i: nat): (r: seq<Collection>)
    ensures |r| == |all0|
    ensures forall j :: 0 <= j < |r| ==> r[j] == if j < i then FilterAttrs(all0[j], names) else all0[j]
  {
    seq(|all0|, j requires 0 <= j < |all0| => if j < i then FilterAttrs(all0[j], names) else all0[j])
  }

  /** Reparenting changes parents only. */
  lemma ReparentedKeepsShape(cs: seq<Collection>, parent: Collection, targets: seq<Collection>)
    requires |cs| == |targets| && forall j :: 0 <= j < |cs| ==> SameButParent(cs[j], targets[j])
    ensures forall j :: 0 <= j < |cs| ==> SameButParent(TransformUtil.Reparented(cs, parent)[j], targets[j])
  {
  }

  /** One turn of the loop keeps the stage: the kept indices grow by `i`
      exactly when the filtered collection survives, and the list, with or
      without reparenting, differs from the next stage only in parents. */
  lemma StageStep(all0: seq<Collection>, names: seq<string>, cur: seq<Collection>, i: nat, kept: seq<nat>)
    requires |cur| == |all0| && i < |all0|
    requires kept == Sequences.Positions(all0[..i], Survives(names))
    requires forall j :: 0 <= j < |cur| ==> SameButParent(cur[j], Staged(all0, names, i)[j])
    ensures var coll := FilterAttrs(cur[i], names);
            var all' := cur[i := coll];
            Sequences.Positions(all0[..i + 1], Survives(names)) == (if Kept(coll) then kept + [i] else kept) &&
            (forall j :: 0 <= j < |all'| ==> SameButParent(all'[j], Staged(all0, names, i + 1)[j])) &&
            (forall j :: 0 <= j < |all'| ==> SameButParent(TransformUtil.Reparented(all', coll)[j], Staged(all0, names, i + 1)[j]))
  {
    var coll := FilterAttrs(cur[i], names);
    assert Kept(coll) <==> Survives(names)(all0[i]);
    assert all0[..i + 1][..i] == all0[..i];
    assert all0[..i + 1][i] == all0[i];
    var all' := cur[i := coll];
    forall j | 0 <= j < |all'|
      ensures SameButParent(all'[j], Staged(all0, names, i + 1)[j])
    {
      if j != i {
        assert Staged(all0, names, i + 1)[j] == Staged(all0, names, i)[j];
      }
    }
    ReparentedKeepsShape(all', coll, Staged(all0, names, i + 1));
  }

  /** The loop from index `i` on, started from `all0`: the collections
      before `i` have been filtered and every entry differs from its
      original (filtered when before `i`) at most in its parent. The
      result is, in order, the filtered surviving collections, each
      differing at most in its parent. */
  lemma {:induction false} PruneShape(all0: seq<Collection>, names: seq<string>, cur: seq<Collection>, i: nat, kept: seq<nat>)
    requires |cur| == |all0| && i <= |all0|
    requires kept == Sequences.Positions(all0[..i], Survives(names))
    requires forall j :: 0 <= j < |cur| ==> SameButParent(cur[j], Staged(all0, names, i)[j])
    ensures var r := Prune(cur, i, kept, names);
            var survivors := Sequences.Positions(all0, Survives(names));
            |r| == |survivors| &&
            forall k :: 0 <= k < |r| ==> SameButParent(r[k], FilterAttrs(all0[survivors[k]], names))
    decreases |all0| - i
  {
    if i < |all0| {
      StageStep(all0, names, cur, i, kept);
      var coll := FilterAttrs(cur[i], names);
      if Kept(coll) {
        PruneShape(all0, names, cur[i := coll], i + 1, kept + [i]);
      } else {
        PruneShape(all0, names, TransformUtil.Reparented(cur[i := coll], coll), i + 1, kept);
      }
    } else {
      assert all0[..i] == all0;
    }
  }

  /** The collections of `selectAttributes`, in order, are the filtered
      collections `FilterAttrs(all[i])` for exactly those `i` whose
      filtered attribute list is absent or not empty; each differs from
      it at most in its parent. */
  lemma SelectCollectionsShape(all: seq<Collection>, names: seq<string>)
    ensures var r := SelectCollections(all, names);
            var survivors := Sequences.Positions(all, Survives(names));
            (forall i :: 0 <= i < |all| ==> (i in survivors <==> Kept(FilterAttrs(all[i], names)))) &&
            (forall k, l :: 0 <= k < l < |survivors| ==> survivors[k] < survivors[l]) &&
            |r| == |survivors| &&
            forall k :: 0 <= k < |r| ==> SameButParent(r[k], FilterAttrs(all[survivors[k]], names))
  {
    assert all[..0] == [];
    PruneShape(all, names, all, 0, []);
    Sequences.PositionsMembers(all, Survives(names));
  }

  /** The output collections of selectAttributes: none is empty, they hold
      only selected attributes, and there are at most as many as went in. */
  lemma SelectCollectionsSpec(all: seq<Collection>, names: seq<string>)
    ensures |SelectCollections(all, names)| <= |all|
    ensures forall c :: c in SelectCollections(all, names) ==>
              Kept(c) && (c.attrs.Some? ==> forall a :: a in c.attrs.value ==> a.name in names)
  {
    SelectCollectionsShape(all, names);
    var r := SelectCollections(all, names);
    var survivors := Sequences.Positions(all, Survives(names));
    forall c | c in r
      ensures Kept(c) && (c.attrs.Some? ==> forall a :: a in c.attrs.value ==> a.name in names)
    {
      var k :| 0 <= k < |r| && r[k] == c;
      assert Survives(names)(all[survivors[k]]);
    }
  }

  // ---- parents after pruning ----

  predicate DistinctNames(all: seq<Collection>) {
    forall i, j :: 0 <= i < j < |all| ==> all[i].name != all[j].name
  }

  /** Every parent names a collection listed before its child, as CODAP
      lists a hierarchy from the top down. */
  predicate ParentsFirst(all: seq<Collection>) {
    forall i :: 0 <= i < |all| && all[i].parent.Some? ==>
      exists j :: 0 <= j < i && all[j].name == all[i].parent.value
  }

  /** The parent `p` resolved through the collections dropped below index
      `bound`: while it names such a collection, it is replaced by that
      collection's own parent. */
  function Ancestor(all: seq<Collection>, names: seq<string>, p: Option<string>, bound: nat): Option<string>
    decreases bound
  {
    match p
    case None => None
    case Some(n) =>
      match BuildColumn.FindCollectionNamed(all, n)
      case None => p
      case Some(m) =>
        if m < bound && !Kept(FilterAttrs(all[m], names)) then Ancestor(all, names, all[m].parent, m) else p
  }

  lemma FindDistinct(all: seq<Collection>, i: nat)
    requires DistinctNames(all) && i < |all|
    ensures BuildColumn.FindCollectionNamed(all, all[i].name) == Some(i)
  {
  }

  /** With parents listed first, the parent of the collection at `m`,
      resolved below `m`, names a collection before `m` or nothing. */
  lemma {:induction false} AncestorBelow(all: seq<Collection>, names: seq<string>, m: nat)
    requires ParentsFirst(all) && m < |all|
    ensures var q := Ancestor(all, names, all[m].parent, m);
            q.Some? ==> BuildColumn.FindCollectionNamed(all, q.value).Some? &&
                        BuildColumn.FindCollectionNamed(all, q.value).value < m
    decreases m
  {
    if all[m].parent.Some? {
      var j :| 0 <= j < m && all[j].name == all[m].parent.value;
      var f := BuildColumn.FindCollectionNamed(all, all[m].parent.value);
      assert f.Some? && f.value <= j;
      if !Kept(FilterAttrs(all[f.value], names)) {
        AncestorBelow(all, names, f.value);
      }
    }
  }

  /** Passing a kept collection resolves nothing more. */
  lemma AncestorPastKept(all: seq<Collection>, names: seq<string>, p: Option<string>, i: nat)
    requires i < |all| && Kept(FilterAttrs(all[i], names))
    ensures Ancestor(all, names, p, i + 1) == Ancestor(all, names, p, i)
  {
  }

  /** Passing the dropped collection at `i` moves exactly the parents that
      name it to its own resolved parent. */
  lemma AncestorPastDropped(all: seq<Collection>, names: seq<string>, p: Option<string>, i: nat)
    requires DistinctNames(all) && ParentsFirst(all)
    requires i < |all| && !Kept(FilterAttrs(all[i], names))
    ensures var q := Ancestor(all, names, p, i);
            Ancestor(all, names, p, i + 1) ==
              if q == Some(all[i].name) then Ancestor(all, names, all[i].parent, i) else q
  {
    FindDistinct(all, i);
    if p.Some? {
      var f := BuildColumn.FindCollectionNamed(all, p.value);
      if f.Some? && f.value < i && !Kept(FilterAttrs(all[f.value], names)) {
        AncestorBelow(all, names, f.value);
      }
    }
  }

  /** The `k`-th of `r` has the parent of the `k`-th surviving collection
      of `all0`, resolved through all dropped collections. */
  predicate ParentsResolved(all0: seq<Collection>, names: seq<string>, r: seq<Collection>) {
    var survivors := Sequences.Positions(all0, Survives(names));
    forall k :: 0 <= k < |r| && k < |survivors| ==>
      r[k].parent == Ancestor(all0, names, all0[survivors[k]].parent, |all0|)
  }

  /** The loop from index `i` on, when each entry's parent is its original
      parent resolved below `i`: every collection kept ends with its
      original parent resolved through all dropped collections. */
  lemma {:induction false} PruneParents(all0: seq<Collection>, names: seq<string>, cur: seq<Collection>, i: nat, kept: seq<nat>)
    requires DistinctNames(all0) && ParentsFirst(all0)
    requires |cur| == |all0| && i <= |all0|
    requires kept == Sequences.Positions(all0[..i], Survives(names))
    requires forall j :: 0 <= j < |cur| ==> SameButParent(cur[j], Staged(all0, names, i)[j])
    requires forall j :: 0 <= j < |cur| ==> cur[j].parent == Ancestor(all0, names, all0[j].parent, i)
    ensures ParentsResolved(all0, names, Prune(cur, i, kept, names))
    decreases |all0| - i
  {
    if i < |all0| {
      StageStep(all0, names, cur, i, kept);
      ParentStep(all0, names, cur, i);
      var coll := FilterAttrs(cur[i], names);
      if Kept(coll) {
        PruneParents(all0, names, cur[i := coll], i + 1, kept + [i]);
      } else {
        PruneParents(all0, names, TransformUtil.Reparented(cur[i := coll], coll), i + 1, kept);
      }
    } else {
      assert all0[..i] == all0;
      PruneDone(all0, names, cur, kept);
    }
  }

  /** At the end of the loop the kept collections are read off the list. */
  lemma PruneDone(all0: seq<Collection>, names: seq<string>, cur: seq<Collection>, kept: seq<nat>)
    requires |cur| == |all0| && kept == Sequences.Positions(all0, Survives(names))
    requires forall j :: 0 <= j < |cur| ==> cur[j].parent == Ancestor(all0, names, all0[j].parent, |all0|)
    ensures ParentsResolved(all0, names, Prune(cur, |cur|, kept, names))
  {
    var r := Prune(cur, |cur|, kept, names);
    assert r == seq(|kept|, j requires 0 <= j < |kept| => cur[kept[j]]);
  }

  /** One turn of the loop moves every parent from its resolution below
      `i` to its resolution below `i + 1`. */
  lemma ParentStep(all0: seq<Collection>, names: seq<string>, cur: seq<Collection>, i: nat)
    requires DistinctNames(all0) && ParentsFirst(all0)
    requires |cur| == |all0| && i < |all0|
    requires cur[i].name == all0[i].name && cur[i].attrs == all0[i].attrs
    requires forall j :: 0 <= j < |cur| ==> cur[j].parent == Ancestor(all0, names, all0[j].parent, i)
    ensures var coll := FilterAttrs(cur[i], names);
            var all' := cur[i := coll];
            if Kept(coll) then forall j :: 0 <= j < |all'| ==> all'[j].parent == Ancestor(all0, names, all0[j].parent, i + 1)
            else forall j :: 0 <= j < |all'| ==>
                   TransformUtil.Reparented(all', coll)[j].parent == Ancestor(all0, names, all0[j].parent, i + 1)
  {
    var coll := FilterAttrs(cur[i], names);
    var all' := cur[i := coll];
    if Kept(coll) {
      forall j | 0 <= j < |all'|
        ensures all'[j].parent == Ancestor(all0, names, all0[j].parent, i + 1)
      {
        AncestorPastKept(all0, names, all0[j].parent, i);
      }
    } else {
      forall j | 0 <= j < |all'|
        ensures TransformUtil.Reparented(all', coll)[j].parent == Ancestor(all0, names, all0[j].parent, i + 1)
      {
        AncestorPastDropped(all0, names, all0[j].parent, i);
      }
    }
  }

  /** With distinct names and parents listed first, each output
      collection's parent is its original parent resolved through the
      dropped collections. */
  lemma SelectCollectionsResolved(all: seq<Collection>, names: seq<string>)
    requires DistinctNames(all) && ParentsFirst(all)
    ensures var r := SelectCollections(all, names);
            var survivors := Sequences.Positions(all, Survives(names));
            |r| == |survivors| &&
            forall k :: 0 <= k < |r| ==> r[k].parent == Ancestor(all, names, all[survivors[k]].parent, |all|)
  {
    assert all[..0] == [];
    forall j | 0 <= j < |all|
      ensures all[j].parent == Ancestor(all, names, all[j].parent, 0)
    {
    }
    PruneParents(all, names, all, 0, []);
    SelectCollectionsShape(all, names);
    assert ParentsResolved(all, names, SelectCollections(all, names));
  }

  /** With parents listed first, a resolved parent never names a dropped
      collection below the bound. */
  lemma {:induction false} AncestorKept(all: seq<Collection>, names: seq<string>, p: Option<string>, bound: nat)
    requires ParentsFirst(all) && bound <= |all|
    ensures var q := Ancestor(all, names, p, bound);
            q.Some? && BuildColumn.FindCollectionNamed(all, q.value).Some? &&
            BuildColumn.FindCollectionNamed(all, q.value).value < bound ==>
              Kept(FilterAttrs(all[BuildColumn.FindCollectionNamed(all, q.value).value], names))
    decreases bound
  {
    if p.Some? {
      var f := BuildColumn.FindCollectionNamed(all, p.value);
      if f.Some? && f.value < bound && !Kept(FilterAttrs(all[f.value], names)) {
        AncestorBelow(all, names, f.value);
        AncestorKept(all, names, all[f.value].parent, f.value);
      }
    }
  }

  /** A collection's parent resolved below its own index is already
      resolved through every dropped collection. */
  lemma AncestorSettled(all: seq<Collection>, names: seq<string>, m: nat)
    requires ParentsFirst(all) && m < |all|
    ensures Ancestor(all, names, all[m].parent, m) == Ancestor(all, names, all[m].parent, |all|)
  {
    if all[m].parent.Some? {
      var j :| 0 <= j < m && all[j].name == all[m].parent.value;
      assert BuildColumn.FindCollectionNamed(all, all[m].parent.value).value <= j;
    }
  }

  /** How a collection's parent `p` before pruning relates to its parent
      `q` after: none stays none; `q` never names a dropped collection; a
      kept parent stays; a dropped parent gives way to its own resolved
      parent. */
  predicate ParentOutcome(all: seq<Collection>, names: seq<string>, p: Option<string>, q: Option<string>) {
    (p.None? ==> q.None?) &&
    (forall d :: 0 <= d < |all| && !Kept(FilterAttrs(all[d], names)) ==> q != Some(all[d].name)) &&
    (forall m :: 0 <= m < |all| && p == Some(all[m].name) && Kept(FilterAttrs(all[m], names)) ==> q == p) &&
    (forall d :: 0 <= d < |all| && p == Some(all[d].name) && !Kept(FilterAttrs(all[d], names)) ==>
       q == Ancestor(all, names, all[d].parent, |all|))
  }

  /** With distinct names and parents listed first, the parent of the
      `k`-th collection selected relates to its original parent as
      `ParentOutcome` says. */
  lemma SelectedParent(all: seq<Collection>, names: seq<string>, k: nat)
    requires DistinctNames(all) && ParentsFirst(all)
    requires k < |SelectCollections(all, names)|
    ensures var r := SelectCollections(all, names);
            var survivors := Sequences.Positions(all, Survives(names));
            k < |survivors| && ParentOutcome(all, names, all[survivors[k]].parent, r[k].parent)
  {
    SelectCollectionsResolved(all, names);
    var survivors := Sequences.Positions(all, Survives(names));
    var p := all[survivors[k]].parent;
    AncestorKept(all, names, p, |all|);
    forall d | 0 <= d < |all|
      ensures BuildColumn.FindCollectionNamed(all, all[d].name) == Some(d)
    {
      FindDistinct(all, d);
    }
    forall d | 0 <= d < |all| && p == Some(all[d].name) && !Kept(FilterAttrs(all[d], names))
      ensures Ancestor(all, names, p, |all|) == Ancestor(all, names, all[d].parent, |all|)
    {
      AncestorSettled(all, names, d);
    }
  }

  /** The loop over the collections of selectAttributes. */
  method PruneCollections(collections: seq<Collection>, names: seq<string>) returns (r: seq<Collection>)
    ensures r == SelectCollections(collections, names)
  {
    var all := collections;
    var kept: seq<nat> := [];
    for i := 0 to |all|
      invariant |all| == |collections|
      invariant forall j :: 0 <= j < |kept| ==> kept[j] < i
      invariant Prune(all, i, kept, names) == SelectCollections(collections, names)
    {
      var coll := FilterAttrs(all[i], names);
      all := all[i := coll];
      if coll.attrs.None? || |coll.attrs.value| > 0 {
        kept := kept + [i];
      } else {
        all := TransformUtil.Reparent(all, coll);
      }
    }
    r := [];
    assert forall n :: 0 <= n < |kept| ==> kept[n] < |all|;
    for j := 0 to |kept|
      invariant forall n :: 0 <= n < |kept| ==> kept[n] < |all|
      invariant r == seq(j, n requires 0 <= n < j => all[kept[n]])
    {
      r := r + [all[kept[j]]];
    }
  }

  const EmptySelection := "output must contain at least one attribute"

  /** selectAttributes. */
  method Select(dataset: DataSet, attributes: seq<string>, allBut: bool) returns (r: Result<DataSet>)
    ensures Selection(dataset, attributes, allBut) == [] ==> r == Err(EmptySelection)
    ensures Selection(dataset, attributes, allBut) != [] ==>
              var records := SelectRecords(dataset.records, Selection(dataset, attributes, allBut));
              (records.Err? ==> r == Err(records.error)) &&
              (records.Ok? ==> r == Ok(DataSet(SelectCollections(dataset.collections, Selection(dataset, attributes, allBut)), records.value)))
  {
    var selectedAttrs := AttrsToSelect(dataset, attributes, allBut);
    if |selectedAttrs| == 0 {
      return Err(EmptySelection);
    }
    var records := CopyRecords(dataset.records, selectedAttrs);
    if records.Err? {
      return Err(records.error);
    }
    var collections := PruneCollections(dataset.collections, selectedAttrs);
    return Ok(DataSet(collections, records.value));
  }
}
