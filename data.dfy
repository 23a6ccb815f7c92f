/** The dataset shape shared by the transformations (src/transformations/types.ts):
    collections of attributes, and records mapping attribute names to values. */
module Data {
  import opened Wrappers
  import opened Numerals
  import Sequences

  /** A record value. `Undef` is JavaScript's `undefined`, which is also what
      reading an absent key yields. Numbers are exact and never NaN. */
  datatype Cell = Str(s: string) | Num(n: real) | Bool(b: bool) | Null | Undef

  /** A record: the source's `Record<string, unknown>`. */
  type Record = map<string, Cell>

  /** `record[key]`. */
  function Get(r: Record, key: string): Cell {
    if key in r then r[key] else Undef
  }

  /** `values[i]`, which is `undefined` past the end of the array. */
  function At(values: seq<Cell>, i: nat): Cell {
    if i < |values| then values[i] else Undef
  }

  /** `records.map((record) => record[name])`. */
  function Column(records: seq<Record>, name: string): (r: seq<Cell>)
    ensures |r| == |records| && forall i :: 0 <= i < |r| ==> r[i] == Get(records[i], name)
  {
    seq(|records|, i requires 0 <= i < |records| => Get(records[i], name))
  }

  /** JavaScript truthiness. */
  predicate Truthy(c: Cell) {
    match c
    case Str(s) => s != ""
    case Num(n) => n != 0.0
    case Bool(b) => b
    case Null => false
    case Undef => false
  }

  /** `String(v)`, also what `${v}` and use as a property key produce. */
  function ToStr(c: Cell): string {
    match c
    case Str(s) => s
    case Num(n) => RealToString(n)
    case Bool(b) => if b then "true" else "false"
    case Null => "null"
    case Undef => "undefined"
  }

  /** `Number(v)`; `None` is NaN. A string is read without the white space
      around it, and one that is empty or all white space is 0, as in
      JavaScript. */
  function NumberOf(c: Cell): Option<real> {
    match c
    case Str(s) => if Trim(s) == "" then Some(0.0) else DecimalValue(Trim(s))
    case Num(n) => Some(n)
    case Bool(b) => Some(if b then 1.0 else 0.0)
    case Null => Some(0.0)
    case Undef => None
  }

  /** `parseFloat(`${v}`)`; `None` is NaN. A string is read without its
      leading white space; a number reads back as itself. */
  function ParseFloatOf(c: Cell): Option<real> {
    match c
    case Str(s) => DecimalValue(TrimStart(s))
    case Num(n) => Some(n)
    case _ => None
  }

  /** `Number` ignores white space around a string; one that is all white
      space is 0. */
  lemma NumberOfSpaced(pre: string, s: string, post: string)
    requires forall i :: 0 <= i < |pre| ==> IsSpace(pre[i])
    requires forall i :: 0 <= i < |post| ==> IsSpace(post[i])
    ensures NumberOf(Str(pre + s + post)) == NumberOf(Str(s))
    ensures s == "" ==> NumberOf(Str(pre + s + post)) == Some(0.0)
  {
    TrimSkips(pre, s, post);
  }

  /** `parseFloat` ignores white space before a string. */
  lemma ParseFloatOfSpaced(pre: string, s: string)
    requires forall i :: 0 <= i < |pre| ==> IsSpace(pre[i])
    ensures ParseFloatOf(Str(pre + s)) == ParseFloatOf(Str(s))
  {
    TrimStartSkips(pre, s);
  }

  /** A number result is truthy unless it is 0 or NaN. */
  predicate TruthyNumber(n: Option<real>) {
    n.Some? && n.value != 0.0
  }

  /** JavaScript's `s.slice(start, end)`: negative positions count from the
      end, positions are clamped to the string, and an empty range gives "". */
  function Slice(s: string, start: int, end: int): (r: string)
    ensures |r| <= |s|
    ensures 0 <= start <= end <= |s| ==> r == s[start..end]
  {
    var b := if start < 0 then (if |s| + start < 0 then 0 else |s| + start) else (if start > |s| then |s| else start);
    var e := if end < 0 then (if |s| + end < 0 then 0 else |s| + end) else (if end > |s| then |s| else end);
    if e <= b then "" else s[b..e]
  }

  /** An attribute of a collection (the fields the transformations set). */
  datatype Attribute = Attribute(
    name: string,
    attrType: Option<string>,
    description: Option<string>,
    formula: Option<string>,
    editable: Option<bool>,
    hidden: Option<bool>)

  /** `{ name }`. */
  function NamedAttribute(name: string): Attribute {
    Attribute(name, None, None, None, None, None)
  }

  /** A collection; `attrs` and `parent` may be absent. */
  datatype Collection = Collection(
    name: string,
    title: Option<string>,
    parent: Option<string>,
    attrs: Option<seq<Attribute>>,
    labels: Option<map<string, string>>)

  datatype DataSet = DataSet(collections: seq<Collection>, records: seq<Record>)

  function Names(attrs: seq<Attribute>): (r: seq<string>)
    ensures |r| == |attrs| && forall i :: 0 <= i < |r| ==> r[i] == attrs[i].name
  {
    if attrs == [] then [] else Names(attrs[..|attrs| - 1]) + [attrs[|attrs| - 1].name]
  }

  /** `coll.attrs?.find((attr) => attr.name === name)` is defined. */
  predicate HasAttr(coll: Collection, name: string) {
    coll.attrs.Some? && name in Names(coll.attrs.value)
  }

  /** `coll.attrs || []`. */
  function AttrsOf(coll: Collection): seq<Attribute> {
    if coll.attrs.Some? then coll.attrs.value else []
  }

  /** Whether an attribute bears the given name. */
  function HasName(name: string): Attribute -> bool {
    (attr: Attribute) => attr.name == name
  }

  /** The index of the first attribute with the given name, as
      `findIndex` or `find` locate it. */
  function FindAttr(attrs: seq<Attribute>, name: string): (r: Option<nat>)
    ensures r.Some? ==> r.value < |attrs| && attrs[r.value].name == name
    ensures r.Some? ==> forall i :: 0 <= i < r.value ==> attrs[i].name != name
    ensures r.None? ==> forall i :: 0 <= i < |attrs| ==> attrs[i].name != name
  {
    Sequences.FirstWhere(attrs, HasName(name))
  }

  /** The attributes with their formulas cleared (the unseen `eraseFormulas`,
      as its name and uses describe it). */
  function EraseFormulas(attrs: seq<Attribute>): (r: seq<Attribute>)
    ensures |r| == |attrs|
    ensures forall i :: 0 <= i < |r| ==> r[i] == attrs[i].(formula := None)
  {
    if attrs == [] then [] else EraseFormulas(attrs[..|attrs| - 1]) + [attrs[|attrs| - 1].(formula := None)]
  }

  /** A data context whose collection and record arrays the transformations
      change in place: replacing an element stands for changing that
      collection or record object. */
  class DataContext {
    var collections: seq<Collection>
    var records: seq<Record>

    constructor(d: DataSet)
      ensures collections == d.collections && records == d.records
    {
      collections := d.collections;
      records := d.records;
    }

    function Value(): DataSet
      reads this
    {
      DataSet(collections, records)
    }
  }
}
