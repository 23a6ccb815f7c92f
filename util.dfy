/** The helpers of src/transformations/util.ts. */
module TransformUtil {
  import opened Wrappers
  import L = Syntax
  import opened Data

  /** The language value a table value stands for: the four boolean forms
      become Bool, anything else that Number() reads becomes Num, the rest
      String. The source keeps the raw value as a String's content; here it
      is its string form. */
  function CellToValue(c: Cell): L.Value {
    if c == Str("true") || c == Str("false") || c == Bool(true) || c == Bool(false) then
      L.Bool(c == Str("true") || c == Bool(true))
    else if NumberOf(c).Some? then
      L.Num(NumberOf(c).value)
    else
      L.Str(ToStr(c))
  }

  /** dataItemToEnv: one entry per key of the item. */
  function DataItemToEnv(item: Record): (env: map<string, L.Value>)
    ensures env.Keys == item.Keys
    ensures forall k :: k in item ==> env[k] == CellToValue(item[k])
  {
    map k | k in item :: CellToValue(item[k])
  }

  /** The boolean test comes first: `"true"` and `true` are Bool(true),
      `"false"` and `false` are Bool(false), and nothing else is a Bool. */
  lemma CellToValueBool(c: Cell)
    ensures CellToValue(c).Bool? <==> c in [Str("true"), Str("false"), Bool(true), Bool(false)]
    ensures CellToValue(c).Bool? ==> (CellToValue(c).truth <==> c == Str("true") || c == Bool(true))
  {
  }

  /** Everything else is Num(Number(v)) when that is a number, else String. */
  lemma CellToValueOther(c: Cell)
    requires c !in [Str("true"), Str("false"), Bool(true), Bool(false)]
    ensures CellToValue(c).Num? <==> NumberOf(c).Some?
    ensures CellToValue(c).Num? ==> CellToValue(c).num == NumberOf(c).value
    ensures CellToValue(c).Str? ==> CellToValue(c).text == ToStr(c)
  {
  }

  /** A number cell and a numeric string give the same Num, and `null` is 0. */
  lemma CellToValueExamples()
    ensures CellToValue(Num(2.5)) == L.Num(2.5)
    ensures CellToValue(Str("12")) == L.Num(12.0)
    ensures CellToValue(Null) == L.Num(0.0)
  {
    Numerals.TrimmedIsTrim("12");
    assert Numerals.DotIndex("12") == 2;
    assert "12"[..2] == "12";
    assert Numerals.DigitsValue("12") == 12 by {
      assert "12"[..1] == "1";
    }
  }

  /** The boolean words are not numbers. */
  lemma BooleanWordsAreNaN()
    ensures NumberOf(Str("true")).None? && NumberOf(Str("false")).None?
  {
    Numerals.NotNumeral("true");
    Numerals.NotNumeral("false");
  }

  /** A numeral with white space around it is the number it spells. */
  lemma CellToValueSpaced(pre: string, s: string, post: string)
    requires forall i :: 0 <= i < |pre| ==> Numerals.IsSpace(pre[i])
    requires forall i :: 0 <= i < |post| ==> Numerals.IsSpace(post[i])
    requires NumberOf(Str(s)).Some?
    ensures CellToValue(Str(pre + s + post)) == L.Num(NumberOf(Str(s)).value)
  {
    NumberOfSpaced(pre, s, post);
    BooleanWordsAreNaN();
  }

  /** A value that is only white space is 0. */
  lemma CellToValueBlank(s: string)
    requires forall i :: 0 <= i < |s| ==> Numerals.IsSpace(s[i])
    ensures CellToValue(Str(s)) == L.Num(0.0)
  {
    NumberOfSpaced(s, "", "");
    assert s + "" + "" == s;
    assert s != "true" && s != "false" by {
      assert s == [] || Numerals.IsSpace(s[0]);
    }
  }

  /** Text that is not a numeral stays a String. */
  lemma CellToValueTextExample()
    ensures CellToValue(Str("abc")) == L.Str("abc")
  {
    Numerals.TrimmedIsTrim("abc");
    assert Numerals.DotIndex("abc") == 3;
    assert "abc"[..3] == "abc";
    assert !Numerals.AllDigits("abc") by { assert !Numerals.IsDigit("abc"[0]); }
  }

  /** The collections after the collection `parent` is removed: those it
      parented get its parent; all others stay as they are. */
  function Reparented(collections: seq<Collection>, parent: Collection): (r: seq<Collection>)
    ensures |r| == |collections|
    ensures forall i :: 0 <= i < |r| ==> r[i].name == collections[i].name && r[i].attrs == collections[i].attrs
    ensures forall i :: 0 <= i < |r| && collections[i].parent != Some(parent.name) ==> r[i] == collections[i]
    ensures forall i :: 0 <= i < |r| && collections[i].parent == Some(parent.name) ==>
              r[i] == collections[i].(parent := parent.parent)
  {
    seq(|collections|, i requires 0 <= i < |collections| =>
      if collections[i].parent == Some(parent.name) then collections[i].(parent := parent.parent) else collections[i])
  }

  /** reparent, as a loop over the collections. */
  method Reparent(collections: seq<Collection>, parent: Collection) returns (r: seq<Collection>)
    ensures r == Reparented(collections, parent)
  {
    r := [];
    for i := 0 to |collections|
      invariant r == Reparented(collections[..i], parent)
    {
      var coll := collections[i];
      if coll.parent == Some(parent.name) {
        coll := coll.(parent := parent.parent);
      }
      r := r + [coll];
    }
    assert collections[..|collections|] == collections;
  }

  /** After reparenting, no collection names the removed one as its parent,
      unless the removed collection was its own parent. */
  lemma ReparentedDropsParent(collections: seq<Collection>, parent: Collection)
    requires parent.parent != Some(parent.name)
    ensures forall c :: c in Reparented(collections, parent) ==> c.parent != Some(parent.name)
  {
  }

  /** insertColumn: a copy of the collection with `attr` appended to its
      attributes (which become `[attr]` when absent); nothing else differs. */
  function InsertColumn(collection: Collection, attr: Attribute): (r: Collection)
    ensures r.attrs.Some?
    ensures r.attrs.value == (if collection.attrs.Some? then collection.attrs.value else []) + [attr]
    ensures r.(attrs := collection.attrs) == collection
  {
    collection.(attrs := Some(if collection.attrs.Some? then collection.attrs.value + [attr] else [attr]))
  }

  /** insertColumnInLastCollection: only the last collection changes. With
      no collections, reading `.attrs` of undefined throws. */
  function InsertColumnInLastCollection(collections: seq<Collection>, attr: Attribute): (r: Result<seq<Collection>>)
    ensures r.Ok? <==> |collections| > 0
    ensures r.Ok? ==> |r.value| == |collections|
    ensures r.Ok? ==> r.value[..|collections| - 1] == collections[..|collections| - 1]
    ensures r.Ok? ==> r.value[|collections| - 1] == InsertColumn(collections[|collections| - 1], attr)
  {
    if |collections| == 0 then Err("Cannot read properties of undefined (reading 'attrs')")
    else Ok(collections[..|collections| - 1] + [InsertColumn(collections[|collections| - 1], attr)])
  }
}
