/** src/utils/codapPhone/index.ts: the logic around the calls this plugin
    makes to CODAP. The calls themselves are left out; what they return
    (lists of existing names, returned collections) are inputs. */
module CodapPhone {
  import opened Wrappers
  import opened Data
  import opened Numerals

  // ---------------------------------------------------------------------
  // Resource strings

  function ResourceFromContext(context: string): string {
    "dataContext[" + context + "]"
  }

  function ResourceFromCollection(collection: string): string {
    "collection[" + collection + "]"
  }

  function ItemFromContext(context: string): string {
    ResourceFromContext(context) + ".item"
  }

  function ItemSearchAllFromContext(context: string): string {
    ResourceFromContext(context) + ".itemSearch[*]"
  }

  function AllCases(context: string, collection: string): string {
    "dataContext[" + context + "].collection[" + collection + "].allCases"
  }

  /** The resource strings are built around their argument: a context
      name is read back from a context resource, and the item, search and
      case resources are that resource extended. */
  lemma ResourceStrings(context: string, collection: string)
    ensures ResourceFromContext(context)[12..|ResourceFromContext(context)| - 1] == context
    ensures ResourceFromCollection(collection)[11..|ResourceFromCollection(collection)| - 1] == collection
    ensures ItemFromContext(context) == ResourceFromContext(context) + ".item"
    ensures ItemSearchAllFromContext(context) == ResourceFromContext(context) + ".itemSearch[*]"
    ensures AllCases(context, collection) ==
              ResourceFromContext(context) + "." + ResourceFromCollection(collection) + ".allCases"
  {
    assert "].collection[" == "]" + "." + "collection[";
  }

  // ---------------------------------------------------------------------
  // The name counter

  /** The n-th name a counter with this prefix hands out. */
  function CounterName(prefix: string, n: nat): string {
    prefix + NatToString(n)
  }

  /** A counter never repeats a name. */
  lemma CounterNamesDistinct(prefix: string, m: nat, n: nat)
    requires m != n
    ensures CounterName(prefix, m) != CounterName(prefix, n)
  {
    NatToStringInjective(m, n);
    assert CounterName(prefix, m)[|prefix|..] == NatToString(m);
    assert CounterName(prefix, n)[|prefix|..] == NatToString(n);
  }

  /** The prefix of the names getNewName hands out. */
  const NamePrefix := "CodapFlow_"

  /** getNewName: the closure over `count`, as an object whose count each
      call increments. `issued` records the names handed out so far. */
  class Namer {
    const prefix: string
    var count: nat
    ghost var issued: seq<string>

    ghost predicate Valid()
      reads this
    {
      |issued| == count && forall k :: 0 <= k < count ==> issued[k] == CounterName(prefix, k)
    }

    constructor(prefix: string)
      ensures this.prefix == prefix && count == 0 && issued == [] && Valid()
    {
      this.prefix := prefix;
      count := 0;
      issued := [];
    }

    /** The next name: the prefix followed by the count, which then goes up
        by one. The name was never handed out before. */
    method GetNewName() returns (name: string)
      requires Valid()
      modifies this
      ensures Valid()
      ensures name == CounterName(prefix, old(count)) && count == old(count) + 1
      ensures issued == old(issued) + [name]
      ensures name !in old(issued)
    {
      name := prefix + NatToString(count);
      forall k | 0 <= k < count
        ensures issued[k] != name
      {
        CounterNamesDistinct(prefix, k, count);
      }
      count := count + 1;
      issued := issued + [name];
    }
  }

  // ---------------------------------------------------------------------
  // ensureUniqueName

  /** `${name}_(${i})`. */
  function Suffixed(name: string, i: nat): string {
    name + "_(" + NatToString(i) + ")"
  }

  lemma SuffixedInjective(name: string, i: nat, j: nat)
    requires i != j
    ensures Suffixed(name, i) != Suffixed(name, j)
  {
    NatToStringInjective(i, j);
    var a, b := Suffixed(name, i), Suffixed(name, j);
    assert a[|name| + 2..|a| - 1] == NatToString(i);
    assert b[|name| + 2..|b| - 1] == NatToString(j);
  }

  lemma SubsetCard<T>(a: set<T>, b: set<T>)
    requires a <= b
    ensures |a| <= |b|
  {
    assert b == a + (b - a);
  }

  /** The suffixed names tried before `i`, all taken. */
  ghost function Tried(name: string, i: nat): set<string> {
    set j | 1 <= j < i :: Suffixed(name, j)
  }

  /** One more taken suffix: the tried names grow by one new name and stay
      among the existing ones. */
  lemma TriedStep(name: string, i: nat, existing: set<string>)
    requires i >= 1 && |Tried(name, i)| == i - 1 && Tried(name, i) <= existing
    requires Suffixed(name, i) in existing
    ensures Tried(name, i + 1) == Tried(name, i) + {Suffixed(name, i)}
    ensures |Tried(name, i + 1)| == i && Tried(name, i + 1) <= existing
    ensures |Tried(name, i + 1)| <= |existing|
  {
    forall j | 1 <= j < i
      ensures Suffixed(name, j) != Suffixed(name, i)
    {
      SuffixedInjective(name, j, i);
    }
    assert Suffixed(name, i) !in Tried(name, i);
    assert Tried(name, i + 1) == Tried(name, i) + {Suffixed(name, i)};
    SubsetCard(Tried(name, i + 1), existing);
  }

  /** The unique-name logic of ensureUniqueName, given the names of the
      existing resources: the name itself when free, otherwise the name
      with the least suffix `_(i)`, i >= 1, that is free. */
  method EnsureUniqueName(name: string, names: seq<string>) returns (r: string)
    ensures r !in names
    ensures name !in names ==> r == name
    ensures name in names ==>
              exists i: nat :: i >= 1 && r == Suffixed(name, i) &&
                               forall j: nat :: 1 <= j < i ==> Suffixed(name, j) in names
  {
    if name !in names {
      return name;
    }
    var i: nat := 1;
    ghost var existing := set x | x in names;
    while Suffixed(name, i) in names
      invariant i >= 1
      invariant Tried(name, i) <= existing
      invariant |Tried(name, i)| == i - 1
      invariant forall j: nat :: 1 <= j < i ==> Suffixed(name, j) in names
      decreases |existing| - |Tried(name, i)|
    {
      TriedStep(name, i, existing);
      i := i + 1;
    }
    return Suffixed(name, i);
  }

  // ---------------------------------------------------------------------
  // normalizeParentNames

  /** A collection as CODAP returns it: the parent is a numeric id. */
  datatype ReturnedCollection = ReturnedCollection(
    id: int,
    name: string,
    title: Option<string>,
    parent: Option<int>,
    attrs: Option<seq<Attribute>>,
    labels: Option<map<string, string>>)

  /** The index of the first collection with the given id. */
  function FindById(collections: seq<ReturnedCollection>, id: int): (r: Option<nat>)
    ensures r.Some? ==> r.value < |collections| && collections[r.value].id == id
    ensures r.Some? ==> forall k :: 0 <= k < r.value ==> collections[k].id != id
    ensures r.None? ==> forall k :: 0 <= k < |collections| ==> collections[k].id != id
  {
    if collections == [] then None
    else if collections[0].id == id then Some(0)
    else match FindById(collections[1..], id)
      case None => None
      case Some(k) => Some(k + 1)
  }

  /** The parent's name: undefined when `c.parent` is falsy (absent or 0)
      or no collection has that id. */
  function ParentName(collections: seq<ReturnedCollection>, parent: Option<int>): Option<string> {
    if parent.None? || parent.value == 0 then None
    else match FindById(collections, parent.value)
      case None => None
      case Some(k) => Some(collections[k].name)
  }

  function Normalized(collections: seq<ReturnedCollection>, c: ReturnedCollection): Collection {
    Collection(c.name, c.title, ParentName(collections, c.parent), c.attrs, c.labels)
  }

  /** normalizeParentNames: the push loop. */
  method NormalizeParentNames(collections: seq<ReturnedCollection>) returns (normalized: seq<Collection>)
    ensures |normalized| == |collections|
    ensures forall k :: 0 <= k < |collections| ==> normalized[k] == Normalized(collections, collections[k])
  {
    normalized := [];
    for k := 0 to |collections|
      invariant |normalized| == k
      invariant forall j :: 0 <= j < k ==> normalized[j] == Normalized(collections, collections[j])
    {
      var c := collections[k];
      var newParent: Option<string> := None;
      if c.parent.Some? && c.parent.value != 0 {
        var found := FindById(collections, c.parent.value);
        if found.Some? {
          newParent := Some(collections[found.value].name);
        }
      }
      normalized := normalized + [Collection(c.name, c.title, newParent, c.attrs, c.labels)];
    }
  }

  /** A normalized collection keeps the name, title, attributes and labels;
      its parent is the name of the first collection with the parent id,
      and absent when the id is falsy or unknown. */
  lemma NormalizedSpec(collections: seq<ReturnedCollection>, c: ReturnedCollection)
    ensures var n := Normalized(collections, c);
            n.name == c.name && n.title == c.title && n.attrs == c.attrs && n.labels == c.labels &&
            (n.parent.Some? <==>
               c.parent.Some? && c.parent.value != 0 && exists k :: 0 <= k < |collections| && collections[k].id == c.parent.value) &&
            (n.parent.Some? ==>
               exists k :: 0 <= k < |collections| && collections[k].id == c.parent.value &&
                           n.parent.value == collections[k].name &&
                           forall j :: 0 <= j < k ==> collections[j].id != c.parent.value)
  {
    if c.parent.Some? && c.parent.value != 0 {
      var found := FindById(collections, c.parent.value);
      if found.Some? {
        assert collections[found.value].id == c.parent.value;
      }
    }
  }

  // ---------------------------------------------------------------------
  // codapRequestHandler

  /** The values of a command: an object with an `operation` field, an
      array of such objects, or absent. */
  datatype Values = Object(operation: Option<string>) | Array(operations: seq<Option<string>>) | Absent

  datatype Command = Command(action: string, resource: string, values: Values)

  /** What the handler does, in order. */
  datatype Effect = CallAllContextListeners | CallContextListener(name: string) | Respond

  /** The names of the enum members the handler compares against (they are
      declared in a module not part of this model) and the mutating
      operations. */
  datatype Vocabulary = Vocabulary(
    notify: string,
    documentChangeNotice: string,
    dataContextCountChanged: string,
    dataContextChangeNotice: string,
    updateContext: string,
    mutatingOperations: seq<string>)

  /** What reading `operation` of undefined values throws. */
  const NoValues := "Cannot read properties of undefined (reading 'operation')"

  /** The index of the first `[`, or -1: `search("\\[")`. */
  function FirstBracket(s: string): (r: int)
    ensures -1 <= r < |s|
    ensures r >= 0 ==> s[r] == '[' && forall k :: 0 <= k < r ==> s[k] != '['
    ensures r == -1 ==> forall k :: 0 <= k < |s| ==> s[k] != '['
  {
    if s == [] then -1
    else if s[0] == '[' then 0
    else
      var r := FirstBracket(s[1..]);
      if r == -1 then -1 else r + 1
  }

  /** The context name of a change notice: after the first `[`, without
      the last character. */
  function ContextNameOf(resource: string): string {
    Slice(resource, FirstBracket(resource) + 1, |resource| - 1)
  }

  /** The context name is read back from a resource built as
      `prefix[name]` when the prefix has no `[`; a resource without `[`
      gives itself without its last character. */
  lemma ContextNameOfSpec(prefix: string, name: string, resource: string)
    requires forall k :: 0 <= k < |prefix| ==> prefix[k] != '['
    ensures ContextNameOf(prefix + "[" + name + "]") == name
    ensures (forall k :: 0 <= k < |resource| ==> resource[k] != '[') && resource != [] ==>
              ContextNameOf(resource) == resource[..|resource| - 1]
  {
    var s := prefix + "[" + name + "]";
    assert s[|prefix|] == '[';
    assert forall k :: 0 <= k < |prefix| ==> s[k] != '[';
    assert FirstBracket(s) == |prefix|;
    assert s[|prefix| + 1..|s| - 1] == name;
  }

  /** codapRequestHandler: the effects of one command. Listeners are
      registered under `registered`. A notification matching no case gets
      no response. */
  function Handle(cmd: Command, v: Vocabulary, registered: set<string>): Result<seq<Effect>> {
    if cmd.action != v.notify then Ok([Respond])
    else if cmd.resource == v.documentChangeNotice && cmd.values.Absent? then Err(NoValues)
    else if cmd.resource == v.documentChangeNotice && cmd.values == Object(Some(v.dataContextCountChanged)) then
      Ok([CallAllContextListeners, Respond])
    else if |v.dataContextChangeNotice| <= |cmd.resource| && cmd.resource[..|v.dataContextChangeNotice|] == v.dataContextChangeNotice &&
            cmd.values.Array? && |cmd.values.operations| > 0 then
      var op := cmd.values.operations[0];
      if op.Some? && op.value in v.mutatingOperations then
        var contextName := ContextNameOf(cmd.resource);
        Ok(if contextName in registered then [CallContextListener(contextName), Respond] else [Respond])
      else if op == Some(v.updateContext) then Ok([CallAllContextListeners, Respond])
      else Ok([])
    else Ok([])
  }

  /** Every command except a notification is acknowledged and nothing else.
      A document change notice without values throws, and one whose
      operation is the context count change calls every listener. A data
      context change notice with operations calls the listener of the named
      context, when one is registered, for a mutating first operation, and
      every listener for a context update. A handled notification calls
      listeners before it responds, and no other command throws. */
  lemma HandleSpec(cmd: Command, v: Vocabulary, registered: set<string>)
    ensures cmd.action != v.notify ==> Handle(cmd, v, registered) == Ok([Respond])
    ensures Handle(cmd, v, registered).Err? <==>
              cmd.action == v.notify && cmd.resource == v.documentChangeNotice && cmd.values.Absent?
    ensures Handle(cmd, v, registered).Err? ==> Handle(cmd, v, registered).error == NoValues
    ensures cmd.action == v.notify && cmd.resource == v.documentChangeNotice &&
            cmd.values == Object(Some(v.dataContextCountChanged)) ==>
              Handle(cmd, v, registered) == Ok([CallAllContextListeners, Respond])
    ensures var changeNotice := cmd.action == v.notify &&
                                |v.dataContextChangeNotice| <= |cmd.resource| &&
                                cmd.resource[..|v.dataContextChangeNotice|] == v.dataContextChangeNotice &&
                                cmd.values.Array? && |cmd.values.operations| > 0;
            (changeNotice && cmd.values.operations[0].Some? && cmd.values.operations[0].value in v.mutatingOperations ==>
               Handle(cmd, v, registered) ==
                 Ok(if ContextNameOf(cmd.resource) in registered then [CallContextListener(ContextNameOf(cmd.resource)), Respond]
                    else [Respond])) &&
            (changeNotice && cmd.values.operations[0] == Some(v.updateContext) &&
             v.updateContext !in v.mutatingOperations ==>
               Handle(cmd, v, registered) == Ok([CallAllContextListeners, Respond]))
    ensures Handle(cmd, v, registered).Ok? && Respond in Handle(cmd, v, registered).value ==>
              Handle(cmd, v, registered).value[|Handle(cmd, v, registered).value| - 1] == Respond
    ensures Handle(cmd, v, registered).Ok? ==>
              forall e :: e in Handle(cmd, v, registered).value && e.CallContextListener? ==> e.name in registered
    ensures Handle(cmd, v, registered).Err? ==> cmd.action == v.notify && cmd.resource == v.documentChangeNotice
  {
  }

  // ---------------------------------------------------------------------
  // createTableWithData

  const DefaultTableWidth := 300
  const DefaultTableHeight := 300

  /** The requests this plugin sends to create a context, its items and a
      table. */
  datatype Request =
    | CreateContext(name: string, collections: seq<Collection>)
    | CreateItems(resource: string, items: seq<Record>)
    | CreateTable(tableName: string, width: nat, height: nat, context: string)

  /** createTable. */
  function TableRequest(name: string, context: string): Request {
    CreateTable(name, DefaultTableWidth, DefaultTableHeight, context)
  }

  /** createTableWithData: the base name (the counter's next name when none
      is given), the context and table names made unique against the
      existing ones, and the requests: clone the input context's
      collections, insert the data into the created context (`created` is
      the name CODAP answers with), create the table. */
  method CreateTableWithData(namer: Namer, name: Option<string>, data: seq<Record>,
                             inputCollections: seq<ReturnedCollection>, existingContexts: seq<string>,
                             existingComponents: seq<string>, created: string)
    returns (contextName: string, tableName: string, requests: seq<Request>)
    requires namer.Valid() && namer.prefix == NamePrefix
    modifies namer
    ensures namer.Valid()
    ensures contextName !in existingContexts && tableName !in existingComponents
    ensures var baseName := if name.None? || name.value == "" then CounterName(namer.prefix, old(namer.count)) else name.value;
            (baseName + "_context" !in existingContexts ==> contextName == baseName + "_context") &&
            (baseName + "_table" !in existingComponents ==> tableName == baseName + "_table")
    ensures name.None? || name.value == "" ==> namer.count == old(namer.count) + 1
    ensures name.Some? && name.value != "" ==> namer.count == old(namer.count)
    ensures |requests| == 3 && requests[0].CreateContext? && requests[0].name == contextName &&
            |requests[0].collections| == |inputCollections| &&
            (forall k :: 0 <= k < |inputCollections| ==>
               requests[0].collections[k] == Normalized(inputCollections, inputCollections[k])) &&
            requests[1] == CreateItems(ItemFromContext(created), data) &&
            requests[2] == TableRequest(tableName, contextName)
  {
    var baseName;
    if name.None? || name.value == "" {
      baseName := namer.GetNewName();
    } else {
      baseName := name.value;
    }
    contextName := EnsureUniqueName(baseName + "_context", existingContexts);
    tableName := EnsureUniqueName(baseName + "_table", existingComponents);
    var collections := NormalizeParentNames(inputCollections);
    requests := [CreateContext(contextName, collections), CreateItems(ItemFromContext(created), data),
                 TableRequest(tableName, contextName)];
  }
}
