/** src/utils/codapPhone.ts: the earlier version of the CODAP interface,
    with its own name counter, dataset creation and notification handler.
    The calls to CODAP are left out; the name CODAP answers with is an
    input. */
module CodapPhoneLegacy {
  import opened Wrappers
  import opened Data
  import CodapPhone

  /** The prefix of the names this module's getNewName hands out. */
  const NamePrefix := "codapflow_"
  const SingleCaseLabel := "singleCase"
  const TableType := "caseTable"
  const Notify := "notify"
  const DocumentChangeNotice := "documentChangeNotice"
  const DataContextCountChanged := "dataContextCountChanged"

  /** `${context}_collection`. */
  function CollectionNameFromContext(context: string): string {
    context + "_collection"
  }

  /** The case resource of a context's one collection. */
  function CaseFromContext(context: string): string {
    "dataContext[" + context + "].collection[" + CollectionNameFromContext(context) + "].case"
  }

  /** The collection name extends the context name, and the case resource
      names the context and that collection in the resource syntax of the
      newer interface; the item and search resources are the newer
      interface's. */
  lemma ResourceStrings(context: string)
    ensures CollectionNameFromContext(context)[..|context|] == context
    ensures CaseFromContext(context) ==
              CodapPhone.ResourceFromContext(context) + "." +
              CodapPhone.ResourceFromCollection(CollectionNameFromContext(context)) + ".case"
    ensures CodapPhone.ItemFromContext(context) == "dataContext[" + context + "].item"
    ensures CodapPhone.ItemSearchAllFromContext(context) == "dataContext[" + context + "].itemSearch[*]"
  {
    assert "].collection[" == "]" + "." + "collection[";
  }

  /** A data item as an object: its entries in key order. */
  type Item = seq<(string, Cell)>

  function Keys(item: Item): (r: seq<string>)
    ensures |r| == |item| && forall k :: 0 <= k < |r| ==> r[k] == item[k].0
  {
    seq(|item|, k requires 0 <= k < |item| => item[k].0)
  }

  /** makeAttrsFromData: `{ name: key }` per key of the first item. */
  function MakeAttrsFromData(data: seq<Item>): (r: seq<Attribute>)
    ensures data == [] ==> r == []
    ensures data != [] ==> Names(r) == Keys(data[0])
    ensures forall k :: 0 <= k < |r| ==> r[k] == NamedAttribute(r[k].name)
  {
    if data == [] then []
    else seq(|data[0]|, k requires 0 <= k < |data[0]| => NamedAttribute(data[0][k].0))
  }

  /** Only the first item matters: the later items are assumed to have the
      same fields. */
  lemma MakeAttrsFromFirst(data: seq<Item>)
    requires data != []
    ensures MakeAttrsFromData(data) == MakeAttrsFromData([data[0]])
    ensures forall rest :: MakeAttrsFromData([data[0]] + rest) == MakeAttrsFromData(data)
  {
  }

  /** The requests of this interface. */
  datatype Request =
    | CreateContext(name: string, collections: seq<Collection>)
    | CreateItems(resource: string, items: seq<Item>)
    | CreateTable(tableType: string, tableName: string, width: nat, height: nat, context: string)

  /** The one collection of a bare dataset. */
  function BareCollection(contextName: string, caseLabel: string, attrs: seq<Attribute>): Collection {
    Collection(CollectionNameFromContext(contextName), None, None, Some(attrs), Some(map[SingleCaseLabel := caseLabel]))
  }

  /** createBareDataset: a context named by the counter, holding one
      collection named after it, labelled with `caseLabel`. */
  method CreateBareDataset(namer: CodapPhone.Namer, caseLabel: string, attrs: seq<Attribute>) returns (request: Request)
    requires namer.Valid() && namer.prefix == NamePrefix
    modifies namer
    ensures namer.Valid() && namer.count == old(namer.count) + 1
    ensures var name := CodapPhone.CounterName(namer.prefix, old(namer.count));
            request == CreateContext(name, [BareCollection(name, caseLabel, attrs)]) &&
            namer.issued == old(namer.issued) + [name] && name !in old(namer.issued)
  {
    var newName := namer.GetNewName();
    request := CreateContext(newName, [BareCollection(newName, caseLabel, attrs)]);
  }

  /** createDataset: a bare dataset, without attributes when there is no
      data; otherwise with the attributes of the first item, and the items
      inserted into the context CODAP names `created`. */
  method CreateDataset(namer: CodapPhone.Namer, caseLabel: string, data: seq<Item>, created: string)
    returns (requests: seq<Request>)
    requires namer.Valid() && namer.prefix == NamePrefix
    modifies namer
    ensures namer.Valid() && namer.count == old(namer.count) + 1
    ensures var name := CodapPhone.CounterName(namer.prefix, old(namer.count));
            name !in old(namer.issued) && |requests| >= 1 &&
            requests[0] == CreateContext(name, [BareCollection(name, caseLabel, MakeAttrsFromData(data))])
    ensures data == [] ==> |requests| == 1
    ensures data != [] ==> |requests| == 2 && requests[1] == CreateItems(CodapPhone.ItemFromContext(created), data)
  {
    if data == [] {
      var bare := CreateBareDataset(namer, caseLabel, []);
      return [bare];
    }
    var attrs := MakeAttrsFromData(data);
    var bare := CreateBareDataset(namer, caseLabel, attrs);
    requests := [bare, CreateItems(CodapPhone.ItemFromContext(created), data)];
  }

  /** createTable: a case table for `context`, named by the counter. */
  method CreateTableRequest(namer: CodapPhone.Namer, context: string) returns (request: Request)
    requires namer.Valid() && namer.prefix == NamePrefix
    modifies namer
    ensures namer.Valid() && namer.count == old(namer.count) + 1
    ensures request == CreateTable(TableType, CodapPhone.CounterName(namer.prefix, old(namer.count)),
                                   CodapPhone.DefaultTableWidth, CodapPhone.DefaultTableHeight, context)
    ensures request.tableName !in old(namer.issued)
  {
    var name := namer.GetNewName();
    request := CreateTable(TableType, name, CodapPhone.DefaultTableWidth, CodapPhone.DefaultTableHeight, context);
  }

  /** codapRequestHandler: the listeners called, in order. Reading the
      operation of absent values throws. */
  function Handled<L>(cmd: CodapPhone.Command, listeners: seq<L>): Result<seq<L>> {
    if cmd.action != Notify || cmd.resource != DocumentChangeNotice then Ok([])
    else if cmd.values.Absent? then Err(CodapPhone.NoValues)
    else if cmd.values == CodapPhone.Object(Some(DataContextCountChanged)) then Ok(listeners)
    else Ok([])
  }

  /** The handler's loop over the change listeners. */
  method Handle<L>(cmd: CodapPhone.Command, listeners: seq<L>) returns (r: Result<seq<L>>)
    ensures r == Handled(cmd, listeners)
  {
    if cmd.action != Notify {
      return Ok([]);
    }
    if cmd.resource == DocumentChangeNotice && cmd.values.Absent? {
      return Err(CodapPhone.NoValues);
    }
    var called: seq<L> := [];
    if cmd.resource == DocumentChangeNotice && cmd.values == CodapPhone.Object(Some(DataContextCountChanged)) {
      for k := 0 to |listeners|
        invariant called == listeners[..k]
      {
        called := called + [listeners[k]];
      }
      assert listeners[..|listeners|] == listeners;
    }
    return Ok(called);
  }

  /** Commands other than notifications are ignored; a count-changed
      notice calls every listener once, in order, and nothing else calls
      one. */
  lemma HandledSpec<L>(cmd: CodapPhone.Command, listeners: seq<L>)
    ensures cmd.action != Notify ==> Handled(cmd, listeners) == Ok([])
    ensures Handled(cmd, listeners).Ok? && Handled(cmd, listeners).value != [] ==>
              Handled(cmd, listeners).value == listeners &&
              cmd.action == Notify && cmd.resource == DocumentChangeNotice &&
              cmd.values == CodapPhone.Object(Some(DataContextCountChanged))
    ensures cmd.action == Notify && cmd.resource == DocumentChangeNotice &&
            cmd.values == CodapPhone.Object(Some(DataContextCountChanged)) ==>
              Handled(cmd, listeners) == Ok(listeners)
    ensures Handled(cmd, listeners).Err? <==>
              cmd.action == Notify && cmd.resource == DocumentChangeNotice && cmd.values.Absent?
  {
  }
}
