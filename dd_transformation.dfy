/** src/transformation-components/DDTransformation.tsx: the state of the
    form every transformation is configured with. The state is an object
    with sixteen slots, updated by merging partial objects into it; the
    slot names of a form element map to the slots it depends on by
    replacing the name's root. The rendering is left out. */
module DDTransformation {
  import opened Wrappers
  import opened Data

  /** The value of one slot: a name or null (context, collection,
      attribute, dropdown), a list of names (attribute set), a text (text
      input, expression), or a pair of language types (type contract). */
  datatype SlotValue =
    | Nullable(name: Option<string>)
    | NameList(names: seq<string>)
    | Text(text: string)
    | Contract(inputType: string, outputType: string)

  /** An object of slots; a partial update is one too. */
  type State = map<string, SlotValue>

  const AnyType := "any"

  const NullableSlots: set<string> :=
    {"context1", "context2", "collection1", "collection2", "attribute1", "attribute2", "dropdown1", "dropdown2"}
  const ListSlots: set<string> := {"attributeSet1", "attributeSet2"}
  const TextSlots: set<string> := {"textInput1", "textInput2", "expression1", "expression2"}
  const ContractSlots: set<string> := {"typeContract1", "typeContract2"}

  const Slots: set<string> := NullableSlots + ListSlots + TextSlots + ContractSlots

  /** The slot holds a value of its declared type. */
  predicate Fits(slot: string, v: SlotValue) {
    (slot in NullableSlots ==> v.Nullable?) &&
    (slot in ListSlots ==> v.NameList?) &&
    (slot in TextSlots ==> v.Text?) &&
    (slot in ContractSlots ==> v.Contract?)
  }

  /** A partial state: slots of the form only, each of its type. */
  predicate IsPartial(update: State) {
    update.Keys <= Slots && forall slot :: slot in update ==> Fits(slot, update[slot])
  }

  /** A full state: every slot present. */
  predicate IsState(s: State) {
    IsPartial(s) && s.Keys == Slots
  }

  /** DEFAULT_STATE: nothing selected, empty lists and texts, and `any`
      for both halves of both type contracts. */
  function DefaultState(): (s: State)
    ensures IsState(s)
    ensures forall slot :: slot in NullableSlots ==> s[slot] == Nullable(None)
    ensures forall slot :: slot in ListSlots ==> s[slot] == NameList([])
    ensures forall slot :: slot in TextSlots ==> s[slot] == Text("")
    ensures forall slot :: slot in ContractSlots ==> s[slot] == Contract(AnyType, AnyType)
  {
    map slot | slot in Slots ::
      if slot in NullableSlots then Nullable(None)
      else if slot in ListSlots then NameList([])
      else if slot in TextSlots then Text("")
      else Contract(AnyType, AnyType)
  }

  /** The reducer: `{ ...oldState, ...newState }`. */
  function Merge(s: State, update: State): State {
    s + update
  }

  /** The reducer replaces exactly the slots present in the update, keeps
      every other slot, and keeps a full state full. */
  lemma MergeSpec(s: State, update: State)
    ensures forall slot :: slot in update ==> slot in Merge(s, update) && Merge(s, update)[slot] == update[slot]
    ensures forall slot :: slot in s && slot !in update ==> slot in Merge(s, update) && Merge(s, update)[slot] == s[slot]
    ensures Merge(s, update).Keys == s.Keys + update.Keys
    ensures IsState(s) && IsPartial(update) ==> IsState(Merge(s, update))
  {
  }

  /** Two updates in a row are the one update merging both, the later
      winning; repeating an update changes nothing more; an empty update
      changes nothing. */
  lemma MergeComposes(s: State, u: State, v: State)
    ensures Merge(Merge(s, u), v) == Merge(s, Merge(u, v))
    ensures Merge(Merge(s, u), u) == Merge(s, u)
    ensures Merge(s, map[]) == s
  {
    assert Merge(Merge(s, u), v).Keys == Merge(s, Merge(u, v)).Keys;
    assert Merge(Merge(s, u), u).Keys == Merge(s, u).Keys;
    assert Merge(s, map[]).Keys == s.Keys;
  }

  /** The initial state: the saved state when there is one, else the
      default. */
  function InitialState(saveData: Option<State>): (s: State)
    requires saveData.Some? ==> IsState(saveData.value)
    ensures IsState(s)
    ensures saveData.Some? ==> s == saveData.value
    ensures saveData.None? ==> s == DefaultState()
  {
    if saveData.Some? then saveData.value else DefaultState()
  }

  /** The form's state, as `useReducer` holds it. */
  class Form {
    var state: State

    ghost predicate Valid()
      reads this
    {
      IsState(state)
    }

    constructor(saveData: Option<State>)
      requires saveData.Some? ==> IsState(saveData.value)
      ensures Valid() && state == InitialState(saveData)
    {
      state := if saveData.Some? then saveData.value else DefaultState();
    }

    /** setState: merge a partial state in. */
    method SetState(update: State)
      requires Valid() && IsPartial(update)
      modifies this
      ensures Valid() && state == Merge(old(state), update)
    {
      MergeSpec(state, update);
      state := state + update;
    }

    /** The input-type selector of a type contract: a new input type, the
        output type as it was. */
    method SetInputType(component: string, inputType: string)
      requires Valid() && component in ContractSlots
      modifies this
      ensures Valid() && state == Merge(old(state), map[component := Contract(inputType, old(state)[component].outputType)])
    {
      SetState(map[component := Contract(inputType, state[component].outputType)]);
    }

    /** The output-type selector of a type contract: a new output type, the
        input type as it was. */
    method SetOutputType(component: string, outputType: string)
      requires Valid() && component in ContractSlots
      modifies this
      ensures Valid() && state == Merge(old(state), map[component := Contract(state[component].inputType, outputType)])
    {
      SetState(map[component := Contract(state[component].inputType, outputType)]);
    }
  }

  /** The state after the input-type selector's update. */
  function WithInputType(s: State, component: string, inputType: string): State
    requires IsState(s) && component in ContractSlots
  {
    Merge(s, map[component := Contract(inputType, s[component].outputType)])
  }

  /** The state after the output-type selector's update. */
  function WithOutputType(s: State, component: string, outputType: string): State
    requires IsState(s) && component in ContractSlots
  {
    Merge(s, map[component := Contract(s[component].inputType, outputType)])
  }

  /** A type-contract slot is none of the other kinds. */
  lemma ContractSlotFits(component: string, v: SlotValue)
    requires component in ContractSlots && v.Contract?
    ensures Fits(component, v)
  {
    assert component == "typeContract1" || component == "typeContract2";
  }

  /** Writing a contract into a type-contract slot keeps a full state full
      and changes that slot only. */
  lemma ContractUpdate(s: State, component: string, v: SlotValue)
    requires IsState(s) && component in ContractSlots && v.Contract?
    ensures IsState(Merge(s, map[component := v]))
    ensures Merge(s, map[component := v])[component] == v
    ensures forall slot :: slot in s && slot != component ==> Merge(s, map[component := v])[slot] == s[slot]
  {
    ContractSlotFits(component, v);
    MergeSpec(s, map[component := v]);
  }

  /** Changing one half of a type contract keeps the other half and every
      other slot. */
  lemma TypeContractHalves(s: State, component: string, t: string)
    requires IsState(s) && component in ContractSlots
    ensures var s' := WithInputType(s, component, t);
            IsState(s') && s'[component] == Contract(t, s[component].outputType) &&
            forall slot :: slot in s && slot != component ==> s'[slot] == s[slot]
    ensures var s' := WithOutputType(s, component, t);
            IsState(s') && s'[component] == Contract(s[component].inputType, t) &&
            forall slot :: slot in s && slot != component ==> s'[slot] == s[slot]
  {
    ContractUpdate(s, component, Contract(t, s[component].outputType));
    ContractUpdate(s, component, Contract(s[component].inputType, t));
  }

  /** The types the type selector shows as selected, as written: the
      selected input type is read from the output half. */
  function ShownTypes(s: State, component: string): (string, string)
    requires IsState(s) && component in ContractSlots
  {
    (s[component].outputType, s[component].outputType)
  }

  /** As written, choosing an input type different from the output type
      does not show it as selected. */
  lemma ShownInputTypeIsStale(s: State, component: string, t: string)
    requires IsState(s) && component in ContractSlots && t != s[component].outputType
    ensures ShownTypes(WithInputType(s, component, t), component).0 != t
  {
    TypeContractHalves(s, component, t);
  }

  /** The types the selector evidently should show: each half of the
      contract. */
  function SelectedTypes(s: State, component: string): (string, string)
    requires IsState(s) && component in ContractSlots
  {
    (s[component].inputType, s[component].outputType)
  }

  /** With each half shown, a chosen type shows as selected and the other
      half still shows as before. */
  lemma SelectedTypesFollowChoice(s: State, component: string, t: string)
    requires IsState(s) && component in ContractSlots
    ensures SelectedTypes(WithInputType(s, component, t), component) == (t, SelectedTypes(s, component).1)
    ensures SelectedTypes(WithOutputType(s, component, t), component) == (SelectedTypes(s, component).0, t)
  {
    TypeContractHalves(s, component, t);
  }

  /** convertNames: the destination root followed by the source name with
      the length of the source root cut off its front. */
  function ConvertNames(sourceName: string, sourceNameRoot: string, destinationNameRoot: string): string {
    destinationNameRoot + Slice(sourceName, |sourceNameRoot|, |sourceName|)
  }

  /** A name built on the source root is carried over to the destination
      root with the same ending; a name shorter than the root gives the
      destination root alone. */
  lemma ConvertNamesSpec(root: string, ending: string, destination: string, shorter: string)
    requires |shorter| <= |root|
    ensures ConvertNames(root + ending, root, destination) == destination + ending
    ensures ConvertNames(shorter, root, destination) == destination
  {
    assert (root + ending)[|root|..|root + ending|] == ending;
  }

  function ContextFromCollection(collection: string): string {
    ConvertNames(collection, "collection", "context")
  }

  function ContextFromAttribute(attribute: string): string {
    ConvertNames(attribute, "attribute", "context")
  }

  function ContextFromAttributeSet(attributeSet: string): string {
    ConvertNames(attributeSet, "attributeSet", "context")
  }

  function AttributeSetFromExpression(expression: string): string {
    ConvertNames(expression, "expression", "attributes")
  }

  /** The mappers keep the number of the slot: collection, attribute and
      attribute set N depend on context N, and expression N completes
      with the attributes of list N. For the slots of the form, the
      context found is a slot too. */
  lemma MappersKeepNumber(ending: string)
    ensures ContextFromCollection("collection" + ending) == "context" + ending
    ensures ContextFromAttribute("attribute" + ending) == "context" + ending
    ensures ContextFromAttributeSet("attributeSet" + ending) == "context" + ending
    ensures AttributeSetFromExpression("expression" + ending) == "attributes" + ending
    ensures ending in {"1", "2"} ==>
              "collection" + ending in Slots && "attribute" + ending in Slots &&
              "attributeSet" + ending in Slots && "context" + ending in Slots
  {
    ConvertNamesSpec("collection", ending, "context", "");
    ConvertNamesSpec("attribute", ending, "context", "");
    ConvertNamesSpec("attributeSet", ending, "context", "");
    ConvertNamesSpec("expression", ending, "attributes", "");
    if ending == "1" {
      assert "collection" + ending == "collection1" && "attribute" + ending == "attribute1";
      assert "attributeSet" + ending == "attributeSet1" && "context" + ending == "context1";
    } else if ending == "2" {
      assert "collection" + ending == "collection2" && "attribute" + ending == "attribute2";
      assert "attributeSet" + ending == "attributeSet2" && "context" + ending == "context2";
    }
  }
}
