# CODAP Flow: a verified model of its core

CODAP Flow is a plugin for CODAP, the Common Online Data Analysis Platform.
It lets a user build new datasets from existing ones: filter, pivot, join,
copy, select attributes, build or transform a column, compare two columns,
or take a dot product. Formulas are written in a small expression language.
The plugin reads and writes CODAP data contexts through a message channel.
The transformation forms keep their choices in a small state object.

This project models, in Dafny, the parts of the plugin whose behaviour
can be pinned down exactly:

- **Expression-language parser.** The parselets of the Pratt parser and
  the minimal driver they call into. The model is both a functional
  specification (`ParseSpec`) and the imperative token stack the source
  mutates (`Parselets.TokenStack`).
- **Table transformations.** These run over a dataset, which is a list
  of collections plus a list of records. The modules are `Pivot`,
  `Join`, `SelectAttributes`, `TransformUtil`, `Filter`, `BuildColumn`,
  `TransformColumn`, `Copy` and `DotProduct`.
- **Comparison and diff record builders.** `Changes`, `Diff`, `Compare`
  and `NumericCompare`.
- **Naming and bookkeeping in the CODAP interface.** These cover
  resource strings, the name counter, unique names, parent
  normalisation and notification dispatch, in `CodapPhone` and in the
  earlier `CodapPhoneLegacy`.
- **The form state of a transformation.** The reducer, the default
  state and the slot-name mappers, in `DDTransformation`.

Record values are modelled as JavaScript values (`Data.Cell`): string,
number, boolean, `null` or `undefined`. A record is a map from field names
to values. `Number()` and `parseFloat` become decimal parses that return
`None` for NaN. A thrown error becomes `Err` of a `Result`, with the
message the source throws.

Datasets the source updates in place (buildColumn, transformColumn,
numericCompare) are a `Data.DataContext` object whose fields the methods
assign. The name counter is a `CodapPhone.Namer` object, and the form state
is a `DDTransformation.Form` object. Each loop of the source is a method
proved equal to a specification function, and the properties are lemmas
about those functions.

## Model

| member | source | states |
|---|---|---|
| Syntax.OperatorSymbols | src/language/ast.ts:8-18 | the operators are exactly the ten symbols: each symbol denotes its operator and back |
| Syntax.DoubleEqualIsNotAnOperator | src/language/ast.ts:8-18 | `==` is not among the operators |
| Syntax.UnaryOperatorSymbols | src/language/ast.ts:20-21 | `not` is the one and only unary operator |
| ParseSpec.ExpectConsume | src/language/parselets.ts:21-36 | succeeds iff the stream is non-empty and its last token has the kind; it then pops exactly that token; on failure the given message, if non-empty, is the error |
| ParseSpec.OpToTokenInverse | src/language/parselets.ts:41-64 | opToToken is total, and the ten operator tokens map back to their operators |
| ParseSpec.OpToTokenInjective | src/language/parselets.ts:41-64 | distinct operators give distinct tokens |
| ParseSpec.ParseExpr | src/language/parselets.ts:98 | the driver consumes at least one token and stops where no infix parselet binds tighter than the minimum |
| ParseSpec.InfixLoop | src/language/parselets.ts:129-133 | handing the tree to infix parselets never grows the stream and ends where no infix parselet binds tighter than the minimum |
| ParseSpec.PrefixParse | src/language/parselets.ts:66-183 | the prefix parselets never grow the stream |
| ParseSpec.BuiltinParse | src/language/parselets.ts:139-183 | the built-in parselet never grows the stream |
| ParseSpec.InfixParse | src/language/parselets.ts:128-136 | the operator parselet consumes at least one token |
| ParseSpec.ParseArgs | src/language/parselets.ts:151-174 | the argument loop never grows the stream |
| Parselets.TokenStack.constructor | src/language/parselets.ts:21-36 | the stack holds the given tokens, the next one last |
| Parselets.TokenStack.ExpectConsume | src/language/parselets.ts:21-36 | the in-place pop agrees with the functional expect_consume, including the failing pop |
| Parselets.TokenStack.ParseExpr | src/language/parselets.ts:98 | the mutating driver yields the tree and leaves the tokens the functional driver does |
| Parselets.TokenStack.PrefixParse | src/language/parselets.ts:66-118 | each mutating prefix parselet agrees with its functional one |
| Parselets.TokenStack.ParseBuiltin | src/language/parselets.ts:139-183 | the mutating built-in parselet, peeking and popping, agrees with the functional one |
| Parselets.TokenStack.InfixParse | src/language/parselets.ts:120-137 | the mutating operator parselet agrees with the functional one |
| ParseProps.LeafParselets | src/language/parselets.ts:66-94 | number, string and identifier parselets succeed exactly on their kind, return the leaf with the token's content and consume nothing more |
| ParseProps.ParenthesisParseletInner | src/language/parselets.ts:96-106 | the group is the inner expression at power 0 with no wrapper node, and fails unless RPAREN follows |
| ParseProps.UnaryOperandAbsorbsOperators | src/language/parselets.ts:108-118 | `not` parses its operand at power 0, wraps it in Unop, and stops only where no operator follows |
| ParseProps.OperatorsBind | src/language/parselets.ts:129 | every operator has a binding power of at least 1 |
| ParseProps.OperatorParseletPower | src/language/parselets.ts:128-136 | the right operand is parsed at the operator's power when left-associative and one below otherwise; the result is Binop(left, right) |
| ParseProps.BuiltinNeedsLParen | src/language/parselets.ts:145-149 | a built-in without LPAREN after its name fails with the message naming the built-in |
| ParseProps.BuiltinUnexpectedEnd | src/language/parselets.ts:157-161 | running out of tokens in the argument list is the "Unexpected end of argument list" error |
| ParseProps.BuiltinNoArguments | src/language/parselets.ts:162-164 | `name()` gives no arguments and consumes exactly its three tokens |
| ParseProps.BuiltinSteps | src/language/parselets.ts:150-181 | after LPAREN the built-in runs the argument loop and then needs RPAREN |
| ParseProps.BuiltinTrailingComma | src/language/parselets.ts:169-173 | a comma directly followed by RPAREN is accepted: `f(1,)` is `f(1)` |
| ParseProps.ParseEmittedPrefix | src/language/parselets.ts:96-183 | reading a printed tree off any stack rebuilds it and leaves the stack below |
| ParseProps.ParseEmittedArgs | src/language/parselets.ts:151-174 | the argument loop reads printed arguments back in order, up to the RPAREN |
| ParseProps.ParseEmitted | src/language/parselets.ts:66-183 | round trip: parsing a printed tree gives the tree back and uses every token |
| ParseProps.EmitInjective | src/language/parselets.ts:66-183 | distinct trees print to distinct token streams |
| ParseProps.PrecedenceTighter | src/language/parselets.ts:128-136 | in `x op1 y op2 z` with op2 binding tighter, op2 takes `y` |
| ParseProps.PrecedenceLeft | src/language/parselets.ts:128-136 | in `x op1 y op2 z` with op2 binding no tighter, op1 takes `y`: left associativity |
| ParseProps.Precedence | src/language/parselets.ts:128-136 | in `x op1 y op2 z` the tighter operator groups first, and equal powers group to the left |
| ParseProps.TimesBindsTighter | src/language/parselets.ts:128-136 | `1 + 2 * 3` is `1 + (2 * 3)` |
| ParseProps.MinusIsLeftAssociative | src/language/parselets.ts:128-136 | `1 - 2 - 3` is `(1 - 2) - 3` |
| ParseProps.NotTakesWholeOperand | src/language/parselets.ts:114-116 | `not x op y` is `not (x op y)` |
| Numerals.NatToString | src/utils/codapPhone/index.ts:63 | the printed numeral is non-empty and all digits |
| Numerals.NatToStringRoundTrip | src/utils/codapPhone/index.ts:63 | reading a printed numeral back gives the number |
| Numerals.NatToStringInjective | src/utils/codapPhone/index.ts:375 | distinct numbers print differently |
| Numerals.DecimalValueOfNat | src/transformers/compare.ts:365-366 | parseFloat of a printed natural number is that number |
| Numerals.EmptyIsNotDecimal | src/transformations/diff.ts:133 | parseFloat of the empty string is NaN |
| Numerals.TrimStartSpec | src/transformations/util.ts:26 | `trimStart` leaves a suffix, drops only white space, and stops at the first character that is not white space |
| Numerals.TrimEndSpec | src/transformations/util.ts:26 | `trimEnd` leaves a prefix, drops only white space, and stops at the last character that is not white space |
| Numerals.TrimSkips | src/transformations/util.ts:26 | white space added around a string does not change its trim |
| Numerals.NotNumeral | src/transformations/diff.ts:132-137 | text starting with a letter or other non-numeral character is NaN, trimmed or not |
| Data.NumberOfSpaced | src/transformations/util.ts:26 | `Number` ignores white space around a string, and white space alone is 0 |
| Data.ParseFloatOfSpaced | src/transformations/diff.ts:133 | `parseFloat` ignores white space before a string |
| Numerals.RealToStringOfInt | src/transformations/filter.ts:44-46 | an integral number prints as its integer numeral |
| Data.Column | src/transformations/diff.ts:72-73 | the column holds each record's value under the name, in order |
| Data.Slice | src/utils/codapPhone/index.ts:104-107 | String.slice within bounds is the subsequence between them |
| Data.FindAttr | src/transformations/pivot.ts:116-118 | the first attribute of that name, or none when no attribute has it |
| Sequences.Filter | src/transformations/selectAttributes.ts:86-88 | `filter` returns no more elements than it was given |
| Sequences.FilterMembers | src/transformations/selectAttributes.ts:86-88 | `filter` keeps exactly the accepted elements: x is in the result iff x is in the input and accepted |
| Sequences.FilterInOrder | src/transformations/selectAttributes.ts:86-88 | `filter` keeps the order: its k-th element is the element at the k-th accepted position |
| Sequences.Positions | src/transformations/selectAttributes.ts:86-88 | positions inside the input, each accepted, strictly increasing |
| Sequences.PositionsMembers | src/transformations/selectAttributes.ts:86-88 | a position is listed iff its element is accepted |
| Sequences.FilterConcat | src/transformations/selectAttributes.ts:92-93 | filtering a concatenation filters each part |
| Sequences.FirstIndex | src/transformations/pivot.ts:95-97 | the index of the first occurrence of a value |
| Sequences.FirstWhere | src/transformations/pivot.ts:116-118 | the index of the first element the test accepts, or none when no element passes |
| Data.EraseFormulas | src/transformations/pivot.ts:35 | the attributes are the same except that none has a formula |
| Copy.UncheckedCopy | src/transformations/copy.ts:20-25 | the copy's collections and records equal the input's element by element |
| Copy.CopyIdempotent | src/transformations/copy.ts:20-25 | copying a copy gives the same dataset, which equals the input as a value |
| Copy.CopyTransform | src/transformations/copy.ts:9-18 | an error exactly when no context is chosen; otherwise the copy named "Copy of" the context |
| TransformUtil.DataItemToEnv | src/transformations/util.ts:11-34 | the environment has exactly the item's keys, each mapped to the value of its cell |
| TransformUtil.CellToValueBool | src/transformations/util.ts:16-25 | exactly `"true"`, `"false"`, `true` and `false` become Bool, true for `"true"` and `true` |
| TransformUtil.CellToValueOther | src/transformations/util.ts:26-30 | any other value is Num(Number(v)) when that is not NaN, where `Number` trims white space; otherwise a String of its text |
| TransformUtil.CellToValueExamples | src/transformations/util.ts:26-30 | `2.5` and `"12"` become numbers, and `null` is 0 |
| TransformUtil.BooleanWordsAreNaN | src/transformations/util.ts:16-27 | `"true"` and `"false"` are not numbers, so the boolean test and the number test never overlap |
| TransformUtil.CellToValueSpaced | src/transformations/util.ts:26-27 | a numeral with white space around it becomes the number it spells |
| TransformUtil.CellToValueBlank | src/transformations/util.ts:26-27 | a value of white space alone becomes Num(0) |
| TransformUtil.CellToValueTextExample | src/transformations/util.ts:28-29 | `"abc"` stays a String |
| TransformUtil.Reparented | src/transformations/util.ts:43-49 | exactly the children of the removed collection take its parent; all others are unchanged |
| TransformUtil.Reparent | src/transformations/util.ts:43-49 | the loop gives the reparented collections |
| TransformUtil.ReparentedDropsParent | src/transformations/util.ts:43-49 | afterwards no collection names the removed one as its parent |
| TransformUtil.InsertColumn | src/transformations/util.ts:58-72 | the attribute is appended, or becomes the only one when attrs is absent; nothing else changes |
| TransformUtil.InsertColumnInLastCollection | src/transformations/util.ts:81-92 | only the last collection changes and the length is kept; with no collections it throws |
| Filter.FirstNotBoolean | src/transformations/filter.ts:41-48 | the first predicate value that is not a boolean, or none |
| Filter.Kept | src/transformations/filter.ts:50-52 | the records kept are at most as many as given |
| Filter.KeptInOrder | src/transformations/filter.ts:41-53 | the kept records are, in order and each once, the records at the positions whose value is `true` (the k-th kept record is the record at the k-th such position) |
| Filter.KeptSpec | src/transformations/filter.ts:41-53 | a record is kept exactly when some position holding it has the predicate value true |
| Filter.KeptAllOrNone | src/transformations/filter.ts:41-53 | all values true keeps every record, in order; all false keeps none |
| Filter.UncheckedFilter | src/transformations/filter.ts:32-61 | the loop gives the first non-boolean value's error with its 1-based case number, or the kept records with the collections unchanged |
| Filter.FilterTransform | src/transformations/filter.ts:11-30 | no context and an empty predicate are errors; otherwise the filtered dataset with its name and description |
| BuildColumn.FindCollectionNamed | src/transformations/buildColumn.ts:18 | the first collection of that name, or none |
| BuildColumn.WithColumn | src/transformations/buildColumn.ts:50-52 | record i gets the new attribute's value i; the count and other fields are kept |
| BuildColumn.AnyCollectionHolds | src/transformations/buildColumn.ts:25-29 | true exactly when some collection already has an attribute of the new name |
| BuildColumn.BuildColumn | src/transformations/buildColumn.ts:9-58 | an unknown collection or a name in use is an error; otherwise the attribute is appended to that collection and each record gets its value, in place |
| TransformColumn.FirstLacking | src/transformations/transformColumn.ts:25-27 | the first record without the attribute, or none |
| TransformColumn.Replaced | src/transformations/transformColumn.ts:22-30 | the first n records have the attribute replaced by their value, the rest are unchanged |
| TransformColumn.Described | src/transformations/transformColumn.ts:32-42 | only the first collection holding the attribute changes: its formula is cleared and its description rewritten |
| TransformColumn.DescribeTransformed | src/transformations/transformColumn.ts:33-42 | the loop, stopping at the first holder, gives the described collections |
| TransformColumn.TransformColumn | src/transformations/transformColumn.ts:10-50 | the first record lacking the attribute is an error with the earlier records already changed; otherwise all values are replaced and the attribute described |
| DotProduct.FieldValues | src/transformations/dotProduct.ts:47-60 | the numbers under the attributes, in order |
| DotProduct.RowValuesSpec | src/transformations/dotProduct.ts:47-58 | a row's values exist iff every attribute holds a number |
| DotProduct.RowProductSpec | src/transformations/dotProduct.ts:47-60 | a row's product exists iff every attribute holds a number, and is their product seeded at 1 |
| DotProduct.RowProducts | src/transformations/dotProduct.ts:45-61 | one product per record, or the first failing record's error |
| DotProduct.ReduceSumIsSum | src/transformations/dotProduct.ts:62 | reducing without a seed sums the list |
| DotProduct.DotProductSpec | src/transformations/dotProduct.ts:37-63 | defined iff there is an attribute, a record, and numbers everywhere; then the sum of the row products |
| DotProduct.DotProductTable | src/transformations/dotProduct.ts:69-93 | one collection "Cases" with the one attribute "Dot Product" and one record holding the result |
| DotProduct.DotProductTransform | src/transformations/dotProduct.ts:10-29 | no context and no attributes are errors; otherwise the error of the unchecked product is passed on, or the product is named "Dot Product of" the context |
| Pivot.Without | src/transformations/pivot.ts:206-214 | the record without exactly the listed keys |
| Pivot.RemoveFields | src/transformations/pivot.ts:206-214 | the deletion loop removes exactly the listed keys |
| Pivot.EquivExcept | src/transformations/pivot.ts:184-201 | true iff the records agree, by strict equality, on every key of the first outside the exceptions |
| Pivot.AttrsNotNamed | src/transformations/pivot.ts:31-32 | exactly the attributes whose names are not listed, and no more of them than given |
| Pivot.AttrsNotNamedInOrder | src/transformations/pivot.ts:31-32 | the kept attributes stay in their original order: the order-keeping filter of the input |
| Pivot.LongRecordsLength | src/transformations/pivot.ts:50-63 | there are records × pivoted attributes long records |
| Pivot.LongRecordAt | src/transformations/pivot.ts:50-63 | in record-major order: long record i·n+j is record i pivoted on attribute j, n being the number of pivoted attributes |
| Pivot.PivotRecord | src/transformations/pivot.ts:52-62 | the inner loop gives the record's block of long records, one per pivoted attribute in order |
| Pivot.LongRecordFields | src/transformations/pivot.ts:54-61 | a long record has no pivoted field, holds the attribute's value under valuesTo and its name under namesTo, and keeps the other fields |
| Pivot.PivotLonger | src/transformations/pivot.ts:16-69 | an error iff there is not exactly one collection; otherwise its attributes lose the pivoted ones and gain namesTo then valuesTo, and the records are the long records |
| Pivot.NameCells | src/transformations/pivot.ts:96-113 | one name per record, in order |
| Pivot.NameCellsErr | src/transformations/pivot.ts:99-108 | an error iff some record's namesFrom value is undefined or null |
| Pivot.Distinct | src/transformations/pivot.ts:95-116 | no value twice, exactly the values of the input, and in the order of their first occurrence, as a `Set` iterates |
| Pivot.FirstAgreeing | src/transformations/pivot.ts:150-153 | the first wide record the record agrees with, or past the end when none does |
| Pivot.Collapse | src/transformations/pivot.ts:147-173 | folding a record in adds at most one wide record |
| Pivot.WideRecordsFailedPrefix | src/transformations/pivot.ts:147-173 | a failure on a prefix of the records is the failure of the whole loop |
| Pivot.WideRecordsFewer | src/transformations/pivot.ts:146-173 | pivoting wider never yields more records than it is given |
| Pivot.CollapsePlaces | src/transformations/pivot.ts:171-172 | the receiving wide record holds the value under the name; every other wide record is unchanged |
| Pivot.CollapseDuplicate | src/transformations/pivot.ts:161-169 | a name already filled in the agreeing wide record is the "multiple values" error |
| Pivot.CollapseOne | src/transformations/pivot.ts:148-172 | one turn of the loop is the fold of one record |
| Pivot.CollapseRecords | src/transformations/pivot.ts:146-173 | the loop gives the fold of all records |
| Pivot.AppendWideAttrs | src/transformations/pivot.ts:134-144 | the kept attributes followed, in order, by one copy of the values attribute per new name, named after it and without a formula |
| Pivot.PivotWider | src/transformations/pivot.ts:81-179 | the errors for several collections, a bad name and a missing values attribute; otherwise one attribute per distinct name and the folded records |
| Join.FindCollectionWithAttr | src/transformations/join.ts:86-93 | the first collection holding the attribute, or none when none does |
| Join.AllAttrs | src/transformations/join.ts:40-43 | every attribute of every collection is in the list, and nothing else |
| Join.AllAttrsConcat | src/transformations/join.ts:40-43 | the attributes of two runs of collections are those of the first followed by those of the second |
| Join.AllAttrsOfOne | src/transformations/join.ts:40-43 | one collection contributes its attributes, or none when it has no list |
| Join.RenamedAttrs | src/transformations/join.ts:49-53 | one attribute per added one, differing from it at most in its name |
| Join.UniqueMap | src/transformations/join.ts:48-53 | its keys are exactly the original names |
| Join.RenameAdded | src/transformations/join.ts:45-53 | the loop gives the renamed attributes and the name map |
| Join.FirstMatch | src/transformations/join.ts:64-66 | the first joining record whose value strictly equals the base value, or none |
| Join.CopyFields | src/transformations/join.ts:69-72 | the record's fields become its own plus exactly the new names |
| Join.CopyFieldsValues | src/transformations/join.ts:69-72 | with distinct new names, each new field holds the matching record's value and the other fields are kept |
| Join.CopyMatch | src/transformations/join.ts:68-73 | the inner loop gives the copied record |
| Join.JoinRecords | src/transformations/join.ts:59-74 | the same number of records, each joined with its first match or unchanged |
| Join.JoinedCollections | src/transformations/join.ts:56 | the collection joined into gains the renamed attributes at its end; the others are unchanged |
| Join.JoinDataSets | src/transformations/join.ts:16-80 | the two "invalid attribute" errors; otherwise the joined collections and one joined record per base record |
| Join.RenamedFresh | src/transformations/join.ts:45-53 | the new names are pairwise distinct and none is a base attribute's name |
| Join.UniqueMapAt | src/transformations/join.ts:50 | with distinct originals, each name maps to its own new name |
| Join.AttrToUnique | src/transformations/join.ts:48-53 | the name map has an entry for every original name |
| Join.AttrToUniqueInjective | src/transformations/join.ts:48-53 | distinct original names get distinct new names |
| Join.JoinedMatchedFields | src/transformations/join.ts:63-74 | a matched record holds the match's values under the new names and keeps all its other fields |
| SelectAttributes.NamesNotIn | src/transformations/selectAttributes.ts:81-95 | the dataset's attribute names, collection by collection and attribute by attribute, filtered to those not given, order kept |
| SelectAttributes.NamesNotInMembers | src/transformations/selectAttributes.ts:81-95 | a name is selected by `allBut` exactly when it is not given and some collection with an attribute list has it |
| SelectAttributes.NotIn | src/transformations/selectAttributes.ts:86-88 | exactly the names not in the list, in their original order |
| SelectAttributes.AttrsToSelect | src/transformations/selectAttributes.ts:71-96 | the given names; with allBut, exactly the dataset's attribute names that are not given |
| SelectAttributes.SelectFieldsSpec | src/transformations/selectAttributes.ts:29-37 | a record is cut down iff every selected field is defined, and then has exactly those fields with the same values |
| SelectAttributes.CopySelected | src/transformations/selectAttributes.ts:30-37 | the inner loop gives the cut-down record or the first undefined field's error |
| SelectAttributes.SelectFieldsFailedPrefix | src/transformations/selectAttributes.ts:30-37 | a failure on a prefix of the names fails the whole record |
| SelectAttributes.SelectRecords | src/transformations/selectAttributes.ts:27-39 | one cut-down record per record |
| SelectAttributes.SelectRecordsFailedPrefix | src/transformations/selectAttributes.ts:27-39 | a failure on a prefix of the records fails the whole loop |
| SelectAttributes.CopyRecords | src/transformations/selectAttributes.ts:27-39 | the outer loop gives the cut-down records |
| SelectAttributes.AttrsNamed | src/transformations/selectAttributes.ts:46-48 | exactly the attributes with selected names, no more of them than given |
| SelectAttributes.AttrsNamedInOrder | src/transformations/selectAttributes.ts:46-48 | the kept attributes stay in their original order |
| SelectAttributes.SelectCollectionsSpec | src/transformations/selectAttributes.ts:45-56 | the output collections are never empty, hold only selected attributes, and are no more than given |
| SelectAttributes.SelectCollectionsShape | src/transformations/selectAttributes.ts:45-56 | the output is, in order, the filtered collections that keep an attribute or have no list; each differs from its input only in its parent |
| SelectAttributes.PruneShape | src/transformations/selectAttributes.ts:45-56 | the loop keeps exactly the surviving collections, in order, changing only parents |
| SelectAttributes.StageStep | src/transformations/selectAttributes.ts:45-56 | one more round of the loop keeps the collection iff it survives, and reparenting changes no other field |
| SelectAttributes.ReparentedKeepsShape | src/transformations/util.ts:43-49 | reparenting changes only parents |
| SelectAttributes.SelectCollectionsResolved | src/transformations/selectAttributes.ts:45-56 | with distinct names and parents listed before their children, each output's parent is its input parent resolved upwards past dropped collections |
| SelectAttributes.PruneParents | src/transformations/selectAttributes.ts:45-56 | the loop leaves every kept collection's parent resolved past the collections dropped so far |
| SelectAttributes.ParentStep | src/transformations/selectAttributes.ts:50-55 | one round keeps the resolution of parents: a dropped collection passes its parent to its children |
| SelectAttributes.PruneDone | src/transformations/selectAttributes.ts:45-56 | before the loop starts every parent is resolved |
| SelectAttributes.SelectedParent | src/transformations/selectAttributes.ts:45-56 | no output names a dropped collection as parent; a kept parent is kept, no parent stays none, and a child of a dropped collection takes that collection's resolved parent |
| SelectAttributes.AncestorKept | src/transformations/selectAttributes.ts:45-56 | a resolved parent never names a collection dropped below the bound |
| SelectAttributes.AncestorSettled | src/transformations/selectAttributes.ts:45-56 | a collection's parent resolved below its own index is already resolved past every dropped collection |
| SelectAttributes.AncestorBelow | src/transformations/selectAttributes.ts:45-56 | with parents listed first, a collection's resolved parent names a collection before it, or nothing |
| SelectAttributes.AncestorPastKept | src/transformations/selectAttributes.ts:45-56 | raising the bound past a kept collection changes no resolution |
| SelectAttributes.AncestorPastDropped | src/transformations/selectAttributes.ts:50-55 | raising the bound past a dropped collection resolves its name to its parent's resolution |
| SelectAttributes.FindDistinct | src/transformations/selectAttributes.ts:45-56 | with distinct names, looking a collection's name up finds that collection |
| SelectAttributes.PruneCollections | src/transformations/selectAttributes.ts:42-57 | the collection loop with reparenting gives the selected collections |
| SelectAttributes.Select | src/transformations/selectAttributes.ts:14-63 | an empty selection is an error; otherwise the cut-down records and collections, or the first undefined field's error |
| Changes.ChangeBlock | src/transformations/diff.ts:98-118 | `count` records for one change, record j made from its value j |
| Changes.RecordColumns | src/transformations/diff.ts:98-118 | a removed value goes in the first column only, marked red; an added value goes in the second only, marked green; a common value goes in both with the common status |
| Changes.ExpandedSize | src/transformations/diff.ts:93-119 | the expansion fails iff some change has no count, with that error, and otherwise has as many records as the counts add up to |
| Changes.ExpandChanges | src/transformations/diff.ts:92-121 | the nested loops give the expansion of the change list |
| Changes.ExpandedRecoversColumns | src/transformations/diff.ts:98-118 | the first column without the green rows is the old side of the change list, and the second without the red rows is the new side |
| Diff.LastHolder | src/transformations/diff.ts:22-45 | the last collection holding the attribute, or none when none does |
| Diff.LastWithAttr | src/transformations/diff.ts:22-45 | absent iff no collection holds the attribute; otherwise it has that name |
| Diff.FindAttributeData | src/transformations/diff.ts:22-45 | the search loop ends with the last holder's attribute |
| Diff.NumericalRecords | src/transformations/diff.ts:124-150 | one record per index up to the longer column, from the values at that index |
| Diff.DiffRecordsNumerical | src/transformations/diff.ts:124-150 | the loop gives the numerical records |
| Diff.DifferenceSpec | src/transformations/diff.ts:132-145 | a difference exists iff both values are truthy and parse to non-zero numbers; it is the first minus the second, green when positive and red when negative |
| Diff.TruthyNumberIsTruthy | src/transformations/diff.ts:132-137 | a value that parses to a non-zero number is truthy |
| Diff.GuardOnFirstValueHarmless | src/transformations/diff.ts:135-137 | guarding the second parse by the first value gives the same difference as guarding it by the second |
| Diff.DiffDataSets | src/transformations/diff.ts:15-82 | the two "couldn't find" errors; otherwise one collection with the attributes, a Difference column only when numeric, and the status, plus the records |
| Diff.CategoricalDiffRecoversColumns | src/transformations/diff.ts:84-122 | the categorical diff holds both input columns when the change list is their diff |
| Compare.ParseCompareType | src/transformers/compare.ts:26-28 | a kind exactly for "numeric", "categorical" and "structural" |
| Compare.ParseKindName | src/transformers/compare.ts:26-28 | every kind's name is recognised as that kind |
| Compare.NumericRecords | src/transformers/compare.ts:341-390 | one record per index up to the longer column |
| Compare.CompareRecordsNumerical | src/transformers/compare.ts:341-390 | the loop with its two `continue`s gives the numeric records |
| Compare.CompareDifferenceSpec | src/transformers/compare.ts:354-386 | a difference exists iff both values are present and numeric; it is the second minus the first; green, red or grey by its sign, and an empty status otherwise |
| Compare.CompareAntisymmetric | src/transformers/compare.ts:379-386 | swapping the columns negates the difference and swaps green with red |
| Compare.CompareAgreesWithDiff | src/transformers/compare.ts:379-386 | wherever the diff transformation finds a difference, the comparison finds its negation; where either value reads as 0 the comparison finds a number and the diff nothing |
| Compare.NumericRecordsColumns | src/transformers/compare.ts:350-387 | each record holds the first value, the second under its safe name, and the status of their difference |
| Compare.StructuralRecoversColumns | src/transformers/compare.ts:167-206 | the structural comparison holds both input columns when the change list is their diff |
| Compare.EqualForKeys | src/transformers/compare.ts:331-339 | true iff the records agree on every listed key; vacuously true for no keys |
| Compare.EqualForKeysEquivalence | src/transformers/compare.ts:331-339 | agreement on keys is reflexive, symmetric and transitive, and always holds for no keys |
| Compare.FindMatch | src/transformers/compare.ts:280-282 | the first candidate agreeing on the keys, or none |
| Compare.SharedAttrs | src/transformers/compare.ts:217-226 | exactly the first dataset's attributes whose name the second also has |
| Compare.ValueAttrs | src/transformers/compare.ts:227-240 | the shared attributes other than the two compared ones |
| Compare.FirstPass | src/transformers/compare.ts:276-302 | one decided record per first-dataset record, in order |
| Compare.SecondPassSound | src/transformers/compare.ts:304-323 | every record the second loop adds is a second-dataset record matching no first record, marked as unmatched |
| Compare.SecondPassComplete | src/transformers/compare.ts:304-323 | every second-dataset record matching no first record is added, marked as unmatched |
| Compare.MatchIn | src/transformers/compare.ts:306-311 | whether the second record has a match among the first records |
| Compare.CategoricalRecords | src/transformers/compare.ts:276-323 | the two loops give the first pass followed by the second pass |
| Compare.DecidedSpec | src/transformers/compare.ts:283-300 | a decided record records its first category and, when matched, its partner's; on the shared keys it agrees with both |
| Compare.CategoricalCoversBoth | src/transformers/compare.ts:276-323 | every first record appears once, and every second record is matched or appears on its own |
| Compare.CategoricalSpec | src/transformers/compare.ts:208-329 | the errors for a missing first or second collection or attribute list, in that order, then for each reserved decision name; success exactly when none applies, with the decision and value collections and the first pass followed by the second |
| Compare.CompareCategorical | src/transformers/compare.ts:208-329 | the early-return method gives exactly `CategoricalCompared`, the comparison whose outcome CategoricalSpec states |
| Compare.UncheckedCompare | src/transformers/compare.ts:76-165 | the method gives exactly `Compared`: attribute errors first, then the categorical comparison, or one output collection with the structural expansion (or its error) or the numeric records |
| Compare.ComparedCollections | src/transformers/compare.ts:88-143 | a successful comparison has two collections when categorical and one otherwise |
| Compare.CompareTransform | src/transformers/compare.ts:33-74 | missing inputs and an unknown kind are errors; otherwise the error of `Compared` is passed on, or its dataset is returned with the name "Compare of …" and the description |
| NumericCompare.Abs | src/transformers/numericCompare.ts:143 | the absolute value is non-negative and equals the value or its negation |
| NumericCompare.ComparableAgreesWithCompare | src/transformers/numericCompare.ts:119-137 | an index is valid exactly when the comparison transformer gives it a difference, and the difference is the same |
| NumericCompare.ValidPairs | src/transformers/numericCompare.ts:114-137 | the first loop keeps exactly the valid indices with their parsed pairs |
| NumericCompare.LargestBounds | src/transformers/numericCompare.ts:141-147 | no valid difference is larger in absolute value than the largest |
| NumericCompare.LargestAttained | src/transformers/numericCompare.ts:141-147 | a non-zero largest difference is the one at the first valid index reaching its size |
| NumericCompare.LargestDifference | src/transformers/numericCompare.ts:141-147 | the second loop gives the largest difference, 0 when there is none |
| NumericCompare.ScalarBounded | src/transformers/numericCompare.ts:158-166 | the interpolation scalar of a non-zero difference lies in (0, 1] |
| NumericCompare.AnnotatedRecords | src/transformers/numericCompare.ts:153-173 | one annotated record per record, in order |
| NumericCompare.WithCompareColumns | src/transformers/numericCompare.ts:92-109 | the target collection gains the difference and status attributes at its end; the others are unchanged |
| NumericCompare.TargetIndex | src/transformers/numericCompare.ts:56-80 | the target is an index of a collection |
| NumericCompare.TargetIndexSpec | src/transformers/numericCompare.ts:56-80 | errors exactly when an attribute is in no collection, first attribute first; otherwise the later of the two first holders |
| NumericCompare.AnnotatedSpec | src/transformers/numericCompare.ts:153-173 | `AnnotatedAs`: other fields are kept; a valid index gets v2 − v1, with grey status when that is 0, the green paint of its scalar when positive and the red paint when negative; an invalid one gets "" twice |
| NumericCompare.NumericComparedRecords | src/transformers/numericCompare.ts:114-173 | the record count is kept and each record is `AnnotatedAs` its pair of values when they are comparable (other fields kept, v2 − v1, grey at 0, green or red paint of the scaled difference) and with "" twice when they are not, scaled by the largest difference over all records |
| NumericCompare.NumericComparedCollections | src/transformers/numericCompare.ts:92-109 | the two new attributes go at the end of the target collection; the others are unchanged |
| NumericCompare.ColumnNamesFresh | src/transformers/numericCompare.ts:83-90 | the new column names are no attribute names of the dataset |
| NumericCompare.AnnotateRecords | src/transformers/numericCompare.ts:153-173 | the third loop annotates the context's records in place |
| NumericCompare.UncheckedNumericCompare | src/transformers/numericCompare.ts:48-176 | the result is the pure comparison; the collections are cloned, so the context's collections stay as they were, while its records are annotated in place on success |
| NumericCompare.NumericCompareTransform | src/transformers/numericCompare.ts:25-46 | missing context or attributes are errors and leave the records alone; otherwise the error of `NumericCompared` is passed on with the records unchanged, or its dataset is returned with its name and description and becomes the context's records; the collections are never changed in place |
| CodapPhone.ResourceStrings | src/utils/codapPhone/index.ts:38-59 | the context and collection names are read back from their resources; the item, search and all-cases resources extend the context resource |
| CodapPhone.CounterNamesDistinct | src/utils/codapPhone/index.ts:61-68 | the counter never hands out the same name twice |
| CodapPhone.Namer.constructor | src/utils/codapPhone/index.ts:61-62 | the counter starts at 0 having issued nothing |
| CodapPhone.Namer.GetNewName | src/utils/codapPhone/index.ts:61-68 | the name is the prefix and the count, the count goes up by one, and the name was never issued before |
| CodapPhone.SuffixedInjective | src/utils/codapPhone/index.ts:375-378 | distinct suffixes give distinct names |
| CodapPhone.EnsureUniqueName | src/utils/codapPhone/index.ts:366-378 | the name itself when free; otherwise `name_(i)` for the least i ≥ 1 that is free; the result is never an existing name |
| CodapPhone.FindById | src/utils/codapPhone/index.ts:190-192 | the first collection with the id, or none |
| CodapPhone.NormalizeParentNames | src/utils/codapPhone/index.ts:185-203 | same length and order, each collection normalized |
| CodapPhone.NormalizedSpec | src/utils/codapPhone/index.ts:188-200 | name, title, attrs and labels are copied; the parent is the first id-matching collection's name, undefined when falsy or unmatched |
| CodapPhone.FirstBracket | src/utils/codapPhone/index.ts:105 | the index of the first `[`, or -1 when there is none |
| CodapPhone.ContextNameOfSpec | src/utils/codapPhone/index.ts:104-107 | the context name is the text after the first `[` without the last character |
| CodapPhone.HandleSpec | src/utils/codapPhone/index.ts:73-120 | non-notifications are acknowledged; a document change notice throws exactly when it has no values and calls all listeners for a count change; a data-context change calls its context's listener, when registered, for a mutating first operation and all listeners for an update; the response comes last |
| CodapPhone.CreateTableWithData | src/utils/codapPhone/index.ts:381-415 | the base name comes from the "CodapFlow_" counter when none is given; `_context` and `_table` names are made unique; then the three requests |
| CodapPhoneLegacy.ResourceStrings | src/utils/codapPhone.ts:92-112 | `_collection` is appended; the case resource names the context and its collection; the item and search resources are the newer ones |
| CodapPhoneLegacy.Keys | src/utils/codapPhone.ts:208 | the keys of an item, in order |
| CodapPhoneLegacy.MakeAttrsFromData | src/utils/codapPhone.ts:203-209 | no attributes without data; otherwise one name-only attribute per key of the first item, in order |
| CodapPhoneLegacy.MakeAttrsFromFirst | src/utils/codapPhone.ts:208 | the later items are ignored |
| CodapPhoneLegacy.CreateBareDataset | src/utils/codapPhone.ts:172-197 | consumes a fresh "codapflow_" counter name; one collection named after it, labelled singleCase |
| CodapPhoneLegacy.CreateDataset | src/utils/codapPhone.ts:211-233 | a bare dataset with no attributes for no data; otherwise with the first item's attributes, then the items inserted |
| CodapPhoneLegacy.CreateTableRequest | src/utils/codapPhone.ts:237-258 | a 300 × 300 case table named by a fresh counter name |
| CodapPhoneLegacy.Handle | src/utils/codapPhone.ts:130-142 | the listener loop calls the listeners the handler specification says |
| CodapPhoneLegacy.HandledSpec | src/utils/codapPhone.ts:130-142 | non-notifications are ignored; a count-changed notice calls every listener once, in order; absent values throw |
| DDTransformation.DefaultState | src/transformation-components/DDTransformation.tsx:111-128 | every slot present: selections null, lists empty, texts "", contracts `any`/`any` |
| DDTransformation.MergeSpec | src/transformation-components/DDTransformation.tsx:185-191 | the update's slots are replaced, every other slot is kept, and a full state stays full |
| DDTransformation.MergeComposes | src/transformation-components/DDTransformation.tsx:185-191 | two updates equal their merge with the later winning; repeating or emptying an update changes nothing |
| DDTransformation.InitialState | src/transformation-components/DDTransformation.tsx:190 | the saved state when given, else the default |
| DDTransformation.Form.constructor | src/transformation-components/DDTransformation.tsx:185-191 | the form starts in the initial state |
| DDTransformation.Form.SetState | src/transformation-components/DDTransformation.tsx:185-191 | the state becomes the merge of the old state and the update, and stays full |
| DDTransformation.Form.SetInputType | src/transformation-components/DDTransformation.tsx:352-358 | the contract gets the new input type and its old output type |
| DDTransformation.Form.SetOutputType | src/transformation-components/DDTransformation.tsx:365-372 | the contract gets the new output type and its old input type |
| DDTransformation.TypeContractHalves | src/transformation-components/DDTransformation.tsx:352-372 | changing one half of a contract keeps the other half and every other slot |
| DDTransformation.ShownInputTypeIsStale | src/transformation-components/DDTransformation.tsx:351 | as written (`ShownTypes`, where both selectors read the output half, lines 351 and 364), a chosen input type that differs from the output type is not shown as selected |
| DDTransformation.SelectedTypesFollowChoice | src/transformation-components/DDTransformation.tsx:351-372 | with each selector reading its own half (`SelectedTypes`), a chosen type shows as selected and the other half is unchanged |
| DDTransformation.ConvertNamesSpec | src/transformation-components/DDTransformation.tsx:154-158 | a name on the source root keeps its ending on the destination root; a shorter name gives the root alone |
| DDTransformation.MappersKeepNumber | src/transformation-components/DDTransformation.tsx:130-152 | collection, attribute and attribute set N map to context N, and expression N to attributes N; these are slots of the form |

## Left out

- The lexer (`src/language/lex.ts`), `src/language/parse.ts` and the interpreter are not part of this model. The Pratt driver the parselets call is written here with a fixed binding-power table (or < and < equality < relational < additive < multiplicative). Its infix loop continues while the next operator's power is strictly greater than the minimum. With "at least the minimum", left-associative operators would recurse at their own power and group to the right, which contradicts `1 - 2 - 3` being `(1 - 2) - 3`.
- All calls to CODAP (`phone.call`, `getContextAndDataSet`, `getDataContext`, `evalExpression`) are left out, as are promises and listener registration. Their results are inputs: the evaluated formula values, the datasets, the existing names, the name CODAP gives a created context.
- Helpers whose source is not part of this model are inputs or parameters:
  - the change list of `diffArrays`, given as a well-formed change list;
  - `uniqueName`/`uniqueAttrName`, a function parameter constrained only to avoid the names it is given;
  - `flatten`, `getAttributeDataFromDataset`, `readableName` and `reportTypeErrorsForRecords`, given as their results;
  - `interpolateColor`/`colorToRgbString`, a `paint` parameter.
- `eraseFormulas` is modelled as clearing each attribute's formula.
- `intersectionWithPredicate` is modelled as intersection by name, and `allAttrNames` as the names of all attributes.
- `JSON.stringify` equality in `objectsAreEqualForKeys` is modelled as equality of values.
- `parseFloat` and `Number()` are modelled as exact decimal parses without exponents, infinities or hexadecimal. Both skip JavaScript's leading white space, and `Number()` also skips trailing white space. `parseFloat`'s acceptance of a numeric prefix followed by other text, trailing white space included, is not modelled; such a string reads as NaN.
- TransformUtil.CellToValueOther: a value that becomes a language String keeps its text (`ToStr`), not the raw value; in particular `undefined` becomes the String `"undefined"`, where the source keeps `undefined` as the content.
- Filter.NotBooleanError and DotProduct.FieldValue: their messages show the offending value with `ToStr` (the template-string rendering). The source renders it with `codapValueToString`, whose source is not part of this model.
- Pivot.WideAttr: names a new attribute `ToStr(value)`, the template-string rendering of the value, where the source uses the raw value. `cloneCollection`, in numericCompare, is modelled as the identity on collection values.
- Floating point is modelled by exact reals: no rounding, no overflow.
- NumericCompare.Scalar: when both the difference and the largest difference are 0, JavaScript's NaN is modelled as 0. The scalar is not used in that case.
- NumericCompare.ScalarBounded: does not state that the largest difference's own scalar is exactly 1, only that every scalar lies in (0, 1].
- Object key order is modelled as insertion order. JavaScript lists integer-like keys first; `CodapPhoneLegacy.MakeAttrsFromData` and `Pivot.EquivExcept` do not model that.
- Pivot, join and selectAttributes are modelled on values. The source also updates shared collection and record objects in place (`coll.attrs = …`, `attr.name = …`, `record[unique] = …`); the aliasing this causes between input and output objects is not modelled.
- The React rendering of the transformation forms is out, as is every other UI component. Of the rendering, only the selected values of the type selector are modelled, for the finding below.
- Console logging in the notification handler is left out.

## Findings

| source | as written | input that shows it | evidently intended | confidence | as-written member | corrected member |
|---|---|---|---|---|---|---|
| src/transformation-components/DDTransformation.tsx:351 | the input-type selector is given `state[component].outputType` as its selected input type | a type contract (`any`, `number`) after choosing input type `any`: the input selector shows `number` | `selectedInputType={state[component].inputType}` | medium; not executed (the selector component is not part of this model) | DDTransformation.ShownInputTypeIsStale | DDTransformation.SelectedTypesFollowChoice |
