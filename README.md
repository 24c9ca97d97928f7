# EasySettings in Dafny

EasySettings keeps the properties of a user-defined settings class in sync with an XML file. The
file holds a root element. Under it are `Category` elements named after the categories, and each
of these holds `Key` elements named after properties, with the value in a `Value` attribute.

Each persisted property carries an `EasySetting` attribute. The attribute gives:
- a category name;
- a default value, either concrete or null;
- a value type.

A null default is "dynamic": it is read from the static property of the same name in a nested
`Defaults` type of the settings class.

This project models the engine `EasySettings<T>`:
- **Construction and root-name check.** Construction checks the root-element name against a
  regular expression, stores the path and the root, and imports the file.
- **Import.** Each attributed property is read from its `Category`/`Key` pair, or takes its
  default when the pair is missing or empty, or when the file cannot be read at all.
- **`Save`.** Every attributed property is written back into the tree. Missing categories and
  keys are created. An exception stops the loop and leaves the tree as far as it got.
- **Attributes.** The model covers the two attribute classes: the current `EasySetting`
  attribute and the older `EasySettings` attribute, which the engine does not read.

Modules:
- `Values` holds the declared types, the boxed values, the .NET type codes and the exceptions.
- `Coercion` holds the conversion switch of `SetProperty`. The library converters are
  parameters of the model.
- `EasySettingAttribute` and `EasySettingsAttribute` model the attribute constructors as
  functions returning a descriptor.
- `RootName` models the root-element pattern.
- `Document` holds the XML tree and its first-match lookups.
- `Sync` states one iteration of the `Save` loop, one iteration of either import loop, and the
  loops as folds that stop at the first exception.
- `Settings` holds the class `EasySettings`. Its fields are the document, the path, the root and
  the property values. Its methods `InitializeSettings`, `ImportXmlFile`, `SetProperty` and
  `Save` work with loops. Each loop is proved against the corresponding fold of `Sync`.
- `SaveProperties`, `ImportProperties` and `Scenarios` prove what the folds guarantee:
  - what a save writes, and what it leaves untouched;
  - that saving twice changes nothing;
  - that saving keeps names unique;
  - exactly when an import raises;
  - what each property receives;
  - the save-then-load round trip;
  - one integer setting followed from first run to a corrupted file.

Exceptions are values here. Each exception the C# code raises corresponds to one `Error`
constructor, and the folds and methods return it. An exception that reaches the caller of the
public constructor is the `Err` of `Open`.

The library describes `SetProperty` as using the default when a value is invalid (the comment at
`EasySettings/Core/EasySettings.cs:321`). Where that description and the code differ, the model
follows the code:
- **Conversion failure raises.** A `Value` text that does not convert to the property's type
  raises out of the import (`Convert.ToInt32("not-a-number")` throws). The property does not fall
  back to its default.
- **Missing `Value` attribute raises.** A `Key` element without a `Value` attribute raises a null
  reference, both in the import and in `Save`.
- **Dynamic default is always evaluated.** The dynamic default is looked up even when the file
  holds a value. When there is no `Defaults` type or no matching property, the import raises
  even though the default would not be used.
- **Root-name pattern quirks.** The pattern `^[a-z_:][a-z0-9.-_:]+$` rejects single-character
  names and every name containing '-'. It accepts characters such as ';', '@' and '/' after the
  first position, and it accepts a single trailing newline.

## Model

| member | source | states |
|---|---|---|
| Coercion.ParseAs | EasySettings/Core/EasySettings.cs:325-396 | enumerations and types without a case use the type's converter, strings are taken as they are, and booleans, characters and the numeric types use `Convert.ToX` for their type code |
| EasySettingAttribute.Typed | EasySettings/Attributes/EasySettingAttribute.cs:57-221 | each typed constructor stores its category, a default of exactly the argument (null only for a null string), and the argument's own type as value type, so the default has the value type |
| EasySettingAttribute.TypeOnly | EasySettings/Attributes/EasySettingAttribute.cs:227-230 | the Type-only constructor never fails and leaves the default null (dynamic) |
| EasySettingAttribute.WithType | EasySettings/Attributes/EasySettingAttribute.cs:236-260 | a null default stays null; an enumeration default is kept if it has exactly the enumeration's type, otherwise an argument exception; any other default must be a string and is parsed by the type's converter, with a cast error for a non-string and the converter's exception for bad text |
| EasySettingAttribute.Construct | EasySettings/Attributes/EasySettingAttribute.cs:57-260 | the attribute keeps its category; only the three-argument constructor can fail; the Type-only form is dynamic |
| EasySettingAttribute.ConstructConsistent | EasySettings/Attributes/EasySettingAttribute.cs:236-260 | with a converter that yields values of the requested type, every constructed attribute has its default of its value type |
| EasySettingsAttribute.LegacyTyped | EasySettings/Attributes/EasySettingsAttribute.cs:58-208 | the legacy typed constructors store the category and the same default the current ones store |
| EasySettingsAttribute.LegacyWithType | EasySettings/Attributes/EasySettingsAttribute.cs:214-224 | the legacy three-argument constructor parses the default exactly when it is non-null and the type is not an enumeration, and stores it unchanged otherwise |
| EasySettingsAttribute.LegacyAgreesWhenStrictSucceeds | EasySettings/Attributes/EasySettingsAttribute.cs:214-224 | whenever the current constructor succeeds, the legacy one succeeds with the same category and default |
| EasySettingsAttribute.StrictAddsOnlyTheEnumCheck | EasySettings/Attributes/EasySettingsAttribute.cs:217-223 | the legacy constructor accepts what the current one rejects exactly for an enumeration default of another runtime type; when the legacy one fails, the current one fails with the same exception |
| RootName.FirstClassChars | EasySettings/Core/EasySettings.cs:307 | the first character class under IgnoreCase admits exactly the ASCII letters, '_' and ':' |
| RootName.RestClassChars | EasySettings/Core/EasySettings.cs:307 | the second class under IgnoreCase admits exactly the ASCII letters, digits, ':' and the range '.' to '_' |
| RootName.BodyChars | EasySettings/Core/EasySettings.cs:307 | the unanchored body matches exactly a start character followed by one or more later characters |
| RootName.RootPatternChars | EasySettings/Core/EasySettings.cs:307-310 | the root check `MatchesRootPattern` (the `Regex.Match` of 307) passes exactly for such names, optionally followed by one newline |
| RootName.SingleCharRejected | EasySettings/Core/EasySettings.cs:307-310 | a one-character root name is rejected |
| RootName.HyphenRejected | EasySettings/Core/EasySettings.cs:307-310 | no root name containing '-' is accepted |
| RootName.Examples | EasySettings/Core/EasySettings.cs:307-310 | "1bad" is rejected and "App" is accepted |
| RootName.AdmitsNonXmlNames | EasySettings/Core/EasySettings.cs:307-310 | "a;b", "a@b" and "ab" followed by a newline pass the check |
| Document.FirstIndexOf | EasySettings/Core/EasySettings.cs:92 | the position selected holds the name and no earlier one does, and none is selected only when the name is absent |
| Document.FirstIndexOfAppend | EasySettings/Core/EasySettings.cs:95-133 | appending a name keeps every earlier first match and is the match for a name not seen before |
| Document.FindCategory | EasySettings/Core/EasySettings.cs:92 | the category selected is the first one with that name, and none is selected only when no category has it |
| Document.FindKey | EasySettings/Core/EasySettings.cs:111 | the key selected is the first one with that name, and none is selected only when no key has it |
| Document.FindCategorySameNames | EasySettings/Core/EasySettings.cs:92 | the category selection depends only on the names of the categories |
| Document.FindKeySameNames | EasySettings/Core/EasySettings.cs:111 | the key selection depends only on the names of the keys |
| Document.FindCategoryAppend | EasySettings/Core/EasySettings.cs:95-108 | appending a category keeps every earlier first match and makes the new one the match for its name if there was none |
| Document.FindKeyAppend | EasySettings/Core/EasySettings.cs:114-133 | appending a key keeps every earlier first match and makes the new one the match for its name if there was none |
| Document.CategoryLookup | EasySettings/Core/EasySettings.cs:269-274 | within a category, the Value attribute of the first key with the name is found, and nothing is found exactly when no key has the name |
| Document.Lookup | EasySettings/Core/EasySettings.cs:264-274 | the pair is looked up in the first category with the name only, and nothing is found when no category has the name |
| Document.LookupInUniqueDocument | EasySettings/Core/EasySettings.cs:264-274 | in a tree without duplicate names, every key is found under its own category and name |
| Sync.Prepared | EasySettings/Core/EasySettings.cs:72-75 | `Save` fails on a document that was never created, creates a childless root when there is no document element, and otherwise works on the existing tree |
| Sync.EnsureCategory | EasySettings/Core/EasySettings.cs:92-108 | afterwards the named category exists, is the first of its name, and the root is unchanged |
| Sync.SetKey | EasySettings/Core/EasySettings.cs:111-137 | updating or appending a key keeps the category's name; it raises a null reference exactly when the first key of that name has no Value attribute |
| Sync.SaveStep | EasySettings/Core/EasySettings.cs:83-137 | one iteration keeps the root, also when it raises, and skips a property without the attribute |
| Sync.SaveFrom | EasySettings/Core/EasySettings.cs:81-138 | the `Save` loop keeps the root element |
| Sync.ResolveDefault | EasySettings/Core/EasySettings.cs:284-288 | a static default is used when present, otherwise the `Defaults` property of the same name, and its absence raises |
| Sync.XmlText | EasySettings/Core/EasySettings.cs:263-281 | a non-empty Value is read as it is; a missing key or category or an empty Value reads as null; it raises exactly when the key exists without a Value attribute |
| Sync.ImportedValue | EasySettings/Core/EasySettings.cs:263-291 | without a tree the value is the default; a value is computed only when the default resolves, even if the tree holds a value; a value other than the default is the conversion of a non-empty Value stored under the property's category and name |
| Sync.SetPropertyValue | EasySettings/Core/EasySettings.cs:323-402 | a null text yields the default, and a text succeeds exactly when it converts, yielding the converted value |
| Sync.ImportStep | EasySettings/Core/EasySettings.cs:253-296 | one iteration skips a property without the attribute; otherwise it raises exactly when the attribute cannot be constructed or the property's value cannot be computed, assigns that value to the property's entry and leaves every other entry unchanged |
| Sync.ImportFrom | EasySettings/Core/EasySettings.cs:253-296 | the import loop keeps every entry and, when it raises nothing, adds exactly the attributed names |
| Settings.EasySettings.constructor | EasySettings/Core/EasySettings.cs:19-38 | a new container has no document, no path and no root, and holds the values of a fresh settings object |
| Settings.EasySettings.InitializeSettings | EasySettings/Core/EasySettings.cs:302-318 | a rejected root name raises before the path, the root or the file are touched; otherwise the path and root are stored and the import runs on fresh settings |
| Settings.EasySettings.SetProperty | EasySettings/Core/EasySettings.cs:323-403 | the property's entry becomes the converted text or the default, and a conversion failure raises leaving the values as they were |
| Settings.EasySettings.ImportXmlFile | EasySettings/Core/EasySettings.cs:211-297 | both loops compute exactly the import fold: without a readable file every attributed property gets its default, otherwise the tree's value; the document field is set as the load attempt leaves it |
| Settings.EasySettings.Save | EasySettings/Core/EasySettings.cs:70-138 | on a document that was never created it raises and changes nothing; otherwise the loop leaves exactly the tree of the `Save` fold on the prepared document |
| Settings.Open | EasySettings/Core/EasySettings.cs:59-61 | the public constructor raises for an invalid root name or an exception in the import, and otherwise yields a fresh container holding the imported values |
| SaveProperties.SaveStepSelf | EasySettings/Core/EasySettings.cs:110-137 | after one iteration the property's key, looked up by category and name, holds its invariant text |
| SaveProperties.SaveStepFrame | EasySettings/Core/EasySettings.cs:92-137 | one iteration changes no key of another name in any category |
| SaveProperties.SaveStepFixpoint | EasySettings/Core/EasySettings.cs:134-137 | an iteration over a property already written leaves the tree as it is |
| SaveProperties.SaveStepFindOrCreate | EasySettings/Core/EasySettings.cs:92-137 | a category is appended only when none of its name exists and a key only when none of its name exists in it; existing names keep their positions; every other category and key is untouched |
| SaveProperties.SaveFromSyncs | EasySettings/Core/EasySettings.cs:81-138 | a `Save` that raises nothing leaves every attributed property written in the tree and every key no attributed property names as it was |
| SaveProperties.SaveFromFixpoint | EasySettings/Core/EasySettings.cs:81-138 | a `Save` over a tree that already holds every property changes nothing and raises nothing |
| SaveProperties.SaveIdempotent | EasySettings/Core/EasySettings.cs:81-138 | saving twice gives the tree of the first save |
| SaveProperties.SaveStepFailsIff | EasySettings/Core/EasySettings.cs:83-137 | one iteration raises exactly when the attribute cannot be constructed (its exception, tree unchanged), the value cannot be written as text (the getter's or converter's exception, with a category the iteration appended kept), or the first key of the property's name in its category has no Value attribute (a null reference, tree unchanged); a raising iteration changes no lookup |
| SaveProperties.SaveSucceedsIff | EasySettings/Core/EasySettings.cs:81-138 | for distinct property names, `Save` raises nothing exactly when every attributed property is savable (attribute constructs, value writable, key not without Value) in the tree it starts from |
| SaveProperties.SaveStepKeepsUnique | EasySettings/Core/EasySettings.cs:92-137 | one iteration creates no duplicate category or key name, whether or not it raises |
| SaveProperties.SaveFromKeepsUnique | EasySettings/Core/EasySettings.cs:81-138 | `Save` keeps a tree free of duplicate names, also when it stops at an exception |
| ImportProperties.ImportSucceedsIff | EasySettings/Core/EasySettings.cs:253-296 | an import raises nothing exactly when every attributed property's attribute can be constructed and its own value can be computed |
| ImportProperties.ImportFromValues | EasySettings/Core/EasySettings.cs:253-296 | after an import that raises nothing, every attributed property holds its own iteration's value and every other entry is unchanged |
| ImportProperties.FailedLoadGivesDefaults | EasySettings/Core/EasySettings.cs:222-246 | when the file cannot be read, each attributed property gets its static default, or when it has none, its dynamic default (the value `ImportedValue` gives without a tree) |
| ImportProperties.TreeValueCases | EasySettings/Core/EasySettings.cs:263-291 | for the value `ImportedValue` gives from a tree: a key without a Value attribute raises; a missing or empty Value gives the default; an unresolvable default raises even when a value exists; a non-empty Value is converted, or raises when it does not convert |
| ImportProperties.LoadOutcomes | EasySettings/Core/EasySettings.cs:215-222 | the import reads from a tree only after a complete parse; afterwards the document holds an element exactly when the load added a root element (or a rejected reader left one from before); the next `Save` writes into that element, or into a fresh root for a document without one |
| ImportProperties.EmptyTreeLikeNoFile | EasySettings/Core/EasySettings.cs:222-291 | a document without categories imports exactly like a file that cannot be read |
| ImportProperties.SavedTextReloads | EasySettings/Core/EasySettings.cs:274-291 | a written property whose invariant text is non-empty and converts back reads back as the value it was written from |
| ImportProperties.SavedEmptyTextReloadsDefault | EasySettings/Core/EasySettings.cs:277-279 | a property written as the empty text reads back as its default |
| ImportProperties.SaveThenImport | EasySettings/Core/EasySettings.cs:253-296 | importing the tree a successful `Save` produced raises nothing and restores every attributed property's value |
| Scenarios.FirstRunUsesDefault | EasySettings/Core/EasySettings.cs:222-246 | without a file, `Volume` in category `Audio` with default 50 loads as 50 |
| Scenarios.SaveCreatesKey | EasySettings/Core/EasySettings.cs:92-133 | saving into a fresh root creates `Audio` with one `Volume` key holding the invariant text |
| Scenarios.UnwritableValueKeepsCategory | EasySettings/Core/EasySettings.cs:173-179 | a value the getter or converter cannot write as text raises, and the `Audio` category created for it stays in the tree |
| Scenarios.LateLoadFailureKeepsTree | EasySettings/Core/EasySettings.cs:215-246 | a load that fails after the root element was read gives the default 50, and the next `Save` writes into the kept root |
| Scenarios.EditedValueLoads | EasySettings/Core/EasySettings.cs:263-291 | a Value edited to "80" loads as 80 |
| Scenarios.EmptyValueLoadsDefault | EasySettings/Core/EasySettings.cs:277-279 | an empty Value loads as the default 50 |
| Scenarios.CorruptValueRaises | EasySettings/Core/EasySettings.cs:364-366 | a Value "not-a-number" raises and leaves the values unchanged |
| Scenarios.MissingValueRaises | EasySettings/Core/EasySettings.cs:274 | a `Volume` key without a Value attribute raises |

## Left out

- The file system is not modelled. Reading and parsing the XML file is an input to the model: the reader is rejected, the file is unreadable, the load fails after the root element was added to the document (which keeps it), or it parses to a tree. Which part of the file a late failure keeps is an input too.
- Writing the file is not modelled: the XSL sort, the indented writer, the final newline and the lock around the transform are output formatting and concurrency.
- `LoadXml` of the new root is not modelled; `Save` takes the root as a parsed element. A name the pattern admits but XML rejects (such as "a;b") would throw there, and a trailing newline would be dropped.
- Reflection is not modelled. The properties are given as a sequence in reflection order, the nested `Defaults` type as a map from property name to value, and a freshly created settings object as a map of values.
- The one-argument public constructor (root taken from the assembly name) is not modelled. It is `Open` with that name as root.
- The library converters are parameters: `Convert.ToX`, `ConvertFromInvariantString` and `ConvertToInvariantString` applied to the property getter. Each may fail, but which inputs make it fail is not modelled, and floating-point and decimal values are opaque numbers.
- The XPath queries are modelled on a flat tree of categories and keys. Nested elements, elements without a `Name` attribute and names containing a quote character (which break the query) are not modelled.
- Null property values, `SetValue`'s type check and implicit widening are not modelled. Values are assigned as given.
- The `EasySetting` attribute's integer arguments are not restricted to the range of their C# type.
- `RootName.InClass` folds case for ASCII only, independent of culture. The check uses IgnoreCase without CultureInvariant, so .NET folds case with the current culture: under a Turkish culture 'I' lowercases to a dotless 'ı' and is rejected, and some non-ASCII characters fold into the ASCII letters.
- The path and root fields start as the empty string rather than null, and `data` starts as the values of a fresh settings object rather than null. Nothing reads them before `InitializeSettings` stores them; it assigns `data` first.
