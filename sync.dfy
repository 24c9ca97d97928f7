/**
 * The document synchronizer as pure functions: one step of the `Save` loop, one step of the
 * import loops, and the loops themselves as folds that stop at the first exception.
 */
module Sync {
  import opened Wrappers
  import opened Values
  import opened Coercion
  import opened Document
  import opened EasySettingAttribute

  /**
   * One property of the settings class as reflection reports it: its name, its declared type
   * and the setting attribute placed on it, if any.
   */
  datatype Property = Property(name: string, propType: ValueType, attribute: Option<AttributeArgs>)

  /** Every property has a current value in the settings object. */
  predicate Covers(props: seq<Property>, data: map<string, Value>)
  {
    forall p :: p in props ==> p.name in data
  }

  /** A class does not declare two properties with the same name. */
  predicate DistinctNames(props: seq<Property>)
  {
    forall i, j :: 0 <= i < j < |props| ==> props[i].name != props[j].name
  }

  /** The names of the properties that carry the setting attribute. */
  function AttributedNames(props: seq<Property>): set<string>
    decreases |props|
  {
    if props == [] then {}
    else (if props[0].attribute.Some? then {props[0].name} else {}) + AttributedNames(props[1..])
  }

  /** A name that no property in the sequence carries is not an attributed name. */
  lemma {:induction false} UnnamedNotAttributed(props: seq<Property>, name: string)
    requires forall i :: 0 <= i < |props| ==> props[i].name != name
    ensures name !in AttributedNames(props)
    decreases |props|
  {
    if props != [] {
      assert forall i :: 0 <= i < |props[1..]| ==> props[1..][i] == props[i + 1];
      UnnamedNotAttributed(props[1..], name);
    }
  }

  /** With distinct names, the first property's name is not carried by a later one. */
  lemma FirstNameNotLater(props: seq<Property>)
    requires props != [] && DistinctNames(props)
    ensures props[0].name !in AttributedNames(props[1..])
  {
    assert forall i :: 0 <= i < |props[1..]| ==> props[1..][i] == props[i + 1];
    UnnamedNotAttributed(props[1..], props[0].name);
  }

  lemma DistinctTail(props: seq<Property>)
    requires props != [] && DistinctNames(props)
    ensures DistinctNames(props[1..])
  {
  }

  // ---------------------------------------------------------------- Save

  /** The tree `Save` works on: a fresh childless root when there is no document element. */
  function Prepared(state: DocState, rootElement: string): (r: Result<Doc, Error>)
    ensures state.NullReference? <==> r == Err(NullDocument)
    ensures state.NoElement? ==> r == Ok(Doc(rootElement, []))
    ensures state.Element? ==> r == Ok(state.doc)
  {
    match state
    case NullReference => Err(NullDocument)
    case NoElement => Ok(Doc(rootElement, []))
    case Element(d) => Ok(d)
  }

  /** Find the category by name, or append an empty one to the root's children. */
  function EnsureCategory(d: Doc, name: string): (r: (Doc, nat))
    ensures r.0.root == d.root
    ensures r.1 < |r.0.categories| && r.0.categories[r.1].name == name
    ensures FindCategory(r.0.categories, name) == Some(r.1)
  {
    match FindCategory(d.categories, name)
    case Some(i) => (d, i)
    case None =>
      FindCategoryAppend(d.categories, Category(name, []), name);
      (d.(categories := d.categories + [Category(name, [])]), |d.categories|)
  }

  /**
   * Find the key by name and overwrite its Value attribute, or append a new key; an existing key
   * without a Value attribute makes the assignment throw.
   */
  function SetKey(c: Category, key: string, text: string): (r: Result<Category, Error>)
    ensures r.Ok? ==> r.value.name == c.name
    ensures r.Err? <==> FindKey(c.keys, key).Some? && c.keys[FindKey(c.keys, key).value].value.None?
    ensures r.Err? ==> r == Err(MissingValueAttribute(c.name, key))
  {
    match FindKey(c.keys, key)
    case None => Ok(c.(keys := c.keys + [Key(key, Some(text))]))
    case Some(j) =>
      if c.keys[j].value.None? then Err(MissingValueAttribute(c.name, key))
      else Ok(c.(keys := c.keys[j := c.keys[j].(value := Some(text))]))
  }

  /** The invariant text `Save` writes for a property; None when the getter or the converter throws. */
  function SavedText(p: Property, data: map<string, Value>, conv: Converters): Option<string>
    requires p.name in data
  {
    conv.toInvariant(p.propType, data[p.name])
  }

  /**
   * One iteration of the `Save` loop: the tree it leaves and the exception it raises, if any.
   * The text is computed after the category is found or created and before the key's Value is
   * assigned (at 136 the right-hand side is evaluated before the setter of a missing attribute
   * is called), so an exception there keeps a category the iteration appended.
   */
  function SaveStep(d: Doc, p: Property, data: map<string, Value>, conv: Converters): (r: (Doc, Option<Error>))
    requires p.name in data
    ensures r.0.root == d.root
    ensures p.attribute.None? ==> r == (d, None)
  {
    match p.attribute
    case None => (d, None)
    case Some(args) =>
      match Construct(args, conv.fromInvariant)
      case Err(e) => (d, Some(e))
      case Ok(desc) =>
        var (d1, i) := EnsureCategory(d, desc.categoryName);
        match SavedText(p, data, conv)
        case None => (d1, Some(InvariantTextFailed(p.name)))
        case Some(text) =>
          match SetKey(d1.categories[i], p.name, text)
          case Err(e) => (d1, Some(e))
          case Ok(c) => (d1.(categories := d1.categories[i := c]), None)
  }

  /** The `Save` loop from a given tree: the final tree, and the exception that stopped it, if any. */
  function SaveFrom(d: Doc, props: seq<Property>, data: map<string, Value>, conv: Converters): (r: (Doc, Option<Error>))
    requires Covers(props, data)
    ensures r.0.root == d.root
    decreases |props|
  {
    if props == [] then (d, None)
    else
      var step := SaveStep(d, props[0], data, conv);
      if step.1.Some? then step
      else SaveFrom(step.0, props[1..], data, conv)
  }

  // ---------------------------------------------------------------- Import

  /** The static default when there is one, otherwise the dynamic default looked up by property name. */
  function ResolveDefault(desc: Descriptor, name: string, dynamicDefaults: map<string, Value>): (r: Result<Value, Error>)
    ensures desc.defaultValue.Some? ==> r == Ok(desc.defaultValue.value)
    ensures desc.defaultValue.None? && name in dynamicDefaults ==> r == Ok(dynamicDefaults[name])
    ensures desc.defaultValue.None? && name !in dynamicDefaults ==> r == Err(MissingDynamicDefault(name))
  {
    if desc.defaultValue.Some? then Ok(desc.defaultValue.value)
    else if name in dynamicDefaults then Ok(dynamicDefaults[name])
    else Err(MissingDynamicDefault(name))
  }

  /** The text the import loop takes from the tree: null when missing or empty. */
  function XmlText(d: Doc, category: string, key: string): (r: Result<Option<string>, Error>)
    ensures r.Ok? && r.value.Some? ==> Lookup(d, category, key) == Some(r.value) && r.value.value != ""
    ensures r.Err? <==> Lookup(d, category, key) == Some(None)
    ensures r.Err? ==> r == Err(MissingValueAttribute(category, key))
    ensures Lookup(d, category, key).None? || Lookup(d, category, key) == Some(Some("")) ==> r == Ok(None)
    ensures Lookup(d, category, key).Some? && Lookup(d, category, key).value.Some? && Lookup(d, category, key).value.value != "" ==>
      r == Ok(Lookup(d, category, key).value)
  {
    match Lookup(d, category, key)
    case None => Ok(None)
    case Some(None) => Err(MissingValueAttribute(category, key))
    case Some(Some(s)) => if |s| <= 0 then Ok(None) else Ok(Some(s))
  }

  /** `SetProperty`: convert a non-null text with the switch, otherwise take the default. */
  function SetPropertyValue(conv: Converters, p: Property, newValue: Option<string>, defaultValue: Value): (r: Result<Value, Error>)
    ensures newValue.None? ==> r == Ok(defaultValue)
    ensures newValue.Some? ==>
      (r.Ok? <==> ParseAs(conv, p.propType, newValue.value).Some?) &&
      (r.Ok? ==> Some(r.value) == ParseAs(conv, p.propType, newValue.value))
  {
    match newValue
    case None => Ok(defaultValue)
    case Some(text) =>
      match ParseAs(conv, p.propType, text)
      case None => Err(ConversionFailed(p.name, text))
      case Some(v) => Ok(v)
  }

  /**
   * The value one iteration of the import assigns to an attributed property. Without a tree it
   * is the default; otherwise the Value text is read first, the default is evaluated next
   * (whether or not it will be used), and `SetProperty` chooses between them.
   */
  function ImportedValue(src: Option<Doc>, p: Property, desc: Descriptor, dynamicDefaults: map<string, Value>,
                         conv: Converters): (r: Result<Value, Error>)
    ensures src.None? ==> r == ResolveDefault(desc, p.name, dynamicDefaults)
    ensures r.Ok? ==> ResolveDefault(desc, p.name, dynamicDefaults).Ok?
    ensures r.Ok? && r.value != ResolveDefault(desc, p.name, dynamicDefaults).value ==>
      src.Some? &&
      var found := Lookup(src.value, desc.categoryName, p.name);
      found.Some? && found.value.Some? && found.value.value != "" &&
      ParseAs(conv, p.propType, found.value.value) == Some(r.value)
  {
    match src
    case None => ResolveDefault(desc, p.name, dynamicDefaults)
    case Some(d) =>
      var text :- XmlText(d, desc.categoryName, p.name);
      var dv :- ResolveDefault(desc, p.name, dynamicDefaults);
      SetPropertyValue(conv, p, text, dv)
  }

  /** One iteration of either import loop. */
  function ImportStep(data: map<string, Value>, src: Option<Doc>, p: Property, dynamicDefaults: map<string, Value>,
                      conv: Converters): (r: Result<map<string, Value>, Error>)
    ensures r.Ok? ==> r.value.Keys == data.Keys + (if p.attribute.Some? then {p.name} else {})
    ensures p.attribute.None? ==> r == Ok(data)
    ensures r.Ok? ==> forall k :: k in data && k != p.name ==> r.value[k] == data[k]
    ensures p.attribute.Some? ==>
      var built := Construct(p.attribute.value, conv.fromInvariant);
      (r.Ok? <==> built.Ok? && ImportedValue(src, p, built.value, dynamicDefaults, conv).Ok?) &&
      (r.Ok? ==> r.value[p.name] == ImportedValue(src, p, built.value, dynamicDefaults, conv).value)
  {
    match p.attribute
    case None => Ok(data)
    case Some(args) =>
      var desc :- Construct(args, conv.fromInvariant);
      var v :- ImportedValue(src, p, desc, dynamicDefaults, conv);
      Ok(data[p.name := v])
  }

  /** An import loop: the final property values, and the exception that stopped it, if any. */
  function ImportFrom(data: map<string, Value>, src: Option<Doc>, props: seq<Property>,
                      dynamicDefaults: map<string, Value>, conv: Converters): (r: (map<string, Value>, Option<Error>))
    ensures data.Keys <= r.0.Keys
    ensures r.1.None? ==> r.0.Keys == data.Keys + AttributedNames(props)
    decreases |props|
  {
    if props == [] then (data, None)
    else
      match ImportStep(data, src, props[0], dynamicDefaults, conv)
      case Err(e) => (data, Some(e))
      case Ok(data1) => ImportFrom(data1, src, props[1..], dynamicDefaults, conv)
  }

  /** The tree a load outcome provides to the import loops: only a complete parse provides one. */
  function SourceOf(load: LoadOutcome): Option<Doc>
  {
    if load.Parsed? then Some(load.doc) else None
  }

  /**
   * The `xDocument` field after the load attempt: unchanged when the reader is rejected, and
   * otherwise the new document with whatever root element the load added to it.
   */
  function AfterLoad(before: DocState, load: LoadOutcome): DocState
  {
    match load
    case ReaderRejected => before
    case Unreadable => NoElement
    case FailedAfterRoot(d) => Element(d)
    case Parsed(d) => Element(d)
  }
}
