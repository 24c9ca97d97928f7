/**
 * What the import loops assign: when they raise nothing, every attributed property holds the
 * value its own iteration computes and every other property keeps its value; a run raises
 * nothing exactly when every attributed property can be imported; and a tree written by `Save`
 * gives back the values it was written from.
 */
module ImportProperties {
  import opened Wrappers
  import opened Values
  import opened Coercion
  import opened Document
  import opened EasySettingAttribute
  import opened Sync
  import opened SaveProperties

  /** An attributed property's attribute can be constructed and its iteration raises nothing. */
  predicate Importable(src: Option<Doc>, p: Property, dynamicDefaults: map<string, Value>, conv: Converters)
  {
    p.attribute.Some? ==>
      Construct(p.attribute.value, conv.fromInvariant).Ok? &&
      ImportedValue(src, p, Construct(p.attribute.value, conv.fromInvariant).value, dynamicDefaults, conv).Ok?
  }

  /** An attributed property holds the value its iteration computes. */
  predicate Imported(result: map<string, Value>, src: Option<Doc>, p: Property, dynamicDefaults: map<string, Value>,
                     conv: Converters)
  {
    p.attribute.Some? ==>
      Construct(p.attribute.value, conv.fromInvariant).Ok? && p.name in result &&
      ImportedValue(src, p, Construct(p.attribute.value, conv.fromInvariant).value, dynamicDefaults, conv) ==
        Ok(result[p.name])
  }

  /** An import run raises nothing exactly when every attributed property can be imported. */
  lemma {:induction false} ImportSucceedsIff(data: map<string, Value>, src: Option<Doc>, props: seq<Property>,
                                              dynamicDefaults: map<string, Value>, conv: Converters)
    ensures ImportFrom(data, src, props, dynamicDefaults, conv).1.None? <==>
      forall p :: p in props ==> Importable(src, p, dynamicDefaults, conv)
    decreases |props|
  {
    if props != [] {
      var p := props[0];
      match ImportStep(data, src, p, dynamicDefaults, conv)
      case Err(_) =>
        assert !Importable(src, p, dynamicDefaults, conv);
      case Ok(data1) =>
        ImportSucceedsIff(data1, src, props[1..], dynamicDefaults, conv);
        assert Importable(src, p, dynamicDefaults, conv);
        assert forall q :: q in props <==> q == p || q in props[1..];
    }
  }

  /**
   * When a run raises nothing (and the class has distinct property names), each attributed
   * property holds the value of its own iteration, and every other entry is as it was.
   */
  lemma {:induction false} ImportFromValues(data: map<string, Value>, src: Option<Doc>, props: seq<Property>,
                                             dynamicDefaults: map<string, Value>, conv: Converters)
    requires DistinctNames(props) && ImportFrom(data, src, props, dynamicDefaults, conv).1.None?
    ensures forall p :: p in props ==> Imported(ImportFrom(data, src, props, dynamicDefaults, conv).0, src, p, dynamicDefaults, conv)
    ensures forall k :: k in data && k !in AttributedNames(props) ==>
      ImportFrom(data, src, props, dynamicDefaults, conv).0[k] == data[k]
    decreases |props|
  {
    if props != [] {
      var p := props[0];
      var rest := props[1..];
      var data1 := ImportStep(data, src, p, dynamicDefaults, conv).value;
      var result := ImportFrom(data, src, props, dynamicDefaults, conv).0;
      assert result == ImportFrom(data1, src, rest, dynamicDefaults, conv).0;
      DistinctTail(props);
      ImportFromValues(data1, src, rest, dynamicDefaults, conv);
      FirstNameNotLater(props);
      forall q | q in props ensures Imported(result, src, q, dynamicDefaults, conv) {
        if q != p {
          assert q in rest;
        }
      }
    }
  }

  /**
   * When the file cannot be read, each attributed property gets its static default, or, when its
   * attribute has none, the static property of the same name in the `Defaults` type.
   */
  lemma FailedLoadGivesDefaults(data: map<string, Value>, props: seq<Property>, dynamicDefaults: map<string, Value>,
                                conv: Converters)
    requires DistinctNames(props) && ImportFrom(data, None, props, dynamicDefaults, conv).1.None?
    ensures forall p :: p in props && p.attribute.Some? ==>
      var result := ImportFrom(data, None, props, dynamicDefaults, conv).0;
      Construct(p.attribute.value, conv.fromInvariant).Ok? && p.name in result &&
      var desc := Construct(p.attribute.value, conv.fromInvariant).value;
      if desc.defaultValue.Some? then result[p.name] == desc.defaultValue.value
      else p.name in dynamicDefaults && result[p.name] == dynamicDefaults[p.name]
  {
    ImportFromValues(data, None, props, dynamicDefaults, conv);
  }

  /**
   * How one property is read from a tree, by what the lookup of its category and name finds: a
   * key without a Value attribute raises; a missing or empty Value falls back to the default; a
   * default that cannot be resolved raises even when the tree holds a value; a non-empty Value
   * is converted, and a text that does not convert raises.
   */
  lemma TreeValueCases(d: Doc, p: Property, desc: Descriptor, dynamicDefaults: map<string, Value>, conv: Converters)
    ensures
      var found := Lookup(d, desc.categoryName, p.name);
      var r := ImportedValue(Some(d), p, desc, dynamicDefaults, conv);
      var dv := ResolveDefault(desc, p.name, dynamicDefaults);
      (found == Some(None) ==> r == Err(MissingValueAttribute(desc.categoryName, p.name))) &&
      (found != Some(None) && dv.Err? ==> r == dv) &&
      (found.None? || found == Some(Some("")) ==> r == dv) &&
      (found.Some? && found.value.Some? && found.value.value != "" && dv.Ok? ==>
        (ParseAs(conv, p.propType, found.value.value).Some? ==>
           r == Ok(ParseAs(conv, p.propType, found.value.value).value)) &&
        (ParseAs(conv, p.propType, found.value.value).None? ==>
           r == Err(ConversionFailed(p.name, found.value.value))))
  {
  }

  /** A tree without categories imports exactly as a file that could not be read. */
  lemma {:induction false} EmptyTreeLikeNoFile(data: map<string, Value>, root: string, props: seq<Property>,
                                                dynamicDefaults: map<string, Value>, conv: Converters)
    ensures ImportFrom(data, Some(Doc(root, [])), props, dynamicDefaults, conv) ==
            ImportFrom(data, None, props, dynamicDefaults, conv)
    decreases |props|
  {
    if props != [] {
      var p := props[0];
      assert ImportStep(data, Some(Doc(root, [])), p, dynamicDefaults, conv) ==
             ImportStep(data, None, p, dynamicDefaults, conv);
      match ImportStep(data, None, p, dynamicDefaults, conv)
      case Err(_) =>
      case Ok(data1) =>
        EmptyTreeLikeNoFile(data1, root, props[1..], dynamicDefaults, conv);
    }
  }

  /**
   * What each load outcome leaves: the import reads from a tree only after a complete parse; the
   * document holds an element afterwards exactly when the load added a root element to it (or, for
   * a rejected reader, when it held one before); and the next `Save` writes into that element, or
   * into a fresh root when the new document has none.
   */
  lemma LoadOutcomes(before: DocState, load: LoadOutcome, rootElement: string)
    ensures SourceOf(load).Some? <==> load.Parsed?
    ensures AfterLoad(before, load).Element? <==>
      load.Parsed? || load.FailedAfterRoot? || (load.ReaderRejected? && before.Element?)
    ensures load.Parsed? || load.FailedAfterRoot? ==> Prepared(AfterLoad(before, load), rootElement) == Ok(load.doc)
    ensures load.Unreadable? ==> Prepared(AfterLoad(before, load), rootElement) == Ok(Doc(rootElement, []))
  {
  }

  // ---------------------------------------------------------------- Save, then import

  /**
   * A property `Save` can write and the import can read back: its attribute constructs, its
   * default resolves, its value can be written, and its invariant text is not empty and converts
   * back to its value.
   */
  predicate Reloadable(p: Property, data: map<string, Value>, dynamicDefaults: map<string, Value>, conv: Converters)
    requires p.name in data
  {
    p.attribute.Some? ==>
      Construct(p.attribute.value, conv.fromInvariant).Ok? &&
      ResolveDefault(Construct(p.attribute.value, conv.fromInvariant).value, p.name, dynamicDefaults).Ok? &&
      SavedText(p, data, conv) != Some("") &&
      RoundTrips(conv, p.propType, data[p.name])
  }

  /** A written, reloadable property reads back as the value it was written from. */
  lemma SavedTextReloads(d: Doc, p: Property, data: map<string, Value>, dynamicDefaults: map<string, Value>, conv: Converters)
    requires p.name in data && p.attribute.Some?
    requires Synced(d, p, data, conv) && Reloadable(p, data, dynamicDefaults, conv)
    ensures ImportedValue(Some(d), p, Construct(p.attribute.value, conv.fromInvariant).value, dynamicDefaults, conv) ==
            Ok(data[p.name])
  {
  }

  /** A property written as the empty text reads back as its default, not as the empty value. */
  lemma SavedEmptyTextReloadsDefault(d: Doc, p: Property, data: map<string, Value>, dynamicDefaults: map<string, Value>,
                                     conv: Converters)
    requires p.name in data && p.attribute.Some?
    requires Synced(d, p, data, conv) && SavedText(p, data, conv) == Some("")
    ensures
      var desc := Construct(p.attribute.value, conv.fromInvariant).value;
      ImportedValue(Some(d), p, desc, dynamicDefaults, conv) == ResolveDefault(desc, p.name, dynamicDefaults)
  {
  }

  /**
   * The round trip: importing the tree a successful `Save` produced, whatever the values before
   * the import were, raises nothing and gives every attributed property the value it was saved
   * from.
   */
  lemma SaveThenImport(d: Doc, props: seq<Property>, data: map<string, Value>, before: map<string, Value>,
                       dynamicDefaults: map<string, Value>, conv: Converters)
    requires Covers(props, data) && DistinctNames(props)
    requires SaveFrom(d, props, data, conv).1.None?
    requires forall p :: p in props ==> Reloadable(p, data, dynamicDefaults, conv)
    ensures
      var r := ImportFrom(before, Some(SaveFrom(d, props, data, conv).0), props, dynamicDefaults, conv);
      r.1.None? &&
      forall p :: p in props && p.attribute.Some? ==> p.name in r.0 && r.0[p.name] == data[p.name]
  {
    var saved := SaveFrom(d, props, data, conv).0;
    SaveFromSyncs(d, props, data, conv);
    forall p | p in props
      ensures Importable(Some(saved), p, dynamicDefaults, conv)
      ensures p.attribute.Some? ==>
        ImportedValue(Some(saved), p, Construct(p.attribute.value, conv.fromInvariant).value, dynamicDefaults, conv) ==
          Ok(data[p.name])
    {
      if p.attribute.Some? {
        SavedTextReloads(saved, p, data, dynamicDefaults, conv);
      }
    }
    ImportSucceedsIff(before, Some(saved), props, dynamicDefaults, conv);
    ImportFromValues(before, Some(saved), props, dynamicDefaults, conv);
  }
}
