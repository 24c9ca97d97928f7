/**
 * `EasySettings<T>`: the container that owns the XML tree and the settings object. The
 * settings class's shape (its properties, its `Defaults` type and the values a new instance
 * starts with) and the library converters are fixed when the container is created.
 */
module Settings {
  import opened Wrappers
  import opened Values
  import opened Coercion
  import opened Document
  import opened EasySettingAttribute
  import opened RootName
  import opened Sync

  class EasySettings {
    /** `GetProperties()` of the settings class, in reflection order. */
    const props: seq<Property>
    /** The static properties of the nested `Defaults` type, by name (empty when there is none). */
    const dynamicDefaults: map<string, Value>
    const conv: Converters
    /** The property values of a freshly created settings object. */
    const createdData: map<string, Value>

    var document: DocState
    var filePath: string
    var rootElement: string
    /** `Data`: the current value of every property. */
    var data: map<string, Value>

    ghost predicate Valid()
      reads this
    {
      Covers(props, createdData) && Covers(props, data)
    }

    /** Field initialisation: no document yet, no path or root stored. */
    constructor (props: seq<Property>, dynamicDefaults: map<string, Value>, conv: Converters, createdData: map<string, Value>)
      requires Covers(props, createdData)
      ensures Valid()
      ensures this.props == props && this.dynamicDefaults == dynamicDefaults && this.conv == conv
      ensures this.createdData == createdData
      ensures document == NullReference && filePath == "" && rootElement == "" && data == createdData
    {
      this.props := props;
      this.dynamicDefaults := dynamicDefaults;
      this.conv := conv;
      this.createdData := createdData;
      document := NullReference;
      filePath := "";
      rootElement := "";
      data := createdData;
    }

    /**
     * Create a new settings object, check the root element name, store the path and the root,
     * and import. A rejected name raises before anything else is stored or read.
     */
    method InitializeSettings(path: string, root: string, load: LoadOutcome) returns (err: Option<Error>)
      requires Valid()
      modifies this`document, this`filePath, this`rootElement, this`data
      ensures Valid()
      ensures !MatchesRootPattern(root) ==>
        err == Some(InvalidRootElement(root)) && data == createdData &&
        document == old(document) && filePath == old(filePath) && rootElement == old(rootElement)
      ensures MatchesRootPattern(root) ==>
        filePath == path && rootElement == root && document == AfterLoad(old(document), load) &&
        (data, err) == ImportFrom(createdData, SourceOf(load), props, dynamicDefaults, conv)
    {
      data := createdData;
      if !MatchesRootPattern(root) {
        return Some(InvalidRootElement(root));
      }
      filePath := path;
      rootElement := root;
      err := ImportXmlFile(load);
    }

    /** `SetProperty`: assign the converted text, or the default when the text is null. */
    method SetProperty(p: Property, newValue: Option<string>, defaultValue: Value) returns (err: Option<Error>)
      modifies this`data
      ensures SetPropertyValue(conv, p, newValue, defaultValue).Ok? ==>
        err.None? && data == old(data)[p.name := SetPropertyValue(conv, p, newValue, defaultValue).value]
      ensures SetPropertyValue(conv, p, newValue, defaultValue).Err? ==>
        err == Some(SetPropertyValue(conv, p, newValue, defaultValue).error) && data == old(data)
    {
      var v := defaultValue;
      if newValue.Some? {
        var parsed := ParseAs(conv, p.propType, newValue.value);
        if parsed.None? {
          return Some(ConversionFailed(p.name, newValue.value));
        }
        v := parsed.value;
      }
      data := data[p.name := v];
      return None;
    }

    /**
     * Import every attributed property. When the file cannot be opened or parsed, every one
     * gets its default and nothing is read from a tree, even if the failed load kept a root
     * element in the document; otherwise each takes the text stored
     * under its category and name, or its default when that is missing or empty.
     */
    method ImportXmlFile(load: LoadOutcome) returns (err: Option<Error>)
      requires Valid()
      modifies this`document, this`data
      ensures Valid()
      ensures document == AfterLoad(old(document), load)
      ensures (data, err) == ImportFrom(old(data), SourceOf(load), props, dynamicDefaults, conv)
    {
      ghost var start := data;
      if !load.Parsed? {
        if load.Unreadable? {
          document := NoElement;
        } else if load.FailedAfterRoot? {
          document := Element(load.doc);
        }
        for i := 0 to |props|
          invariant Covers(props, data)
          invariant document == AfterLoad(old(document), load)
          invariant ImportFrom(data, None, props[i..], dynamicDefaults, conv) == ImportFrom(start, None, props, dynamicDefaults, conv)
        {
          var p := props[i];
          assert props[i..][1..] == props[i + 1..];
          if p.attribute.None? {
            continue;
          }
          var attribute := Construct(p.attribute.value, conv.fromInvariant);
          if attribute.Err? {
            return Some(attribute.error);
          }
          var defaultValue: Value;
          if attribute.value.defaultValue.None? {
            if p.name !in dynamicDefaults {
              return Some(MissingDynamicDefault(p.name));
            }
            defaultValue := dynamicDefaults[p.name];
          } else {
            defaultValue := attribute.value.defaultValue.value;
          }
          var e := SetProperty(p, None, defaultValue);
        }
        return None;
      }

      document := Element(load.doc);
      var d := load.doc;
      var xValue: Option<string> := None;
      for i := 0 to |props|
        invariant Covers(props, data)
        invariant document == Element(d)
        invariant ImportFrom(data, Some(d), props[i..], dynamicDefaults, conv) == ImportFrom(start, Some(d), props, dynamicDefaults, conv)
        invariant xValue.None?
      {
        var p := props[i];
        assert props[i..][1..] == props[i + 1..];
        if p.attribute.None? {
          continue;
        }
        var attribute := Construct(p.attribute.value, conv.fromInvariant);
        if attribute.Err? {
          return Some(attribute.error);
        }
        var desc := attribute.value;
        var ci := FindCategory(d.categories, desc.categoryName);
        if ci.Some? {
          var ki := FindKey(d.categories[ci.value].keys, p.name);
          if ki.Some? {
            var valueAttribute := d.categories[ci.value].keys[ki.value].value;
            if valueAttribute.None? {
              return Some(MissingValueAttribute(desc.categoryName, p.name));
            }
            xValue := valueAttribute;
            if |xValue.value| <= 0 {
              xValue := None;
            }
          }
        }
        var defaultValue: Value;
        if desc.defaultValue.None? {
          if p.name !in dynamicDefaults {
            return Some(MissingDynamicDefault(p.name));
          }
          defaultValue := dynamicDefaults[p.name];
        } else {
          defaultValue := desc.defaultValue.value;
        }
        err := SetProperty(p, xValue, defaultValue);
        if err.Some? {
          return;
        }
        xValue := None;
      }
      return None;
    }

    /**
     * Write every attributed property into the tree: find or create its category, find or
     * create its key, and set the key's Value to the property's invariant text. Output
     * formatting and the file write are not part of this method.
     */
    method Save() returns (err: Option<Error>)
      requires Valid()
      modifies this`document
      ensures Valid()
      ensures old(document).NullReference? ==> document == old(document) && err == Some(NullDocument)
      ensures !old(document).NullReference? ==>
        document.Element? &&
        (document.doc, err) == SaveFrom(Prepared(old(document), rootElement).value, props, data, conv)
    {
      if document.NullReference? {
        return Some(NullDocument);
      }
      if document.NoElement? {
        document := Element(Doc(rootElement, []));
      }
      ghost var start := document.doc;
      for i := 0 to |props|
        invariant document.Element?
        invariant SaveFrom(document.doc, props[i..], data, conv) == SaveFrom(start, props, data, conv)
      {
        var p := props[i];
        assert props[i..][1..] == props[i + 1..];
        ghost var before := document.doc;
        if p.attribute.None? {
          continue;
        }
        var attribute := Construct(p.attribute.value, conv.fromInvariant);
        if attribute.Err? {
          assert SaveStep(before, p, data, conv) == (document.doc, Some(attribute.error));
          return Some(attribute.error);
        }
        var desc := attribute.value;
        var ci := FindCategory(document.doc.categories, desc.categoryName);
        var index: nat;
        if ci.None? {
          FindCategoryAppend(document.doc.categories, Category(desc.categoryName, []), desc.categoryName);
          document := Element(document.doc.(categories := document.doc.categories + [Category(desc.categoryName, [])]));
          index := |document.doc.categories| - 1;
        } else {
          index := ci.value;
        }
        assert EnsureCategory(before, desc.categoryName) == (document.doc, index);
        var category := document.doc.categories[index];
        ghost var found := category;
        var ki := FindKey(category.keys, p.name);
        // Both branches of the key check convert the value before anything else can raise.
        var text := SavedText(p, data, conv);
        if text.None? {
          assert SaveStep(before, p, data, conv) == (document.doc, Some(InvariantTextFailed(p.name)));
          return Some(InvariantTextFailed(p.name));
        }
        if ki.None? {
          category := category.(keys := category.keys + [Key(p.name, text)]);
        } else if category.keys[ki.value].value.None? {
          assert SaveStep(before, p, data, conv) == (document.doc, Some(MissingValueAttribute(category.name, p.name)));
          return Some(MissingValueAttribute(category.name, p.name));
        } else {
          category := category.(keys := category.keys[ki.value := category.keys[ki.value].(value := text)]);
        }
        assert SetKey(found, p.name, text.value) == Ok(category);
        document := Element(document.doc.(categories := document.doc.categories[index := category]));
        assert SaveStep(before, p, data, conv) == (document.doc, None);
      }
      return None;
    }
  }

  /**
   * The public constructor `EasySettings(xmlFilePath, xmlRootElement)`: a new container,
   * initialised from the given path and root. It fails when `InitializeSettings` throws.
   */
  method Open(path: string, root: string, load: LoadOutcome, props: seq<Property>,
              dynamicDefaults: map<string, Value>, conv: Converters, createdData: map<string, Value>)
    returns (r: Result<EasySettings, Error>)
    requires Covers(props, createdData)
    ensures !MatchesRootPattern(root) ==> r == Err(InvalidRootElement(root))
    ensures MatchesRootPattern(root) ==>
      var imported := ImportFrom(createdData, SourceOf(load), props, dynamicDefaults, conv);
      (imported.1.Some? ==> r == Err(imported.1.value)) &&
      (imported.1.None? ==> r.Ok? && fresh(r.value) && r.value.Valid() &&
                            r.value.props == props && r.value.dynamicDefaults == dynamicDefaults && r.value.conv == conv &&
                            r.value.data == imported.0 && r.value.filePath == path &&
                            r.value.rootElement == root && r.value.document == AfterLoad(NullReference, load))
  {
    var s := new EasySettings(props, dynamicDefaults, conv, createdData);
    var err := s.InitializeSettings(path, root, load);
    if err.Some? {
      return Err(err.value);
    }
    return Ok(s);
  }
}
