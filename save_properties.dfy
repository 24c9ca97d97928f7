/**
 * What `Save` does to the tree: after a run that raises nothing, every attributed property's key
 * holds that property's invariant text, every other key is as it was, a second run changes
 * nothing, and a tree without duplicate names keeps that shape.
 */
module SaveProperties {
  import opened Wrappers
  import opened Values
  import opened Coercion
  import opened Document
  import opened EasySettingAttribute
  import opened Sync

  /** The category an attributed property is saved under, when its attribute can be constructed. */
  function CategoryOf(p: Property, conv: Converters): (r: Option<string>)
    ensures r.Some? <==> p.attribute.Some? && Construct(p.attribute.value, conv.fromInvariant).Ok?
    ensures r.Some? ==> r.value == Construct(p.attribute.value, conv.fromInvariant).value.categoryName
  {
    match p.attribute
    case None => None
    case Some(args) =>
      match Construct(args, conv.fromInvariant)
      case Err(_) => None
      case Ok(desc) => Some(desc.categoryName)
  }

  /**
   * The tree holds a property as `Save` writes it: an attributed property's attribute can be
   * constructed, its value can be written as invariant text, and the first key of its name in
   * the first category of its category name has that text as Value.
   */
  predicate Synced(d: Doc, p: Property, data: map<string, Value>, conv: Converters)
    requires p.name in data
  {
    p.attribute.Some? ==>
      CategoryOf(p, conv).Some? && SavedText(p, data, conv).Some? &&
      Lookup(d, CategoryOf(p, conv).value, p.name) == Some(SavedText(p, data, conv))
  }

  // ---------------------------------------------------------------- one category

  /** After `SetKey`, the key it names has the new text as Value. */
  lemma SetKeySelf(c: Category, key: string, text: string)
    requires SetKey(c, key, text).Ok?
    ensures CategoryLookup(SetKey(c, key, text).value, key) == Some(Some(text))
  {
    var c' := SetKey(c, key, text).value;
    match FindKey(c.keys, key)
    case None =>
      FindKeyAppend(c.keys, Key(key, Some(text)), key);
    case Some(j) =>
      FindKeySameNames(c'.keys, c.keys, key);
  }

  /** `SetKey` leaves the lookup of every other key name as it was. */
  lemma SetKeyFrame(c: Category, key: string, text: string, other: string)
    requires SetKey(c, key, text).Ok? && other != key
    ensures CategoryLookup(SetKey(c, key, text).value, other) == CategoryLookup(c, other)
  {
    var c' := SetKey(c, key, text).value;
    match FindKey(c.keys, key)
    case None =>
      FindKeyAppend(c.keys, Key(key, Some(text)), other);
    case Some(j) =>
      FindKeySameNames(c'.keys, c.keys, other);
  }

  // ---------------------------------------------------------------- one tree

  /** Creating a missing category changes no lookup: the new category has no keys. */
  lemma EnsureCategoryLookup(d: Doc, name: string, category: string, key: string)
    ensures Lookup(EnsureCategory(d, name).0, category, key) == Lookup(d, category, key)
  {
    if FindCategory(d.categories, name).None? {
      FindCategoryAppend(d.categories, Category(name, []), category);
    }
  }

  /**
   * Replacing a category by one of the same name that agrees on a key leaves that key's lookup
   * in every category name as it was.
   */
  lemma ReplaceCategoryLookup(d: Doc, i: nat, c: Category, category: string, key: string)
    requires i < |d.categories| && c.name == d.categories[i].name
    requires CategoryLookup(c, key) == CategoryLookup(d.categories[i], key)
    ensures Lookup(d.(categories := d.categories[i := c]), category, key) == Lookup(d, category, key)
  {
    FindCategorySameNames(d.categories[i := c], d.categories, category);
  }

  /** Replacing the first category of a name decides every lookup in that category name. */
  lemma ReplaceCategoryLookupSelf(d: Doc, i: nat, c: Category, key: string)
    requires i < |d.categories| && c.name == d.categories[i].name
    requires FindCategory(d.categories, c.name) == Some(i)
    ensures Lookup(d.(categories := d.categories[i := c]), c.name, key) == CategoryLookup(c, key)
  {
    FindCategorySameNames(d.categories[i := c], d.categories, c.name);
  }

  // ---------------------------------------------------------------- one step

  /** One step of `Save` writes its property. */
  lemma SaveStepSelf(d: Doc, p: Property, data: map<string, Value>, conv: Converters)
    requires p.name in data && SaveStep(d, p, data, conv).1.None?
    ensures Synced(SaveStep(d, p, data, conv).0, p, data, conv)
  {
    if p.attribute.Some? {
      var desc := Construct(p.attribute.value, conv.fromInvariant).value;
      var (d1, i) := EnsureCategory(d, desc.categoryName);
      var text := SavedText(p, data, conv).value;
      var c := SetKey(d1.categories[i], p.name, text).value;
      SetKeySelf(d1.categories[i], p.name, text);
      ReplaceCategoryLookupSelf(d1, i, c, p.name);
    }
  }

  /** One step of `Save` changes no key of another name, in any category. */
  lemma SaveStepFrame(d: Doc, p: Property, data: map<string, Value>, conv: Converters, category: string, key: string)
    requires p.name in data && SaveStep(d, p, data, conv).1.None?
    requires p.attribute.Some? ==> key != p.name
    ensures Lookup(SaveStep(d, p, data, conv).0, category, key) == Lookup(d, category, key)
  {
    if p.attribute.Some? {
      var desc := Construct(p.attribute.value, conv.fromInvariant).value;
      var (d1, i) := EnsureCategory(d, desc.categoryName);
      var text := SavedText(p, data, conv).value;
      var c := SetKey(d1.categories[i], p.name, text).value;
      SetKeyFrame(d1.categories[i], p.name, text, key);
      ReplaceCategoryLookup(d1, i, c, category, key);
      EnsureCategoryLookup(d, desc.categoryName, category, key);
    }
  }

  /** A step whose property is already written leaves the tree as it is. */
  lemma SaveStepFixpoint(d: Doc, p: Property, data: map<string, Value>, conv: Converters)
    requires p.name in data && Synced(d, p, data, conv)
    ensures SaveStep(d, p, data, conv) == (d, None)
  {
    if p.attribute.Some? {
      var desc := Construct(p.attribute.value, conv.fromInvariant).value;
      var i := FindCategory(d.categories, desc.categoryName).value;
      assert EnsureCategory(d, desc.categoryName) == (d, i);
      var c := d.categories[i];
      var j := FindKey(c.keys, p.name).value;
      var text := SavedText(p, data, conv).value;
      assert c.keys[j := c.keys[j].(value := Some(text))] == c.keys;
      assert SetKey(c, p.name, text) == Ok(c);
      assert d.categories[i := c] == d.categories;
    }
  }

  /**
   * The shape of one step: the category is appended only when none of its name exists, the key
   * only when none of its name exists in that category, every name already in the tree stays at
   * its position, and every other category and every other key is untouched.
   */
  lemma SaveStepFindOrCreate(d: Doc, p: Property, data: map<string, Value>, conv: Converters)
    requires p.name in data && p.attribute.Some? && SaveStep(d, p, data, conv).1.None?
    ensures
      var name := CategoryOf(p, conv).value;
      var d' := SaveStep(d, p, data, conv).0;
      var found := FindCategory(d.categories, name);
      var t := if found.Some? then found.value else |d.categories|;
      var oldKeys := if found.Some? then d.categories[t].keys else [];
      var keyFound := FindKey(oldKeys, p.name);
      |d'.categories| == |d.categories| + (if found.None? then 1 else 0) &&
      FindCategory(d'.categories, name) == Some(t) &&
      (forall i :: 0 <= i < |d.categories| && i != t ==> d'.categories[i] == d.categories[i]) &&
      d'.categories[t].name == name &&
      |d'.categories[t].keys| == |oldKeys| + (if keyFound.None? then 1 else 0) &&
      (forall j :: 0 <= j < |oldKeys| ==> d'.categories[t].keys[j].name == oldKeys[j].name) &&
      (forall j :: 0 <= j < |oldKeys| && Some(j) != keyFound ==> d'.categories[t].keys[j] == oldKeys[j])
  {
    var name := CategoryOf(p, conv).value;
    var (d1, i) := EnsureCategory(d, name);
    var c := SetKey(d1.categories[i], p.name, SavedText(p, data, conv).value).value;
    var d' := d1.(categories := d1.categories[i := c]);
    assert SaveStep(d, p, data, conv) == (d', None);
    FindCategorySameNames(d'.categories, d1.categories, name);
  }

  // ---------------------------------------------------------------- the loop

  lemma TailKeepsShape(props: seq<Property>, data: map<string, Value>)
    requires props != [] && Covers(props, data) && DistinctNames(props)
    ensures Covers(props[1..], data) && DistinctNames(props[1..])
  {
    DistinctTail(props);
    forall p | p in props[1..] ensures p.name in data {
      assert p in props;
    }
  }

  /**
   * A `Save` run that raises nothing writes every property of a class with distinct property
   * names, and leaves every key that no attributed property names as it was.
   */
  lemma {:induction false} SaveFromSyncs(d: Doc, props: seq<Property>, data: map<string, Value>, conv: Converters)
    requires Covers(props, data) && DistinctNames(props)
    requires SaveFrom(d, props, data, conv).1.None?
    ensures forall p :: p in props ==> Synced(SaveFrom(d, props, data, conv).0, p, data, conv)
    ensures forall category, key :: key !in AttributedNames(props) ==>
      Lookup(SaveFrom(d, props, data, conv).0, category, key) == Lookup(d, category, key)
    decreases |props|
  {
    if props != [] {
      var p := props[0];
      var rest := props[1..];
      var d1 := SaveStep(d, p, data, conv).0;
      var d' := SaveFrom(d, props, data, conv).0;
      assert d' == SaveFrom(d1, rest, data, conv).0;
      TailKeepsShape(props, data);
      SaveFromSyncs(d1, rest, data, conv);
      forall category, key | key !in AttributedNames(props)
        ensures Lookup(d', category, key) == Lookup(d, category, key)
      {
        SaveStepFrame(d, p, data, conv, category, key);
      }
      SaveStepSelf(d, p, data, conv);
      FirstNameNotLater(props);
      forall q | q in props ensures Synced(d', q, data, conv) {
        if q != p {
          assert q in rest;
        }
      }
    }
  }

  /** A `Save` run over a tree that already holds every property changes nothing. */
  lemma {:induction false} SaveFromFixpoint(d: Doc, props: seq<Property>, data: map<string, Value>, conv: Converters)
    requires Covers(props, data)
    requires forall p :: p in props ==> Synced(d, p, data, conv)
    ensures SaveFrom(d, props, data, conv) == (d, None)
    decreases |props|
  {
    if props != [] {
      SaveStepFixpoint(d, props[0], data, conv);
      forall p | p in props[1..] ensures p.name in data && Synced(d, p, data, conv) {
        assert p in props;
      }
      SaveFromFixpoint(d, props[1..], data, conv);
    }
  }

  /** Saving twice leaves the tree the first save produced. */
  lemma SaveIdempotent(d: Doc, props: seq<Property>, data: map<string, Value>, conv: Converters)
    requires Covers(props, data) && DistinctNames(props)
    requires SaveFrom(d, props, data, conv).1.None?
    ensures SaveFrom(SaveFrom(d, props, data, conv).0, props, data, conv) == (SaveFrom(d, props, data, conv).0, None)
  {
    SaveFromSyncs(d, props, data, conv);
    SaveFromFixpoint(SaveFrom(d, props, data, conv).0, props, data, conv);
  }

  // ---------------------------------------------------------------- when Save raises

  /**
   * The `Save` iteration for a property raises nothing: an attributed property's attribute can be
   * constructed, its value can be written as invariant text, and the first key of its name in its
   * category, if there is one, has a Value attribute.
   */
  predicate Savable(d: Doc, p: Property, data: map<string, Value>, conv: Converters)
    requires p.name in data
  {
    p.attribute.Some? ==>
      CategoryOf(p, conv).Some? && SavedText(p, data, conv).Some? &&
      Lookup(d, CategoryOf(p, conv).value, p.name) != Some(None)
  }

  /**
   * One iteration raises exactly when the property is not savable, with the first exception in
   * source order: the attribute's own exception, then the getter's or the converter's (which keeps
   * a category the iteration appended), then a null reference for a key without a Value
   * attribute. A tree left by an iteration that raised answers every lookup as before.
   */
  lemma SaveStepFailsIff(d: Doc, p: Property, data: map<string, Value>, conv: Converters)
    requires p.name in data
    ensures SaveStep(d, p, data, conv).1.Some? <==> !Savable(d, p, data, conv)
    ensures p.attribute.Some? && CategoryOf(p, conv).None? ==>
      SaveStep(d, p, data, conv) == (d, Some(Construct(p.attribute.value, conv.fromInvariant).error))
    ensures p.attribute.Some? && CategoryOf(p, conv).Some? && SavedText(p, data, conv).None? ==>
      SaveStep(d, p, data, conv) == (EnsureCategory(d, CategoryOf(p, conv).value).0, Some(InvariantTextFailed(p.name)))
    ensures p.attribute.Some? && CategoryOf(p, conv).Some? && SavedText(p, data, conv).Some? && !Savable(d, p, data, conv) ==>
      SaveStep(d, p, data, conv) == (d, Some(MissingValueAttribute(CategoryOf(p, conv).value, p.name)))
    ensures SaveStep(d, p, data, conv).1.Some? ==>
      forall category, key :: Lookup(SaveStep(d, p, data, conv).0, category, key) == Lookup(d, category, key)
  {
    if p.attribute.Some? && CategoryOf(p, conv).Some? {
      var name := CategoryOf(p, conv).value;
      EnsureCategoryLookup(d, name, name, p.name);
      forall category, key ensures Lookup(EnsureCategory(d, name).0, category, key) == Lookup(d, category, key) {
        EnsureCategoryLookup(d, name, category, key);
      }
    }
  }

  /**
   * For a class with distinct property names, `Save` raises nothing exactly when every property
   * is savable in the tree it starts from: an iteration does not change whether a later one raises.
   */
  lemma {:induction false} SaveSucceedsIff(d: Doc, props: seq<Property>, data: map<string, Value>, conv: Converters)
    requires Covers(props, data) && DistinctNames(props)
    ensures SaveFrom(d, props, data, conv).1.None? <==> forall p :: p in props ==> Savable(d, p, data, conv)
    decreases |props|
  {
    if props != [] {
      var p := props[0];
      SaveStepFailsIff(d, p, data, conv);
      if SaveStep(d, p, data, conv).1.None? {
        var d1 := SaveStep(d, p, data, conv).0;
        TailKeepsShape(props, data);
        SaveSucceedsIff(d1, props[1..], data, conv);
        forall q | q in props[1..] ensures Savable(d1, q, data, conv) == Savable(d, q, data, conv) {
          var k :| 0 <= k < |props[1..]| && props[1..][k] == q;
          assert props[k + 1] == q;
          if q.attribute.Some? && CategoryOf(q, conv).Some? {
            SaveStepFrame(d, p, data, conv, CategoryOf(q, conv).value, q.name);
          }
        }
        assert forall q :: q in props <==> q == p || q in props[1..];
      }
    }
  }

  // ---------------------------------------------------------------- unique names

  lemma SetKeyKeepsUnique(c: Category, key: string, text: string)
    requires SetKey(c, key, text).Ok? && UniqueKeys(c.keys)
    ensures UniqueKeys(SetKey(c, key, text).value.keys)
  {
  }

  /** A step keeps a tree free of duplicate category names and duplicate key names, whether or not it raises. */
  lemma SaveStepKeepsUnique(d: Doc, p: Property, data: map<string, Value>, conv: Converters)
    requires p.name in data && UniqueNames(d)
    ensures UniqueNames(SaveStep(d, p, data, conv).0)
  {
  }

  /** `Save` keeps a tree free of duplicate names, also when it stops at an exception. */
  lemma {:induction false} SaveFromKeepsUnique(d: Doc, props: seq<Property>, data: map<string, Value>, conv: Converters)
    requires Covers(props, data) && UniqueNames(d)
    ensures UniqueNames(SaveFrom(d, props, data, conv).0)
    decreases |props|
  {
    if props != [] {
      SaveStepKeepsUnique(d, props[0], data, conv);
      if SaveStep(d, props[0], data, conv).1.None? {
        forall p | p in props[1..] ensures p.name in data {
          assert p in props;
        }
        SaveFromKeepsUnique(SaveStep(d, props[0], data, conv).0, props[1..], data, conv);
      }
    }
  }
}
