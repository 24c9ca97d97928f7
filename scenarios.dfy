/**
 * One integer setting followed through its life: `[EasySetting("Audio", 50)] int Volume` in a
 * settings class whose `Defaults` type is empty, under the root element `App`.
 */
module Scenarios {
  import opened Wrappers
  import opened Values
  import opened Coercion
  import opened Document
  import opened EasySettingAttribute
  import opened Sync

  const Volume := Property("Volume", IntType(IntKind.Int32), Some(TypedArgs("Audio", IntArg(IntKind.Int32, 50))))

  /** A document whose `Audio` category holds one `Volume` key with the given Value. */
  function AudioTree(text: string): (r: Doc)
    ensures Lookup(r, "Audio", "Volume") == Some(Some(text))
  {
    Doc("App", [Category("Audio", [Key("Volume", Some(text))])])
  }

  /** Without a file, the property takes its attribute default. */
  lemma FirstRunUsesDefault(data: map<string, Value>, conv: Converters)
    ensures ImportFrom(data, None, [Volume], map[], conv) == (data["Volume" := IntVal(IntKind.Int32, 50)], None)
  {
  }

  /** Saving into a fresh root creates the category and the key, with the invariant text as Value. */
  lemma SaveCreatesKey(data: map<string, Value>, conv: Converters)
    requires "Volume" in data && conv.toInvariant(IntType(IntKind.Int32), data["Volume"]).Some?
    ensures SaveFrom(Doc("App", []), [Volume], data, conv) ==
            (AudioTree(conv.toInvariant(IntType(IntKind.Int32), data["Volume"]).value), None)
  {
    var text := conv.toInvariant(IntType(IntKind.Int32), data["Volume"]).value;
    var created := Doc("App", [Category("Audio", [])]);
    assert FindCategory([], "Audio").None?;
    assert [] + [Category("Audio", [])] == created.categories;
    assert EnsureCategory(Doc("App", []), "Audio") == (created, 0);
    assert FindKey(created.categories[0].keys, "Volume").None?;
    assert created.categories[0].keys + [Key("Volume", Some(text))] == [Key("Volume", Some(text))];
    assert SetKey(created.categories[0], "Volume", text) == Ok(Category("Audio", [Key("Volume", Some(text))]));
    assert Construct(Volume.attribute.value, conv.fromInvariant) == Ok(Descriptor("Audio", Some(IntVal(IntKind.Int32, 50)), IntType(IntKind.Int32)));
    assert created.categories[0 := Category("Audio", [Key("Volume", Some(text))])] == AudioTree(text).categories;
    assert SaveStep(Doc("App", []), Volume, data, conv) == (AudioTree(text), None);
    assert [Volume][1..] == [];
  }

  /** A value that cannot be written raises, and the category created for it stays in the tree. */
  lemma UnwritableValueKeepsCategory(data: map<string, Value>, conv: Converters)
    requires "Volume" in data && conv.toInvariant(IntType(IntKind.Int32), data["Volume"]).None?
    ensures SaveFrom(Doc("App", []), [Volume], data, conv) ==
            (Doc("App", [Category("Audio", [])]), Some(InvariantTextFailed("Volume")))
  {
    var created := Doc("App", [Category("Audio", [])]);
    assert FindCategory([], "Audio").None?;
    assert [] + [Category("Audio", [])] == created.categories;
    assert EnsureCategory(Doc("App", []), "Audio") == (created, 0);
    assert Construct(Volume.attribute.value, conv.fromInvariant) == Ok(Descriptor("Audio", Some(IntVal(IntKind.Int32, 50)), IntType(IntKind.Int32)));
  }

  /**
   * A file whose root element was read before its load failed gives the defaults, and the next
   * `Save` writes into that root, keeping what it holds.
   */
  lemma LateLoadFailureKeepsTree(data: map<string, Value>, before: DocState, d: Doc, conv: Converters)
    ensures ImportFrom(data, SourceOf(FailedAfterRoot(d)), [Volume], map[], conv) == (data["Volume" := IntVal(IntKind.Int32, 50)], None)
    ensures Prepared(AfterLoad(before, FailedAfterRoot(d)), "App") == Ok(d)
  {
  }

  /** A Value edited outside the program is read back through the integer converter. */
  lemma EditedValueLoads(data: map<string, Value>, conv: Converters)
    requires conv.convertTo(TypeCode.Int32, "80") == Some(IntVal(IntKind.Int32, 80))
    ensures ImportFrom(data, Some(AudioTree("80")), [Volume], map[], conv) == (data["Volume" := IntVal(IntKind.Int32, 80)], None)
  {
  }

  /** An empty Value is read as missing: the default applies. */
  lemma EmptyValueLoadsDefault(data: map<string, Value>, conv: Converters)
    ensures ImportFrom(data, Some(AudioTree("")), [Volume], map[], conv) == (data["Volume" := IntVal(IntKind.Int32, 50)], None)
  {
  }

  /** A Value that does not convert raises, and the property keeps the value it had. */
  lemma CorruptValueRaises(data: map<string, Value>, conv: Converters)
    requires conv.convertTo(TypeCode.Int32, "not-a-number").None?
    ensures ImportFrom(data, Some(AudioTree("not-a-number")), [Volume], map[], conv) ==
            (data, Some(ConversionFailed("Volume", "not-a-number")))
  {
  }

  /** A key whose Value attribute was removed raises when read. */
  lemma MissingValueRaises(data: map<string, Value>, conv: Converters)
    ensures ImportFrom(data, Some(Doc("App", [Category("Audio", [Key("Volume", None)])])), [Volume], map[], conv) ==
            (data, Some(MissingValueAttribute("Audio", "Volume")))
  {
  }
}
