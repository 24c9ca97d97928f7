/**
 * The settings XML tree: a root element holding `Category` elements, each holding `Key`
 * elements. The XPath queries of the engine become first-match lookups by `Name`.
 */
module Document {
  import opened Wrappers

  /** `<Key Name=".." Value=".."/>`; `value` is None when the element has no Value attribute. */
  datatype Key = Key(name: string, value: Option<string>)

  /** `<Category Name="..">` with its keys in document order. */
  datatype Category = Category(name: string, keys: seq<Key>)

  /** The document element: its name and its categories in document order. */
  datatype Doc = Doc(root: string, categories: seq<Category>)

  /**
   * The `xDocument` field: a null reference, a document without a document element, or a
   * document with one.
   */
  datatype DocState = NullReference | NoElement | Element(doc: Doc)

  /**
   * What opening and parsing the settings file yields: the reader rejects the path before a
   * document is created; the file cannot be read or parsed before its root element is complete;
   * the read fails after the root element was added to the document (text or a second element
   * after it), which keeps that element in the document; or it parses to a tree.
   */
  datatype LoadOutcome = ReaderRejected | Unreadable | FailedAfterRoot(doc: Doc) | Parsed(doc: Doc)

  /** The first position that holds `name`: the selection rule of both XPath queries. */
  function FirstIndexOf(names: seq<string>, name: string): (r: Option<nat>)
    ensures r.Some? ==> r.value < |names| && names[r.value] == name &&
                        forall j :: 0 <= j < r.value ==> names[j] != name
    ensures r.None? ==> name !in names
    decreases |names|
  {
    if |names| == 0 then None
    else if names[0] == name then Some(0)
    else match FirstIndexOf(names[1..], name)
      case None => None
      case Some(i) => Some(i + 1)
  }

  /** Appending a name keeps every earlier first match, and is the match for a name not seen before. */
  lemma FirstIndexOfAppend(names: seq<string>, n: string, name: string)
    ensures FirstIndexOf(names + [n], name) ==
      if FirstIndexOf(names, name).Some? then FirstIndexOf(names, name)
      else if n == name then Some(|names|) else None
  {
    var s := names + [n];
    assert forall j :: 0 <= j < |names| ==> s[j] == names[j];
    assert s[|names|] == n;
  }

  /** The `Name` attribute of each element, in document order. */
  function Names<T>(xs: seq<T>, name: T -> string): (r: seq<string>)
    ensures |r| == |xs| && forall i :: 0 <= i < |xs| ==> r[i] == name(xs[i])
  {
    seq(|xs|, i requires 0 <= i < |xs| => name(xs[i]))
  }

  function CategoryName(c: Category): string { c.name }

  function KeyName(k: Key): string { k.name }

  /** `SelectSingleNode("//Category[@Name='name']")`: the first category with that name. */
  function FindCategory(cats: seq<Category>, name: string): (r: Option<nat>)
    ensures r.Some? ==> r.value < |cats| && cats[r.value].name == name &&
                        forall j :: 0 <= j < r.value ==> cats[j].name != name
    ensures r.None? ==> forall j :: 0 <= j < |cats| ==> cats[j].name != name
  {
    FirstIndexOf(Names(cats, CategoryName), name)
  }

  /** `SelectSingleNode("descendant::Key[@Name='name']")` within a category: the first key with that name. */
  function FindKey(keys: seq<Key>, name: string): (r: Option<nat>)
    ensures r.Some? ==> r.value < |keys| && keys[r.value].name == name &&
                        forall j :: 0 <= j < r.value ==> keys[j].name != name
    ensures r.None? ==> forall j :: 0 <= j < |keys| ==> keys[j].name != name
  {
    FirstIndexOf(Names(keys, KeyName), name)
  }

  /** The Value attribute of the first key with that name in a category: None when there is no such key. */
  function CategoryLookup(c: Category, key: string): (r: Option<Option<string>>)
    ensures r.None? <==> forall j :: 0 <= j < |c.keys| ==> c.keys[j].name != key
    ensures forall j :: 0 <= j < |c.keys| && c.keys[j].name == key && (forall j' :: 0 <= j' < j ==> c.keys[j'].name != key) ==>
      r == Some(c.keys[j].value)
  {
    match FindKey(c.keys, key)
    case None => None
    case Some(j) => Some(c.keys[j].value)
  }

  /**
   * The Value attribute the engine finds for a category/key pair: None when the category or the
   * key is missing, Some(None) when the key has no Value attribute.
   */
  function Lookup(d: Doc, category: string, key: string): (r: Option<Option<string>>)
    ensures (forall i :: 0 <= i < |d.categories| ==> d.categories[i].name != category) ==> r.None?
    ensures forall i :: 0 <= i < |d.categories| && d.categories[i].name == category &&
                        (forall i' :: 0 <= i' < i ==> d.categories[i'].name != category) ==>
      r == CategoryLookup(d.categories[i], key)
  {
    match FindCategory(d.categories, category)
    case None => None
    case Some(i) => CategoryLookup(d.categories[i], key)
  }

  predicate UniqueKeys(keys: seq<Key>)
  {
    forall i, j :: 0 <= i < j < |keys| ==> keys[i].name != keys[j].name
  }

  /** Category names are unique in the document, key names within each category. */
  predicate UniqueNames(d: Doc)
  {
    (forall i, j :: 0 <= i < j < |d.categories| ==> d.categories[i].name != d.categories[j].name) &&
    (forall i :: 0 <= i < |d.categories| ==> UniqueKeys(d.categories[i].keys))
  }

  /** Lookups depend only on the names of the categories, not on their keys. */
  lemma FindCategorySameNames(a: seq<Category>, b: seq<Category>, name: string)
    requires |a| == |b| && forall i :: 0 <= i < |a| ==> a[i].name == b[i].name
    ensures FindCategory(a, name) == FindCategory(b, name)
  {
    assert Names(a, CategoryName) == Names(b, CategoryName);
  }

  lemma FindKeySameNames(a: seq<Key>, b: seq<Key>, name: string)
    requires |a| == |b| && forall i :: 0 <= i < |a| ==> a[i].name == b[i].name
    ensures FindKey(a, name) == FindKey(b, name)
  {
    assert Names(a, KeyName) == Names(b, KeyName);
  }

  /** Appending a category leaves every earlier first match in place. */
  lemma FindCategoryAppend(cats: seq<Category>, c: Category, name: string)
    ensures FindCategory(cats + [c], name) ==
      if FindCategory(cats, name).Some? then FindCategory(cats, name)
      else if c.name == name then Some(|cats|) else None
  {
    assert Names(cats + [c], CategoryName) == Names(cats, CategoryName) + [c.name];
    FirstIndexOfAppend(Names(cats, CategoryName), c.name, name);
  }

  lemma FindKeyAppend(keys: seq<Key>, k: Key, name: string)
    ensures FindKey(keys + [k], name) ==
      if FindKey(keys, name).Some? then FindKey(keys, name)
      else if k.name == name then Some(|keys|) else None
  {
    assert Names(keys + [k], KeyName) == Names(keys, KeyName) + [k.name];
    FirstIndexOfAppend(Names(keys, KeyName), k.name, name);
  }

  /** In a document whose names are unique, the first match is the only match. */
  lemma LookupInUniqueDocument(d: Doc, i: nat, j: nat)
    requires UniqueNames(d)
    requires i < |d.categories| && j < |d.categories[i].keys|
    ensures Lookup(d, d.categories[i].name, d.categories[i].keys[j].name) == Some(d.categories[i].keys[j].value)
  {
  }
}
