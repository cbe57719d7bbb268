/** One element of a parsed XML document: its tag, its namespace-qualified attributes, its text and its
    child elements. Attribute keys follow the attribute-uniqueness rule of section 6.3 of Namespaces in
    XML 1.0: a namespaced attribute is keyed by `uri:name`, any other by its name alone. */
module XmlElement {
  import opened Wrappers
  import opened Runtime

  /** One attribute as the SAX parser reports it. */
  datatype SaxAttribute = SaxAttribute(uri: Option<string>, localName: string, qName: string, value: string)

  /** The document locator's position, when there is one. */
  datatype Locator = Locator(lineNumber: int, columnNumber: int)

  /** A stored attribute: its name, value and namespace uri. */
  datatype Attribute = Attribute(name: string, value: string, uri: Option<string>)

  /** A uri that is neither `null` nor empty. */
  predicate HasNamespace(uri: Option<string>) {
    uri.Some? && uri.value != ""
  }

  /** The namespace a uri stands for, with `null` and the empty uri both meaning "none". */
  function NamespaceOf(uri: Option<string>): string {
    if HasNamespace(uri) then uri.value else ""
  }

  /** `composeMapKey`: `uri:name` for a namespaced attribute, `name` otherwise. */
  function ComposeMapKey(uri: Option<string>, name: string): (key: string)
    ensures HasNamespace(uri) ==> key == uri.value + ":" + name
    ensures !HasNamespace(uri) ==> key == name
  {
    (if HasNamespace(uri) then uri.value + ":" else "") + name
  }

  /** The name an attribute is stored under: its local name in a namespace, its qualified name otherwise. */
  function SelectedName(a: SaxAttribute): string {
    if HasNamespace(a.uri) then a.localName else a.qName
  }

  function KeyOf(a: SaxAttribute): string {
    ComposeMapKey(a.uri, SelectedName(a))
  }

  function StoredAttribute(a: SaxAttribute): Attribute {
    Attribute(SelectedName(a), a.value, a.uri)
  }

  /** The attribute table the constructor builds, putting the attributes in order (a later attribute
      with the same key replaces an earlier one). */
  function AttributeTable(attributes: seq<SaxAttribute>): map<string, Attribute> {
    if attributes == [] then map[]
    else AttributeTable(attributes[..|attributes| - 1])[KeyOf(attributes[|attributes| - 1]) :=
                                                           StoredAttribute(attributes[|attributes| - 1])]
  }

  /** Every attribute's composed key is in the table. */
  lemma {:induction false} AttributeTableHasKey(attributes: seq<SaxAttribute>, j: nat)
    requires j < |attributes|
    ensures KeyOf(attributes[j]) in AttributeTable(attributes)
  {
    var n := |attributes|;
    var init, last := attributes[..n - 1], attributes[n - 1];
    assert AttributeTable(attributes) == AttributeTable(init)[KeyOf(last) := StoredAttribute(last)];
    if j < n - 1 {
      AttributeTableHasKey(init, j);
      assert init[j] == attributes[j];
    }
  }

  /** Every key in the table is the composed key of some attribute. */
  lemma {:induction false} AttributeTableOnlyKeys(attributes: seq<SaxAttribute>, k: string)
    requires k in AttributeTable(attributes)
    ensures exists j :: 0 <= j < |attributes| && KeyOf(attributes[j]) == k
  {
    var n := |attributes|;
    var init, last := attributes[..n - 1], attributes[n - 1];
    assert AttributeTable(attributes) == AttributeTable(init)[KeyOf(last) := StoredAttribute(last)];
    if k == KeyOf(last) {
      assert KeyOf(attributes[n - 1]) == k;
    } else {
      AttributeTableOnlyKeys(init, k);
      var j :| 0 <= j < n - 1 && KeyOf(init[j]) == k;
      assert init[j] == attributes[j];
    }
  }

  /** An attribute that no later attribute shadows is the one stored under its key. */
  lemma {:induction false} AttributeTableLast(attributes: seq<SaxAttribute>, i: nat)
    requires i < |attributes|
    requires forall j :: i < j < |attributes| ==> KeyOf(attributes[j]) != KeyOf(attributes[i])
    ensures KeyOf(attributes[i]) in AttributeTable(attributes)
    ensures AttributeTable(attributes)[KeyOf(attributes[i])] == StoredAttribute(attributes[i])
  {
    var n := |attributes|;
    var prefix, last := attributes[..n - 1], attributes[n - 1];
    var key := KeyOf(attributes[i]);
    assert AttributeTable(attributes) == AttributeTable(prefix)[KeyOf(last) := StoredAttribute(last)];
    if i < n - 1 {
      assert KeyOf(last) != key;
      assert prefix[i] == attributes[i];
      forall j | i < j < |prefix|
        ensures KeyOf(prefix[j]) != KeyOf(prefix[i])
      {
        assert prefix[j] == attributes[j];
      }
      AttributeTableLast(prefix, i);
    }
  }

  /** Names in XML may not contain a colon outside a prefix (an NCName). */
  predicate ColonFree(name: string) {
    forall i :: 0 <= i < |name| ==> name[i] != ':'
  }

  /** The position of the last colon in a string, or -1 when there is none. */
  function LastColon(s: string): (c: int)
    ensures -1 <= c < |s|
    ensures c >= 0 ==> s[c] == ':'
  {
    if s == [] then -1
    else if s[|s| - 1] == ':' then |s| - 1
    else LastColon(s[..|s| - 1])
  }

  lemma {:induction false} LastColonAppend(a: string, b: string)
    requires ColonFree(b)
    ensures LastColon(a + b) == LastColon(a)
    decreases |b|
  {
    if b == [] {
      assert a + b == a;
    } else {
      var init := b[..|b| - 1];
      assert (a + b)[..|a + b| - 1] == a + init;
      LastColonAppend(a, init);
    }
  }

  /** Reads a key back into its namespace and name: everything up to the last colon is the namespace. */
  function SplitKey(key: string): (string, string) {
    var c := LastColon(key);
    if c < 0 then ("", key) else (key[..c], key[c + 1..])
  }

  /** SplitKey undoes ComposeMapKey whenever the name is colon-free. */
  lemma SplitComposeMapKey(uri: Option<string>, name: string)
    requires ColonFree(name)
    ensures SplitKey(ComposeMapKey(uri, name)) == (NamespaceOf(uri), name)
  {
    var key := ComposeMapKey(uri, name);
    if HasNamespace(uri) {
      var prefix := uri.value + ":";
      assert key == prefix + name;
      LastColonAppend(prefix, name);
      assert LastColon(prefix) == |uri.value|;
      assert key[..|uri.value|] == uri.value;
      assert key[|uri.value| + 1..] == name;
    } else {
      LastColonAppend([], name);
      assert [] + name == name;
    }
  }

  /** For colon-free names (an NCName carries no colon) the key determines the namespace and the name:
      two attributes share a key only when they have the same expanded name, which is the uniqueness
      the keys are meant to capture. */
  lemma ComposeMapKeyInjective(u1: Option<string>, n1: string, u2: Option<string>, n2: string)
    requires ColonFree(n1) && ColonFree(n2)
    requires ComposeMapKey(u1, n1) == ComposeMapKey(u2, n2)
    ensures n1 == n2 && NamespaceOf(u1) == NamespaceOf(u2)
  {
    SplitComposeMapKey(u1, n1);
    SplitComposeMapKey(u2, n2);
  }

  /** Whether a child is selected by `getElementsNS(nameSpaceUri, tagName)`. */
  predicate Matches(e: Element, nameSpaceUri: Option<string>, tagName: string)
    reads e
  {
    tagName == e.tagName && (nameSpaceUri.None? || nameSpaceUri == e.uri)
  }

  /** The children selected by tag and namespace, in their original order. */
  function Matching(children: seq<Element>, nameSpaceUri: Option<string>, tagName: string): (selected: seq<Element>)
    reads set e | e in children
    ensures |selected| <= |children|
    ensures forall i :: 0 <= i < |selected| ==> selected[i] in children && Matches(selected[i], nameSpaceUri, tagName)
    ensures forall i :: 0 <= i < |children| && Matches(children[i], nameSpaceUri, tagName) ==> children[i] in selected
  {
    if children == [] then []
    else
      var init, last := children[..|children| - 1], children[|children| - 1];
      assert forall e :: e in init ==> e in children;
      Matching(init, nameSpaceUri, tagName) + (if Matches(last, nameSpaceUri, tagName) then [last] else [])
  }

  /** Selection distributes over concatenation, so it keeps the children's order. */
  lemma {:induction false} MatchingAppend(s1: seq<Element>, s2: seq<Element>, nameSpaceUri: Option<string>, tagName: string)
    ensures Matching(s1 + s2, nameSpaceUri, tagName) == Matching(s1, nameSpaceUri, tagName) + Matching(s2, nameSpaceUri, tagName)
    decreases |s2|
  {
    if s2 != [] {
      var init, last := s2[..|s2| - 1], s2[|s2| - 1];
      var tail := if Matches(last, nameSpaceUri, tagName) then [last] else [];
      assert (s1 + s2)[..|s1 + s2| - 1] == s1 + init;
      assert (s1 + s2)[|s1 + s2| - 1] == last;
      assert Matching(s1 + s2, nameSpaceUri, tagName) == Matching(s1 + init, nameSpaceUri, tagName) + tail;
      assert Matching(s2, nameSpaceUri, tagName) == Matching(init, nameSpaceUri, tagName) + tail;
      MatchingAppend(s1, init, nameSpaceUri, tagName);
    } else {
      assert s1 + s2 == s1;
    }
  }

  class Element {
    var uri: Option<string>
    var tagName: string
    var attributeMap: map<string, Attribute>
    var line: int
    var column: int
    var text: string
    var elements: seq<Element>

    constructor (uri: Option<string>, localName: string, qName: string,
                 attributes: Option<seq<SaxAttribute>>, locator: Option<Locator>)
      ensures this.uri == uri
      ensures tagName == if HasNamespace(uri) then localName else qName
      ensures attributeMap == if attributes.Some? then AttributeTable(attributes.value) else map[]
      ensures line == (if locator.Some? then locator.value.lineNumber else 0)
      ensures column == (if locator.Some? then locator.value.columnNumber else 0)
      ensures text == "" && elements == []
    {
      this.uri := uri;
      if !HasNamespace(uri) {
        tagName := qName;
      } else {
        tagName := localName;
      }
      var table: map<string, Attribute> := map[];
      if attributes.Some? {
        var all := attributes.value;
        var i := 0;
        while i < |all|
          invariant 0 <= i <= |all|
          invariant table == AttributeTable(all[..i])
        {
          var attributeUri := all[i].uri;
          var value := all[i].value;
          var name: string;
          if !HasNamespace(attributeUri) {
            name := all[i].qName;
          } else {
            name := all[i].localName;
          }
          table := table[ComposeMapKey(attributeUri, name) := Attribute(name, value, attributeUri)];
          assert all[..i + 1][..i] == all[..i];
          i := i + 1;
        }
        assert all[..i] == all;
      }
      attributeMap := table;
      line, column := 0, 0;
      if locator.Some? {
        line := locator.value.lineNumber;
        column := locator.value.columnNumber;
      }
      text := "";
      elements := [];
    }

    /** The children with this tag and namespace uri (any uri when `nameSpaceUri` is `null`), in order. */
    method GetElementsNS(nameSpaceUri: Option<string>, tagName: string) returns (selected: seq<Element>)
      ensures selected == Matching(elements, nameSpaceUri, tagName)
    {
      selected := [];
      var i := 0;
      while i < |elements|
        invariant 0 <= i <= |elements|
        invariant selected == Matching(elements[..i], nameSpaceUri, tagName)
      {
        var element := elements[i];
        assert elements[..i + 1][..i] == elements[..i];
        if tagName == element.tagName {
          if nameSpaceUri.None? || nameSpaceUri == element.uri {
            selected := selected + [element];
          }
        }
        i := i + 1;
      }
      assert elements[..i] == elements;
    }

    method GetElements(tagName: string) returns (selected: seq<Element>)
      ensures selected == Matching(elements, None, tagName)
      ensures forall e :: e in selected <==> e in elements && e.tagName == tagName
    {
      selected := GetElementsNS(None, tagName);
    }

    /** The one child with this tag and namespace: `null` when there is none, an exception when there are several. */
    method GetElementNS(nameSpaceUri: Option<string>, tagName: string) returns (r: Result<Option<Element>, Exception>)
      ensures var m := Matching(elements, nameSpaceUri, tagName);
        && (|m| == 0 <==> r == Ok(None))
        && (|m| > 1 <==> r.Err?)
        && (r.Err? ==> r.error == DalmatinaRuntime("Parsing exception: multiple elements with tag name " + tagName + " found."))
        && (|m| == 1 ==> r == Ok(Some(m[0])) && m[0] in elements && Matches(m[0], nameSpaceUri, tagName))
    {
      var found := GetElementsNS(nameSpaceUri, tagName);
      if |found| == 0 {
        return Ok(None);
      } else if |found| > 1 {
        return Err(DalmatinaRuntime("Parsing exception: multiple elements with tag name " + tagName + " found."));
      }
      return Ok(Some(found[0]));
    }

    method GetElement(tagName: string) returns (r: Result<Option<Element>, Exception>)
      ensures var m := Matching(elements, None, tagName);
        && (|m| == 0 <==> r == Ok(None))
        && (|m| > 1 <==> r.Err?)
        && (|m| == 1 ==> r == Ok(Some(m[0])))
    {
      r := GetElementNS(None, tagName);
    }

    /** Appends a child; the earlier children stay as they were. */
    method Add(element: Element)
      modifies this`elements
      ensures elements == old(elements) + [element]
    {
      elements := elements + [element];
    }

    /** The value stored under a key, or `null`. */
    function GetAttribute(name: string): (value: Option<string>)
      reads this
      ensures value.Some? <==> name in attributeMap
      ensures value.Some? ==> value.value == attributeMap[name].value
    {
      if name in attributeMap then Some(attributeMap[name].value) else None
    }

    /** The value stored under a key, or the given default. */
    function GetAttributeOrDefault(name: string, defaultValue: string): (value: string)
      reads this
      ensures name in attributeMap ==> value == attributeMap[name].value
      ensures name !in attributeMap ==> value == defaultValue
    {
      if name in attributeMap then attributeMap[name].value else defaultValue
    }

    /** The keys of the stored attributes. */
    function GetAttributes(): (keys: set<string>)
      reads this
      ensures forall k :: k in keys <==> GetAttribute(k).Some?
    {
      attributeMap.Keys
    }

    function GetAttributeNS(namespaceUri: Option<string>, name: string): (value: Option<string>)
      reads this
      ensures value == GetAttribute(ComposeMapKey(namespaceUri, name))
    {
      GetAttribute(ComposeMapKey(namespaceUri, name))
    }

    function GetAttributeNSOrDefault(namespaceUri: Option<string>, name: string, defaultValue: string): (value: string)
      reads this
      ensures value == GetAttributeOrDefault(ComposeMapKey(namespaceUri, name), defaultValue)
    {
      GetAttributeOrDefault(ComposeMapKey(namespaceUri, name), defaultValue)
    }

    /** Appends to the element's text, the way SAX delivers characters in pieces. */
    method AppendText(textToBeAppended: string)
      modifies this`text
      ensures GetText() == old(GetText()) + textToBeAppended
    {
      text := text + textToBeAppended;
    }

    /** The text collected so far from the element's character data. */
    function GetText(): (s: string)
      reads this
      ensures s == text
    {
      text
    }
  }

  /** Looking a parsed attribute up by its own namespace and name finds its value, unless a later
      attribute with the same key replaced it. */
  lemma ParsedAttributeLookup(e: Element, attributes: seq<SaxAttribute>, i: nat)
    requires e.attributeMap == AttributeTable(attributes)
    requires i < |attributes|
    requires forall j :: i < j < |attributes| ==> KeyOf(attributes[j]) != KeyOf(attributes[i])
    ensures e.GetAttributeNS(attributes[i].uri, SelectedName(attributes[i])) == Some(attributes[i].value)
  {
    AttributeTableLast(attributes, i);
  }
}
