/** An attribute of an XML tag: a mutable holder of a name, a value and a namespace uri. */
module XmlAttributes {
  import opened Wrappers

  class XmlAttribute {
    var name: string
    var value: string
    var uri: Option<string>

    /** An attribute without a namespace: the uri stays `null`. */
    constructor (name: string, value: string)
      ensures GetName() == name && GetValue() == value && GetUri() == None
    {
      this.name := name;
      this.value := value;
      uri := None;
    }

    constructor WithUri(name: string, value: string, uri: Option<string>)
      ensures GetName() == name && GetValue() == value && GetUri() == uri
    {
      this.name := name;
      this.value := value;
      this.uri := uri;
    }

    function GetName(): (n: string)
      reads this
      ensures n == name
    {
      name
    }

    function GetValue(): (v: string)
      reads this
      ensures v == value
    {
      value
    }

    function GetUri(): (u: Option<string>)
      reads this
      ensures u == uri
    {
      uri
    }

    method SetName(name: string)
      modifies this`name
      ensures GetName() == name
      ensures GetValue() == old(GetValue()) && GetUri() == old(GetUri())
    {
      this.name := name;
    }

    method SetValue(value: string)
      modifies this`value
      ensures GetValue() == value
      ensures GetName() == old(GetName()) && GetUri() == old(GetUri())
    {
      this.value := value;
    }

    method SetUri(uri: Option<string>)
      modifies this`uri
      ensures GetUri() == uri
      ensures GetName() == old(GetName()) && GetValue() == old(GetValue())
    {
      this.uri := uri;
    }
  }
}
