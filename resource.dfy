/** Resources of the organisation model: identity by (type, id), a name, and a lazily created
    property table. */
module Resources {
  import opened Wrappers
  import opened Runtime
  import opened JavaInt
  import opened Worklists

  /** The kind of a resource; its string form is its name. */
  datatype ResourceType = ResourceType(name: string)

  class ResourceImpl {
    const resourceId: Uuid
    const resourceType: ResourceType
    var resourceName: string
    var propertyTable: Option<map<string, Value>>

    /** `id` stands for the id given by the caller, or the random UUID the shorter constructor draws. */
    constructor (id: Uuid, resourceName: string, resourceType: ResourceType)
      ensures resourceId == id && this.resourceName == resourceName && this.resourceType == resourceType
      ensures propertyTable == None
    {
      resourceId := id;
      this.resourceName := resourceName;
      this.resourceType := resourceType;
      propertyTable := None;
    }

    method SetName(name: string) returns (resource: ResourceImpl)
      modifies this`resourceName
      ensures resource == this && resourceName == name
    {
      resourceName := name;
      return this;
    }

    /** What `getProperty` answers for a key: the stored value, or null when there is none. */
    function PropertyOf(propertyId: string): Value
      reads this
    {
      if propertyTable.Some? && propertyId in propertyTable.value then propertyTable.value[propertyId] else Null
    }

    /** The property table, created empty on first use and the same table afterwards. */
    method GetPropertyTable() returns (table: map<string, Value>)
      modifies this`propertyTable
      ensures propertyTable == Some(table)
      ensures old(propertyTable).None? ==> table == map[]
      ensures old(propertyTable).Some? ==> table == old(propertyTable).value
    {
      if propertyTable.None? {
        propertyTable := Some(map[]);
      }
      table := propertyTable.value;
    }

    method GetProperty(propertyId: string) returns (value: Value)
      modifies this`propertyTable
      ensures value == old(PropertyOf(propertyId))
      ensures forall k :: PropertyOf(k) == old(PropertyOf(k))
      ensures propertyTable.Some?
    {
      var table := GetPropertyTable();
      value := if propertyId in table then table[propertyId] else Null;
    }

    method SetProperty(propertyKey: string, propertyValue: Value) returns (resource: ResourceImpl)
      modifies this`propertyTable
      ensures resource == this
      ensures PropertyOf(propertyKey) == propertyValue
      ensures forall k :: k != propertyKey ==> PropertyOf(k) == old(PropertyOf(k))
      ensures propertyTable.Some? && propertyKey in propertyTable.value
    {
      var table := GetPropertyTable();
      propertyTable := Some(table[propertyKey := propertyValue]);
      return this;
    }

    /** Equality: a resource equals another exactly when their types and ids are equal; anything else
        is compared by identity, and since this object is a resource, identity with it fails. */
    function Equals(other: Comparand): (equal: bool)
      ensures other.AResource? ==>
        (equal <==> resourceType == other.resource.resourceType && resourceId == other.resource.resourceId)
      ensures other.NotAResource? ==> !equal
    {
      match other
      case AResource(r) => resourceType == r.resourceType && resourceId == r.resourceId
      case NotAResource(_) => false
    }

    /** The Java hash of the type's string form followed by the id's string form: the string hash
        polynomial of that concatenation, reduced into an `int`. */
    function HashCode(): (h: int32)
      ensures h == Wrap(HashPolynomial(resourceType.name + resourceId.canonical))
    {
      StringHash(resourceType.name + resourceId.canonical)
    }

    /** The key under which worklists know this resource. */
    function Key(): (key: ResourceKey)
      ensures key.resourceType == resourceType.name && key.id == resourceId
    {
      ResourceKey(resourceType.name, resourceId)
    }

    /** A resource of this implementation always hands out a new, empty worklist. */
    function GetWorklist(): (worklist: Worklist)
      ensures worklist.items == [] && worklist.events == []
    {
      EmptyWorklist
    }
  }

  /** What `equals` is given: another resource, or null or an object of a class that is not a
      resource. The second case carries no reference, so it can never stand for a resource. */
  datatype Comparand = AResource(resource: ResourceImpl) | NotAResource(isNull: bool)

  lemma EqualsReflexive(a: ResourceImpl)
    ensures a.Equals(AResource(a))
  {
  }

  lemma EqualsSymmetric(a: ResourceImpl, b: ResourceImpl)
    ensures a.Equals(AResource(b)) <==> b.Equals(AResource(a))
  {
  }

  lemma EqualsTransitive(a: ResourceImpl, b: ResourceImpl, c: ResourceImpl)
    requires a.Equals(AResource(b)) && b.Equals(AResource(c))
    ensures a.Equals(AResource(c))
  {
  }

  /** Equal resources have equal hash codes. */
  lemma EqualResourcesEqualHash(a: ResourceImpl, b: ResourceImpl)
    requires a.Equals(AResource(b))
    ensures a.HashCode() == b.HashCode()
  {
  }

  /** Resource equality is exactly equality of worklist keys, so keying worklists by `Key` keeps
      equal resources on one worklist. */
  lemma EqualsIffSameKey(a: ResourceImpl, b: ResourceImpl)
    ensures a.Equals(AResource(b)) <==> a.Key() == b.Key()
  {
    if a.Key() == b.Key() {
      assert a.resourceType.name == b.resourceType.name;
    }
  }

  /** A resource no property was set on answers null for every key. */
  lemma FreshResourceHasNoProperties(r: ResourceImpl, k: string)
    requires r.propertyTable == None
    ensures r.PropertyOf(k) == Null
  {
  }
}
