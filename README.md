# JodaEngine core, modelled in Dafny

This project models the sequential core of the JodaEngine process engine and proves properties of the model. The core covers:

- **The Petri-net token.** Its `executeStep` runs the protocol split at the place, join at the transition, split again, enqueue. Its `navigateTo` maps control flows to successor tokens.
- **The XML element tree** the definition importer builds, with its namespace-qualified attribute keys.
- **The process-definition and node builders.**
- **The worklist manager,** which fans work items out to resources.
- **Resource identity** and lazily created property tables, plus **organisational positions.**
- **The "add numbers and store" activity.**

Each core Java class is a Dafny module.

- **Objects the engine changes in place are Dafny classes.** This covers tokens, the navigator, process instances, elements, builders, resources, positions and the instance context. Their methods carry `modifies` clauses and state their whole new state.
- **Values are datatypes.** Java `null` is `Option.None` or a nullable class type.
- **Thrown exceptions become error results.** A method returns a `Result`, an `Option<Exception>` or a `Thrown` step result.
- **Java `int` arithmetic is made explicit.** The `int32` newtype and `JavaInt.Wrap` model wrap-around modulo 2^32. `String.hashCode` is modelled as a fold of `h = 31 * h + c` over the characters (`JavaInt.StringHash`), proved equal to the documented hash polynomial reduced into an `int`. It agrees with Java on strings without surrogate pairs (see "Left out"). `String.valueOf(int)` is written out as `JavaInt.DecimalString`.
- **Collaborators whose code is not part of this model are abstract.** These are the split and join behaviours, the navigator's scheduler, the exception handler and the worklists. Each is a function parameter or a small class that logs the calls it receives.

Files:

- `wrappers.dfy`: `Option`, `Result`.
- `runtime.dfy`: Java objects, exceptions, UUIDs.
- `java_int.dfy`: 32-bit arithmetic, hashing, decimal strings.
- `structure.dfy`: nodes and control flows.
- `petri_net_token.dfy`, `element.dfy`, `xml_attribute.dfy`, `process_definition_builder.dfy`, `node_builder.dfy`, `worklist_manager.dfy`, `resource.dfy`, `position.dfy`, `add_numbers.dfy`: one file per core class.

## Model

| member | source | states |
|---|---|---|
| PetriNet.PetriNetToken.constructor | engine-ext-language-petrinet/src/main/java/org/jodaengine/process/token/PetriNetToken.java:40-43 | a root token starts at the start node, with no last control flow, no parent, and no joined tokens or internal variables |
| PetriNet.PetriNetToken.Child | engine-ext-language-petrinet/src/main/java/org/jodaengine/process/token/PetriNetToken.java:55-64 | a child token records its start node, last taken control flow, parent, instance and navigator |
| PetriNet.PetriNetToken.Suspend | engine-ext-language-petrinet/src/main/java/org/jodaengine/process/token/PetriNetToken.java:67-70 | the navigator's suspended set gains exactly this token; nothing else changes |
| PetriNet.PetriNetToken.SetCurrentNode | engine-ext-language-petrinet/src/main/java/org/jodaengine/process/token/PetriNetToken.java:132 | the token stands on the given node; only its current node changes |
| PetriNet.PetriNetToken.CreateToken | engine-ext-language-petrinet/src/main/java/org/jodaengine/process/token/PetriNetToken.java:128 | a fresh child token on the node, with the flow as its last taken flow, this token as parent, the same instance, navigator and exception handler, and no joined tokens or internal variables |
| PetriNet.PetriNetToken.ExecuteStep | engine-ext-language-petrinet/src/main/java/org/jodaengine/process/token/PetriNetToken.java:73-110 | see the list after this table |
| PetriNet.AllCreatingKeepsStart | engine-ext-language-petrinet/src/main/java/org/jodaengine/process/token/PetriNetToken.java:123-135 | when every flow leaves a Petri transition, the executing token ends where it started |
| PetriNet.EndsAtLastReused | engine-ext-language-petrinet/src/main/java/org/jodaengine/process/token/PetriNetToken.java:123-135 | otherwise it ends on the destination of the last flow that does not leave a Petri transition |
| PetriNet.PetriNetToken.NavigateAlong | engine-ext-language-petrinet/src/main/java/org/jodaengine/process/token/PetriNetToken.java:124-132 | one loop step: after a Petri transition, a fresh child token on the destination, with this flow as its last flow; otherwise this token, moved to the destination |
| PetriNet.PetriNetToken.NavigateTo | engine-ext-language-petrinet/src/main/java/org/jodaengine/process/token/PetriNetToken.java:113-139 | see the list after this table |
| PetriNet.PetriNetToken.NavigateEach | engine-ext-language-petrinet/src/main/java/org/jodaengine/process/token/PetriNetToken.java:123-135 | the loop over a non-empty list: one travelled token per flow, in order, with the fresh ones pairwise distinct, and this token left at `LastReusedDestination` |
| PetriNet.PetriNetToken.IsSuspandable | engine-ext-language-petrinet/src/main/java/org/jodaengine/process/token/PetriNetToken.java:141-146 | a Petri-net token is never suspendable |
| PetriNet.PetriNetToken.CurrentActivityState | engine-ext-language-petrinet/src/main/java/org/jodaengine/process/token/PetriNetToken.java:148-153 | there is no activity state (null) |
| PetriNet.PetriNetToken.Resume | engine-ext-language-petrinet/src/main/java/org/jodaengine/process/token/PetriNetToken.java:155-160 | resuming changes nothing |
| PetriNet.PetriNetToken.CancelExecution | engine-ext-language-petrinet/src/main/java/org/jodaengine/process/token/PetriNetToken.java:162-167 | cancelling changes nothing |
| XmlElement.ComposeMapKey | engine-core-impl/src/main/java/de/hpi/oryxengine/util/xml/Element.java:138-147 | the key is `uri:name` for a non-null, non-empty uri, and the bare name otherwise |
| XmlElement.SplitComposeMapKey | engine-core-impl/src/main/java/de/hpi/oryxengine/util/xml/Element.java:22-30 | for a colon-free local name, splitting the key at its last colon gives back the namespace and the name |
| XmlElement.ComposeMapKeyInjective | engine-core-impl/src/main/java/de/hpi/oryxengine/util/xml/Element.java:22-30 | distinct (namespace, colon-free name) pairs get distinct keys; this is the uniqueness of expanded attribute names in section 6.3 of Namespaces in XML 1.0 |
| XmlElement.AttributeTableHasKey | engine-core-impl/src/main/java/de/hpi/oryxengine/util/xml/Element.java:48-58 | the composed key of every parsed attribute is in the table the constructor builds |
| XmlElement.AttributeTableOnlyKeys | engine-core-impl/src/main/java/de/hpi/oryxengine/util/xml/Element.java:48-58 | every key of that table is the composed key of some parsed attribute |
| XmlElement.AttributeTableLast | engine-core-impl/src/main/java/de/hpi/oryxengine/util/xml/Element.java:48-58 | an attribute no later attribute shares a key with is the one stored under its key, with its selected name, value and uri |
| XmlElement.Element.constructor | engine-core-impl/src/main/java/de/hpi/oryxengine/util/xml/Element.java:37-65 | the tag is the qualified name without a namespace and the local name with one; the attribute map is the attribute table (empty when attributes are null); the position comes from the locator, or 0 without one; empty text, no children |
| XmlElement.ParsedAttributeLookup | engine-core-impl/src/main/java/de/hpi/oryxengine/util/xml/Element.java:48-58 | after parsing, looking up an unshadowed attribute by its namespace and selected name returns its value |
| XmlElement.Matching | engine-core-impl/src/main/java/de/hpi/oryxengine/util/xml/Element.java:72-83 | an element is selected iff it is a child with the tag and with a matching uri (any uri when the namespace is null); the selection is no longer than the children |
| XmlElement.MatchingAppend | engine-core-impl/src/main/java/de/hpi/oryxengine/util/xml/Element.java:72-83 | the selection from two child lists joined is the two selections joined, which preserves document order |
| XmlElement.Element.GetElementsNS | engine-core-impl/src/main/java/de/hpi/oryxengine/util/xml/Element.java:72-83 | the filtering loop returns exactly the matching selection |
| XmlElement.Element.GetElements | engine-core-impl/src/main/java/de/hpi/oryxengine/util/xml/Element.java:67-70 | exactly the children with the tag, from any namespace |
| XmlElement.Element.GetElementNS | engine-core-impl/src/main/java/de/hpi/oryxengine/util/xml/Element.java:90-100 | null iff nothing matches; the "multiple elements" exception iff more than one child matches; otherwise the unique match |
| XmlElement.Element.GetElement | engine-core-impl/src/main/java/de/hpi/oryxengine/util/xml/Element.java:85-88 | the same three cases, over all namespaces |
| XmlElement.Element.Add | engine-core-impl/src/main/java/de/hpi/oryxengine/util/xml/Element.java:102-105 | the child is appended; the earlier children are unchanged |
| XmlElement.Element.GetAttribute | engine-core-impl/src/main/java/de/hpi/oryxengine/util/xml/Element.java:107-113 | the stored value when the key is present, null otherwise |
| XmlElement.Element.GetAttributeOrDefault | engine-core-impl/src/main/java/de/hpi/oryxengine/util/xml/Element.java:125-131 | the stored value when present, the default otherwise |
| XmlElement.Element.GetAttributes | engine-core-impl/src/main/java/de/hpi/oryxengine/util/xml/Element.java:115-118 | exactly the keys of the attribute map |
| XmlElement.Element.GetAttributeNS | engine-core-impl/src/main/java/de/hpi/oryxengine/util/xml/Element.java:120-123 | the plain lookup under the composed key |
| XmlElement.Element.GetAttributeNSOrDefault | engine-core-impl/src/main/java/de/hpi/oryxengine/util/xml/Element.java:133-136 | the defaulting lookup under the composed key |
| XmlElement.Element.AppendText | engine-core-impl/src/main/java/de/hpi/oryxengine/util/xml/Element.java:187-190 | the text afterwards is the old text followed by the argument |
| XmlElement.Element.GetText | engine-core-impl/src/main/java/de/hpi/oryxengine/util/xml/Element.java:192-195 | the text collected so far; `AppendText` extends it by exactly its argument |
| XmlAttributes.XmlAttribute.constructor | engine-core-impl/src/main/java/org/jodaengine/util/xml/XmlAttribute.java:35-38 | name and value as given, no uri |
| XmlAttributes.XmlAttribute.WithUri | engine-core-impl/src/main/java/org/jodaengine/util/xml/XmlAttribute.java:40-43 | name, value and uri as given |
| XmlAttributes.XmlAttribute.GetName | engine-core-impl/src/main/java/org/jodaengine/util/xml/XmlAttribute.java:45-47 | the stored name, as the constructors and `SetName` leave it |
| XmlAttributes.XmlAttribute.GetValue | engine-core-impl/src/main/java/org/jodaengine/util/xml/XmlAttribute.java:53-55 | the stored value, as the constructors and `SetValue` leave it |
| XmlAttributes.XmlAttribute.GetUri | engine-core-impl/src/main/java/org/jodaengine/util/xml/XmlAttribute.java:61-63 | the stored uri, null after the two-argument constructor, as `SetUri` leaves it |
| XmlAttributes.XmlAttribute.SetName | engine-core-impl/src/main/java/org/jodaengine/util/xml/XmlAttribute.java:45-51 | the name getter returns the new name; value and uri are unchanged |
| XmlAttributes.XmlAttribute.SetValue | engine-core-impl/src/main/java/org/jodaengine/util/xml/XmlAttribute.java:53-59 | the value getter returns the new value; name and uri are unchanged |
| XmlAttributes.XmlAttribute.SetUri | engine-core-impl/src/main/java/org/jodaengine/util/xml/XmlAttribute.java:61-67 | the uri getter returns the new uri; name and value are unchanged |
| DefinitionBuilder.ProcessDefinitionBuilderImpl.constructor | engine-core-impl/src/main/java/de/hpi/oryxengine/process/definition/ProcessDefinitionBuilderImpl.java:43-46 | a new builder is in the reset state with the drawn id |
| DefinitionBuilder.ProcessDefinitionBuilderImpl.ResetingThisBuilder | engine-core-impl/src/main/java/de/hpi/oryxengine/process/definition/ProcessDefinitionBuilderImpl.java:48-57 | no start nodes, triggers or patterns; no name, description or attribute table; the new id |
| DefinitionBuilder.ProcessDefinitionBuilderImpl.SetName | engine-core-impl/src/main/java/de/hpi/oryxengine/process/definition/ProcessDefinitionBuilderImpl.java:60-65 | sets only the name and returns the builder |
| DefinitionBuilder.ProcessDefinitionBuilderImpl.SetDescription | engine-core-impl/src/main/java/de/hpi/oryxengine/process/definition/ProcessDefinitionBuilderImpl.java:67-73 | sets only the description and returns the builder |
| DefinitionBuilder.ProcessDefinitionBuilderImpl.CreateStartTrigger | engine-core-impl/src/main/java/de/hpi/oryxengine/process/definition/ProcessDefinitionBuilderImpl.java:75-85 | a new start event carrying the current definition id is mapped to the start node; the earlier triggers stay; every trigger keeps the current id |
| DefinitionBuilder.ProcessDefinitionBuilderImpl.SetAttribute | engine-core-impl/src/main/java/de/hpi/oryxengine/process/definition/ProcessDefinitionBuilderImpl.java:87-97 | the table is created on first use; the key is mapped to the new value, replacing an earlier one; other keys stay |
| DefinitionBuilder.ProcessDefinitionBuilderImpl.AddInstanciationPattern | engine-core-impl/src/main/java/de/hpi/oryxengine/process/definition/ProcessDefinitionBuilderImpl.java:127-131 | the pattern is appended at the end |
| DefinitionBuilder.ProcessDefinitionBuilderImpl.CheckingDefinitionConstraints | engine-core-impl/src/main/java/de/hpi/oryxengine/process/definition/ProcessDefinitionBuilderImpl.java:177-185 | the "no pattern" runtime exception iff no instantiation pattern was added |
| DefinitionBuilder.ProcessDefinitionBuilderImpl.AppendingInstantiationPatterns | engine-core-impl/src/main/java/de/hpi/oryxengine/process/definition/ProcessDefinitionBuilderImpl.java:162-175 | each pattern is linked to its successor in insertion order (for a repeated pattern, its final occurrence decides); the last pattern's successor is untouched; the first pattern is returned |
| DefinitionBuilder.ProcessDefinitionBuilderImpl.LinkNext | engine-core-impl/src/main/java/de/hpi/oryxengine/process/definition/ProcessDefinitionBuilderImpl.java:166-168 | one loop step: linking the previous pattern to the current one extends the ordered chain by one position |
| DefinitionBuilder.ProcessDefinitionBuilderImpl.BuildResultDefinition | engine-core-impl/src/main/java/de/hpi/oryxengine/process/definition/ProcessDefinitionBuilderImpl.java:147-160 | the definition has the builder's id, name, description, start nodes, first pattern and every recorded start trigger; the patterns are linked |
| DefinitionBuilder.ProcessDefinitionBuilderImpl.BuildDefinition | engine-core-impl/src/main/java/de/hpi/oryxengine/process/definition/ProcessDefinitionBuilderImpl.java:133-145 | without a pattern: the exception, with the builder unchanged; otherwise the definition from the old state, every start event of which carries the definition's id, and the builder is reset with a new id |
| NodeBuilder.NodeBuilderImpl.SetActivityBehavior | engine-core-impl/src/main/java/de/hpi/oryxengine/process/structure/NodeBuilderImpl.java:22-27 | stores the activity only, returns the builder |
| NodeBuilder.NodeBuilderImpl.SetIncomingBehaviour | engine-core-impl/src/main/java/de/hpi/oryxengine/process/structure/NodeBuilderImpl.java:29-34 | stores the incoming behaviour only, returns the builder |
| NodeBuilder.NodeBuilderImpl.SetOutgoingBehaviour | engine-core-impl/src/main/java/de/hpi/oryxengine/process/structure/NodeBuilderImpl.java:36-41 | stores the outgoing behaviour only, returns the builder |
| NodeBuilder.NodeBuilderImpl.CheckingNodeConstraints | engine-core-impl/src/main/java/de/hpi/oryxengine/process/structure/NodeBuilderImpl.java:64-74 | the runtime exception with the fixed message iff no activity was set; missing behaviours are no error |
| NodeBuilder.NodeBuilderImpl.BuildResultNode | engine-core-impl/src/main/java/de/hpi/oryxengine/process/structure/NodeBuilderImpl.java:56-59 | a fresh node holding exactly the activity, incoming and outgoing behaviour last set |
| NodeBuilder.NodeBuilderImpl.BuildNode | engine-core-impl/src/main/java/de/hpi/oryxengine/process/structure/NodeBuilderImpl.java:43-49 | an error iff no activity was set, otherwise such a node; the builder is not changed, so building twice gives nodes with equal components |
| Worklists.WorklistManager.AddWorklistItem | engine-core-impl/src/main/java/de/hpi/oryxengine/WorklistManager.java:27-30 | the item is appended to that resource's worklist; no other worklist changes |
| Worklists.WorklistManager.AddWorklistItemToAll | engine-core-impl/src/main/java/de/hpi/oryxengine/WorklistManager.java:33-42 | every resource of the set receives the item exactly once; no other resource is touched |
| Worklists.WorklistManager.GetWorklistItems | engine-core-impl/src/main/java/de/hpi/oryxengine/WorklistManager.java:98-101 | the items of the resource's worklist, and none for a resource nothing was added to |
| Worklists.WorklistManager.GetWorklistItemsFor | engine-core-impl/src/main/java/de/hpi/oryxengine/WorklistManager.java:53-62 | the map's keys are exactly the listed resources, each mapped to its items |
| Worklists.WorklistManager.ClaimWorklistItemBy | engine-core-impl/src/main/java/de/hpi/oryxengine/WorklistManager.java:65-73 | the claimer and every assigned resource each receive exactly one "allocated by the claimer" notification; no other resource hears of it |
| Worklists.WorklistManager.BeginWorklistItemBy | engine-core-impl/src/main/java/de/hpi/oryxengine/WorklistManager.java:104-107 | only the given resource's worklist records the start |
| Worklists.WorklistManager.AbortWorklistItemBy | engine-core-impl/src/main/java/de/hpi/oryxengine/WorklistManager.java:76-79 | nothing changes |
| Worklists.WorklistManager.CompleteWorklistItemBy | engine-core-impl/src/main/java/de/hpi/oryxengine/WorklistManager.java:82-95 | the completion is recorded in the resource's worklist only, then the token is resumed; a resume failure comes back as a runtime exception with the same message and no token resumed |
| Resources.ResourceImpl.constructor | engine-core-impl/src/main/java/de/hpi/oryxengine/resource/ResourceImpl.java:35-51 | id, name and type as given; no property table yet |
| Resources.ResourceImpl.SetName | engine-core-impl/src/main/java/de/hpi/oryxengine/resource/ResourceImpl.java:66-70 | only the name changes; the resource itself is returned |
| Resources.ResourceImpl.GetPropertyTable | engine-core-impl/src/main/java/de/hpi/oryxengine/resource/ResourceImpl.java:83-89 | an empty table on first use, the existing table afterwards |
| Resources.ResourceImpl.GetProperty | engine-core-impl/src/main/java/de/hpi/oryxengine/resource/ResourceImpl.java:73-76 | the stored value, or null for an absent key; no property changes |
| Resources.ResourceImpl.SetProperty | engine-core-impl/src/main/java/de/hpi/oryxengine/resource/ResourceImpl.java:92-96 | the key now answers the new value; every other key answers as before |
| Resources.FreshResourceHasNoProperties | engine-core-impl/src/main/java/de/hpi/oryxengine/resource/ResourceImpl.java:83-89 | a resource without a table answers null for every key |
| Resources.ResourceImpl.Equals | engine-core-impl/src/main/java/de/hpi/oryxengine/resource/ResourceImpl.java:117-135 | equal to a resource iff type and id are equal; never equal to null or to an object that is not a resource, since the identity fallback cannot hold for such an object |
| Resources.EqualsReflexive | engine-core-impl/src/main/java/de/hpi/oryxengine/resource/ResourceImpl.java:117-135 | every resource equals itself |
| Resources.EqualsSymmetric | engine-core-impl/src/main/java/de/hpi/oryxengine/resource/ResourceImpl.java:117-135 | resource equality is symmetric |
| Resources.EqualsTransitive | engine-core-impl/src/main/java/de/hpi/oryxengine/resource/ResourceImpl.java:117-135 | resource equality is transitive |
| Resources.EqualResourcesEqualHash | engine-core-impl/src/main/java/de/hpi/oryxengine/resource/ResourceImpl.java:144-148 | equal resources have equal hash codes |
| Resources.EqualsIffSameKey | engine-core-impl/src/main/java/de/hpi/oryxengine/resource/ResourceImpl.java:117-135 | two resources are equal iff their worklist keys are equal |
| Resources.ResourceImpl.Key | engine-core-impl/src/main/java/de/hpi/oryxengine/resource/ResourceImpl.java:117-135 | the key is made of the type's string form and the id |
| Resources.ResourceImpl.HashCode | engine-core-impl/src/main/java/de/hpi/oryxengine/resource/ResourceImpl.java:144-148 | the hash is the Java string hash polynomial of the type's string form followed by the id's string form, reduced modulo 2^32 into an `int`; it depends only on type and id, so equal resources hash alike (`EqualResourcesEqualHash`) |
| Resources.ResourceImpl.GetWorklist | engine-core-impl/src/main/java/de/hpi/oryxengine/resource/ResourceImpl.java:156-160 | always an empty worklist |
| Positions.PositionImpl.GetPositionHolder | engine-core-impl/src/main/java/de/hpi/oryxengine/resource/PositionImpl.java:37-41 | the stored holder, null for a new position, as `SetPositionHolder` leaves it |
| Positions.PositionImpl.GetSuperiorPosition | engine-core-impl/src/main/java/de/hpi/oryxengine/resource/PositionImpl.java:52-56 | the stored superior, null for a new position, as `SetSuperiorPosition` leaves it |
| Positions.PositionImpl.BelongstoOrganization | engine-core-impl/src/main/java/de/hpi/oryxengine/resource/PositionImpl.java:65-70 | the stored unit, null for a new position, as `SetBelongstoOrganization` leaves it |
| Positions.PositionImpl.SetPositionHolder | engine-core-impl/src/main/java/de/hpi/oryxengine/resource/PositionImpl.java:37-47 | the holder getter returns the new holder; the position itself is returned |
| Positions.PositionImpl.SetSuperiorPosition | engine-core-impl/src/main/java/de/hpi/oryxengine/resource/PositionImpl.java:53-64 | the superior getter returns the new superior; the position itself is returned |
| Positions.PositionImpl.SetBelongstoOrganization | engine-core-impl/src/main/java/de/hpi/oryxengine/resource/PositionImpl.java:66-77 | the organisation getter returns the new unit; the position itself is returned |
| Positions.PositionImpl.GetSubordinatePositionImpls | engine-core-impl/src/main/java/de/hpi/oryxengine/resource/PositionImpl.java:79-85 | a new empty set on the first call, the same set object on every later call |
| AddNumbers.AddNumbersAndStoreActivity.constructor | engine-core-impl/src/main/java/org/jodaengine/node/activity/custom/AddNumbersAndStoreActivity.java:32-37 | the variable name and the summands are stored unchanged |
| AddNumbers.AddNumbersAndStoreActivity.SumSummands | engine-core-impl/src/main/java/org/jodaengine/node/activity/custom/AddNumbersAndStoreActivity.java:42-45 | the int accumulator ends as the sum wrapped modulo 2^32, and as the exact sum when that fits in an int |
| AddNumbers.AddNumbersAndStoreActivity.ExecuteIntern | engine-core-impl/src/main/java/org/jodaengine/node/activity/custom/AddNumbersAndStoreActivity.java:39-48 | the variable `resultVariableName` is set to the decimal string of the wrapped sum; no other variable changes |
| AddNumbers.StoredValueParses | engine-core-impl/src/main/java/org/jodaengine/node/activity/custom/AddNumbersAndStoreActivity.java:47 | the stored string reads back as the wrapped sum |
| AddNumbers.NoSummandsStoreZero | engine-core-impl/src/main/java/org/jodaengine/node/activity/custom/AddNumbersAndStoreActivity.java:42-47 | no summands store "0" |
| AddNumbers.StoredValueEqualIff | engine-core-impl/src/main/java/org/jodaengine/node/activity/custom/AddNumbersAndStoreActivity.java:42-47 | two summand lists store the same string iff their sums agree modulo 2^32 |
| JavaInt.Wrap | engine-core-impl/src/main/java/org/jodaengine/node/activity/custom/AddNumbersAndStoreActivity.java:44 | the 32-bit result is congruent to the mathematical value modulo 2^32, and equal to it when it fits |
| JavaInt.WrapAdd | engine-core-impl/src/main/java/org/jodaengine/node/activity/custom/AddNumbersAndStoreActivity.java:43-45 | wrapping after each addition gives the same result as wrapping once at the end |
| JavaInt.StringHash | engine-core-impl/src/main/java/de/hpi/oryxengine/resource/ResourceImpl.java:147 | folding `h = 31 * h + c` in `int` arithmetic gives the polynomial s[0]*31^(n-1) + ... + s[n-1] reduced modulo 2^32 |
| JavaInt.HashPolynomialAppend | engine-core-impl/src/main/java/de/hpi/oryxengine/resource/ResourceImpl.java:147 | appending a character multiplies the hash polynomial by 31 and adds the character |
| JavaInt.WrapMulAdd | engine-core-impl/src/main/java/de/hpi/oryxengine/resource/ResourceImpl.java:147 | wrapping the running hash before the step `31 * h + c` does not change the wrapped result |
| JavaInt.DecimalString | engine-core-impl/src/main/java/org/jodaengine/node/activity/custom/AddNumbersAndStoreActivity.java:47 | a non-empty string with a leading minus sign iff the number is negative, and decimal digits after it |
| JavaInt.DecimalStringRoundTrip | engine-core-impl/src/main/java/org/jodaengine/node/activity/custom/AddNumbersAndStoreActivity.java:47 | parsing the decimal string gives back the number |
| JavaInt.DecimalStringInjective | engine-core-impl/src/main/java/org/jodaengine/node/activity/custom/AddNumbersAndStoreActivity.java:47 | distinct numbers have distinct decimal strings |

`PetriNet.PetriNetToken.ExecuteStep` states one outcome per path:

- **Cancelled instance.** The instance's assigned tokens are cleared and nothing else changes. There is no split, join or enqueue.
- **The place has no outgoing behaviour.** A null-pointer exception.
- **The first split yields null.** The token's lock is released and the work queue is unchanged.
- **The first split yields an empty collection.** A no-such-element exception.
- **The transition has no incoming or no outgoing behaviour.** A null-pointer exception.
- **The second split yields null.** A null-pointer exception, after the join.
- **Otherwise.** The join gets the first token of the first split. Every token of the second split is appended to the work queue once, in order. The token sits where the split left it. `joinedTokens` and `internalVariables` end null.

`PetriNet.PetriNetToken.NavigateTo` states:

- **Empty list.** A no-valid-path exception is reported to the handler, and the result is an empty list.
- **Otherwise, one entry per control flow, in order.**
  - Each entry satisfies `Travelled`:
    - After a Petri transition, the entry is a child of `this`. It stands on the flow's destination, has the flow as its last taken control flow, and shares this token's instance, navigator and exception handler. It has no joined tokens and no internal variables. It is fresh, and the fresh entries are pairwise distinct.
    - Otherwise, the entry is `this`.
  - `this` ends at `LastReusedDestination`. This is the destination of the last flow that reuses it, or its start node when there is no such flow (`AllCreatingKeepsStart`, `EndsAtLastReused`).

## Left out

- The navigator's scheduler, the worker threads, per-token locks and the AND-join barrier. Concurrency is not modelled. The split and join behaviours, `addWorkToken`, `addSuspendToken` and `releaseLock` are abstract: the split is a function parameter and the others are logged calls.
- `PetriNet.PetriNetToken.CreateToken`: the token-creation code of the parent token class is not part of this model. It is modelled as constructing a child token; registering that token with the process instance is not modelled.
- `PetriNet.PetriNetToken.ExecuteStep`: the split is deterministic in the node and the input tokens. The first split's effect on the token's position is given by the split's result, not by running `navigateTo` inside it.
- Extension registration (PetriNetToken.java:55-63, through the constructor of the parent token class) is not modelled. Only the three-argument constructor passes a null extension service.
- `JavaInt.StringHash`: it folds Unicode scalar values, while Java folds UTF-16 code units. The two agree on strings without characters outside the Basic Multilingual Plane; the strings hashed here, resource type names and UUID strings, are ASCII.
- Java `null` is not modelled for several inputs that Java accepts as null:
  - String arguments: attribute names and values, resource names and the names passed to element lookups are plain strings.
  - The summands of `AddNumbersAndStoreActivity` are a sequence. A null array makes `executeIntern` throw a `NullPointerException` (AddNumbersAndStoreActivity.java:43).
  - The type of a resource is never null. A null type makes `equals` and `hashCode` throw (ResourceImpl.java:127 and 147).
- `XmlElement.Element.GetText`: the text is modelled as a string. The `StringBuilder` identity is not modelled.
- The attribute entries of an element are values with a name, a value and a uri. The attribute class of the element package is not part of this model.
- `ProcessDefinitionImpl` and `StartEventImpl` are not part of this model. The definition is a datatype whose trigger map receives every trigger. The `IllegalStarteventException` that `addStartTrigger` may throw is not modelled.
- `DefinitionBuilder.ProcessDefinitionBuilderImpl.BuildDefinition`: the attribute table the builder collects is not passed to the definition, as in the source.
- `getNodeBuilder`, `getTransitionBuilder`, `getStartNodeBuilder` and `getStartNodes` of the definition builder are not modelled: they hand out builders or fields whose classes are not part of this model.
- Random UUIDs, which are drawn by `UUID.randomUUID`, are parameters (`freshId`, the resource id).
- The worklists of resources are abstract. Each resource key owns a list of items and a log of allocation, start and completion notifications. The worklist classes are not part of this model.
- `ResourceImpl.getWorklist` hands out a new empty worklist on each call. Additions made through such a worklist therefore vanish for a plain `ResourceImpl`. The worklist manager is modelled against resources whose worklists keep their items.
- `Worklists.WorklistManager.CompleteWorklistItemBy`: the outcome of resuming the item's token is a parameter, because the token class is outside this model. The same goes for the task `distribute`, which delegates to an allocation pattern that is not part of this model.
- `Resources.ResourceImpl.GetPropertyTable`: the returned table is a value. Later changes made through the returned Java map are not modelled.
- `PositionImpl` inherits from `ResourceImpl` through a constructor that no shown `ResourceImpl` constructor matches. Only its own fields are modelled.
- `AddNumbers.AddNumbersAndStoreActivity.ExecuteIntern`: the context is passed directly. In the source it is reached through the token's process instance.
- Logging is not modelled.
