/** The builder of a process definition: it gathers start nodes, start triggers, attributes and
    instantiation patterns, links the patterns into a chain when building, and then starts afresh. */
module DefinitionBuilder {
  import opened Wrappers
  import opened Runtime
  import opened Structure

  datatype EventType = EventType(name: string)
  datatype AdapterConfiguration = AdapterConfiguration(id: nat)
  datatype EventCondition = EventCondition(id: nat)

  /** A start event, tied to the id of the definition it starts. Start events are compared by identity. */
  class StartEvent {
    const eventType: EventType
    const adapterConfiguration: AdapterConfiguration
    const conditions: seq<EventCondition>
    const definitionId: Uuid

    constructor (eventType: EventType, config: AdapterConfiguration, conditions: seq<EventCondition>, definitionId: Uuid)
      ensures this.eventType == eventType && adapterConfiguration == config
      ensures this.conditions == conditions && this.definitionId == definitionId
    {
      this.eventType := eventType;
      adapterConfiguration := config;
      this.conditions := conditions;
      this.definitionId := definitionId;
    }
  }

  /** An instantiation pattern; the patterns of a definition form a chain through `nextPattern`. */
  class InstantiationPattern {
    var nextPattern: InstantiationPattern?

    constructor ()
      ensures nextPattern == null
    {
      nextPattern := null;
    }

    method SetNextPattern(next: InstantiationPattern)
      modifies this`nextPattern
      ensures nextPattern == next
    {
      nextPattern := next;
    }
  }

  /** The built definition. */
  datatype ProcessDefinition = ProcessDefinition(
    id: Uuid,
    name: Option<string>,
    description: Option<string>,
    startNodes: seq<NodeImpl>,
    startInstantiationPattern: InstantiationPattern,
    startTriggers: map<StartEvent, NodeImpl>)

  const NO_PATTERN_MESSAGE: string := "No Pattern for the process instanciation was defined."

  /** In a chain built from `ps`, each pattern that does not occur again before the last position is
      followed by its successor in `ps`. */
  ghost predicate ChainedInOrder(ps: seq<InstantiationPattern>, upTo: int)
    requires upTo <= |ps|
    reads set p | p in ps
  {
    forall k :: 0 <= k < upTo - 1 && LastBefore(ps, k, upTo - 1) ==> ps[k].nextPattern == ps[k + 1]
  }

  /** `ps[k]` does not occur again at a position below `bound`. */
  predicate LastBefore(ps: seq<InstantiationPattern>, k: int, bound: int)
    requires 0 <= k < |ps| && bound <= |ps|
  {
    forall j :: k < j < bound ==> ps[j] != ps[k]
  }

  class ProcessDefinitionBuilderImpl {
    var startNodes: seq<NodeImpl>
    var id: Uuid
    var name: Option<string>
    var description: Option<string>
    var temporaryStartTriggers: map<StartEvent, NodeImpl>
    var temporaryAttributeTable: Option<map<string, Value>>
    var temporaryInstantiationPatterns: seq<InstantiationPattern>

    /** Every recorded start event carries the id of the definition being built. */
    ghost predicate Valid()
      reads this
    {
      forall e :: e in temporaryStartTriggers ==> e.definitionId == id
    }

    /** The state right after `resetingThisBuilder` drew `freshId`. */
    ghost predicate IsReset(freshId: Uuid)
      reads this
    {
      && startNodes == [] && id == freshId && name == None && description == None
      && temporaryStartTriggers == map[] && temporaryAttributeTable == None
      && temporaryInstantiationPatterns == []
    }

    /** `freshId` stands for the random UUID the builder draws. */
    constructor (freshId: Uuid)
      ensures Valid() && IsReset(freshId)
    {
      startNodes := [];
      id := freshId;
      name := None;
      description := None;
      temporaryStartTriggers := map[];
      temporaryAttributeTable := None;
      temporaryInstantiationPatterns := [];
    }

    method ResetingThisBuilder(freshId: Uuid)
      modifies this
      ensures Valid() && IsReset(freshId)
    {
      startNodes := [];
      id := freshId;
      name := None;
      description := None;
      temporaryStartTriggers := map[];
      temporaryAttributeTable := None;
      temporaryInstantiationPatterns := [];
    }

    method SetName(processName: Option<string>) returns (builder: ProcessDefinitionBuilderImpl)
      modifies this`name
      ensures builder == this && name == processName
    {
      name := processName;
      return this;
    }

    method SetDescription(processDescription: Option<string>) returns (builder: ProcessDefinitionBuilderImpl)
      modifies this`description
      ensures builder == this && description == processDescription
    {
      description := processDescription;
      return this;
    }

    /** Records a new start event, tied to the current id, that starts the definition at `startNode`. */
    method CreateStartTrigger(eventType: EventType, config: AdapterConfiguration, conditions: seq<EventCondition>,
                              startNode: NodeImpl)
      returns (builder: ProcessDefinitionBuilderImpl, ghost event: StartEvent)
      requires Valid()
      modifies this`temporaryStartTriggers
      ensures Valid() && builder == this
      ensures fresh(event) && event.definitionId == id
      ensures event.eventType == eventType && event.adapterConfiguration == config && event.conditions == conditions
      ensures temporaryStartTriggers == old(temporaryStartTriggers)[event := startNode]
      ensures event !in old(temporaryStartTriggers)
    {
      var e := new StartEvent(eventType, config, conditions, id);
      temporaryStartTriggers := temporaryStartTriggers[e := startNode];
      event := e;
      return this, e;
    }

    /** Stores an attribute, creating the table on first use; a later value for a key replaces the earlier. */
    method SetAttribute(attributeId: string, attributeValue: Value) returns (builder: ProcessDefinitionBuilderImpl)
      modifies this`temporaryAttributeTable
      ensures builder == this
      ensures temporaryAttributeTable.Some?
      ensures old(temporaryAttributeTable).None? ==> temporaryAttributeTable.value == map[attributeId := attributeValue]
      ensures old(temporaryAttributeTable).Some? ==>
        temporaryAttributeTable.value == old(temporaryAttributeTable).value[attributeId := attributeValue]
    {
      if temporaryAttributeTable.None? {
        temporaryAttributeTable := Some(map[]);
      }
      temporaryAttributeTable := Some(temporaryAttributeTable.value[attributeId := attributeValue]);
      return this;
    }

    method AddInstanciationPattern(pattern: InstantiationPattern)
      modifies this`temporaryInstantiationPatterns
      ensures temporaryInstantiationPatterns == old(temporaryInstantiationPatterns) + [pattern]
    {
      temporaryInstantiationPatterns := temporaryInstantiationPatterns + [pattern];
    }

    /** The only definition-wide check: at least one instantiation pattern. */
    function CheckingDefinitionConstraints(): (error: Option<Exception>)
      reads this
      ensures error.Some? <==> temporaryInstantiationPatterns == []
      ensures error.Some? ==> error.value == JodaEngineRuntime(NO_PATTERN_MESSAGE)
    {
      if temporaryInstantiationPatterns == [] then Some(JodaEngineRuntime(NO_PATTERN_MESSAGE)) else None
    }

    /** Links each pattern to the next one in insertion order and returns the first. The last pattern's
        successor is left as it was. Only reached once the constraint check has passed. */
    method AppendingInstantiationPatterns() returns (first: InstantiationPattern)
      requires temporaryInstantiationPatterns != []
      modifies set p | p in temporaryInstantiationPatterns
      ensures first == temporaryInstantiationPatterns[0]
      ensures ChainedInOrder(temporaryInstantiationPatterns, |temporaryInstantiationPatterns|)
      ensures var ps := temporaryInstantiationPatterns;
        forall p :: p in ps && p !in ps[..|ps| - 1] ==> p.nextPattern == old(p.nextPattern)
    {
      var ps := temporaryInstantiationPatterns;
      var last: InstantiationPattern? := null;
      var i := 0;
      while i < |ps|
        invariant 0 <= i <= |ps|
        invariant i == 0 ==> last == null
        invariant i > 0 ==> last == ps[i - 1]
        invariant ChainedInOrder(ps, i)
        invariant forall p :: p in ps && p !in ps[..if i == 0 then 0 else i - 1] ==> p.nextPattern == old(p.nextPattern)
      {
        var pattern := ps[i];
        if last != null {
          LinkNext(ps, i);
        }
        last := pattern;
        i := i + 1;
      }
      return ps[0];
    }

    /** One step of the linking loop: `ps[i - 1]` gets `ps[i]` as its successor. */
    method LinkNext(ps: seq<InstantiationPattern>, i: nat)
      requires 0 < i < |ps|
      requires ChainedInOrder(ps, i)
      modifies ps[i - 1]
      ensures ChainedInOrder(ps, i + 1)
    {
      ps[i - 1].SetNextPattern(ps[i]);
      forall k | 0 <= k < i && LastBefore(ps, k, i)
        ensures ps[k].nextPattern == ps[k + 1]
      {
        if k < i - 1 {
          assert ps[k] != ps[i - 1];
          assert LastBefore(ps, k, i - 1);
          assert old(ps[k].nextPattern) == ps[k + 1];
        }
      }
    }

    /** The definition from the builder's current state, with its patterns linked. */
    method BuildResultDefinition() returns (definition: ProcessDefinition)
      requires temporaryInstantiationPatterns != []
      modifies set p | p in temporaryInstantiationPatterns
      ensures definition == ProcessDefinition(id, name, description, startNodes,
                                              temporaryInstantiationPatterns[0], temporaryStartTriggers)
      ensures ChainedInOrder(temporaryInstantiationPatterns, |temporaryInstantiationPatterns|)
      ensures var ps := temporaryInstantiationPatterns;
        forall p :: p in ps && p !in ps[..|ps| - 1] ==> p.nextPattern == old(p.nextPattern)
    {
      var startPattern := AppendingInstantiationPatterns();
      var triggers: map<StartEvent, NodeImpl> := map[];
      var remaining := temporaryStartTriggers.Keys;
      while remaining != {}
        invariant remaining <= temporaryStartTriggers.Keys
        invariant triggers.Keys == temporaryStartTriggers.Keys - remaining
        invariant forall e :: e in triggers ==> triggers[e] == temporaryStartTriggers[e]
        decreases remaining
      {
        var e :| e in remaining;
        triggers := triggers[e := temporaryStartTriggers[e]];
        remaining := remaining - {e};
      }
      assert triggers == temporaryStartTriggers;
      definition := ProcessDefinition(id, name, description, startNodes, startPattern, triggers);
    }

    /** Builds the definition, or fails, leaving the builder as it was, when no instantiation pattern was
        added. After a successful build the builder is reset with `freshId` as its new id. */
    method BuildDefinition(freshId: Uuid) returns (r: Result<ProcessDefinition, Exception>)
      requires Valid()
      modifies this, set p | p in temporaryInstantiationPatterns
      ensures Valid()
      ensures old(temporaryInstantiationPatterns) == [] ==>
        r == Err(JodaEngineRuntime(NO_PATTERN_MESSAGE)) && unchanged(this)
      ensures old(temporaryInstantiationPatterns) != [] ==>
        && r == Ok(ProcessDefinition(old(id), old(name), old(description), old(startNodes),
                                     old(temporaryInstantiationPatterns)[0], old(temporaryStartTriggers)))
        && IsReset(freshId)
        && ChainedInOrder(old(temporaryInstantiationPatterns), |old(temporaryInstantiationPatterns)|)
        && var ps := old(temporaryInstantiationPatterns);
           forall p :: p in ps && p !in ps[..|ps| - 1] ==> p.nextPattern == old(p.nextPattern)
      ensures r.Ok? ==> forall e :: e in r.value.startTriggers ==> e.definitionId == r.value.id
    {
      var error := CheckingDefinitionConstraints();
      if error.Some? {
        return Err(error.value);
      }
      var definition := BuildResultDefinition();
      ResetingThisBuilder(freshId);
      return Ok(definition);
    }
  }
}
