/** The builder of a single process node: it collects an activity and the two behaviours and checks,
    when building, that the activity was given. */
module NodeBuilder {
  import opened Wrappers
  import opened Runtime
  import opened Structure

  const MISSING_ACTIVITY_MESSAGE: string :=
    "The ActivityBehavior for the Node needs to be set." + "Perform setActivityBehavior(...) before."

  class NodeBuilderImpl {
    var activityBehavior: Option<Activity>
    var outgoingBehaviour: Option<OutgoingBehaviour>
    var incomingBehaviour: Option<IncomingBehaviour>

    constructor ()
      ensures activityBehavior == None && outgoingBehaviour == None && incomingBehaviour == None
    {
      activityBehavior, outgoingBehaviour, incomingBehaviour := None, None, None;
    }

    method SetActivityBehavior(activity: Option<Activity>) returns (builder: NodeBuilderImpl)
      modifies this`activityBehavior
      ensures builder == this && activityBehavior == activity
    {
      activityBehavior := activity;
      return this;
    }

    method SetIncomingBehaviour(incoming: Option<IncomingBehaviour>) returns (builder: NodeBuilderImpl)
      modifies this`incomingBehaviour
      ensures builder == this && incomingBehaviour == incoming
    {
      incomingBehaviour := incoming;
      return this;
    }

    method SetOutgoingBehaviour(outgoing: Option<OutgoingBehaviour>) returns (builder: NodeBuilderImpl)
      modifies this`outgoingBehaviour
      ensures builder == this && outgoingBehaviour == outgoing
    {
      outgoingBehaviour := outgoing;
      return this;
    }

    /** The only definition-time check on a node: it must have an activity. The behaviours may be missing. */
    function CheckingNodeConstraints(): (error: Option<Exception>)
      reads this
      ensures error.Some? <==> activityBehavior.None?
      ensures error.Some? ==> error.value == JodaEngineRuntime(MISSING_ACTIVITY_MESSAGE)
    {
      if activityBehavior.None? then Some(JodaEngineRuntime(MISSING_ACTIVITY_MESSAGE)) else None
    }

    /** A new node holding the three components currently set. */
    method BuildResultNode() returns (node: NodeImpl)
      ensures fresh(node)
      ensures node.activityBehaviour == activityBehavior
      ensures node.incomingBehaviour == incomingBehaviour
      ensures node.outgoingBehaviour == outgoingBehaviour
    {
      node := new NodeImpl(activityBehavior, incomingBehaviour, outgoingBehaviour);
    }

    /** Builds a node from the components last set, failing only when there is no activity.
        Building leaves the builder as it was, so it can build again. */
    method BuildNode() returns (r: Result<NodeImpl, Exception>)
      ensures r.Err? <==> activityBehavior.None?
      ensures r.Err? ==> r.error == JodaEngineRuntime(MISSING_ACTIVITY_MESSAGE)
      ensures r.Ok? ==>
        && fresh(r.value)
        && r.value.activityBehaviour == activityBehavior
        && r.value.incomingBehaviour == incomingBehaviour
        && r.value.outgoingBehaviour == outgoingBehaviour
    {
      var error := CheckingNodeConstraints();
      if error.Some? {
        return Err(error.value);
      }
      var node := BuildResultNode();
      return Ok(node);
    }
  }
}
