/** The process graph as the token and the builders see it: nodes with their behaviours, and control flows. */
module Structure {
  import opened Wrappers

  /** The work a node performs; the engine treats it as an opaque descriptor. */
  datatype Activity = Activity(id: nat)

  /** A join strategy; only its identity matters to the modelled code. */
  datatype IncomingBehaviour = IncomingBehaviour(id: nat)

  /** A split strategy. The Petri-net token only asks whether it is a `TransitionSplitBehaviour`. */
  datatype OutgoingBehaviour = TransitionSplit | OtherSplit(id: nat)

  /** The lifecycle states of a node's activity, as far as the engine's code names them. */
  datatype ActivityState = Init | Ready | Active | Waiting | Completed

  /** A node of a process graph; its three components are fixed when it is built and may be `null`. */
  class NodeImpl {
    const activityBehaviour: Option<Activity>
    const incomingBehaviour: Option<IncomingBehaviour>
    const outgoingBehaviour: Option<OutgoingBehaviour>

    constructor (activity: Option<Activity>, incoming: Option<IncomingBehaviour>, outgoing: Option<OutgoingBehaviour>)
      ensures activityBehaviour == activity
      ensures incomingBehaviour == incoming
      ensures outgoingBehaviour == outgoing
    {
      activityBehaviour := activity;
      incomingBehaviour := incoming;
      outgoingBehaviour := outgoing;
    }
  }

  /** A directed edge of the process graph. */
  datatype ControlFlow = ControlFlow(source: NodeImpl, destination: NodeImpl)

  /** Petri-net semantics: a new token is produced only after a transition, that is, when the flow's
      source splits with a `TransitionSplitBehaviour`. */
  predicate CreatesToken(flow: ControlFlow) {
    flow.source.outgoingBehaviour == Some(TransitionSplit)
  }
}
