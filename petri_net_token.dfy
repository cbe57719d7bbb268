/** The Petri-net token: one step of a token on a place, and navigation along control flows.
    The split and join behaviours, the navigator's queue, its suspended-token registry and the
    scheduler's lock release are the token's collaborators; they appear here as a split function
    handed to the step and as objects that record what was asked of them. */
module PetriNet {
  import opened Wrappers
  import opened Runtime
  import opened Structure

  /** What `OutgoingBehaviour.split` of a node returns for a collection of tokens: `null` (NoTokens), or the
      successor tokens together with the node on which the split has left the executing token (a split moves
      the token it is given through `navigateTo`). */
  datatype SplitOutcome = NoTokens | Tokens(successors: seq<PetriNetToken>, executingTokenAt: NodeImpl)

  /** How a step ends: normally, or by an exception. */
  datatype StepResult = Done | Thrown(exception: Exception)

  /** The navigator's state a token touches: the work queue, the suspended tokens and the scheduler's
      record of released token locks. */
  class Navigator {
    var workQueue: seq<PetriNetToken>
    var suspended: set<PetriNetToken>
    var lockReleased: seq<PetriNetToken>

    constructor ()
      ensures workQueue == [] && suspended == {} && lockReleased == []
    {
      workQueue, suspended, lockReleased := [], {}, [];
    }

    method AddWorkToken(token: PetriNetToken)
      modifies this`workQueue
      ensures workQueue == old(workQueue) + [token]
    {
      workQueue := workQueue + [token];
    }

    method AddSuspendToken(token: PetriNetToken)
      modifies this`suspended
      ensures suspended == old(suspended) + {token}
    {
      suspended := suspended + {token};
    }

    method ReleaseLock(token: PetriNetToken)
      modifies this`lockReleased
      ensures lockReleased == old(lockReleased) + [token]
    {
      lockReleased := lockReleased + [token];
    }
  }

  /** The process instance a token belongs to. */
  class ProcessInstance {
    var cancelled: bool
    var assignedTokens: seq<PetriNetToken>

    constructor ()
      ensures !cancelled && assignedTokens == []
    {
      cancelled, assignedTokens := false, [];
    }
  }

  /** The incoming behaviours of the net as a step observes them: the join calls they received. */
  class JoinLog {
    var joins: seq<(NodeImpl, PetriNetToken)>

    constructor ()
      ensures joins == []
    {
      joins := [];
    }

    /** `node.getIncomingBehaviour().join(token)`; its result is not used by the token. */
    method Join(node: NodeImpl, token: PetriNetToken)
      modifies this`joins
      ensures joins == old(joins) + [(node, token)]
    {
      joins := joins + [(node, token)];
    }
  }

  /** The token's exception handler: the exceptions reported to it, in order. */
  class ExceptionHandler {
    var reported: seq<(Exception, PetriNetToken)>

    constructor ()
      ensures reported == []
    {
      reported := [];
    }

    method ProcessException(e: Exception, token: PetriNetToken)
      modifies this`reported
      ensures reported == old(reported) + [(e, token)]
    {
      reported := reported + [(e, token)];
    }
  }

  /** The node on which navigation leaves the executing token: the destination of the last flow that
      reuses it, or the node it started on when every flow produces a new token. */
  function LastReusedDestination(flows: seq<ControlFlow>, start: NodeImpl): NodeImpl {
    if flows == [] then start
    else if !CreatesToken(flows[|flows| - 1]) then flows[|flows| - 1].destination
    else LastReusedDestination(flows[..|flows| - 1], start)
  }

  /** When every flow creates a token, the executing token stays where it started. */
  lemma {:induction false} AllCreatingKeepsStart(flows: seq<ControlFlow>, start: NodeImpl)
    requires forall i :: 0 <= i < |flows| ==> CreatesToken(flows[i])
    ensures LastReusedDestination(flows, start) == start
  {
    if flows != [] {
      var init := flows[..|flows| - 1];
      assert forall i :: 0 <= i < |init| ==> init[i] == flows[i];
      AllCreatingKeepsStart(init, start);
    }
  }

  /** Otherwise it ends on the destination of the last flow that does not create a token. */
  lemma {:induction false} EndsAtLastReused(flows: seq<ControlFlow>, start: NodeImpl, i: nat)
    requires i < |flows| && !CreatesToken(flows[i])
    requires forall j :: i < j < |flows| ==> CreatesToken(flows[j])
    ensures LastReusedDestination(flows, start) == flows[i].destination
  {
    if i < |flows| - 1 {
      var init := flows[..|flows| - 1];
      assert init[i] == flows[i];
      assert forall j :: i < j < |init| ==> init[j] == flows[j];
      EndsAtLastReused(init, start, i);
    }
  }

  /** The token that travelled `flow` when `from` navigated: after a Petri transition a child of `from` on
      the flow's destination with the flow as its last taken flow, sharing the instance, navigator and
      exception handler of `from` and with no joined tokens or internal variables yet; otherwise `from` itself. */
  ghost predicate Travelled(flow: ControlFlow, token: PetriNetToken, from: PetriNetToken)
    reads if CreatesToken(flow) then {token} else {}
  {
    if CreatesToken(flow) then
      && token.currentNode == flow.destination
      && token.lastTakenControlFlow == Some(flow)
      && token.parentToken == from
      && token.instance == from.instance
      && token.navigator == from.navigator
      && token.exceptionHandler == from.exceptionHandler
      && token.joinedTokens == None
      && token.internalVariables == None
    else token == from
  }

  class PetriNetToken {
    var currentNode: NodeImpl
    var lastTakenControlFlow: Option<ControlFlow>
    const parentToken: PetriNetToken?
    const instance: ProcessInstance
    const navigator: Navigator
    const exceptionHandler: ExceptionHandler
    var joinedTokens: Option<seq<PetriNetToken>>
    var internalVariables: Option<map<string, Value>>

    /** A first token of an instance: no last taken flow and no parent. */
    constructor (startNode: NodeImpl, instance: ProcessInstance, navigator: Navigator, handler: ExceptionHandler)
      ensures currentNode == startNode && lastTakenControlFlow == None && parentToken == null
      ensures this.instance == instance && this.navigator == navigator && exceptionHandler == handler
      ensures joinedTokens == None && internalVariables == None
    {
      currentNode := startNode;
      lastTakenControlFlow := None;
      parentToken := null;
      this.instance := instance;
      this.navigator := navigator;
      exceptionHandler := handler;
      joinedTokens := None;
      internalVariables := None;
    }

    /** A token with a last taken flow and a parent, when it is a child token. */
    constructor Child(startNode: NodeImpl, lastTaken: Option<ControlFlow>, parent: PetriNetToken?,
                      instance: ProcessInstance, navigator: Navigator, handler: ExceptionHandler)
      ensures currentNode == startNode && lastTakenControlFlow == lastTaken && parentToken == parent
      ensures this.instance == instance && this.navigator == navigator && exceptionHandler == handler
      ensures joinedTokens == None && internalVariables == None
    {
      currentNode := startNode;
      lastTakenControlFlow := lastTaken;
      parentToken := parent;
      this.instance := instance;
      this.navigator := navigator;
      exceptionHandler := handler;
      joinedTokens := None;
      internalVariables := None;
    }

    /** Moves this token to `node`; nothing else about it changes. */
    method SetCurrentNode(node: NodeImpl)
      modifies this`currentNode
      ensures currentNode == node
    {
      currentNode := node;
    }

    /** A child token of this one on `node`, reached over `flow`. */
    method CreateToken(node: NodeImpl, flow: ControlFlow) returns (token: PetriNetToken)
      ensures fresh(token)
      ensures token.currentNode == node && token.lastTakenControlFlow == Some(flow) && token.parentToken == this
      ensures token.instance == instance && token.navigator == navigator && token.exceptionHandler == exceptionHandler
      ensures token.joinedTokens == None && token.internalVariables == None
    {
      token := new PetriNetToken.Child(node, Some(flow), this, instance, navigator, exceptionHandler);
    }

    /** Parks this token in the navigator's suspended registry. */
    method Suspend()
      modifies navigator`suspended
      ensures navigator.suspended == old(navigator.suspended) + {this}
    {
      navigator.AddSuspendToken(this);
    }

    /** A stub: resuming a Petri-net token does nothing. */
    method Resume(resumeObject: Value)
      ensures unchanged(this, navigator, instance, exceptionHandler)
    {
    }

    /** A stub: cancelling a Petri-net token does nothing. */
    method CancelExecution()
      ensures unchanged(this, navigator, instance, exceptionHandler)
    {
    }

    /** A stub: Petri-net tokens are never suspendable. */
    function IsSuspandable(): (suspendable: bool)
      ensures !suspendable
    {
      false
    }

    /** A stub: a Petri-net token reports no activity state (`null`). */
    function CurrentActivityState(): (state: Option<ActivityState>)
      ensures state == None
    {
      None
    }

    /** The token that travels one control flow, moved onto the flow's destination. */
    method NavigateAlong(flow: ControlFlow) returns (token: PetriNetToken)
      modifies this`currentNode
      ensures Travelled(flow, token, this)
      ensures CreatesToken(flow) ==> fresh(token) && currentNode == old(currentNode)
      ensures !CreatesToken(flow) ==> currentNode == flow.destination
    {
      var node := flow.destination;
      // Only create a new token if a Petri transition was before.
      if CreatesToken(flow) {
        token := CreateToken(node, flow);
      } else {
        token := this;
      }
      token.SetCurrentNode(node);
    }

    /** Maps each control flow, in order, to the token that travels it: a new child token after a
        transition, this token otherwise. An empty list is reported as a `NoValidPathException`. */
    method NavigateTo(flows: seq<ControlFlow>) returns (tokens: seq<PetriNetToken>)
      modifies this`currentNode, exceptionHandler`reported
      ensures |tokens| == |flows|
      ensures flows == [] ==> exceptionHandler.reported == old(exceptionHandler.reported) + [(NoValidPath, this)]
      ensures flows != [] ==> exceptionHandler.reported == old(exceptionHandler.reported)
      ensures forall i :: 0 <= i < |flows| ==> Travelled(flows[i], tokens[i], this)
      ensures forall i :: 0 <= i < |flows| && CreatesToken(flows[i]) ==> fresh(tokens[i])
      ensures forall i, j :: 0 <= i < j < |flows| && CreatesToken(flows[i]) && CreatesToken(flows[j]) ==>
        tokens[i] != tokens[j]
      ensures currentNode == LastReusedDestination(flows, old(currentNode))
    {
      tokens := [];
      if |flows| == 0 {
        exceptionHandler.ProcessException(NoValidPath, this);
      } else {
        tokens := NavigateEach(flows);
      }
    }

    /** The loop of `NavigateTo` over a non-empty list of control flows. */
    method NavigateEach(flows: seq<ControlFlow>) returns (tokens: seq<PetriNetToken>)
      modifies this`currentNode
      ensures |tokens| == |flows|
      ensures forall i :: 0 <= i < |flows| ==> Travelled(flows[i], tokens[i], this)
      ensures forall i :: 0 <= i < |flows| && CreatesToken(flows[i]) ==> fresh(tokens[i])
      ensures forall i, j :: 0 <= i < j < |flows| && CreatesToken(flows[i]) && CreatesToken(flows[j]) ==>
        tokens[i] != tokens[j]
      ensures currentNode == LastReusedDestination(flows, old(currentNode))
    {
      tokens := [];
      for i := 0 to |flows|
        invariant |tokens| == i
        invariant forall k :: 0 <= k < i ==> Travelled(flows[k], tokens[k], this)
        invariant forall k :: 0 <= k < i && CreatesToken(flows[k]) ==> fresh(tokens[k])
        invariant forall k, l :: 0 <= k < l < i && CreatesToken(flows[k]) && CreatesToken(flows[l]) ==>
          tokens[k] != tokens[l]
        invariant currentNode == LastReusedDestination(flows[..i], old(currentNode))
      {
        var newToken := NavigateAlong(flows[i]);
        tokens := tokens + [newToken];
        assert flows[..i + 1][..i] == flows[..i];
      }
      assert flows[..|flows|] == flows;
    }

    /** One step of a token standing on a place: split at the place, join at the transition the split moved
        the token to, split at the transition and enqueue every resulting token. */
    method ExecuteStep(split: (NodeImpl, seq<PetriNetToken>) -> SplitOutcome, incoming: JoinLog)
      returns (r: StepResult)
      modifies this, instance, navigator, incoming
      // A cancelled instance: its tokens are dropped and nothing else happens.
      ensures old(instance.cancelled) ==>
        && r == Done && instance.assignedTokens == [] && instance.cancelled
        && unchanged(this, navigator, incoming)
      ensures !old(instance.cancelled) ==> unchanged(instance)
      ensures unchanged(this`lastTakenControlFlow)
      // The place has no outgoing behaviour.
      ensures !old(instance.cancelled) && old(currentNode).outgoingBehaviour.None? ==>
        r == Thrown(NullPointer) && unchanged(this, navigator, incoming)
      // The place's split returns null: the lock is released and no work is added.
      ensures !old(instance.cancelled) && old(currentNode).outgoingBehaviour.Some? &&
              split(old(currentNode), [this]).NoTokens? ==>
        && r == Done
        && navigator.lockReleased == old(navigator.lockReleased) + [this]
        && unchanged(navigator`workQueue, navigator`suspended)
        && unchanged(this, incoming)
      // Otherwise: join on the first successor and enqueue the second split's tokens, in order.
      ensures !old(instance.cancelled) && old(currentNode).outgoingBehaviour.Some? &&
              split(old(currentNode), [this]).Tokens? ==>
        var first := split(old(currentNode), [this]);
        var transition := first.executingTokenAt;
        && unchanged(navigator`lockReleased, navigator`suspended)
        && (first.successors == [] ==>
              && r == Thrown(NoSuchElement) && currentNode == transition
              && unchanged(incoming, navigator`workQueue)
              && unchanged(this`joinedTokens, this`internalVariables))
        && (first.successors != [] && transition.incomingBehaviour.None? ==>
              && r == Thrown(NullPointer) && currentNode == transition
              && unchanged(incoming, navigator`workQueue)
              && unchanged(this`joinedTokens, this`internalVariables))
        && (first.successors != [] && transition.incomingBehaviour.Some? ==>
              incoming.joins == old(incoming.joins) + [(transition, first.successors[0])])
        && (first.successors != [] && transition.incomingBehaviour.Some? && transition.outgoingBehaviour.None? ==>
              && r == Thrown(NullPointer) && currentNode == transition
              && unchanged(navigator`workQueue)
              && unchanged(this`joinedTokens, this`internalVariables))
        && (first.successors != [] && transition.incomingBehaviour.Some? && transition.outgoingBehaviour.Some? ==>
              var second := split(transition, first.successors);
              && (second.NoTokens? ==>
                    && r == Thrown(NullPointer) && currentNode == transition
                    && unchanged(navigator`workQueue)
                    && joinedTokens == None && unchanged(this`internalVariables))
              && (second.Tokens? ==>
                    && r == Done && currentNode == second.executingTokenAt
                    && navigator.workQueue == old(navigator.workQueue) + second.successors
                    && joinedTokens == None && internalVariables == None))
    {
      if instance.cancelled {
        // Tokens created by a concurrent split may have been added after the instance was cancelled.
        instance.assignedTokens := [];
        return Done;
      }
      if currentNode.outgoingBehaviour.None? {
        return Thrown(NullPointer);
      }
      var first := split(currentNode, [this]);
      if first.NoTokens? {
        navigator.ReleaseLock(this);
        return Done;
      }
      // The split has moved this token on to the transition after the place.
      currentNode := first.executingTokenAt;
      if first.successors == [] {
        return Thrown(NoSuchElement);
      }
      if currentNode.incomingBehaviour.None? {
        return Thrown(NullPointer);
      }
      incoming.Join(currentNode, first.successors[0]);
      if currentNode.outgoingBehaviour.None? {
        return Thrown(NullPointer);
      }
      var second := split(currentNode, first.successors);
      if second.NoTokens? {
        joinedTokens := None;
        return Thrown(NullPointer);
      }
      currentNode := second.executingTokenAt;
      joinedTokens := Some(second.successors);
      var i := 0;
      while i < |second.successors|
        invariant 0 <= i <= |second.successors|
        invariant navigator.workQueue == old(navigator.workQueue) + second.successors[..i]
        modifies navigator`workQueue
      {
        navigator.AddWorkToken(second.successors[i]);
        assert second.successors[..i + 1] == second.successors[..i] + [second.successors[i]];
        i := i + 1;
      }
      assert second.successors[..i] == second.successors;
      joinedTokens := None;
      internalVariables := None;
      return Done;
    }
  }
}
