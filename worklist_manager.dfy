/** The worklist manager: it puts work items into the worklists of resources and forwards claim,
    begin and completion to them. The worklists themselves are abstract here: each resource, identified
    by its (type, id) key, owns a list of items and a log of the notifications it received. */
module Worklists {
  import opened Wrappers
  import opened Runtime

  /** Resources are identified by their type and id, which is what their equality compares. */
  datatype ResourceKey = ResourceKey(resourceType: string, id: Uuid)

  datatype WorklistItem = WorklistItem(id: nat, assignedResources: set<ResourceKey>, correspondingToken: nat)

  /** The notifications a worklist receives. */
  datatype Event =
    | AllocatedBy(item: WorklistItem, resource: ResourceKey)
    | Started(item: WorklistItem)
    | Completed(item: WorklistItem)

  datatype Worklist = Worklist(items: seq<WorklistItem>, events: seq<Event>)

  const EmptyWorklist: Worklist := Worklist([], [])

  class WorklistManager {
    var worklists: map<ResourceKey, Worklist>
    /** The tokens resumed after their work item was completed, in order. */
    var resumedTokens: seq<nat>

    constructor ()
      ensures worklists == map[] && resumedTokens == []
    {
      worklists := map[];
      resumedTokens := [];
    }

    /** The worklist of a resource; a resource nothing was added to has an empty one. */
    function WorklistOf(resource: ResourceKey): Worklist
      reads this
    {
      if resource in worklists then worklists[resource] else EmptyWorklist
    }

    function GetWorklistItems(resource: ResourceKey): (items: seq<WorklistItem>)
      reads this
      ensures items == WorklistOf(resource).items
      ensures resource !in worklists ==> items == []
    {
      WorklistOf(resource).items
    }

    method AddWorklistItem(item: WorklistItem, resource: ResourceKey)
      modifies this`worklists
      ensures WorklistOf(resource).items == old(WorklistOf(resource).items) + [item]
      ensures WorklistOf(resource).events == old(WorklistOf(resource).events)
      ensures forall r :: r != resource ==> WorklistOf(r) == old(WorklistOf(r))
    {
      var w := WorklistOf(resource);
      worklists := worklists[resource := w.(items := w.items + [item])];
    }

    /** Adds the item once to the worklist of every resource in the set and to no other. */
    method AddWorklistItemToAll(item: WorklistItem, resources: set<ResourceKey>)
      modifies this`worklists
      ensures forall r :: r in resources ==> WorklistOf(r).items == old(WorklistOf(r).items) + [item]
      ensures forall r :: r in resources ==> WorklistOf(r).events == old(WorklistOf(r).events)
      ensures forall r :: r !in resources ==> WorklistOf(r) == old(WorklistOf(r))
    {
      var remaining := resources;
      ghost var done: set<ResourceKey> := {};
      while remaining != {}
        invariant remaining + done == resources && remaining !! done
        invariant forall r :: r in done ==> WorklistOf(r).items == old(WorklistOf(r).items) + [item]
        invariant forall r :: r in done ==> WorklistOf(r).events == old(WorklistOf(r).events)
        invariant forall r :: r !in done ==> WorklistOf(r) == old(WorklistOf(r))
        decreases remaining
      {
        var resource :| resource in remaining;
        AddWorklistItem(item, resource);
        remaining := remaining - {resource};
        done := done + {resource};
      }
    }

    /** The items of each listed resource, keyed by exactly the listed resources. */
    method GetWorklistItemsFor(resources: seq<ResourceKey>) returns (result: map<ResourceKey, seq<WorklistItem>>)
      ensures forall r :: r in result <==> r in resources
      ensures forall r :: r in result ==> result[r] == GetWorklistItems(r)
    {
      result := map[];
      for i := 0 to |resources|
        invariant forall r :: r in result <==> r in resources[..i]
        invariant forall r :: r in result ==> result[r] == GetWorklistItems(r)
      {
        result := result[resources[i] := GetWorklistItems(resources[i])];
      }
    }

    /** Tells the claimer and every assigned resource, once each, that `resource` allocated the item. */
    method ClaimWorklistItemBy(item: WorklistItem, resource: ResourceKey)
      modifies this`worklists
      ensures forall r :: r == resource || r in item.assignedResources ==>
        WorklistOf(r) == old(WorklistOf(r)).(events := old(WorklistOf(r).events) + [AllocatedBy(item, resource)])
      ensures forall r :: r != resource && r !in item.assignedResources ==> WorklistOf(r) == old(WorklistOf(r))
    {
      var toNotify := {resource} + item.assignedResources;
      ghost var done: set<ResourceKey> := {};
      var remaining := toNotify;
      while remaining != {}
        invariant remaining + done == toNotify && remaining !! done
        invariant forall r :: r in done ==>
          WorklistOf(r) == old(WorklistOf(r)).(events := old(WorklistOf(r).events) + [AllocatedBy(item, resource)])
        invariant forall r :: r !in done ==> WorklistOf(r) == old(WorklistOf(r))
        decreases remaining
      {
        var target :| target in remaining;
        var w := WorklistOf(target);
        worklists := worklists[target := w.(events := w.events + [AllocatedBy(item, resource)])];
        remaining := remaining - {target};
        done := done + {target};
      }
    }

    /** Marks the item started in the given resource's worklist only. */
    method BeginWorklistItemBy(item: WorklistItem, resource: ResourceKey)
      modifies this`worklists
      ensures WorklistOf(resource) == old(WorklistOf(resource)).(events := old(WorklistOf(resource).events) + [Started(item)])
      ensures forall r :: r != resource ==> WorklistOf(r) == old(WorklistOf(r))
    {
      var w := WorklistOf(resource);
      worklists := worklists[resource := w.(events := w.events + [Started(item)])];
    }

    /** Aborting is not implemented: nothing changes. */
    method AbortWorklistItemBy(item: WorklistItem, resource: ResourceKey)
      ensures unchanged(this)
    {
    }

    /** Marks the item completed in the resource's worklist, then resumes the item's token.
        `resumeFailure` is the message of the exception the resume throws, if it throws; it comes
        back as a runtime exception with the same message, after the completion was recorded. */
    method CompleteWorklistItemBy(item: WorklistItem, resource: ResourceKey, resumeFailure: Option<string>)
      returns (error: Option<Exception>)
      modifies this
      ensures WorklistOf(resource) == old(WorklistOf(resource)).(events := old(WorklistOf(resource).events) + [Completed(item)])
      ensures forall r :: r != resource ==> WorklistOf(r) == old(WorklistOf(r))
      ensures resumeFailure.None? ==> error == None && resumedTokens == old(resumedTokens) + [item.correspondingToken]
      ensures resumeFailure.Some? ==>
        error == Some(DalmatinaRuntime(resumeFailure.value)) && resumedTokens == old(resumedTokens)
    {
      var w := WorklistOf(resource);
      worklists := worklists[resource := w.(events := w.events + [Completed(item)])];
      if resumeFailure.Some? {
        return Some(DalmatinaRuntime(resumeFailure.value));
      }
      resumedTokens := resumedTokens + [item.correspondingToken];
      return None;
    }
  }
}
