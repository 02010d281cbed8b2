/**
  The world server's API action queue. HTTP handlers call `Run` to hand an
  action to the world thread and get back a waiter; the world thread's
  `Update` takes every action queued at that moment and runs each once,
  releasing its waiter when it has run. An action that throws never
  releases its waiter, and `Update` then fails once every taken action has
  run. The model is sequential: the
  concurrent queue, the tasks and the semaphore are reduced to a `seq`, a
  loop and a `done` flag.
*/
module ApiQueue {

  /**
    An action as far as the queue can see it: `tag` identifies it,
    `followUps` are the actions it hands to `Run` itself while it runs, and
    `throws` says that it ends with an exception, after handing those over.
  */
  datatype Action = Action(tag: nat, followUps: seq<Action>, throws: bool)

  /** An action waiting to run, with the waiter its caller holds. */
  class PendingAction {
    const action: Action
    /** The waiter has been released. */
    var done: bool
    /** Where in the manager's run log this action's execution was recorded. */
    ghost var runIndex: int

    constructor (action: Action)
      ensures this.action == action && !done
    {
      this.action := action;
      done := false;
      runIndex := -1;
    }
  }

  function ActionsOf(ps: seq<PendingAction>): (r: seq<Action>)
  {
    seq(|ps|, k requires 0 <= k < |ps| => ps[k].action)
  }

  /** Everything the given actions enqueue while they run, action by action. */
  function AllFollowUps(ps: seq<PendingAction>): seq<Action>
  {
    if ps == [] then [] else AllFollowUps(ps[..|ps| - 1]) + ps[|ps| - 1].action.followUps
  }

  /** Running `ps[i]` after `ps[..i]` extends both the run log and the follow-ups by its share. */
  lemma RunStep(ran: seq<Action>, ps: seq<PendingAction>, i: nat)
    requires i < |ps|
    ensures ran + ActionsOf(ps[..i]) + [ps[i].action] == ran + ActionsOf(ps[..i + 1])
    ensures AllFollowUps(ps[..i + 1]) == AllFollowUps(ps[..i]) + ps[i].action.followUps
  {
    assert ps[..i + 1][..i] == ps[..i];
  }

  /** No waiter appears twice. */
  predicate Distinct(ps: seq<PendingAction>)
  {
    forall j, k :: 0 <= j < k < |ps| ==> ps[j] != ps[k]
  }

  /** Some action of `ps` throws. */
  predicate AnyThrows(ps: seq<PendingAction>)
  {
    exists k :: 0 <= k < |ps| && ps[k].action.throws
  }

  lemma ThrowsStep(ps: seq<PendingAction>, i: nat)
    requires i < |ps|
    ensures AnyThrows(ps[..i + 1]) <==> AnyThrows(ps[..i]) || ps[i].action.throws
  {
    assert ps[..i + 1][..i] == ps[..i];
    assert ps[..i + 1][i] == ps[i];
  }

  class ApiManager {
    /** The queue of actions not yet taken by `Update`, oldest first. */
    var pendingActions: seq<PendingAction>
    /** Every action that has run, in the order the model ran them. */
    ghost var ran: seq<Action>

    ghost predicate Valid()
      reads this, pendingActions
    {
      && (forall k :: 0 <= k < |pendingActions| ==> !pendingActions[k].done)
      && Distinct(pendingActions)
    }

    constructor ()
      ensures Valid() && pendingActions == [] && ran == []
    {
      pendingActions := [];
      ran := [];
    }

    /** Queues `action` and returns the waiter that is released once it has run. */
    method Run(action: Action) returns (waiter: PendingAction)
      requires Valid()
      modifies this
      ensures Valid()
      ensures fresh(waiter) && waiter.action == action && !waiter.done
      ensures pendingActions == old(pendingActions) + [waiter]
      ensures ran == old(ran)
    {
      waiter := new PendingAction(action);
      pendingActions := pendingActions + [waiter];
    }

    /**
      Takes every action queued at the start of the call and runs each once.
      Actions those actions enqueue stay queued for the next call. The call
      fails (`faulted`) when some taken action threw; the others have still
      run and released their waiters by then.
    */
    method Update() returns (drained: seq<PendingAction>, faulted: bool)
      requires Valid()
      modifies this, pendingActions
      ensures Valid()
      ensures drained == old(pendingActions)
      ensures ran == old(ran) + ActionsOf(drained)
      ensures forall k :: 0 <= k < |drained| ==>
                drained[k].done == !drained[k].action.throws && drained[k].runIndex == |old(ran)| + k
      ensures faulted <==> AnyThrows(drained)
      ensures ActionsOf(pendingActions) == AllFollowUps(drained)
      ensures forall k :: 0 <= k < |pendingActions| ==> fresh(pendingActions[k])
    {
      drained := TakeAll();
      RunDrained(drained);
      faulted := WaitAll(drained);
    }

    /** The first half of `Update`: empties the queue into a list, oldest first. */
    method TakeAll() returns (taken: seq<PendingAction>)
      requires Valid()
      modifies this
      ensures Valid() && pendingActions == [] && ran == old(ran)
      ensures taken == old(pendingActions)
      ensures forall k :: 0 <= k < |taken| ==> !taken[k].done
      ensures Distinct(taken)
    {
      taken := [];
      while pendingActions != []
        invariant taken + pendingActions == old(pendingActions)
        invariant ran == old(ran)
        decreases |pendingActions|
      {
        var pa := pendingActions[0];
        pendingActions := pendingActions[1..];
        taken := taken + [pa];
      }
      assert taken == old(pendingActions);
    }

    /** The second half of `Update`: runs every taken action, one task each. */
    method RunDrained(pending: seq<PendingAction>)
      requires Valid() && pendingActions == []
      requires forall k :: 0 <= k < |pending| ==> !pending[k].done
      requires Distinct(pending)
      modifies this, pending
      ensures Valid()
      ensures ran == old(ran) + ActionsOf(pending)
      ensures forall k :: 0 <= k < |pending| ==>
                pending[k].done == !pending[k].action.throws && pending[k].runIndex == |old(ran)| + k
      ensures ActionsOf(pendingActions) == AllFollowUps(pending)
      ensures forall k :: 0 <= k < |pendingActions| ==> fresh(pendingActions[k])
    {
      var i := 0;
      while i < |pending|
        invariant 0 <= i <= |pending|
        invariant Valid()
        invariant ran == old(ran) + ActionsOf(pending[..i])
        invariant forall k :: 0 <= k < i ==>
                    pending[k].done == !pending[k].action.throws && pending[k].runIndex == |old(ran)| + k
        invariant forall k :: i <= k < |pending| ==> !pending[k].done
        invariant ActionsOf(pendingActions) == AllFollowUps(pending[..i])
        invariant forall k :: 0 <= k < |pendingActions| ==> fresh(pendingActions[k])
      {
        RunOne(pending[i]);
        RunStep(old(ran), pending, i);
        i := i + 1;
      }
      assert pending[..i] == pending;
    }

    /**
      `Task.WaitAll` over the tasks of the taken actions: it fails once every
      task has finished if any of them threw.
    */
    method WaitAll(pending: seq<PendingAction>) returns (faulted: bool)
      ensures faulted <==> AnyThrows(pending)
    {
      faulted := false;
      for i := 0 to |pending|
        invariant faulted <==> AnyThrows(pending[..i])
      {
        ThrowsStep(pending, i);
        faulted := faulted || pending[i].action.throws;
      }
      assert pending[..|pending|] == pending;
    }

    /**
      Runs one taken action: its body may queue follow-ups; then its waiter
      is released, unless the action threw.
    */
    method RunOne(p: PendingAction)
      requires Valid() && !p.done && p !in pendingActions
      modifies this, p
      ensures Valid() && p.done == !p.action.throws
      ensures ran == old(ran) + [p.action] && p.runIndex == |ran| - 1
      ensures ActionsOf(pendingActions) == ActionsOf(old(pendingActions)) + p.action.followUps
      ensures forall k :: |old(pendingActions)| <= k < |pendingActions| ==> fresh(pendingActions[k])
      ensures pendingActions[..|old(pendingActions)|] == old(pendingActions)
    {
      ran := ran + [p.action];
      p.runIndex := |ran| - 1;
      EnqueueAll(p.action.followUps);
      assert forall k :: 0 <= k < |pendingActions| ==> pendingActions[k] != p;
      assert ActionsOf(pendingActions) == ActionsOf(old(pendingActions)) + p.action.followUps;
      p.done := !p.action.throws;
    }

    /** What a running action's body does with its follow-ups: hands each to `Run`, in order. */
    method EnqueueAll(actions: seq<Action>)
      requires Valid()
      modifies this
      ensures Valid() && ran == old(ran)
      ensures |pendingActions| == |old(pendingActions)| + |actions|
      ensures pendingActions[..|old(pendingActions)|] == old(pendingActions)
      ensures forall k :: |old(pendingActions)| <= k < |pendingActions| ==>
                fresh(pendingActions[k]) && pendingActions[k].action == actions[k - |old(pendingActions)|]
    {
      ghost var start := |pendingActions|;
      var f := 0;
      while f < |actions|
        invariant 0 <= f <= |actions|
        invariant Valid() && ran == old(ran)
        invariant |pendingActions| == start + f
        invariant pendingActions[..start] == old(pendingActions)
        invariant forall k :: start <= k < |pendingActions| ==>
                    fresh(pendingActions[k]) && pendingActions[k].action == actions[k - start]
      {
        var _ := Run(actions[f]);
        f := f + 1;
      }
    }
  }
}
