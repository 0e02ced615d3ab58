/**
  The registry of background sync tasks. Each execute phase creates one
  task per discovered account and adds the batch to the registry; a task's
  completion callback discards it; on shutdown every registered task gets a
  cancellation request and all of them are awaited with their failures
  collected rather than raised. The event loop runs all of this on one
  thread, so the registry is a plain set updated step by step.
*/
module Registry {
  import Discovery

  /** A task's identity; a newly created task gets an id never used before. */
  type TaskId = nat

  /** How an awaited task ended: the value gather collects for it. */
  datatype Fate = Finished | Cancelled | Failed(reason: string)

  /**
    The tasks that an execute phase creates, one per account, numbered from
    `first` on: their ids in creation order, and the same ids as a set.
  */
  method NewTasks(first: TaskId, count: nat) returns (batch: seq<TaskId>, created: set<TaskId>)
    ensures |batch| == count && |created| == count
    ensures forall k :: 0 <= k < count ==> batch[k] == first + k
    ensures forall t :: t in created <==> first <= t < first + count
    ensures forall t :: t in created <==> t in batch
  {
    created := {};
    batch := [];
    for i := 0 to count
      invariant |batch| == i
      invariant forall k :: 0 <= k < i ==> batch[k] == first + k
      invariant forall t :: t in created <==> first <= t < first + i
      invariant |created| == i
    {
      var t := first + i;
      assert t !in created;
      created := created + {t};
      batch := batch + [t];
    }
    forall t | t in created ensures t in batch {
      assert batch[t - first] == t;
    }
  }

  class TaskRegistry {
    /** The registered tasks. */
    var tasks: set<TaskId>
    /** The tasks that have been asked to cancel. */
    var cancelRequested: set<TaskId>
    /** The id the next created task gets. */
    var nextId: TaskId

    /** The channel each task ever created syncs, indexed by task id. */
    ghost var channelOf: seq<string>
    /** Every task ever created. */
    ghost var dispatched: set<TaskId>
    /** The tasks whose completion callback has run. */
    ghost var completed: set<TaskId>

    ghost predicate Valid()
      reads this
    {
      && tasks == dispatched - completed
      && completed <= dispatched
      && cancelRequested <= dispatched
      && |channelOf| == nextId
      && forall t: TaskId :: t in dispatched <==> t < nextId
    }

    constructor ()
      ensures Valid()
      ensures tasks == {} && cancelRequested == {}
      ensures dispatched == {} && completed == {}
    {
      tasks, cancelRequested, nextId := {}, {}, 0;
      channelOf, dispatched, completed := [], {}, {};
    }

    /**
      The creation of one task per account, in the order given, and their
      registration (background_tasks.update).
    */
    method Dispatch(accounts: seq<string>) returns (batch: seq<TaskId>)
      requires Valid()
      modifies this
      ensures Valid()
      ensures |batch| == |accounts|
      ensures forall k :: 0 <= k < |batch| ==> batch[k] == old(nextId) + k && batch[k] !in old(dispatched)
      ensures forall j, k :: 0 <= j < k < |batch| ==> batch[j] != batch[k]
      ensures channelOf == old(channelOf) + accounts
      ensures forall k :: 0 <= k < |batch| ==> channelOf[batch[k]] == accounts[k]
      ensures forall t :: t in dispatched <==> t in old(dispatched) || t in batch
      ensures forall t :: t in tasks <==> t in old(tasks) || t in batch
      ensures |tasks| == |old(tasks)| + |batch|
      ensures completed == old(completed) && cancelRequested == old(cancelRequested)
    {
      var first := nextId;
      var created;
      batch, created := NewTasks(first, |accounts|);
      assert tasks * created == {};
      assert forall t: TaskId :: t in dispatched + created <==> t < first + |accounts|;
      nextId := first + |accounts|;
      channelOf := channelOf + accounts;
      dispatched := dispatched + created;
      tasks := tasks + created;
      forall k | 0 <= k < |batch| ensures channelOf[batch[k]] == accounts[k] {
        assert channelOf[first + k] == accounts[k];
      }
    }

    /**
      An execute phase over a listing of the accounts directory: one new task
      per discovered account, in discovery order, all added to the registry.
    */
    method Execute(entries: seq<string>) returns (batch: seq<TaskId>)
      requires Valid()
      modifies this
      ensures Valid()
      ensures |batch| == |Discovery.Discover(entries)|
      ensures forall k :: 0 <= k < |batch| ==> batch[k] == old(nextId) + k && batch[k] !in old(dispatched)
      ensures forall j, k :: 0 <= j < k < |batch| ==> batch[j] != batch[k]
      ensures channelOf == old(channelOf) + Discovery.Discover(entries)
      ensures forall k :: 0 <= k < |batch| ==> channelOf[batch[k]] == Discovery.Discover(entries)[k]
      ensures forall t :: t in tasks <==> t in old(tasks) || t in batch
      ensures |tasks| == |old(tasks)| + |batch|
      ensures forall t :: t in dispatched <==> t in old(dispatched) || t in batch
      ensures completed == old(completed) && cancelRequested == old(cancelRequested)
    {
      batch := Dispatch(Discovery.Discover(entries));
    }

    /** The completion callback of a task: discards it, if it is still registered. */
    method Complete(t: TaskId)
      requires Valid()
      modifies this
      ensures Valid()
      ensures tasks == old(tasks) - {t}
      ensures t !in old(tasks) ==> tasks == old(tasks)
      ensures completed == old(completed) + ({t} * dispatched)
      ensures dispatched == old(dispatched) && channelOf == old(channelOf)
      ensures cancelRequested == old(cancelRequested) && nextId == old(nextId)
    {
      tasks := tasks - {t};
      completed := completed + ({t} * dispatched);
    }

    /** The first step of shutdown: every registered task is asked to cancel. */
    method CancelAll()
      requires Valid()
      modifies this
      ensures Valid()
      ensures cancelRequested == old(cancelRequested) + tasks
      ensures tasks == old(tasks) && nextId == old(nextId)
      ensures dispatched == old(dispatched) && completed == old(completed) && channelOf == old(channelOf)
    {
      var pending := tasks;
      while pending != {}
        invariant pending <= tasks
        invariant cancelRequested == old(cancelRequested) + (tasks - pending)
        invariant tasks == old(tasks) && nextId == old(nextId)
        invariant dispatched == old(dispatched) && completed == old(completed) && channelOf == old(channelOf)
        decreases pending
      {
        var t :| t in pending;
        cancelRequested := cancelRequested + {t};
        pending := pending - {t};
      }
    }

    /**
      The second step of shutdown: every registered task is awaited and ends
      with the fate given for it; its callback discards it; the fates are
      collected, failures included, so none escapes.
    */
    method Drain(fate: TaskId -> Fate) returns (results: map<TaskId, Fate>)
      requires Valid()
      modifies this
      ensures Valid()
      ensures results.Keys == old(tasks)
      ensures forall t :: t in results ==> results[t] == fate(t)
      ensures tasks == {}
      ensures completed == old(completed) + old(tasks)
      ensures dispatched == old(dispatched) && channelOf == old(channelOf)
      ensures cancelRequested == old(cancelRequested) && nextId == old(nextId)
    {
      results := map[];
      var pending := tasks;
      while pending != {}
        invariant Valid()
        invariant tasks == pending
        invariant results.Keys == old(tasks) - pending
        invariant forall t :: t in results ==> results[t] == fate(t)
        invariant completed == old(completed) + (old(tasks) - pending)
        invariant dispatched == old(dispatched) && channelOf == old(channelOf)
        invariant cancelRequested == old(cancelRequested) && nextId == old(nextId)
        decreases pending
      {
        var t :| t in pending;
        results := results[t := fate(t)];
        Complete(t);
        pending := pending - {t};
      }
    }

    /** The shutdown of the fetcher: cancel every registered task, then drain them all. */
    method Shutdown(fate: TaskId -> Fate) returns (results: map<TaskId, Fate>)
      requires Valid()
      modifies this
      ensures Valid()
      ensures cancelRequested == old(cancelRequested) + old(tasks)
      ensures results.Keys == old(tasks)
      ensures forall t :: t in results ==> results[t] == fate(t)
      ensures tasks == {}
      ensures completed == dispatched
      ensures dispatched == old(dispatched) && channelOf == old(channelOf)
    {
      CancelAll();
      results := Drain(fate);
    }

    /**
      An execute phase followed by the completion callbacks of the given
      tasks, in the given order, repeats and strangers included: the
      registry loses exactly the completed tasks, so once every task of the
      batch has completed it is back to what it was.
    */
    method ExecuteAndSettle(entries: seq<string>, doneOrder: seq<TaskId>) returns (batch: seq<TaskId>)
      requires Valid()
      modifies this
      ensures Valid()
      ensures |batch| == |Discovery.Discover(entries)|
      ensures forall t :: t in tasks <==> (t in old(tasks) || t in batch) && t !in doneOrder
      ensures (forall t :: t in batch <==> t in doneOrder) ==> tasks == old(tasks)
    {
      batch := Execute(entries);
      ghost var afterExecute := tasks;
      for n := 0 to |doneOrder|
        invariant Valid()
        invariant forall t :: t in tasks <==> t in afterExecute && t !in doneOrder[..n]
      {
        assert doneOrder[..n + 1] == doneOrder[..n] + [doneOrder[n]];
        Complete(doneOrder[n]);
      }
      assert doneOrder[..|doneOrder|] == doneOrder;
    }
  }
}
