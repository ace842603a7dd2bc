/** The store as an object: methods update run, stage, attempt and reservation rows
    in place, statement by statement, and undo them on rollback. */
module RuntimeStore {
  import opened Contracts
  import opened Admission
  import opened Tables
  import Transactions
  import TableInvariant
  import opened RunProtocol
  import AtomicProtocol
  import ReclaimPass

  type Error = Transactions.Error
  type Reply<T> = Transactions.Reply<T>

  class Store {
    var runs: seq<RunRow>
    var stages: seq<StageRow>
    var attempts: seq<AttemptRow>
    var reservations: map<nat, Reservation>

    function View(): Db
      reads this
    {
      Db(runs, stages, attempts, reservations)
    }

    constructor ()
      ensures View() == EMPTY
    {
      runs, stages, attempts, reservations := [], [], [], map[];
    }

    method SubmitRun(c: Transactions.Catalog, s: Transactions.Submission) returns (reply: Reply<nat>)
      modifies this
      ensures View() == Transactions.After(old(View()), Transactions.SubmitRun(old(View()), c, s))
      ensures reply == Transactions.ReplyOf(Transactions.SubmitRun(old(View()), c, s))
      ensures forall config: Config :: TableInvariant.KeepsConsistent(config, old(View()), View())
    {
      TableInvariant.SubmitKeepsAll(View(), c, s);
      if !s.task.Valid() || s.key == Some("") { return Transactions.Raised(Transactions.InvalidArgument); }
      var existing := Transactions.Existing(View(), s);
      if existing.Some? {
        var r := existing.value;
        if !Transactions.ReferencesKnown(c, runs[r].task.stagedInputs) ||
           !Transactions.ReferencesKnown(c, s.task.stagedInputs) {
          return Transactions.Raised(Transactions.UnknownReference);
        }
        if !Transactions.Equivalent(c, runs[r].task, s.task) {
          return Transactions.Raised(Transactions.DifferentTask);
        }
        if |stages| <= r { return Transactions.Raised(Transactions.UnknownStage); }
        if stages[r].pluginVersion != s.pluginVersion {
          return Transactions.Raised(Transactions.DifferentVersion);
        }
        return Transactions.Returned(r);
      }
      var id := |runs|;
      runs := runs + [RunRow(s.key, s.task, Queued)];
      stages := stages + [StageRow(s.pluginVersion, s.resumable, Queued)];
      return Transactions.Returned(id);
    }

    method TransitionRun(r: nat, target: RunStatus) returns (reply: Reply<()>)
      modifies this
      ensures View() == Transactions.After(old(View()), Transactions.TransitionRun(old(View()), r, target))
      ensures reply == Transactions.ReplyOf(Transactions.TransitionRun(old(View()), r, target))
      ensures !Unclaimed(target) && !target.Preparing? ==>
                forall config: Config :: TableInvariant.KeepsConsistent(config, old(View()), View())
    {
      TableInvariant.TransitionKeepsAll(View(), r, target);
      if |runs| <= r { return Transactions.Raised(Transactions.UnknownRun); }
      var current := runs[r].status;
      if current == target { return Transactions.Returned(()); }
      if !RunTransitionAllowed(current, target) { return Transactions.Raised(Transactions.InvalidTransition); }
      runs := runs[r := runs[r].(status := target)];
      if r < |stages| && !Terminal(stages[r].status) {
        stages := stages[r := stages[r].(status := target)];
      }
      return Transactions.Returned(());
    }

    method RequestCancel(r: nat) returns (reply: Reply<()>)
      modifies this
      ensures View() == Transactions.After(old(View()), Transactions.RequestCancel(old(View()), r))
      ensures reply == Transactions.ReplyOf(Transactions.RequestCancel(old(View()), r))
      ensures forall config: Config :: TableInvariant.KeepsConsistent(config, old(View()), View())
    {
      TableInvariant.RequestsKeepAll(View(), r);
      if |runs| <= r { return Transactions.Raised(Transactions.UnknownRun); }
      if Terminal(runs[r].status) || runs[r].status.CancelRequested? { return Transactions.Returned(()); }
      reply := TransitionRun(r, CancelRequested);
    }

    method FailQueuedRun(r: nat) returns (reply: Reply<bool>)
      modifies this
      ensures View() == Transactions.After(old(View()), Transactions.FailQueuedRun(old(View()), r))
      ensures reply == Transactions.ReplyOf(Transactions.FailQueuedRun(old(View()), r))
      ensures forall config: Config :: TableInvariant.KeepsConsistent(config, old(View()), View())
    {
      TableInvariant.RequestsKeepAll(View(), r);
      if |runs| <= r { return Transactions.Raised(Transactions.UnknownRun); }
      var current := runs[r].status;
      if !current.Queued? && !current.Preparing? && !current.RetryWait? { return Transactions.Returned(false); }
      runs := runs[r := runs[r].(status := RunStatus.Failed)];
      if r < |stages| && !Terminal(stages[r].status) {
        stages := stages[r := stages[r].(status := RunStatus.Failed)];
      }
      return Transactions.Returned(true);
    }

    /** Inserts the attempt before it asks for room, and rolls back when there is none. */
    method StartAttempt(c: Transactions.Claim) returns (reply: Reply<nat>)
      requires c.capacity.Some? ==> 0 < c.capacity.value.den
      modifies this
      ensures View() == Transactions.After(old(View()), Transactions.StartAttempt(old(View()), c))
      ensures reply == Transactions.ReplyOf(Transactions.StartAttempt(old(View()), c))
    {
      if c.leaseSeconds <= 0 { return Transactions.Raised(Transactions.InvalidArgument); }
      if |stages| <= c.stage { return Transactions.Raised(Transactions.UnknownStage); }
      if !Unclaimed(stages[c.stage].status) { return Transactions.Raised(Transactions.InvalidTransition); }
      var a, saved := |attempts|, attempts;
      var number := MaxNumber(attempts, c.stage, a) + 1;
      attempts := attempts +
        [AttemptRow(c.stage, number, AttemptStatus.Running, c.worker, Some(c.now + c.leaseSeconds), None)];
      var want := Transactions.ClaimWant(c);
      if want.Some? {
        if want.value.memory == 0 {
          attempts := saved;
          return Transactions.Raised(Transactions.MemoryRequired);
        }
        if !Fits(c.capacity.value, CpuSum(reservations, a), MemorySum(reservations, a), want.value) {
          attempts := saved;
          return Transactions.Raised(Transactions.NoCapacity);
        }
        reservations := reservations[a := want.value];
      }
      stages := stages[c.stage := stages[c.stage].(status := RunStatus.Running)];
      if c.stage < |runs| &&
         (runs[c.stage].status.Queued? || runs[c.stage].status.Preparing? || runs[c.stage].status.RetryWait?) {
        runs := runs[c.stage := runs[c.stage].(status := RunStatus.Running)];
      }
      return Transactions.Returned(a);
    }

    method Heartbeat(a: nat, worker: string, now: int, leaseSeconds: int) returns (reply: Reply<()>)
      modifies this
      ensures View() == Transactions.After(old(View()), Transactions.Heartbeat(old(View()), a, worker, now, leaseSeconds))
      ensures reply == Transactions.ReplyOf(Transactions.Heartbeat(old(View()), a, worker, now, leaseSeconds))
      ensures forall config: Config :: TableInvariant.KeepsConsistent(config, old(View()), View())
    {
      TableInvariant.HeartbeatKeepsAll(View(), a, worker, now, leaseSeconds);
      if |attempts| <= a { return Transactions.Raised(Transactions.UnknownAttempt); }
      if attempts[a].worker != worker { return Transactions.Raised(Transactions.WrongWorker); }
      if !attempts[a].status.Running? { return Transactions.Raised(Transactions.InvalidTransition); }
      attempts := attempts[a := attempts[a].(lease := Some(now + leaseSeconds))];
      return Transactions.Returned(());
    }

    method FinishAttempt(a: nat, status: AttemptStatus, failure: Option<bool>) returns (reply: Reply<()>)
      modifies this
      ensures View() == Transactions.After(old(View()), Transactions.FinishAttempt(old(View()), a, status, failure))
      ensures reply == Transactions.ReplyOf(Transactions.FinishAttempt(old(View()), a, status, failure))
      ensures status.Succeeded? || status.Failed? ==>
                forall config: Config :: TableInvariant.KeepsConsistent(config, old(View()), View())
    {
      TableInvariant.FinishKeepsAll(View(), a, status, failure);
      if |attempts| <= a { return Transactions.Raised(Transactions.UnknownAttempt); }
      if !AttemptTransitionAllowed(attempts[a].status, status) {
        return Transactions.Raised(Transactions.InvalidTransition);
      }
      attempts := attempts[a := attempts[a].(status := status, lease := None, failure := failure)];
      reservations := reservations - {a};
      return Transactions.Returned(());
    }

    method ScheduleRetry(r: nat) returns (reply: Reply<()>)
      modifies this
      ensures View() == Transactions.After(old(View()), Transactions.ScheduleRetry(old(View()), r))
      ensures reply == Transactions.ReplyOf(Transactions.ScheduleRetry(old(View()), r))
      ensures TableInvariant.MayRequeue(old(View()), r) ==>
                forall config: Config :: TableInvariant.KeepsConsistent(config, old(View()), View())
    {
      TableInvariant.ScheduleRetryKeepsAll(View(), r);
      if |stages| <= r { return Transactions.Raised(Transactions.UnknownStage); }
      if !stages[r].status.Running? { return Transactions.Raised(Transactions.InvalidTransition); }
      if |runs| <= r { return Transactions.Raised(Transactions.UnknownRun); }
      if !RunTransitionAllowed(runs[r].status, RetryWait) { return Transactions.Raised(Transactions.InvalidTransition); }
      stages := stages[r := stages[r].(status := RetryWait)];
      runs := runs[r := runs[r].(status := RetryWait)];
      return Transactions.Returned(());
    }

    method RequestRetry(r: nat) returns (reply: Reply<()>)
      modifies this
      ensures View() == Transactions.After(old(View()), Transactions.RequestRetry(old(View()), r))
      ensures reply == Transactions.ReplyOf(Transactions.RequestRetry(old(View()), r))
      ensures forall config: Config :: TableInvariant.KeepsConsistent(config, old(View()), View())
    {
      TableInvariant.RequestsKeepAll(View(), r);
      if |runs| <= r { return Transactions.Raised(Transactions.UnknownRun); }
      var latest := if r < |stages| then Latest(attempts, r, |attempts|) else None;
      if !runs[r].status.Failed? { return Transactions.Raised(Transactions.InvalidTransition); }
      if latest.None? || attempts[latest.value].failure != Some(true) {
        return Transactions.Raised(Transactions.NotRetryable);
      }
      if runs[r].task.maxAttempts <= attempts[latest.value].number {
        return Transactions.Raised(Transactions.BudgetExhausted);
      }
      runs := runs[r := runs[r].(status := RetryWait)];
      stages := stages[r := stages[r].(status := RetryWait)];
      return Transactions.Returned(());
    }

    /** Requeue a lease-lost run if its capability and its budget allow it. */
    method MayResume(r: nat) returns (resumed: bool)
      modifies this
      ensures resumed == (Transactions.HasRoomToResume(old(View()), r) &&
                          Transactions.ScheduleRetry(old(View()), r).Committed?)
      ensures View() == if resumed then Transactions.ScheduleRetry(old(View()), r).db else old(View())
    {
      if |runs| <= r || |stages| <= r || !stages[r].resumable { return false; }
      if runs[r].task.maxAttempts <= Count(attempts, r, |attempts|) { return false; }
      var reply := ScheduleRetry(r);
      return reply.Returned?;
    }

    /** Mark every expired attempt whose process is gone, and collect their runs. */
    method MarkExpired(reference: int, gone: set<nat>) returns (ids: seq<nat>, runIds: set<nat>)
      modifies this
      ensures View() == ReclaimPass.MarkAll(old(View()), reference, gone, |old(attempts)|)
      ensures runIds == ReclaimPass.MarkedRuns(old(attempts), reference, gone, |old(attempts)|)
      ensures ReclaimPass.Lists(old(attempts), reference, gone, |old(attempts)|, ids)
    {
      ghost var was := View();
      ids, runIds := [], {};
      for a := 0 to |attempts|
        invariant |attempts| == |was.attempts|
        invariant View() == ReclaimPass.MarkAll(was, reference, gone, a)
        invariant runIds == ReclaimPass.MarkedRuns(was.attempts, reference, gone, a)
        invariant ReclaimPass.Lists(was.attempts, reference, gone, a, ids)
      {
        ReclaimPass.MarkedRow(was, reference, gone, a, a);
        ghost var ids0 := ids;
        if ReclaimPass.Reclaimable(attempts[a], a, reference, gone) {
          runIds := runIds + {attempts[a].stage};
          attempts := attempts[a := attempts[a].(status := AttemptStatus.Lost, lease := None, failure := Some(true))];
          reservations := reservations - {a};
          ids := ids + [a];
        }
        ReclaimPass.ListsOneMore(was.attempts, reference, gone, a, ids0);
      }
    }

    /** Reclaim every expired lease, then settle the runs of the attempts marked lost. */
    method ReclaimExpiredAttempts(reference: int, gone: set<nat>) returns (ids: seq<nat>)
      modifies this
      ensures View() == ReclaimPass.Pass(old(View()), reference, gone)
      ensures ReclaimPass.Lists(old(attempts), reference, gone, |old(attempts)|, ids)
    {
      var runIds;
      ids, runIds := MarkExpired(reference, gone);
      ghost var marked := View();
      for r := 0 to |runs|
        invariant |runs| == |marked.runs|
        invariant View() == ReclaimPass.SettleAll(marked, runIds, r)
      {
        if r in runIds {
          var resumed := MayResume(r);
          if !resumed {
            var _ := TransitionRun(r, RunStatus.Lost);
          }
        }
      }
    }

    /** The cancel requests nobody is left to observe, oldest first, within the limit. */
    method AbandonedCancellations(limit: int) returns (reply: Reply<seq<nat>>)
      ensures reply.Raised? <==> !(1 <= limit <= 1000)
      ensures reply.Returned? ==>
                && (forall r :: r in reply.value <==> 0 <= r && ReclaimPass.Covered(View(), limit, r))
                && (forall i, j :: 0 <= i < j < |reply.value| ==> reply.value[i] < reply.value[j])
    {
      if !(1 <= limit <= 1000) { return Transactions.Raised(Transactions.InvalidArgument); }
      var listed, abandoned: seq<nat> := 0, [];
      for r := 0 to |runs|
        invariant listed == if ReclaimPass.OlderRequests(runs, r) < limit then ReclaimPass.OlderRequests(runs, r) else limit
        invariant forall q :: q in abandoned <==> 0 <= q < r && ReclaimPass.Covered(View(), limit, q)
        invariant forall i, j :: 0 <= i < j < |abandoned| ==> abandoned[i] < abandoned[j]
      {
        if runs[r].status.CancelRequested? && listed < limit {
          listed := listed + 1;
          if !HasLive(View(), r) {
            assert forall i :: 0 <= i < |abandoned| ==> abandoned[i] in abandoned;
            abandoned := abandoned + [r];
          }
        }
      }
      return Transactions.Returned(abandoned);
    }

    /** One maintenance pass cancels exactly the covered runs and touches no other. */
    method FinishAbandonedCancellations(limit: int) returns (settled: Reply<nat>)
      modifies this
      ensures settled.Raised? <==> !(1 <= limit <= 1000)
      ensures settled.Raised? ==> View() == old(View())
      ensures settled.Returned? ==>
                settled.value == |set r | 0 <= r < |old(runs)| && ReclaimPass.Covered(old(View()), limit, r)|
      ensures attempts == old(attempts) && reservations == old(reservations)
      ensures |runs| == |old(runs)| && |stages| == |old(stages)|
      ensures settled.Returned? ==> forall r :: 0 <= r < |runs| ==>
                runs[r] == if ReclaimPass.Covered(old(View()), limit, r)
                           then old(runs)[r].(status := Cancelled) else old(runs)[r]
      ensures settled.Returned? ==> forall r :: 0 <= r < |stages| ==>
                stages[r] == if ReclaimPass.Covered(old(View()), limit, r) && !Terminal(old(stages)[r].status)
                             then old(stages)[r].(status := Cancelled) else old(stages)[r]
    {
      ghost var was := View();
      var listing := AbandonedCancellations(limit);
      if listing.Raised? { return Transactions.Raised(listing.error); }
      var todo, count: nat := listing.value, 0;
      for i := 0 to |todo|
        invariant ReclaimPass.Cancels(was, View(), todo[..i]) && count == i
      {
        var r := todo[i];
        assert r in listing.value;
        assert r !in todo[..i] && todo[..i + 1] == todo[..i] + [r];
        ReclaimPass.CancelsOneMore(was, View(), todo[..i], r);
        var reply := TransitionRun(r, Cancelled);
        if reply.Returned? { count := count + 1; }
      }
      assert todo[..|todo|] == todo;
      ReclaimPass.DistinctSize(todo, set r | 0 <= r < |was.runs| && ReclaimPass.Covered(was, limit, r));
      return Transactions.Returned(count);
    }
  }

  /** The tail of an attempt: what a worker does with the store once the adapter has
      reported, or once anything raised. */
  class WorkflowRuntime {
    const store: Store

    constructor (store: Store)
      ensures this.store == store
    {
      this.store := store;
    }

    method RecordRuntimeFailure(r: nat, a: nat)
      requires r == RunOf(store.View(), a)
      modifies store
      ensures store.View() == AtomicProtocol.RecordFailure(old(store.View()), a)
    {
      // A reclaimer may have moved the attempt to lost already; that stands.
      var _ := store.FinishAttempt(a, AttemptStatus.Failed, Some(false));
      if r < |store.runs| && store.runs[r].status.Running? {
        var _ := store.TransitionRun(r, RunStatus.Failed);
      }
    }

    method ConcludeAttempt(r: nat, a: nat, number: nat, maxAttempts: nat, result: Result)
      requires r == RunOf(store.View(), a)
      requires a < |store.attempts| && number == store.attempts[a].number
      requires r < |store.runs| && maxAttempts == store.runs[r].task.maxAttempts
      modifies store
      ensures store.View() == AtomicProtocol.Conclude(old(store.View()), a, result)
    {
      var finished := store.FinishAttempt(a, AttemptStatusOf(result.status), result.failure);
      if finished.Raised? {
        RecordRuntimeFailure(r, a);
        return;
      }
      var settled;
      if ShouldRetry(result, number, maxAttempts) {
        settled := store.ScheduleRetry(r);
      } else {
        settled := store.TransitionRun(r, result.status);
      }
      if settled.Raised? { RecordRuntimeFailure(r, a); }
    }
  }
}
