/** What the drained queue holds (processors/main.py, main_loop), read off the log of its turns. */
module DrainResults {
  import opened TaskStore
  import opened Lifecycle
  import opened DocumentLoop
  import opened TaskOutcomes
  import opened QueueDrain

  /** Nothing raises. */
  ghost predicate Calm(troubles: Troubles) { forall db, snap :: troubles(db, snap).None? }

  /** The last turn on a task. */
  ghost predicate LastTurn(log: seq<Turn>, k: int, id: nat) {
    0 <= k < |log| && log[k].snap.id == id && forall j :: k < j < |log| ==> log[j].snap.id != id
  }

  lemma RightTouches(turn: Turn, troubles: Troubles, reading: Reading)
    requires Right(turn, troubles, reading)
    ensures Keeps(turn.before, turn.after) && OnlyTouches(turn.before, turn.after, turn.snap.id)
    ensures Pending(turn.snap.task.status) && turn.before.tasks[turn.snap.id] == turn.snap.task
  {
    assert [turn.snap][0] == turn.snap;
    var trouble := troubles(turn.before, turn.snap);
    if trouble.Some? {
      PerformAllTouches(turn.before, turn.snap.id, trouble.value.done + Closing(trouble.value.escaped));
    }
  }

  /** A task's row is as its last turn left it, or as at the start if it had none. */
  lemma {:induction false} RowIsLast(start: Db, log: seq<Turn>, end: Db, troubles: Troubles, reading: Reading, id: nat)
    returns (k: int)
    requires Log(start, log, end, troubles, reading) && id in start.tasks
    ensures Keeps(start, end) && id in end.tasks
    ensures k == -1 || LastTurn(log, k, id)
    ensures k == -1 ==> end.tasks[id] == start.tasks[id] && forall j :: 0 <= j < |log| ==> log[j].snap.id != id
    ensures k >= 0 ==> Right(log[k], troubles, reading) && id in log[k].after.tasks
                       && log[k].after.tasks[id] == end.tasks[id]
    decreases |log|
  {
    k := -1;
    if log != [] {
      var n := |log| - 1;
      k := RowIsLast(start, log[..n], log[n].before, troubles, reading, id);
      RightTouches(log[n], troubles, reading);
      if log[n].snap.id == id {
        k := n;
      }
    }
  }

  /** A task that is not pending is left alone. */
  lemma {:induction false} NotPendingStays(start: Db, log: seq<Turn>, end: Db, troubles: Troubles, reading: Reading,
                                           id: nat)
    requires Log(start, log, end, troubles, reading) && id in start.tasks && !Pending(start.tasks[id].status)
    ensures id in end.tasks && end.tasks[id] == start.tasks[id]
    ensures forall j :: 0 <= j < |log| ==> log[j].snap.id != id
    decreases |log|
  {
    if log != [] {
      var n := |log| - 1;
      NotPendingStays(start, log[..n], log[n].before, troubles, reading, id);
      RightTouches(log[n], troubles, reading);
    }
  }

  /** As long as nothing raises, a task in `new` stays as it is until its email is decided. */
  lemma {:induction false} DecidedOrUntouched(start: Db, log: seq<Turn>, end: Db, troubles: Troubles, reading: Reading,
                                              id: nat)
    requires Log(start, log, end, troubles, reading) && Calm(troubles)
    requires id in start.tasks && start.tasks[id].status.New? && start.tasks[id].emailId in start.emails
    ensures id in end.tasks && start.tasks[id].emailId in end.emails
    ensures end.tasks[id] == start.tasks[id] || Decided(end, start.tasks[id].emailId)
    decreases |log|
  {
    if log != [] {
      var n := |log| - 1;
      DecidedOrUntouched(start, log[..n], log[n].before, troubles, reading, id);
      RightTouches(log[n], troubles, reading);
    }
  }

  /** When nothing raises: a task that was not pending is as it was; any other ends in error iff its last turn found it
      hopeless, and else in ml_review, question, materials_review or completed; and the email of a new task is
      decided. */
  lemma DrainMeaning(start: Db, log: seq<Turn>, end: Db, troubles: Troubles, reading: Reading, id: nat)
    requires Log(start, log, end, troubles, reading) && Calm(troubles) && TasksOk(start)
    requires id in start.tasks && id in end.tasks && !Pending(end.tasks[id].status)
    ensures !Pending(start.tasks[id].status) ==> end.tasks[id] == start.tasks[id]
    ensures Pending(start.tasks[id].status) ==>
              exists k ::
                && LastTurn(log, k, id)
                && (end.tasks[id].status.Error? <==> Hopeless(log[k].before, log[k].snap, log[k].work, reading))
    ensures var now := end.tasks[id].status;
            Pending(start.tasks[id].status) ==>
              now.Error? || now.MlReview? || now.Question? || now.MaterialsReview? || now.Completed?
    ensures start.tasks[id].status.New? ==> Decided(end, start.tasks[id].emailId)
  {
    if Pending(start.tasks[id].status) {
      var k := RowIsLast(start, log, end, troubles, reading, id);
      LastRow(log[k], end.tasks[id], troubles, reading);
    } else {
      NotPendingStays(start, log, end, troubles, reading, id);
    }
    if start.tasks[id].status.New? {
      DecidedOrUntouched(start, log, end, troubles, reading, id);
    }
  }

  /** A turn that leaves its task not pending. */
  lemma LastRow(turn: Turn, now: Task, troubles: Troubles, reading: Reading)
    requires Right(turn, troubles, reading) && Calm(troubles)
    requires turn.snap.id in turn.after.tasks && turn.after.tasks[turn.snap.id] == now && !Pending(now.status)
    ensures now.status.Error? <==> Hopeless(turn.before, turn.snap, turn.work, reading)
    ensures now.status.Error? || now.status.MlReview? || now.status.Question? || now.status.MaterialsReview?
            || now.status.Completed?
  {
    RightTouches(turn, troubles, reading);
    ErrorIff(turn.before, turn.snap, turn.after, turn.work, reading);
    if !Hopeless(turn.before, turn.snap, turn.work, reading) {
      WhereTo(turn.before, turn.snap, turn.after, turn.work, reading);
    }
  }
}
