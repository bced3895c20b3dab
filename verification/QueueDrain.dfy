/** Why the inner loop of main_loop (processors/main.py) ends: every handler lowers a rank. */
module QueueDrain {
  import opened Text
  import opened TaskStore
  import opened Lifecycle
  import opened TaskWorker
  import opened TaskOutcomes
  import opened DocumentLoop

  function Rank(s: Status): nat {
    if s.New? || s.ManualReviewDone? then 2 else if s.MlClassified? then 1 else 0
  }

  /** The sum of the ranks of all tasks. */
  ghost function Ranks(tasks: map<nat, Task>): nat {
    if tasks == map[] then 0
    else
      var id :| id in tasks;
      Rank(tasks[id].status) + Ranks(tasks - {id})
  }

  lemma {:induction false} RanksSplit(tasks: map<nat, Task>, id: nat)
    requires id in tasks
    ensures Ranks(tasks) == Rank(tasks[id].status) + Ranks(tasks - {id})
    decreases |tasks|
  {
    var first :| first in tasks && Ranks(tasks) == Rank(tasks[first].status) + Ranks(tasks - {first});
    if first != id {
      RanksSplit(tasks - {first}, id);
      RanksSplit(tasks - {id}, first);
      assert tasks - {first} - {id} == tasks - {id} - {first};
    }
  }

  lemma RanksUpdate(tasks: map<nat, Task>, id: nat, t: Task)
    requires id in tasks
    ensures Ranks(tasks[id := t]) == Ranks(tasks) - Rank(tasks[id].status) + Rank(t.status)
  {
    RanksSplit(tasks, id);
    RanksSplit(tasks[id := t], id);
    assert tasks[id := t] - {id} == tasks - {id};
  }

  /** So at most two handler calls per task. */
  lemma {:induction false} RanksBound(tasks: map<nat, Task>)
    ensures Ranks(tasks) <= 2 * |tasks|
    decreases |tasks|
  {
    if tasks != map[] {
      var id :| id in tasks;
      RanksSplit(tasks, id);
      RanksBound(tasks - {id});
    }
  }

  // ---------- one handler ----------

  /** Only the task's own row and its email's decision change. */
  ghost predicate OnlyTouches(db: Db, db': Db, id: nat) {
    && db'.tasks.Keys == db.tasks.Keys
    && (forall k :: k in db.tasks && k != id ==> db'.tasks[k] == db.tasks[k])
  }

  lemma PerformSafe(db: Db, snap: Snapshot, todo: seq<Write>)
    requires TasksOk(db) && SnapshotOk(db, snap) && todo != []
    requires TodoOk(db, snap.task.emailId, todo, Decided(db, snap.task.emailId))
    ensures var db' := Perform(db, snap.id, todo[0]);
            && TasksOk(db') && SnapshotOk(db', snap)
            && TodoOk(db', snap.task.emailId, todo[1..], Decided(db', snap.task.emailId))
  {
    WriteTasks(db, snap, todo);
    WriteWorker(db, Handling(snap, todo, []));
  }

  lemma PerformTouches(db: Db, id: nat, w: Write)
    requires id in db.tasks
    ensures Keeps(db, Perform(db, id, w)) && OnlyTouches(db, Perform(db, id, w), id)
  {
  }

  lemma {:induction false} PerformAllSafe(db: Db, snap: Snapshot, todo: seq<Write>)
    requires TasksOk(db) && SnapshotOk(db, snap)
    requires TodoOk(db, snap.task.emailId, todo, Decided(db, snap.task.emailId))
    ensures TasksOk(PerformAll(db, snap.id, todo))
    decreases |todo|
  {
    if todo != [] {
      PerformSafe(db, snap, todo);
      PerformAllSafe(Perform(db, snap.id, todo[0]), snap, todo[1..]);
    }
  }

  lemma {:induction false} PerformAllTouches(db: Db, id: nat, todo: seq<Write>)
    requires id in db.tasks
    ensures Keeps(db, PerformAll(db, id, todo)) && OnlyTouches(db, PerformAll(db, id, todo), id)
    decreases |todo|
  {
    if todo != [] {
      PerformTouches(db, id, todo[0]);
      PerformAllTouches(Perform(db, id, todo[0]), id, todo[1..]);
    }
  }

  /** The status a plan leaves the task in, when the email is decided wherever the status says so. */
  ghost function StatusAfter(status: Status, todo: seq<Write>): Status
    decreases |todo|
  {
    if todo == [] then status
    else
      var next :=
        match todo[0]
        case Move(s) => s
        case Ask(_) => MaterialsReview
        case Fail => Error
        case _ => status;
      StatusAfter(next, todo[1..])
  }

  lemma {:induction false} PerformAllStatus(db: Db, id: nat, todo: seq<Write>)
    requires id in db.tasks
    ensures id in PerformAll(db, id, todo).tasks
    ensures PerformAll(db, id, todo).tasks[id].status == StatusAfter(db.tasks[id].status, todo)
    decreases |todo|
  {
    if todo != [] {
      PerformAllStatus(Perform(db, id, todo[0]), id, todo[1..]);
    }
  }

  lemma StatusAfterTwo(status: Status, a: Write, b: Write)
    ensures StatusAfter(status, [a])
            == if a.Move? then a.status else if a.Ask? then MaterialsReview else if a.Fail? then Error else status
    ensures StatusAfter(status, [a, b]) == StatusAfter(StatusAfter(status, [a]), [b])
  {
    assert [a][1..] == [] && [a, b][1..] == [b];
  }

  lemma PlanRank(db: Db, snap: Snapshot, todo: seq<Write>)
    requires TaskOk(db, snap.task) && Pending(snap.task.status) && Plan(db, snap, todo)
    ensures Rank(StatusAfter(snap.task.status, todo)) < Rank(snap.task.status)
  {
    if |todo| == 1 {
      assert todo == [todo[0]];
      StatusAfterTwo(snap.task.status, todo[0], Fail);
    } else {
      assert todo == [todo[0], todo[1]];
      StatusAfterTwo(snap.task.status, todo[0], todo[1]);
      StatusAfterTwo(StatusAfter(snap.task.status, [todo[0]]), todo[1], Fail);
    }
  }

  /** Every handler call on a row that is still as fetched strictly lowers the sum. */
  lemma HandlerLowers(db: Db, snap: Snapshot, todo: seq<Write>)
    requires TasksOk(db) && Fetched(db, [snap]) && Plan(db, snap, todo)
    ensures var db' := PerformAll(db, snap.id, todo);
            TasksOk(db') && Keeps(db, db') && OnlyTouches(db, db', snap.id) && Ranks(db'.tasks) < Ranks(db.tasks)
  {
    assert [snap][0] == snap;
    PlanOk(db, snap, todo);
    PerformAllSafe(db, snap, todo);
    PerformAllTouches(db, snap.id, todo);
    PerformAllStatus(db, snap.id, todo);
    PlanRank(db, snap, todo);
    var db' := PerformAll(db, snap.id, todo);
    assert db'.tasks == db.tasks[snap.id := db'.tasks[snap.id]];
    RanksUpdate(db.tasks, snap.id, db'.tasks[snap.id]);
  }

  // ---------- exceptions ----------

  /** A handler that raised: the writes it had made, and whether the exception escaped process_single_task
      because marking the error raised as well. */
  datatype Interruption = Interruption(done: seq<Write>, escaped: bool)

  /** The writes of the except branch that catches it. */
  function Closing(escaped: bool): seq<Write> { if escaped then [Move(Error), Fail] else [Fail] }

  /** Which handler calls are interrupted, and where. */
  type Troubles = (Db, Snapshot) -> Option<Interruption>

  /** An interrupted handler has made a part of the writes of one of its plans. */
  ghost predicate CutsPlans(troubles: Troubles) {
    forall db, snap :: troubles(db, snap).Some? ==>
      exists todo :: Plan(db, snap, todo) && troubles(db, snap).value.done <= todo
  }

  lemma {:induction false} TodoCut(db: Db, emailId: nat, todo: seq<Write>, done: seq<Write>, escaped: bool,
                                   decided: bool)
    requires TodoOk(db, emailId, todo, decided) && done <= todo
    ensures TodoOk(db, emailId, done + Closing(escaped), decided)
    decreases |done|
  {
    if done == [] {
      assert done + Closing(escaped) == Closing(escaped);
      assert [Fail][1..] == [] && [Move(Error), Fail][1..] == [Fail];
      assert TodoOk(db, emailId, [Fail], decided);
    } else {
      assert done[0] == todo[0] && done[1..] <= todo[1..];
      assert (done + Closing(escaped))[1..] == done[1..] + Closing(escaped);
      TodoCut(db, emailId, todo[1..], done[1..], escaped, decided || todo[0].ClassifyEmail?);
    }
  }

  lemma {:induction false} StatusAfterConcat(status: Status, a: seq<Write>, b: seq<Write>)
    ensures StatusAfter(status, a + b) == StatusAfter(StatusAfter(status, a), b)
    decreases |a|
  {
    if a == [] {
      assert a + b == b;
    } else {
      assert (a + b)[1..] == a[1..] + b;
      var one := StatusAfter(status, [a[0]]);
      StatusAfterTwo(status, a[0], Fail);
      StatusAfterConcat(one, a[1..], b);
    }
  }

  /** Wherever a handler was interrupted, the except branch leaves the task in error and lowers the sum. */
  lemma InterruptionLowers(db: Db, snap: Snapshot, todo: seq<Write>, done: seq<Write>, escaped: bool)
    requires TasksOk(db) && Fetched(db, [snap]) && Plan(db, snap, todo) && done <= todo && Rank(snap.task.status) > 0
    ensures var db' := PerformAll(db, snap.id, done + Closing(escaped));
            && TasksOk(db') && Keeps(db, db') && OnlyTouches(db, db', snap.id) && Ranks(db'.tasks) < Ranks(db.tasks)
            && snap.id in db'.tasks && db'.tasks[snap.id].status.Error?
  {
    assert [snap][0] == snap;
    var all := done + Closing(escaped);
    PlanOk(db, snap, todo);
    TodoCut(db, snap.task.emailId, todo, done, escaped, Decided(db, snap.task.emailId));
    PerformAllSafe(db, snap, all);
    PerformAllTouches(db, snap.id, all);
    PerformAllStatus(db, snap.id, all);
    StatusAfterConcat(snap.task.status, done, Closing(escaped));
    StatusAfterTwo(StatusAfter(snap.task.status, done), Fail, Fail);
    StatusAfterTwo(StatusAfter(snap.task.status, done), Move(Error), Fail);
    StatusAfterTwo(Error, Fail, Fail);
    var db' := PerformAll(db, snap.id, all);
    assert db'.tasks == db.tasks[snap.id := db'.tasks[snap.id]];
    RanksUpdate(db.tasks, snap.id, db'.tasks[snap.id]);
  }

  lemma {:induction false} PerformAllConcat(db: Db, id: nat, a: seq<Write>, b: seq<Write>)
    ensures PerformAll(db, id, a + b) == PerformAll(PerformAll(db, id, a), id, b)
    decreases |a|
  {
    if a == [] {
      assert a + b == b;
    } else {
      assert (a + b)[1..] == a[1..] + b;
      PerformAllConcat(Perform(db, id, a[0]), id, a[1..], b);
    }
  }

  // ---------- the loops ----------

  /** One turn of the for loop: the task as fetched, the database before and after, and what the handler met. */
  datatype Turn = Turn(snap: Snapshot, before: Db, after: Db, work: Work)

  /** A turn on a row still as fetched. Without an exception the database is as the handler leaves it at its end;
      with one, as the writes up to it and those of the except branch leave it. */
  ghost predicate Right(turn: Turn, troubles: Troubles, reading: Reading) {
    && Fetched(turn.before, [turn.snap]) && turn.snap.id in turn.before.tasks
    && match troubles(turn.before, turn.snap)
       case None => Handled(turn.before, turn.snap, turn.after, turn.work, reading)
       case Some(t) => turn.after == PerformAll(turn.before, turn.snap.id, t.done + Closing(t.escaped))
  }

  /** The log leads from one database to the other by right turns. */
  ghost predicate Log(start: Db, log: seq<Turn>, end: Db, troubles: Troubles, reading: Reading)
    decreases |log|
  {
    if log == [] then end == start
    else
      var last := log[|log| - 1];
      && last.after == end && Right(last, troubles, reading)
      && Log(start, log[..|log| - 1], last.before, troubles, reading)
  }

  /** The turns of the log are on the tasks of the batch, in order. */
  ghost predicate Follows(log: seq<Turn>, batch: seq<Snapshot>)
    decreases |log|
  {
    log == [] || (|log| <= |batch| && log[|log| - 1].snap == batch[|log| - 1] && Follows(log[..|log| - 1], batch))
  }

  lemma {:induction false} FollowsSnoc(log: seq<Turn>, turn: Turn, batch: seq<Snapshot>)
    requires |log| < |batch| && Follows(log, batch) && turn.snap == batch[|log|]
    ensures Follows(log + [turn], batch)
  {
    assert (log + [turn])[..|log|] == log;
  }

  lemma LogSnoc(start: Db, log: seq<Turn>, turn: Turn, troubles: Troubles, reading: Reading)
    requires Log(start, log, turn.before, troubles, reading) && Right(turn, troubles, reading)
    ensures Log(start, log + [turn], turn.after, troubles, reading)
  {
    assert (log + [turn])[..|log|] == log;
  }

  lemma {:induction false} LogConcat(start: Db, log: seq<Turn>, mid: Db, more: seq<Turn>, end: Db, troubles: Troubles,
                                     reading: Reading)
    requires Log(start, log, mid, troubles, reading) && Log(mid, more, end, troubles, reading)
    ensures Log(start, log + more, end, troubles, reading)
    decreases |more|
  {
    if more == [] {
      assert log + more == log;
    } else {
      var n := |more| - 1;
      LogConcat(start, log, mid, more[..n], more[n].before, troubles, reading);
      LogSnoc(start, log + more[..n], more[n], troubles, reading);
      assert log + more[..n] + [more[n]] == log + more;
    }
  }

  /** The body of the for loop: process_single_task, or the part of it that ran before an exception and the
      except branch that caught it. */
  method HandleTask(processor: MailProcessor, snap: Snapshot, troubles: Troubles) returns (ghost turn: Turn)
    requires TasksOk(processor.repos.db) && Fetched(processor.repos.db, [snap]) && CutsPlans(troubles)
    modifies processor.repos
    ensures var db, db' := old(processor.repos.db), processor.repos.db;
            TasksOk(db') && OnlyTouches(db, db', snap.id) && Ranks(db'.tasks) < Ranks(db.tasks)
    ensures turn.snap == snap && turn.before == old(processor.repos.db) && turn.after == processor.repos.db
    ensures Right(turn, troubles, processor.reading)
  {
    ghost var before := processor.repos.db;
    assert [snap][0] == snap;
    var trouble := troubles(processor.repos.db, snap);
    if trouble.None? {
      ghost var todo, work := processor.ProcessSingleTask(snap);
      HandlerLowers(before, snap, todo);
      turn := Turn(snap, before, processor.repos.db, work);
    } else {
      HandleTrouble(processor, snap, trouble.value, troubles);
      turn := Turn(snap, before, processor.repos.db, Work.Nothing);
    }
  }

  method HandleTrouble(processor: MailProcessor, snap: Snapshot, trouble: Interruption, ghost troubles: Troubles)
    requires TasksOk(processor.repos.db) && Fetched(processor.repos.db, [snap]) && CutsPlans(troubles)
    requires troubles(processor.repos.db, snap) == Some(trouble)
    modifies processor.repos
    ensures var db, db' := old(processor.repos.db), processor.repos.db;
            TasksOk(db') && OnlyTouches(db, db', snap.id) && Ranks(db'.tasks) < Ranks(db.tasks)
    ensures processor.repos.db
            == PerformAll(old(processor.repos.db), snap.id, trouble.done + Closing(trouble.escaped))
  {
    ghost var before := processor.repos.db;
    var done, escaped := trouble.done, trouble.escaped;
    assert [snap][0] == snap;
    ghost var todo :| Plan(before, snap, todo) && done <= todo;
    PendingHasRank(before, snap);
    InterruptionLowers(before, snap, todo, done, escaped);
    PerformAllConcat(before, snap.id, done, Closing(escaped));
    processor.Interrupted(snap, done);
    PerformTwo(processor.repos.db, snap.id, Fail, Fail);
    PerformTwo(processor.repos.db, snap.id, Move(Error), Fail);
    if escaped {
      processor.repos.UpdateStatus(snap.id, Error);
    }
    processor.repos.MarkError(snap.id);
  }

  lemma PendingHasRank(db: Db, snap: Snapshot)
    requires TaskOk(db, snap.task) && Pending(snap.task.status)
    ensures Rank(snap.task.status) > 0
  {
  }

  /** After k tasks of a batch: the rows of the others are as they were fetched. */
  ghost predicate InBatch(start: Db, db: Db, batch: seq<Snapshot>, k: nat)
    requires k <= |batch|
  {
    && TasksOk(db) && db.tasks.Keys == start.tasks.Keys
    && (forall j :: k <= j < |batch| ==> batch[j].id in db.tasks && db.tasks[batch[j].id] == batch[j].task)
    && (k == 0 ==> db == start)
    && (k > 0 ==> Ranks(db.tasks) < Ranks(start.tasks))
  }

  method HandleNext(processor: MailProcessor, batch: seq<Snapshot>, k: nat, troubles: Troubles, ghost start: Db,
                    ghost log: seq<Turn>)
    returns (ghost log': seq<Turn>)
    requires k < |batch| && Fetched(start, batch) && InBatch(start, processor.repos.db, batch, k) && CutsPlans(troubles)
    requires Log(start, log, processor.repos.db, troubles, processor.reading)
    requires |log| == k && Follows(log, batch)
    modifies processor.repos
    ensures InBatch(start, processor.repos.db, batch, k + 1)
    ensures Log(start, log', processor.repos.db, troubles, processor.reading)
    ensures |log'| == k + 1 && Follows(log', batch)
  {
    ghost var before := processor.repos.db;
    StillFetched(start, before, batch, k);
    ghost var turn := HandleTask(processor, batch[k], troubles);
    NextInBatch(start, before, processor.repos.db, batch, k);
    LogSnoc(start, log, turn, troubles, processor.reading);
    FollowsSnoc(log, turn, batch);
    log' := log + [turn];
  }

  lemma StillFetched(start: Db, db: Db, batch: seq<Snapshot>, k: nat)
    requires k < |batch| && Fetched(start, batch) && InBatch(start, db, batch, k)
    ensures Fetched(db, [batch[k]])
  {
  }

  lemma NextInBatch(start: Db, db: Db, db': Db, batch: seq<Snapshot>, k: nat)
    requires k < |batch| && Fetched(start, batch) && InBatch(start, db, batch, k)
    requires TasksOk(db') && OnlyTouches(db, db', batch[k].id) && Ranks(db'.tasks) < Ranks(db.tasks)
    ensures InBatch(start, db', batch, k + 1)
  {
  }

  /** The for loop over one fetched batch: one right turn for each of its tasks. */
  method HandleBatch(processor: MailProcessor, batch: seq<Snapshot>, troubles: Troubles) returns (ghost log: seq<Turn>)
    requires TasksOk(processor.repos.db) && Fetched(processor.repos.db, batch) && CutsPlans(troubles)
    modifies processor.repos
    ensures TasksOk(processor.repos.db) && processor.repos.db.tasks.Keys == old(processor.repos.db.tasks.Keys)
    ensures Ranks(processor.repos.db.tasks) < Ranks(old(processor.repos.db.tasks))
    ensures Log(old(processor.repos.db), log, processor.repos.db, troubles, processor.reading)
    ensures |log| == |batch| && Follows(log, batch)
  {
    ghost var start := processor.repos.db;
    log := [];
    for k := 0 to |batch|
      invariant InBatch(start, processor.repos.db, batch, k)
      invariant Log(start, log, processor.repos.db, troubles, processor.reading)
      invariant |log| == k && Follows(log, batch)
    {
      log := HandleNext(processor, batch, k, troubles, start, log);
    }
  }

  /** The inner `while True`: with nobody else writing, it ends and leaves nothing pending, whatever the
      classifier, the documents, the builders and the uploads do and wherever handlers raise; and every turn on the
      way is right. */
  method DrainQueue(processor: MailProcessor, troubles: Troubles) returns (ghost log: seq<Turn>)
    requires TasksOk(processor.repos.db) && CutsPlans(troubles)
    modifies processor.repos
    ensures TasksOk(processor.repos.db) && processor.repos.db.tasks.Keys == old(processor.repos.db.tasks.Keys)
    ensures forall id :: id in processor.repos.db.tasks ==> !Pending(processor.repos.db.tasks[id].status)
    ensures Log(old(processor.repos.db), log, processor.repos.db, troubles, processor.reading)
  {
    log := [];
    while true
      invariant TasksOk(processor.repos.db) && processor.repos.db.tasks.Keys == old(processor.repos.db.tasks.Keys)
      invariant Log(old(processor.repos.db), log, processor.repos.db, troubles, processor.reading)
      decreases Ranks(processor.repos.db.tasks)
    {
      ghost var mid := processor.repos.db;
      var pending := processor.repos.FetchPending(BATCH_SIZE);
      if pending == [] {
        break;
      }
      ghost var more := HandleBatch(processor, pending, troubles);
      LogConcat(old(processor.repos.db), log, mid, more, processor.repos.db, troubles, processor.reading);
      log := log + more;
    }
  }
}
