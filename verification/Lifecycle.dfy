/** The life of a task in every interleaving of mail inserts, one worker acting on stale snapshots, and
    web requests (processors/main.py, processors/database/repositories.py,
    frontend/mail-client/app/routers/queue.py). */
module Lifecycle {
  import opened Text
  import opened TaskStore

  /** A task as fetch_pending returned it. */
  datatype Snapshot = Snapshot(id: nat, task: Task)

  /** One database write of a handler. */
  datatype Write =
    | ClassifyEmail(emailId: nat, decision: string)
    | Move(status: Status)
    | Ask(questions: map<string, OutValue>)
    | Fail
    | AddAnswers(items: Decision)

  datatype Worker =
    | Idle
    | Ready(batch: seq<Snapshot>)                                       // between two tasks
    | Handling(snap: Snapshot, todo: seq<Write>, rest: seq<Snapshot>)   // inside a handler

  /** A manual decision between its SELECT and its UPDATE. */
  datatype Submission = Submission(id: nat, answers: Decision)

  datatype State = State(db: Db, worker: Worker, web: multiset<Submission>)

  datatype Step =
    | Mail(emailId: nat, id: nat)
    | Fetch(batch: seq<Snapshot>)
    | Begin(todo: seq<Write>)
    | DoWrite
    | GiveUp                        // batch_add failed: the handler returns early
    | Raise(todo: seq<Write>)       // an exception: the error writes are still to come
    | Finish
    | Abort                         // an exception nobody handles, or a restart
    | Decide(id: nat, decision: string)
    | Submit(id: nat, answers: Decision)
    | Store(submission: Submission)
    | Drop(submission: Submission)

  // ---------- what a handler may do, from what it read ----------

  predicate AllAsked(q: map<string, OutValue>) {
    q != map[] && forall p :: p in q ==> q[p].Asked?
  }

  /** The writes a handler can decide on, from its snapshot and the email row it reads. */
  ghost predicate Plan(db: Db, snap: Snapshot, todo: seq<Write>) {
    var t := snap.task;
    || todo == [Fail]  // some read raised
    || (t.status.New? &&
          if t.emailId !in db.emails then todo == [Fail]
          else
            || (exists d: string :: todo == [ClassifyEmail(t.emailId, d), Move(MlClassified)])
            || todo == [ClassifyEmail(t.emailId, "review"), Move(MlReview)])
    || (t.status.MlClassified? && t.emailId in db.emails && PlanClassified(db.emails[t.emailId].decision, t, todo))
    || (t.status.ManualReviewDone? && PlanManual(db, t, todo))
    || ((t.status.Downloaded? || t.status.FilesSaved?) && todo == [])  // no handler
  }

  ghost predicate PlanClassified(decision: Option<string>, t: Task, todo: seq<Write>) {
    if decision.None? then todo == [Move(New)]
    else if decision.value == "request" || decision.value == "calculation" then
      || todo == [Move(Error), Fail]
      || todo == [Move(Completed)]
      || (t.manual.None? && exists q :: AllAsked(q) && todo == [Ask(q)])
    else if decision.value == "question" then todo == [Move(Question)]
    else todo == [Fail, Move(Error)]
  }

  ghost predicate PlanManual(db: Db, t: Task, todo: seq<Write>) {
    if t.manual.None? then todo == [Move(Error), Fail]
    else if t.emailId !in db.emails then todo == [Fail]
    else if db.emails[t.emailId].decision.None? then todo == [Move(New)]
    else todo == [AddAnswers(t.manual.value), Move(MlClassified)]
  }

  function Perform(db: Db, id: nat, w: Write): Db {
    match w
    case ClassifyEmail(e, d) => SetMlResult(db, e, d)
    case Move(s) => UpdateStatus(db, id, s)
    case Ask(q) => SetQuestions(db, id, q)
    case Fail => MarkError(db, id)
    case AddAnswers(items) => BatchAdd(db, items)
  }

  predicate ErrorWrites(todo: seq<Write>) {
    todo == [Fail] || todo == [Move(Error), Fail]
  }

  predicate Fetched(db: Db, batch: seq<Snapshot>) {
    && 0 < |batch| <= 10
    && (forall k :: 0 <= k < |batch| ==>
          batch[k].id in db.tasks && db.tasks[batch[k].id] == batch[k].task && Pending(batch[k].task.status))
    && (forall j, k :: 0 <= j < k < |batch| ==> batch[j].id != batch[k].id)
  }

  // ---------- transitions ----------

  ghost predicate Enabled(s: State, step: Step) {
    match step
    case Mail(_, id) => id !in s.db.tasks
    case Fetch(batch) => s.worker.Idle? && Fetched(s.db, batch)
    case Begin(todo) => s.worker.Ready? && s.worker.batch != [] && Plan(s.db, s.worker.batch[0], todo)
    case DoWrite => s.worker.Handling? && s.worker.todo != []
    case GiveUp => s.worker.Handling? && s.worker.todo != [] && s.worker.todo[0].AddAnswers?
    case Raise(todo) => s.worker.Handling? && ErrorWrites(todo)
    case Finish => (s.worker.Handling? && s.worker.todo == []) || (s.worker.Ready? && s.worker.batch == [])
    case Abort => true
    case Decide(id, d) => id in s.db.tasks && d in DECISION_CLASSES
    case Submit(id, answers) => ManualAccepted(s.db, id, answers)
    case Store(sub) => sub in s.web
    case Drop(sub) => sub in s.web
  }

  ghost function Apply(s: State, step: Step): State
    requires Enabled(s, step)
  {
    match step
    case Mail(e, id) => s.(db := SaveMail(s.db, e, id))
    case Fetch(batch) => s.(worker := Ready(batch))
    case Begin(todo) => s.(worker := Handling(s.worker.batch[0], todo, s.worker.batch[1..]))
    case DoWrite =>
      s.(db := Perform(s.db, s.worker.snap.id, s.worker.todo[0]),
         worker := s.worker.(todo := s.worker.todo[1..]))
    case GiveUp => s.(worker := s.worker.(todo := []))
    case Raise(todo) => s.(worker := s.worker.(todo := todo))
    case Finish => s.(worker := if s.worker.Handling? then Ready(s.worker.rest) else Idle)
    case Abort => s.(worker := Idle)
    case Decide(id, d) => s.(db := WebDecision(s.db, id, d))
    case Submit(id, answers) => s.(web := s.web + multiset{Submission(id, answers)})
    case Store(sub) => s.(db := WebManual(s.db, sub.id, sub.answers), web := s.web - multiset{sub})
    case Drop(sub) => s.(web := s.web - multiset{sub})
  }

  ghost predicate Runs(s: State, steps: seq<Step>)
    decreases |steps|
  {
    steps == [] || (Enabled(s, steps[0]) && Runs(Apply(s, steps[0]), steps[1..]))
  }

  ghost function After(s: State, steps: seq<Step>): State
    requires Runs(s, steps)
    decreases |steps|
  {
    if steps == [] then s else After(Apply(s, steps[0]), steps[1..])
  }

  const START := State(Db(map[], map[], map[]), Idle, multiset{})

  // ---------- the invariant ----------

  ghost predicate Decided(db: Db, emailId: nat) {
    emailId in db.emails && db.emails[emailId].decision.Some?
  }

  /** What a task's status promises. */
  ghost predicate TaskOk(db: Db, t: Task) {
    && t.emailId in db.emails
    && (t.status.MlClassified? || t.status.MaterialsReview? || t.status.ManualReviewDone? ==> Decided(db, t.emailId))
    && (t.status.ManualReviewDone? ==> t.manual.Some?)
    && (t.manual.Some? ==> t.manual.value != map[])
    && (t.status.MaterialsReview? ==> AllAsked(t.output))
    && !t.status.Downloaded? && !t.status.FilesSaved? && !t.status.MlProcessing?
  }

  /** A snapshot stays usable: same email, and its own status still promises what it promised. */
  ghost predicate SnapshotOk(db: Db, snap: Snapshot) {
    && snap.id in db.tasks && snap.task.emailId == db.tasks[snap.id].emailId
    && Pending(snap.task.status) && TaskOk(db, snap.task)
  }

  ghost predicate TodoOk(db: Db, emailId: nat, todo: seq<Write>, decided: bool)
    decreases |todo|
  {
    todo == [] ||
    (var rest := todo[1..];
     match todo[0]
     case ClassifyEmail(e, _) => e == emailId && TodoOk(db, emailId, rest, true)
     case Move(s) =>
       && (s.New? || s.MlClassified? || s.MlReview? || s.Question? || s.Completed? || s.Error?)
       && (s.MlClassified? ==> decided)
       && TodoOk(db, emailId, rest, decided)
     case Ask(q) => AllAsked(q) && decided && TodoOk(db, emailId, rest, decided)
     case Fail => TodoOk(db, emailId, rest, decided)
     case AddAnswers(_) => TodoOk(db, emailId, rest, decided))
  }

  ghost predicate WorkerOk(db: Db, w: Worker) {
    match w
    case Idle => true
    case Ready(batch) => forall k :: 0 <= k < |batch| ==> SnapshotOk(db, batch[k])
    case Handling(snap, todo, rest) =>
      && SnapshotOk(db, snap)
      && TodoOk(db, snap.task.emailId, todo, Decided(db, snap.task.emailId))
      && forall k :: 0 <= k < |rest| ==> SnapshotOk(db, rest[k])
  }

  ghost predicate Invariant(s: State) {
    TasksOk(s.db) && WorkerOk(s.db, s.worker) && WebOk(s.db, s.web)
  }

  /** Writes never take an email's decision, a task, or a task's email away. */
  ghost predicate Keeps(db: Db, db': Db) {
    && (forall e :: e in db.emails ==>
         e in db'.emails && (db.emails[e].decision.Some? ==> db'.emails[e].decision.Some?))
    && (forall id :: id in db.tasks ==> id in db'.tasks && db'.tasks[id].emailId == db.tasks[id].emailId)
  }

  lemma {:induction false} TodoKept(db: Db, db': Db, emailId: nat, todo: seq<Write>, decided: bool, decided': bool)
    requires TodoOk(db, emailId, todo, decided) && (decided ==> decided')
    ensures TodoOk(db', emailId, todo, decided')
    decreases |todo|
  {
    if todo != [] {
      var on := todo[0].ClassifyEmail?;
      TodoKept(db, db', emailId, todo[1..], on || decided, on || decided');
    }
  }

  lemma WorkerKept(db: Db, db': Db, w: Worker)
    requires WorkerOk(db, w) && Keeps(db, db')
    ensures WorkerOk(db', w)
  {
    if w.Handling? {
      var e := w.snap.task.emailId;
      TodoKept(db, db', e, w.todo, Decided(db, e), Decided(db', e));
    }
  }

  lemma PlanOk(db: Db, snap: Snapshot, todo: seq<Write>)
    requires SnapshotOk(db, snap) && Plan(db, snap, todo)
    ensures TodoOk(db, snap.task.emailId, todo, Decided(db, snap.task.emailId))
  {
  }

  lemma PerformKeeps(db: Db, id: nat, w: Write)
    ensures Keeps(db, Perform(db, id, w))
  {
  }

  lemma StepKeeps(s: State, step: Step)
    requires Enabled(s, step)
    ensures Keeps(s.db, Apply(s, step).db)
  {
    if step.DoWrite? {
      PerformKeeps(s.db, s.worker.snap.id, s.worker.todo[0]);
    }
  }

  ghost predicate TasksOk(db: Db) {
    forall id :: id in db.tasks ==> TaskOk(db, db.tasks[id])
  }

  ghost predicate WebOk(db: Db, web: multiset<Submission>) {
    forall sub :: sub in web ==> sub.id in db.tasks && sub.answers != map[] && Decided(db, db.tasks[sub.id].emailId)
  }

  lemma WriteTasks(db: Db, snap: Snapshot, todo: seq<Write>)
    requires TasksOk(db) && SnapshotOk(db, snap) && todo != []
    requires TodoOk(db, snap.task.emailId, todo, Decided(db, snap.task.emailId))
    ensures TasksOk(Perform(db, snap.id, todo[0]))
  {
    var db' := Perform(db, snap.id, todo[0]);
    forall id | id in db'.tasks
      ensures TaskOk(db', db'.tasks[id])
    {
      assert id in db.tasks && TaskOk(db, db.tasks[id]);
    }
  }

  lemma OtherTasks(s: State, step: Step)
    requires Invariant(s) && Enabled(s, step) && !step.DoWrite?
    ensures TasksOk(Apply(s, step).db)
  {
    var db' := Apply(s, step).db;
    forall id | id in db'.tasks
      ensures TaskOk(db', db'.tasks[id])
    {
      assert id in s.db.tasks ==> TaskOk(s.db, s.db.tasks[id]);
      if step.Store? {
        assert step.submission in s.web;
      }
    }
  }

  lemma WriteWorker(db: Db, w: Worker)
    requires WorkerOk(db, w) && w.Handling? && w.todo != []
    ensures WorkerOk(Perform(db, w.snap.id, w.todo[0]), w.(todo := w.todo[1..]))
  {
    var db' := Perform(db, w.snap.id, w.todo[0]);
    assert Keeps(db, db');
    WorkerKept(db, db', w);
    var e := w.snap.task.emailId;
    var decided := w.todo[0].ClassifyEmail? || Decided(db, e);
    TodoKept(db, db', e, w.todo[1..], decided, Decided(db', e));
  }

  lemma WorkerStep(s: State, step: Step)
    requires Invariant(s) && Enabled(s, step)
    ensures WorkerOk(Apply(s, step).db, Apply(s, step).worker)
  {
    StepKeeps(s, step);
    WorkerKept(s.db, Apply(s, step).db, s.worker);
    if step.Begin? {
      PlanOk(s.db, s.worker.batch[0], step.todo);
    } else if step.DoWrite? {
      WriteWorker(s.db, s.worker);
    }
  }

  lemma WebStep(s: State, step: Step)
    requires Invariant(s) && Enabled(s, step)
    ensures WebOk(Apply(s, step).db, Apply(s, step).web)
  {
    StepKeeps(s, step);
    var s' := Apply(s, step);
    forall sub | sub in s'.web
      ensures sub.id in s'.db.tasks && sub.answers != map[] && Decided(s'.db, s'.db.tasks[sub.id].emailId)
    {
      if step.Submit? && sub == Submission(step.id, step.answers) {
        assert TaskOk(s.db, s.db.tasks[step.id]);
      } else {
        assert sub in s.web;
      }
    }
  }

  lemma StepInvariant(s: State, step: Step)
    requires Invariant(s) && Enabled(s, step)
    ensures Invariant(Apply(s, step))
  {
    if step.DoWrite? {
      WriteTasks(s.db, s.worker.snap, s.worker.todo);
    } else {
      OtherTasks(s, step);
    }
    WorkerStep(s, step);
    WebStep(s, step);
  }

  lemma {:induction false} RunInvariant(s: State, steps: seq<Step>)
    requires Invariant(s) && Runs(s, steps)
    ensures Invariant(After(s, steps))
    decreases |steps|
  {
    if steps != [] {
      StepInvariant(s, steps[0]);
      RunInvariant(Apply(s, steps[0]), steps[1..]);
    }
  }

  /** Safety over every run from the empty database. */
  lemma StatusPromises(steps: seq<Step>, id: nat)
    requires Runs(START, steps) && id in After(START, steps).db.tasks
    ensures var db := After(START, steps).db;
            var t := db.tasks[id];
            && !t.status.Downloaded? && !t.status.FilesSaved? && !t.status.MlProcessing?
            && (t.status.MlClassified? || t.status.MaterialsReview? || t.status.ManualReviewDone? ==>
                  t.emailId in db.emails && db.emails[t.emailId].decision.Some?)
            && (t.status.ManualReviewDone? ==> t.manual.Some? && t.manual.value != map[])
            && (t.status.MaterialsReview? ==> t.output != map[] && forall p :: p in t.output ==> t.output[p].Asked?)
  {
    RunInvariant(START, steps);
  }

  /** A decision made by hand: the task goes to `question` iff the decision is that, and back to the worker
      otherwise; its email holds the decision; no other task or email changes. */
  lemma DecideMeaning(s: State, id: nat, decision: string)
    requires Invariant(s) && Enabled(s, Decide(id, decision))
    ensures var db, db' := s.db, Apply(s, Decide(id, decision)).db;
            var e := db.tasks[id].emailId;
            && OnlyRow(db, db', id)
            && (db'.tasks[id].status.Question? <==> decision == "question")
            && (decision != "question" ==> Pending(db'.tasks[id].status) && db'.tasks[id].status.MlClassified?)
            && db'.tasks[id].manual == db.tasks[id].manual && db.tasks[id].output.Keys <= db'.tasks[id].output.Keys
            && e in db.emails && db'.emails == db.emails[e := Email(Some(decision))] && db'.mappings == db.mappings
  {
    assert TaskOk(s.db, s.db.tasks[id]);
  }

  /** Answers stored: the worker will find them with the task; nothing else changes. */
  lemma StoreMeaning(s: State, id: nat, answers: Decision)
    requires Invariant(s) && Enabled(s, Store(Submission(id, answers)))
    ensures var db, db' := s.db, Apply(s, Store(Submission(id, answers))).db;
            && OnlyRow(db, db', id) && db'.emails == db.emails && db'.mappings == db.mappings
            && db'.tasks[id].status.ManualReviewDone? && Pending(db'.tasks[id].status)
            && db'.tasks[id].manual == Some(answers) && answers != map[]
            && db'.tasks[id].output == db.tasks[id].output && db'.tasks[id].retries == db.tasks[id].retries
  {
    assert Submission(id, answers) in s.web;
  }

  /** No other task changes, and the task keeps its email. */
  ghost predicate OnlyRow(db: Db, db': Db, id: nat) {
    && id in db.tasks && db'.tasks.Keys == db.tasks.Keys && db'.tasks[id].emailId == db.tasks[id].emailId
    && forall k :: k in db.tasks && k != id ==> db'.tasks[k] == db.tasks[k]
  }

  lemma RunsCons(s: State, step: Step, rest: seq<Step>)
    requires Enabled(s, step) && Runs(Apply(s, step), rest)
    ensures Runs(s, [step] + rest) && After(s, [step] + rest) == After(Apply(s, step), rest)
  {
    assert ([step] + rest)[1..] == rest;
  }

  /** A failing batch_add brings the worker back to where it was with nothing changed: the task stays in
      manual_review_done and will be fetched again. */
  lemma GiveUpLoops(s: State, id: nat) returns (steps: seq<Step>)
    requires s.worker.Idle? && id in s.db.tasks && s.db.tasks[id].status.ManualReviewDone?
    requires s.db.tasks[id].manual.Some?
    requires Decided(s.db, s.db.tasks[id].emailId)
    ensures steps != [] && Runs(s, steps) && After(s, steps) == s
  {
    var snap := Snapshot(id, s.db.tasks[id]);
    var todo := [AddAnswers(snap.task.manual.value), Move(MlClassified)];
    var s1 := Apply(s, Fetch([snap]));
    assert Plan(s.db, snap, todo);
    var s2 := Apply(s1, Begin(todo));
    var s3 := Apply(s2, GiveUp);
    var s4 := Apply(s3, Finish);
    assert s4.worker.batch == [] && Apply(s4, Finish) == s;
    RunsCons(s4, Finish, []);
    RunsCons(s3, Finish, [Finish]);
    RunsCons(s2, GiveUp, [Finish, Finish]);
    RunsCons(s1, Begin(todo), [GiveUp, Finish, Finish]);
    RunsCons(s, Fetch([snap]), [Begin(todo), GiveUp, Finish, Finish]);
    steps := [Fetch([snap]), Begin(todo), GiveUp, Finish, Finish];
    assert [Finish] + [] == [Finish] && [Finish] + [Finish] == [Finish, Finish];
    assert [GiveUp] + [Finish, Finish] == [GiveUp, Finish, Finish];
    assert [Begin(todo)] + [GiveUp, Finish, Finish] == [Begin(todo), GiveUp, Finish, Finish];
    assert [Fetch([snap])] + [Begin(todo), GiveUp, Finish, Finish] == steps;
  }
}
