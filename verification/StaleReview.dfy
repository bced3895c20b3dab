/** Whether a stored manual decision can be asked for again: the submission is two statements under
    READ COMMITTED, and the worker acts on snapshots (frontend/mail-client/app/routers/queue.py,
    processors/main.py). */
module StaleReview {
  import opened Text
  import opened Mappings
  import opened TaskStore
  import opened Lifecycle

  /** A snapshot from before the decision whose handler may still ask. */
  ghost predicate Stale(snap: Snapshot, id: nat) {
    snap.id == id && snap.task.status.MlClassified? && snap.task.manual.None?
  }

  ghost predicate AnyStale(snaps: seq<Snapshot>, id: nat) {
    exists k :: 0 <= k < |snaps| && Stale(snaps[k], id)
  }

  ghost predicate WillAsk(todo: seq<Write>) {
    exists k :: 0 <= k < |todo| && todo[k].Ask?
  }

  /** The worker still holds a way to ask about this task without knowing of the decision. */
  ghost predicate HoldsStale(w: Worker, id: nat) {
    match w
    case Idle => false
    case Ready(batch) => AnyStale(batch, id)
    case Handling(snap, todo, rest) => (snap.id == id && WillAsk(todo)) || AnyStale(rest, id)
  }

  /** The task has its decision, is not in review, and nothing stale is left. */
  ghost predicate Settled(s: State, id: nat) {
    && id in s.db.tasks && s.db.tasks[id].manual.Some? && !s.db.tasks[id].status.MaterialsReview?
    && !HoldsStale(s.worker, id)
  }

  // ---------- a settled task stays settled ----------

  lemma PlanNotStale(db: Db, snap: Snapshot, todo: seq<Write>)
    requires Plan(db, snap, todo) && !Stale(snap, snap.id)
    ensures !WillAsk(todo)
  {
  }

  lemma FewerStale(snaps: seq<Snapshot>, id: nat)
    requires snaps != [] && !AnyStale(snaps, id)
    ensures !Stale(snaps[0], id) && !AnyStale(snaps[1..], id)
  {
  }

  lemma SettledStep(s: State, step: Step, id: nat)
    requires Invariant(s) && Settled(s, id) && Enabled(s, step)
    ensures Settled(Apply(s, step), id)
  {
    match step
    case Begin(todo) =>
      FewerStale(s.worker.batch, id);
      if s.worker.batch[0].id == id {
        PlanNotStale(s.db, s.worker.batch[0], todo);
      }
    case DoWrite =>
      assert s.worker.todo[0].Ask? ==> WillAsk(s.worker.todo);
      assert forall k :: 0 <= k < |s.worker.todo| - 1 ==> s.worker.todo[1..][k] == s.worker.todo[k + 1];
    case _ =>
  }

  /** In every continuation of every run the decision stands and nobody is asked again. */
  lemma {:induction false} SettledForever(s: State, steps: seq<Step>, id: nat)
    requires Invariant(s) && Settled(s, id) && Runs(s, steps)
    ensures Settled(After(s, steps), id)
    decreases |steps|
  {
    if steps != [] {
      SettledStep(s, steps[0], id);
      StepInvariant(s, steps[0]);
      SettledForever(Apply(s, steps[0]), steps[1..], id);
    }
  }

  // ---------- a task in review is not in the worker's hands ----------

  ghost predicate Distinct(snaps: seq<Snapshot>) {
    forall j, k :: 0 <= j < k < |snaps| ==> snaps[j].id != snaps[k].id
  }

  ghost predicate NoneInReview(db: Db, snaps: seq<Snapshot>) {
    forall k :: 0 <= k < |snaps| && snaps[k].id in db.tasks ==> !db.tasks[snaps[k].id].status.MaterialsReview?
  }

  ghost predicate Quiet(s: State) {
    match s.worker
    case Idle => true
    case Ready(batch) => Distinct(batch) && NoneInReview(s.db, batch)
    case Handling(snap, todo, rest) =>
      && Distinct([snap] + rest) && NoneInReview(s.db, rest)
      && (WillAsk(todo) ==> |todo| == 1 && snap.id in s.db.tasks && !s.db.tasks[snap.id].status.MaterialsReview?)
  }

  lemma PlanAsksOnce(db: Db, snap: Snapshot, todo: seq<Write>)
    requires Plan(db, snap, todo)
    ensures WillAsk(todo) ==> |todo| == 1
  {
  }

  lemma TailAsks(todo: seq<Write>)
    requires todo != []
    ensures WillAsk(todo[1..]) ==> WillAsk(todo)
  {
    if k :| 0 <= k < |todo[1..]| && todo[1..][k].Ask? {
      assert todo[k + 1].Ask?;
    }
  }

  lemma QuietStep(s: State, step: Step)
    requires Invariant(s) && Quiet(s) && Enabled(s, step)
    ensures Quiet(Apply(s, step))
  {
    match step
    case Begin(todo) =>
      PlanAsksOnce(s.db, s.worker.batch[0], todo);
      assert [s.worker.batch[0]] + s.worker.batch[1..] == s.worker.batch;
    case DoWrite =>
      var w := s.worker;
      assert w.todo[0].Ask? ==> WillAsk(w.todo);
      TailAsks(w.todo);
      forall k | 0 <= k < |w.rest|
        ensures w.rest[k].id != w.snap.id
      {
        assert ([w.snap] + w.rest)[k + 1] == w.rest[k] && ([w.snap] + w.rest)[0] == w.snap;
      }
    case Finish =>
      if s.worker.Handling? {
        assert forall k :: 0 <= k < |s.worker.rest| ==> ([s.worker.snap] + s.worker.rest)[k + 1] == s.worker.rest[k];
      }
    case _ =>
  }

  lemma {:induction false} RunQuiet(s: State, steps: seq<Step>)
    requires Invariant(s) && Quiet(s) && Runs(s, steps)
    ensures Invariant(After(s, steps)) && Quiet(After(s, steps))
    decreases |steps|
  {
    if steps != [] {
      QuietStep(s, steps[0]);
      StepInvariant(s, steps[0]);
      RunQuiet(Apply(s, steps[0]), steps[1..]);
    }
  }

  lemma ReviewNotHeld(s: State, id: nat)
    requires Quiet(s) && id in s.db.tasks && s.db.tasks[id].status.MaterialsReview?
    ensures !HoldsStale(s.worker, id)
  {
  }

  /** When nothing comes between the SELECT and the UPDATE of a submission, its decision is final: in
      every later state of every run the task has it and is not in materials_review. */
  lemma UndisturbedSubmissionSticks(before: seq<Step>, id: nat, answers: Decision, later: seq<Step>)
    requires Runs(START, before) && Enabled(After(START, before), Submit(id, answers))
    requires var s := Apply(After(START, before), Submit(id, answers));
             && Enabled(s, Store(Submission(id, answers)))
             && Runs(Apply(s, Store(Submission(id, answers))), later)
    ensures var s := Apply(Apply(After(START, before), Submit(id, answers)), Store(Submission(id, answers)));
            var t := After(s, later).db.tasks;
            id in t && t[id].manual.Some? && !t[id].status.MaterialsReview?
  {
    RunQuiet(START, before);
    var s0 := After(START, before);
    ReviewNotHeld(s0, id);
    var s1 := Apply(s0, Submit(id, answers));
    var s2 := Apply(s1, Store(Submission(id, answers)));
    StepInvariant(s0, Submit(id, answers));
    StepInvariant(s1, Store(Submission(id, answers)));
    SettledForever(s2, later, id);
  }

  // ---------- and otherwise the task can come back ----------

  lemma {:induction false} Extend(s: State, steps: seq<Step>, step: Step)
    requires Runs(s, steps) && Enabled(After(s, steps), step)
    ensures Runs(s, steps + [step]) && After(s, steps + [step]) == Apply(After(s, steps), step)
    decreases |steps|
  {
    if steps == [] {
      assert steps + [step] == [step];
    } else {
      Extend(Apply(s, steps[0]), steps[1..], step);
      assert (steps + [step])[1..] == steps[1..] + [step];
    }
  }

  const QUESTION: map<string, OutValue> := map["part" := Asked(false)]

  /** The task waits first in line: decide the email, and its stale handler asks. */
  lemma AskFirst(s: State, steps: seq<Step>, id: nat) returns (steps': seq<Step>)
    requires Runs(s, steps) && Invariant(s) && Invariant(After(s, steps))
    requires var w := After(s, steps).worker; w.Ready? && w.batch != [] && Stale(w.batch[0], id)
    ensures Runs(s, steps') && id in After(s, steps').db.tasks && After(s, steps').db.tasks[id].status.MaterialsReview?
    ensures id in After(s, steps).db.tasks
    ensures After(s, steps').db.tasks[id].manual == After(s, steps).db.tasks[id].manual
    ensures After(s, steps').web == After(s, steps).web
  {
    var s0 := After(s, steps);
    assert SnapshotOk(s0.db, s0.worker.batch[0]);
    Extend(s, steps, Decide(id, "request"));
    var s1 := Apply(s0, Decide(id, "request"));
    assert "part" in QUESTION && AllAsked(QUESTION);
    assert PlanClassified(s1.db.emails[s1.worker.batch[0].task.emailId].decision, s1.worker.batch[0].task,
                          [Ask(QUESTION)]);
    Extend(s, steps + [Decide(id, "request")], Begin([Ask(QUESTION)]));
    steps' := steps + [Decide(id, "request")] + [Begin([Ask(QUESTION)])];
    Extend(s, steps', DoWrite);
    steps' := steps' + [DoWrite];
  }

  lemma KeepsManual(s: State, step: Step, id: nat)
    requires Enabled(s, step) && id in s.db.tasks && !step.Store?
    ensures id in Apply(s, step).db.tasks && Apply(s, step).db.tasks[id].manual == s.db.tasks[id].manual
  {
  }

  /** The handler at hand may fail: error writes, then on to the rest of the batch. */
  lemma SkipHandler(s: State, steps: seq<Step>, id: nat) returns (steps': seq<Step>)
    requires Runs(s, steps) && After(s, steps).worker.Handling? && id in After(s, steps).db.tasks
    requires Invariant(After(s, steps))
    ensures Runs(s, steps') && After(s, steps').worker == Ready(After(s, steps).worker.rest)
    ensures id in After(s, steps').db.tasks &&
            After(s, steps').db.tasks[id].manual == After(s, steps).db.tasks[id].manual
    ensures Invariant(After(s, steps'))
  {
    var s0 := After(s, steps);
    Extend(s, steps, Raise([Fail]));
    StepInvariant(s0, Raise([Fail]));
    var s1 := Apply(s0, Raise([Fail]));
    Extend(s, steps + [Raise([Fail])], DoWrite);
    StepInvariant(s1, DoWrite);
    KeepsManual(s1, DoWrite, id);
    var s2 := Apply(s1, DoWrite);
    Extend(s, steps + [Raise([Fail])] + [DoWrite], Finish);
    StepInvariant(s2, Finish);
    steps' := steps + [Raise([Fail])] + [DoWrite] + [Finish];
  }

  lemma {:induction false} AskEventually(s: State, steps: seq<Step>, id: nat, k: nat) returns (steps': seq<Step>)
    requires Runs(s, steps) && Invariant(s) && Invariant(After(s, steps)) && id in After(s, steps).db.tasks
    requires var w := After(s, steps).worker; w.Ready? && k < |w.batch| && Stale(w.batch[k], id)
    ensures Runs(s, steps') && id in After(s, steps').db.tasks && After(s, steps').db.tasks[id].status.MaterialsReview?
    ensures After(s, steps').db.tasks[id].manual == After(s, steps).db.tasks[id].manual
    decreases k
  {
    if k == 0 {
      steps' := AskFirst(s, steps, id);
    } else {
      var s0 := After(s, steps);
      Extend(s, steps, Begin([Fail]));
      StepInvariant(s0, Begin([Fail]));
      steps' := SkipHandler(s, steps + [Begin([Fail])], id);
      steps' := AskEventually(s, steps', id, k - 1);
    }
  }

  lemma StaleAsks(s: State, id: nat) returns (steps: seq<Step>)
    requires Invariant(s) && Quiet(s) && id in s.db.tasks && HoldsStale(s.worker, id)
    ensures Runs(s, steps) && id in After(s, steps).db.tasks && After(s, steps).db.tasks[id].status.MaterialsReview?
    ensures After(s, steps).db.tasks[id].manual == s.db.tasks[id].manual
  {
    if s.worker.Ready? {
      var k :| 0 <= k < |s.worker.batch| && Stale(s.worker.batch[k], id);
      steps := AskEventually(s, [], id, k);
    } else if AnyStale(s.worker.rest, id) {
      var k :| 0 <= k < |s.worker.rest| && Stale(s.worker.rest[k], id);
      steps := SkipHandler(s, [], id);
      steps := AskEventually(s, steps, id, k);
    } else {
      assert s.worker.todo[0].Ask?;
      Extend(s, [], DoWrite);
      steps := [] + [DoWrite];
    }
  }

  ghost predicate ComesBack(s: State, id: nat, steps: seq<Step>) {
    Runs(s, steps) && id in After(s, steps).db.tasks && After(s, steps).db.tasks[id].status.MaterialsReview?
  }

  /** The exact condition. In any reachable state, a task that has its manual decision can be back in
      materials_review later iff the worker holds a snapshot of it from before the decision. */
  lemma AskedAgainIffStale(before: seq<Step>, id: nat)
    requires Runs(START, before) && id in After(START, before).db.tasks
    requires After(START, before).db.tasks[id].manual.Some?
    requires !After(START, before).db.tasks[id].status.MaterialsReview?
    ensures (exists steps :: ComesBack(After(START, before), id, steps)) <==>
              HoldsStale(After(START, before).worker, id)
  {
    var s := After(START, before);
    RunQuiet(START, before);
    if HoldsStale(s.worker, id) {
      var steps := StaleAsks(s, id);
      assert ComesBack(s, id, steps);
    } else {
      forall steps | Runs(s, steps)
        ensures !ComesBack(s, id, steps)
      {
        SettledForever(s, steps, id);
      }
    }
  }

  /** And such states are reached: a second decision between the SELECT and the UPDATE of a submission
      lets the worker fetch the task in between. The run ends with the decision stored and the task in
      materials_review again. */
  lemma DecisionLost() returns (steps: seq<Step>)
    ensures Runs(START, steps) && 0 in After(START, steps).db.tasks
    ensures var t := After(START, steps).db.tasks[0]; t.manual.Some? && t.status.MaterialsReview?
  {
    var answers: Decision := map["part" := Match(Some("target"), None, false)];
    assert "part" in answers;
    steps := ReviewRun();
    Extend(START, steps, Submit(0, answers));
    steps := steps + [Submit(0, answers)];
    Extend(START, steps, Decide(0, "request"));
    steps := steps + [Decide(0, "request")];
    var snap := Snapshot(0, After(START, steps).db.tasks[0]);
    Extend(START, steps, Fetch([snap]));
    steps := steps + [Fetch([snap])];
    Extend(START, steps, Store(Submission(0, answers)));
    steps := steps + [Store(Submission(0, answers))];
    RunInvariant(START, steps);
    steps := AskFirst(START, steps, 0);
  }

  /** Mail, classification, and a first pass that asks. */
  lemma ReviewRun() returns (steps: seq<Step>)
    ensures Runs(START, steps) && After(START, steps).worker == Idle && After(START, steps).web == multiset{}
    ensures 0 in After(START, steps).db.tasks && After(START, steps).db.tasks[0].status.MaterialsReview?
    ensures After(START, steps).db.tasks[0].manual.None?
  {
    Extend(START, [], Mail(0, 0));
    steps := [] + [Mail(0, 0)];
    Extend(START, steps, Decide(0, "request"));
    steps := steps + [Decide(0, "request")];
    var snap := Snapshot(0, After(START, steps).db.tasks[0]);
    Extend(START, steps, Fetch([snap]));
    steps := steps + [Fetch([snap])];
    RunInvariant(START, steps);
    steps := AskFirst(START, steps, 0);
    Extend(START, steps, Abort);
    steps := steps + [Abort];
  }
}
