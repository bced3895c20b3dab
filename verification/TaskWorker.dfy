/** The worker of processors/main.py: the repositories and the handlers. Each handler is shown to leave what module
    TaskOutcomes says, by one of the write plans of module Lifecycle. */
module TaskWorker {
  import opened Text
  import opened Mappings
  import opened TaskStore
  import opened Lifecycle
  import opened DocumentLoop
  import opened TaskOutcomes

  const BATCH_SIZE := 10

  lemma OneFewer(keys: set<string>, todo: set<string>, p: string)
    requires todo <= keys && p in todo
    ensures keys - (todo - {p}) == keys - todo + {p} && p !in keys - todo && |todo - {p}| < |todo|
  {
  }

  ghost predicate Among(id: nat, batch: seq<Snapshot>) { exists k :: 0 <= k < |batch| && batch[k].id == id }

  lemma AmongSnoc(batch: seq<Snapshot>, snap: Snapshot)
    ensures forall id :: Among(id, batch) ==> Among(id, batch + [snap])
    ensures Among(snap.id, batch + [snap])
  {
    assert (batch + [snap])[|batch|] == snap;
    forall id | Among(id, batch)
      ensures Among(id, batch + [snap])
    {
      var k :| 0 <= k < |batch| && batch[k].id == id;
      assert (batch + [snap])[k].id == id;
    }
  }

  /** The repositories over one database. */
  class Repositories {
    var db: Db

    constructor (db: Db)
      ensures this.db == db
    {
      this.db := db;
    }

    method UpdateStatus(id: nat, status: Status)
      modifies this
      ensures db == TaskStore.UpdateStatus(old(db), id, status)
    {
      if id in db.tasks {
        var task := db.tasks[id];
        db := db.(tasks := db.tasks[id := task.(status := status)]);
      }
    }

    method UpdateStatusAsking(id: nat, questions: map<string, OutValue>)
      modifies this
      ensures db == TaskStore.SetQuestions(old(db), id, questions)
    {
      if id in db.tasks {
        var task := db.tasks[id];
        db := db.(tasks := db.tasks[id := task.(status := MaterialsReview, output := questions)]);
      }
    }

    method MarkError(id: nat)
      modifies this
      ensures db == TaskStore.MarkError(old(db), id)
    {
      if id in db.tasks {
        var task := db.tasks[id];
        db := db.(tasks := db.tasks[id := task.(status := Error, retries := task.retries + 1)]);
      }
    }

    method SetMlResult(emailId: nat, decision: string)
      modifies this
      ensures db == TaskStore.SetMlResult(old(db), emailId, decision)
    {
      if emailId in db.emails {
        db := db.(emails := db.emails[emailId := Email(Some(decision))]);
      }
    }

    /** One row of the insert, with its ON CONFLICT clause. */
    method InsertMapping(source: string, row: Match)
      modifies this
      ensures source in db.mappings
      ensures db == old(db).(mappings := old(db).mappings[source := db.mappings[source]])
      ensures OnConflict(old(db).mappings, source, row, db.mappings[source])
    {
      var kept := row;
      if source in db.mappings {
        var was := db.mappings[source];
        if row.target.None? {
          kept := kept.(target := was.target);
        }
        if row.article.None? {
          kept := kept.(article := was.article);
        }
      }
      db := db.(mappings := db.mappings[source := kept]);
    }

    method InsertNext(p: string, items: Decision, ghost was: map<string, Match>, ghost done: set<string>)
      requires done <= items.Keys && p in items && p !in done && Merged(was, items, done, db.mappings)
      modifies this
      ensures db == old(db).(mappings := db.mappings)
      ensures Merged(was, items, done + {p}, db.mappings)
    {
      InsertMapping(p, items[p]);
      MergedMore(was, items, done, old(db).mappings, p, db.mappings[p]);
    }

    /** The rows of the insert, one after the other. */
    method InsertRows(items: Decision)
      modifies this
      ensures db == old(db).(mappings := db.mappings)
      ensures Merged(old(db).mappings, items, items.Keys, db.mappings)
    {
      ghost var done: set<string> := {};
      var todo := items.Keys;
      while todo != {}
        invariant done == items.Keys - todo && todo <= items.Keys
        invariant db == old(db).(mappings := db.mappings)
        invariant Merged(old(db).mappings, items, done, db.mappings)
        decreases |todo|
      {
        var p :| p in todo;
        OneFewer(items.Keys, todo, p);
        InsertNext(p, items, old(db).mappings, done);
        todo, done := todo - {p}, done + {p};
      }
    }

    /** batch_add. Every answered part has a row afterwards: the new text where there is some, the old text
        otherwise, and the new black-list flag. No other row changes, and nothing but the mappings. */
    method BatchAdd(items: Decision)
      modifies this
      ensures db == old(db).(mappings := db.mappings)
      ensures db.mappings.Keys == old(db).mappings.Keys + items.Keys
      ensures forall p :: p in items ==> OnConflict(old(db).mappings, p, items[p], db.mappings[p])
      ensures forall p :: p in old(db).mappings && p !in items ==> db.mappings[p] == old(db).mappings[p]
      ensures db == TaskStore.BatchAdd(old(db), items)
    {
      InsertRows(items);
      UpsertMeaning(old(db).mappings, items, db.mappings);
    }

    /** Up to `limit` pending tasks, as they are now; with fewer than that, all of them. */
    method FetchPending(limit: nat) returns (batch: seq<Snapshot>)
      requires 0 < limit <= 10
      ensures batch == [] ==> forall id :: id in db.tasks ==> !Pending(db.tasks[id].status)
      ensures batch != [] ==> Fetched(db, batch)
      ensures |batch| <= limit
      ensures |batch| < limit ==> forall id :: id in db.tasks && Pending(db.tasks[id].status) ==> Among(id, batch)
    {
      batch := [];
      var todo := set id | id in db.tasks && Pending(db.tasks[id].status);
      ghost var all := todo;
      while todo != {} && |batch| < limit
        invariant todo <= all && |batch| <= limit && (batch == [] ==> todo == all)
        invariant forall k :: 0 <= k < |batch| ==>
                    batch[k].id in all - todo && db.tasks[batch[k].id] == batch[k].task
        invariant forall j, k :: 0 <= j < k < |batch| ==> batch[j].id != batch[k].id
        invariant forall id :: id in all - todo ==> Among(id, batch)
        decreases |todo|
      {
        var id :| id in todo;
        AmongSnoc(batch, Snapshot(id, db.tasks[id]));
        batch := batch + [Snapshot(id, db.tasks[id])];
        todo := todo - {id};
      }
      assert batch == [] ==> all == {};
      assert forall id :: id in db.tasks && Pending(db.tasks[id].status) ==> id in all;
    }
  }

  function PerformAll(db: Db, id: nat, todo: seq<Write>): Db
    decreases |todo|
  {
    if todo == [] then db else PerformAll(Perform(db, id, todo[0]), id, todo[1..])
  }

  lemma PerformTwo(db: Db, id: nat, a: Write, b: Write)
    ensures PerformAll(db, id, [a]) == Perform(db, id, a)
    ensures PerformAll(db, id, [a, b]) == Perform(Perform(db, id, a), id, b)
  {
    assert [a][1..] == [] && [a, b][1..] == [b] && [b][1..] == [];
    assert PerformAll(Perform(db, id, a), id, [b]) == Perform(Perform(db, id, a), id, b);
  }

  function AskedAbout(questions: Questions): map<string, OutValue> {
    map p | p in questions :: Asked(questions[p])
  }

  /** What the row of the task becomes after the document loop. */
  function Concluded(t: Task, outcome: Outcome): Task {
    match outcome
    case Raised => InError(t)
    case Review(questions) => t.(status := MaterialsReview, output := AskedAbout(questions))
    case Completed => t.(status := Status.Completed)
    case NothingStored(_) => InError(t)
  }

  class MailProcessor {
    const repos: Repositories
    const reading: Reading

    constructor (repos: Repositories, reading: Reading)
      ensures this.repos == repos && this.reading == reading
    {
      this.repos, this.reading := repos, reading;
    }

    /** The writes made are one of the plans a handler may follow from this snapshot. */
    twostate predicate Followed(snap: Snapshot, todo: seq<Write>)
      reads repos
    {
      Plan(old(repos.db), snap, todo) && repos.db == PerformAll(old(repos.db), snap.id, todo)
    }

    /** The classifier: any verdict, anew at every call. */
    method Predict() returns (verdict: Verdict) {
      verdict := *;
    }

    /** The documents of an email, the builders and the uploads: anything, anew at every call. */
    method Documents() returns (docs: seq<Document>, around: Surroundings) {
      docs, around := *, *;
    }

    method ProcessNew(snap: Snapshot) returns (ghost todo: seq<Write>, ghost work: Work)
      requires snap.task.status.New?
      modifies repos
      ensures Followed(snap, todo)
      ensures snap.id in old(repos.db).tasks ==> NewHandled(old(repos.db), snap, repos.db, work)
    {
      var emailId := snap.task.emailId;
      if emailId !in repos.db.emails {
        PerformTwo(repos.db, snap.id, Fail, Fail);
        repos.MarkError(snap.id);
        return [Fail], Work.Nothing;
      }
      var verdict := Predict();
      var decision := if verdict.confident then verdict.name else "review";
      var status := if verdict.confident then MlClassified else MlReview;
      todo, work := [ClassifyEmail(emailId, decision), Move(status)], Judged(verdict);
      PerformTwo(repos.db, snap.id, todo[0], todo[1]);
      repos.SetMlResult(emailId, decision);
      repos.UpdateStatus(snap.id, status);
    }

    /** The documents of a classified email, and the status after their loop. */
    method ProcessExcel(snap: Snapshot, kind: Kind) returns (ghost todo: seq<Write>, ghost work: Work)
      requires snap.task.status.MlClassified? && snap.task.emailId in repos.db.emails
      requires repos.db.emails[snap.task.emailId].decision == Some(if kind.Request? then "request" else "calculation")
      modifies repos
      ensures Followed(snap, todo)
      ensures snap.id in old(repos.db).tasks ==> OrderHandled(old(repos.db), snap, kind, repos.db, work, reading)
    {
      var docs, around := Documents();
      if docs == [] {
        todo, work := [Move(Error), Fail], Ordered(docs, around, []);
        PerformTwo(repos.db, snap.id, todo[0], todo[1]);
        repos.UpdateStatus(snap.id, Error);
        repos.MarkError(snap.id);
        return;
      }
      ghost var mappings := repos.db.mappings;
      var outcome, builds := ProcessDocuments(kind, around, docs, snap.task.manual, repos.db.mappings, reading);
      work := Ordered(docs, around, builds);
      todo := Conclude(snap, outcome);
      if snap.id in old(repos.db).tasks {
        ConcludedIsRow(old(repos.db).tasks[snap.id], outcome, docs, builds, snap.task.manual, mappings);
      }
    }

    /** The outcome of the loop decides the row as OrderRow says. */
    lemma ConcludedIsRow(was: Task, outcome: Outcome, docs: seq<Document>, builds: seq<Build>,
                         manual: Option<Decision>, mappings: map<string, Match>)
      requires outcome.Raised? <==> !Smooth(docs, |docs|, manual, reading)
      requires !outcome.Raised? ==>
                 var asked := Asks(manual, mappings, PartsOf(MaterialsUpTo(docs, |docs|), reading));
                 && (outcome.Review? <==> asked != map[])
                 && (outcome.Review? ==> outcome.questions == asked)
                 && (!outcome.Review? ==> (outcome.Completed? <==> SomethingStored(builds)))
      ensures OrderRow(was, Concluded(was, outcome), docs, builds, manual, mappings, reading)
    {
      AskedIffUnsettled(docs, mappings, reading);
    }

    /** The status after the document loop. */
    method Conclude(snap: Snapshot, outcome: Outcome) returns (ghost todo: seq<Write>)
      requires outcome.Review? ==> snap.task.manual.None? && outcome.questions != map[]
      modifies repos
      ensures repos.db == PerformAll(old(repos.db), snap.id, todo)
      ensures || todo == [Fail] || todo == [Move(Error), Fail] || todo == [Move(Status.Completed)]
              || (snap.task.manual.None? && exists q :: AllAsked(q) && todo == [Ask(q)])
      ensures snap.id in old(repos.db).tasks ==>
                RowBecomes(old(repos.db), snap.id, Concluded(old(repos.db).tasks[snap.id], outcome), repos.db)
    {
      match outcome
      case Raised =>
        PerformTwo(repos.db, snap.id, Fail, Fail);
        repos.MarkError(snap.id);
        todo := [Fail];
      case Review(questions) =>
        var asked := AskedAbout(questions);
        assert exists p :: p in questions;
        assert AllAsked(asked);
        todo := [Ask(asked)];
        PerformTwo(repos.db, snap.id, todo[0], Fail);
        repos.UpdateStatusAsking(snap.id, asked);
      case Completed =>
        todo := [Move(Status.Completed)];
        PerformTwo(repos.db, snap.id, todo[0], Fail);
        repos.UpdateStatus(snap.id, Status.Completed);
      case NothingStored(_) =>
        todo := [Move(Error), Fail];
        PerformTwo(repos.db, snap.id, todo[0], todo[1]);
        repos.UpdateStatus(snap.id, Error);
        repos.MarkError(snap.id);
    }

    method ProcessClassified(snap: Snapshot) returns (ghost todo: seq<Write>, ghost work: Work)
      requires snap.task.status.MlClassified?
      modifies repos
      ensures Followed(snap, todo)
      ensures snap.id in old(repos.db).tasks ==> ClassifiedHandled(old(repos.db), snap, repos.db, work, reading)
    {
      work := Work.Nothing;
      if snap.task.emailId !in repos.db.emails {
        PerformTwo(repos.db, snap.id, Fail, Fail);
        repos.MarkError(snap.id);
        todo := [Fail];
        return;
      }
      var decision := repos.db.emails[snap.task.emailId].decision;
      if decision.None? {
        todo := [Move(New)];
        PerformTwo(repos.db, snap.id, todo[0], Fail);
        repos.UpdateStatus(snap.id, New);
        return;
      }
      if decision.value == "request" {
        todo, work := ProcessExcel(snap, Request);
      } else if decision.value == "calculation" {
        todo, work := ProcessExcel(snap, Calculation);
      } else if decision.value == "question" {
        todo := [Move(Question)];
        PerformTwo(repos.db, snap.id, todo[0], Fail);
        repos.UpdateStatus(snap.id, Question);
      } else {
        todo := [Fail, Move(Error)];
        PerformTwo(repos.db, snap.id, todo[0], todo[1]);
        repos.MarkError(snap.id);
        repos.UpdateStatus(snap.id, Error);
      }
    }

    method ProcessManual(snap: Snapshot) returns (ghost todo: seq<Write>)
      requires snap.task.status.ManualReviewDone?
      modifies repos
      ensures Followed(snap, todo)
      ensures snap.id in old(repos.db).tasks ==> ManualHandled(old(repos.db), snap, repos.db)
    {
      if snap.task.manual.None? {
        todo := [Move(Error), Fail];
        PerformTwo(repos.db, snap.id, todo[0], todo[1]);
        repos.UpdateStatus(snap.id, Error);
        repos.MarkError(snap.id);
        return;
      }
      if snap.task.emailId !in repos.db.emails {
        PerformTwo(repos.db, snap.id, Fail, Fail);
        repos.MarkError(snap.id);
        return [Fail];
      }
      if repos.db.emails[snap.task.emailId].decision.None? {
        todo := [Move(New)];
        PerformTwo(repos.db, snap.id, todo[0], Fail);
        repos.UpdateStatus(snap.id, New);
        return;
      }
      todo := [AddAnswers(snap.task.manual.value), Move(MlClassified)];
      PerformTwo(repos.db, snap.id, todo[0], todo[1]);
      repos.BatchAdd(snap.task.manual.value);
      repos.UpdateStatus(snap.id, MlClassified);
    }

    /** The writes of a handler that did not get to its end. */
    method Interrupted(snap: Snapshot, done: seq<Write>)
      modifies repos
      ensures repos.db == PerformAll(old(repos.db), snap.id, done)
      decreases |done|
    {
      if done == [] {
        return;
      }
      match done[0] {
        case ClassifyEmail(emailId, decision) => repos.SetMlResult(emailId, decision);
        case Move(status) => repos.UpdateStatus(snap.id, status);
        case Ask(questions) => repos.UpdateStatusAsking(snap.id, questions);
        case Fail => repos.MarkError(snap.id);
        case AddAnswers(items) => repos.BatchAdd(items);
      }
      Interrupted(snap, done[1..]);
    }

    /** HANDLERS and process_single_task; a status without a handler is left alone. */
    method ProcessSingleTask(snap: Snapshot) returns (ghost todo: seq<Write>, ghost work: Work)
      requires Pending(snap.task.status)
      modifies repos
      ensures Followed(snap, todo)
      ensures snap.id in old(repos.db).tasks ==> Handled(old(repos.db), snap, repos.db, work, reading)
    {
      work := Work.Nothing;
      if snap.task.status.New? {
        todo, work := ProcessNew(snap);
      } else if snap.task.status.MlClassified? {
        todo, work := ProcessClassified(snap);
      } else if snap.task.status.ManualReviewDone? {
        todo := ProcessManual(snap);
      } else {
        todo := [];
      }
    }
  }
}
