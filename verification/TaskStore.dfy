/** The rows the worker and the web share (processors/database, frontend/mail-client/app/routers/queue.py)
    and the atomic writes on them. */
module TaskStore {
  import opened Text
  import opened Mappings

  datatype Status =
    | New | Downloaded | FilesSaved | MlProcessing | MlClassified | Question
    | MlReview | MaterialsReview | ManualReviewDone | Completed | Error

  /** Statuses fetch_pending selects. */
  predicate Pending(s: Status) {
    s.New? || s.MlClassified? || s.Downloaded? || s.FilesSaved? || s.ManualReviewDone?
  }

  type Decision = map<string, Match>

  /** A value in output_data: a question about a part, or a field patched in by the web. */
  datatype OutValue = Asked(blackListed: bool) | Patched

  datatype Task = Task(
    emailId: nat,
    status: Status,
    output: map<string, OutValue>,
    manual: Option<Decision>,
    retries: nat)

  /** model_decision of an email; None until somebody decides. */
  datatype Email = Email(decision: Option<string>)

  datatype Db = Db(tasks: map<nat, Task>, emails: map<nat, Email>, mappings: map<string, Match>)

  function UpdateStatus(db: Db, id: nat, status: Status): Db {
    if id in db.tasks then db.(tasks := db.tasks[id := db.tasks[id].(status := status)]) else db
  }

  function SetQuestions(db: Db, id: nat, questions: map<string, OutValue>): Db {
    if id in db.tasks then
      db.(tasks := db.tasks[id := db.tasks[id].(status := MaterialsReview, output := questions)])
    else db
  }

  function MarkError(db: Db, id: nat): Db {
    if id in db.tasks then
      db.(tasks := db.tasks[id := db.tasks[id].(status := Error, retries := db.tasks[id].retries + 1)])
    else db
  }

  function SetMlResult(db: Db, emailId: nat, decision: string): Db {
    if emailId in db.emails then db.(emails := db.emails[emailId := Email(Some(decision))]) else db
  }

  function Coalesce(x: Option<string>, y: Option<string>): Option<string> {
    if x.Some? then x else y
  }

  /** INSERT ... ON CONFLICT DO UPDATE: new text wins when there is some, the black list flag always. */
  function Upsert(mappings: map<string, Match>, items: Decision): map<string, Match> {
    map p | p in mappings.Keys + items.Keys ::
      if p !in items then mappings[p]
      else if p !in mappings then items[p]
      else Match(Coalesce(items[p].target, mappings[p].target), Coalesce(items[p].article, mappings[p].article),
                 items[p].blackListed)
  }

  /** The row a part has after the conflict clause: new text where there is some, else the text it had;
      the new flag. */
  predicate OnConflict(was: map<string, Match>, part: string, item: Match, now: Match) {
    && now.target == (if item.target.None? && part in was then was[part].target else item.target)
    && now.article == (if item.article.None? && part in was then was[part].article else item.article)
    && now.blackListed == item.blackListed
  }

  /** The answers for the parts in `done` have been merged: each has its row under the conflict clause, and no
      other row changed. */
  ghost predicate Merged(was: map<string, Match>, items: Decision, done: set<string>, now: map<string, Match>)
    requires done <= items.Keys
  {
    && now.Keys == was.Keys + done
    && (forall p :: p in done ==> OnConflict(was, p, items[p], now[p]))
    && (forall p :: p in was && p !in done ==> now[p] == was[p])
  }

  /** The table after the upsert is the one table in which every answer has been merged. */
  lemma UpsertMeaning(was: map<string, Match>, items: Decision, now: map<string, Match>)
    ensures now == Upsert(was, items) <==> Merged(was, items, items.Keys, now)
  {
    var rows := Upsert(was, items);
    if Merged(was, items, items.Keys, now) {
      forall p | p in rows
        ensures now[p] == rows[p]
      {
      }
    }
  }

  lemma MergedMore(was: map<string, Match>, items: Decision, done: set<string>, now: map<string, Match>, p: string,
                   row: Match)
    requires done <= items.Keys && Merged(was, items, done, now) && p in items && p !in done
    requires OnConflict(now, p, items[p], row)
    ensures Merged(was, items, done + {p}, now[p := row])
  {
  }

  function BatchAdd(db: Db, items: Decision): Db {
    db.(mappings := Upsert(db.mappings, items))
  }

  /** Adding the same answers again changes nothing. */
  lemma UpsertTwice(mappings: map<string, Match>, items: Decision)
    ensures Upsert(Upsert(mappings, items), items) == Upsert(mappings, items)
  {
  }

  // ---------- web transactions ----------

  const DECISION_CLASSES := {"request", "calculation", "question"}

  /** POST /queue/{id}/decision as the page sends it. */
  function WebDecision(db: Db, id: nat, decision: string): Db
    requires id in db.tasks
  {
    var t := db.tasks[id];
    var status := if decision == "question" then Question else MlClassified;
    var patch := map["predicted_class" := Patched, "manual_updated_by" := Patched, "manual_review" := Patched,
                     "model_decision" := Patched];
    Db(db.tasks[id := t.(status := status, output := t.output + patch)],
       if t.emailId in db.emails then db.emails[t.emailId := Email(Some(decision))] else db.emails,
       db.mappings)
  }

  /** The SELECT and the checks of POST /queue/{id}/manual-decision. */
  predicate ManualAccepted(db: Db, id: nat, answers: Decision) {
    id in db.tasks && answers != map[] && db.tasks[id].status.MaterialsReview?
  }

  /** Its UPDATE, which does not look at the status again. */
  function WebManual(db: Db, id: nat, answers: Decision): Db {
    if id in db.tasks then
      db.(tasks := db.tasks[id := db.tasks[id].(status := ManualReviewDone, manual := Some(answers))])
    else db
  }

  // ---------- mail ----------

  /** The committed effect of SaveOrder: the email row is inserted or kept, and a new task added. */
  function SaveMail(db: Db, emailId: nat, id: nat): Db {
    Db(db.tasks[id := Task(emailId, New, map[], None, 0)],
       if emailId in db.emails then db.emails else db.emails[emailId := Email(None)],
       db.mappings)
  }
}
