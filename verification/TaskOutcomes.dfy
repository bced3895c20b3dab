/** What a handler of processors/main.py leaves in the database when nothing raised on the way to its end. */
module TaskOutcomes {
  import opened Text
  import opened Mappings
  import opened TaskStore
  import opened Lifecycle
  import opened DocumentLoop

  /** The label and whether its probability reaches the threshold (decide_by_thresholds). */
  datatype Verdict = Verdict(name: string, confident: bool)

  /** What a handler met on its way: the verdict on an email, or its documents and the workbooks built. */
  datatype Work =
    | Nothing
    | Judged(verdict: Verdict)
    | Ordered(docs: seq<Document>, around: Surroundings, builds: seq<Build>)

  function InError(t: Task): Task { t.(status := Status.Error, retries := t.retries + 1) }

  /** Only the task's row changes. */
  ghost predicate RowBecomes(db: Db, id: nat, now: Task, db': Db) { db' == db.(tasks := db.tasks[id := now]) }

  // ---------- after the document loop ----------

  /** A human has to be asked: some part is unsettled, and nobody has answered yet. */
  ghost predicate MustAsk(docs: seq<Document>, manual: Option<map<string, Match>>, mappings: map<string, Match>,
                          reading: Reading)
  {
    manual.None? && exists p :: Unanswered(docs, mappings, reading, p)
  }

  ghost predicate SomethingStored(builds: seq<Build>) { exists j :: 0 <= j < |builds| && builds[j].stored }

  /** The workbooks are those of the documents whose turn got that far, made for this kind of order. */
  ghost predicate RightBuilds(kind: Kind, docs: seq<Document>, around: Surroundings, builds: seq<Build>,
                              manual: Option<map<string, Match>>, mappings: map<string, Match>, reading: Reading)
  {
    && (forall j :: 0 <= j < |builds| ==> GoodBuild(builds[j], kind, around, docs, manual, mappings, reading))
    && (forall k :: 0 <= k < |docs| && Reaches(docs, k, manual, mappings, reading) ==>
          exists j :: 0 <= j < |builds| && builds[j].doc == k)
  }

  /** The task row after process_request_excel or process_calculation_excel: in review, with exactly the unsettled
      parts as questions, iff nothing raised and somebody has to be asked; completed iff nothing raised, nobody has
      to be asked and something was stored; in error otherwise. */
  ghost predicate OrderRow(was: Task, now: Task, docs: seq<Document>, builds: seq<Build>,
                           manual: Option<map<string, Match>>, mappings: map<string, Match>, reading: Reading)
  {
    var smooth := Smooth(docs, |docs|, manual, reading);
    var ask := MustAsk(docs, manual, mappings, reading);
    if smooth && ask then
      && now == was.(status := MaterialsReview, output := now.output)
      && (forall p :: p in now.output <==> Unanswered(docs, mappings, reading, p))
      && (forall p :: p in now.output ==> now.output[p] == Asked(p in mappings))
    else if smooth && SomethingStored(builds) then now == was.(status := Status.Completed)
    else now == InError(was)
  }

  // ---------- after any handler ----------

  ghost predicate NewHandled(db: Db, snap: Snapshot, db': Db, work: Work)
    requires snap.id in db.tasks
  {
    var was, e := db.tasks[snap.id], snap.task.emailId;
    if e !in db.emails then RowBecomes(db, snap.id, InError(was), db')
    else
      && work.Judged?
      && var sure := work.verdict.confident;
      && db'.tasks == db.tasks[snap.id := was.(status := if sure then MlClassified else MlReview)]
      && db'.emails == db.emails[e := Email(Some(if sure then work.verdict.name else "review"))]
      && db'.mappings == db.mappings
  }

  function KindOf(decision: string): Option<Kind> {
    if decision == "request" then Some(Request) else if decision == "calculation" then Some(Calculation) else None
  }

  ghost predicate OrderHandled(db: Db, snap: Snapshot, kind: Kind, db': Db, work: Work, reading: Reading)
    requires snap.id in db.tasks
  {
    && work.Ordered? && snap.id in db'.tasks
    && RowBecomes(db, snap.id, db'.tasks[snap.id], db')
    && (Smooth(work.docs, |work.docs|, snap.task.manual, reading) ==>
          RightBuilds(kind, work.docs, work.around, work.builds, snap.task.manual, db.mappings, reading))
    && OrderRow(db.tasks[snap.id], db'.tasks[snap.id], work.docs, work.builds, snap.task.manual, db.mappings, reading)
  }

  ghost predicate ClassifiedHandled(db: Db, snap: Snapshot, db': Db, work: Work, reading: Reading)
    requires snap.id in db.tasks
  {
    var was, e := db.tasks[snap.id], snap.task.emailId;
    if e !in db.emails then RowBecomes(db, snap.id, InError(was), db')
    else if db.emails[e].decision.None? then RowBecomes(db, snap.id, was.(status := New), db')
    else if KindOf(db.emails[e].decision.value).Some? then
      OrderHandled(db, snap, KindOf(db.emails[e].decision.value).value, db', work, reading)
    else if db.emails[e].decision.value == "question" then RowBecomes(db, snap.id, was.(status := Question), db')
    else RowBecomes(db, snap.id, InError(was), db')
  }

  ghost predicate ManualHandled(db: Db, snap: Snapshot, db': Db)
    requires snap.id in db.tasks
  {
    var was, e := db.tasks[snap.id], snap.task.emailId;
    if snap.task.manual.None? || e !in db.emails then RowBecomes(db, snap.id, InError(was), db')
    else if db.emails[e].decision.None? then RowBecomes(db, snap.id, was.(status := New), db')
    else
      && db'.tasks == db.tasks[snap.id := was.(status := MlClassified)] && db'.emails == db.emails
      && Merged(db.mappings, snap.task.manual.value, snap.task.manual.value.Keys, db'.mappings)
  }

  ghost predicate Handled(db: Db, snap: Snapshot, db': Db, work: Work, reading: Reading)
    requires snap.id in db.tasks
  {
    match snap.task.status
    case New => NewHandled(db, snap, db', work)
    case MlClassified => ClassifiedHandled(db, snap, db', work, reading)
    case ManualReviewDone => ManualHandled(db, snap, db')
    case _ => db' == db
  }

  /** What can be wrong with a task so that its handler ends in error without an exception. */
  ghost predicate Hopeless(db: Db, snap: Snapshot, work: Work, reading: Reading) {
    var e, manual := snap.task.emailId, snap.task.manual;
    || (snap.task.status.ManualReviewDone? && manual.None?)
    || e !in db.emails
    || (snap.task.status.MlClassified? && db.emails[e].decision.Some?
        && var d := db.emails[e].decision.value;
           if KindOf(d).None? then d != "question"
           else
             && work.Ordered?
             && (Smooth(work.docs, |work.docs|, manual, reading) ==>
                   !MustAsk(work.docs, manual, db.mappings, reading) && !SomethingStored(work.builds)))
  }

  /** Without an exception a handler leaves its task in error iff the email is missing, its class is unsupported, no
      answers were stored, or the document loop raised or stored nothing. */
  lemma ErrorIff(db: Db, snap: Snapshot, db': Db, work: Work, reading: Reading)
    requires snap.id in db.tasks && Handled(db, snap, db', work, reading)
    requires snap.task.status.New? || snap.task.status.MlClassified? || snap.task.status.ManualReviewDone?
    ensures snap.id in db'.tasks
    ensures db'.tasks[snap.id].status.Error? <==> Hopeless(db, snap, work, reading)
  {
  }

  /** And where it goes otherwise. */
  lemma WhereTo(db: Db, snap: Snapshot, db': Db, work: Work, reading: Reading)
    requires snap.id in db.tasks && Handled(db, snap, db', work, reading) && !Hopeless(db, snap, work, reading)
    requires snap.task.status.New? || snap.task.status.MlClassified? || snap.task.status.ManualReviewDone?
    ensures snap.id in db'.tasks && snap.task.emailId in db.emails
    ensures var now, decision := db'.tasks[snap.id].status, db.emails[snap.task.emailId].decision;
            && (snap.task.status.New? ==>
                  (now.MlClassified? || now.MlReview?) && Decided(db', snap.task.emailId))
            && (!snap.task.status.New? && decision.None? ==> now.New?)
            && (snap.task.status.ManualReviewDone? && decision.Some? ==> now.MlClassified?)
            && (snap.task.status.MlClassified? && decision == Some("question") ==> now.Question?)
            && (snap.task.status.MlClassified? && decision.Some? && decision != Some("question") ==>
                  now.MaterialsReview? || now.Completed?)
  {
  }
}
