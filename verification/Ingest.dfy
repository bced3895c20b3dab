/** SaveOrder (mail/internal/storage/repo.go) over the tables of storage/init/01-schema.sql: transactions of
    several workers interleaved, with errors, crashes and repeated saves of one message. */
module Ingest {
  import opened Text
  import opened ObjectKeys

  datatype File = File(name: string, data: string)
  datatype Message = Message(uid: nat, subject: string, files: seq<File>)

  datatype EmailRow = EmailRow(user: nat, mailbox: string, uid: nat, subject: string)
  datatype DocumentRow = DocumentRow(email: nat, filename: string, key: string, size: nat)
  datatype TaskRow = TaskRow(email: nat, document: Option<nat>)

  /** An object in the store, with the save that put it there. */
  datatype Object = Object(user: nat, uid: nat, index: nat, name: string, data: string)

  /** An open transaction: what it was called with and what it has written so far. */
  datatype Save = Save(
    user: nat,
    mailbox: string,
    message: Message,
    row: Option<nat>,               // id of the email row, once upserted
    uploaded: nat,                  // files in the object store
    inserted: nat,                  // document rows written
    documents: map<nat, DocumentRow>,
    first: Option<nat>,             // firstDocumentID
    task: Option<nat>)              // id of the task row, once written

  /** Committed tables, the object store, the open transactions by worker, the id sequence, and for
      reference the email row of every commit and of every file committed. */
  datatype State = State(
    users: map<nat, string>,
    emails: map<nat, EmailRow>,
    documents: map<nat, DocumentRow>,
    tasks: map<nat, TaskRow>,
    objects: map<string, Object>,
    saves: map<nat, Save>,
    next: nat,
    commits: multiset<nat>,
    files: multiset<nat>)

  datatype Step =
    | Begin(w: nat, user: nat, message: Message)
    | Upsert(w: nat, row: nat)   // row: the id it returns
    | Upload(w: nat)
    | Insert(w: nat)
    | CreateTask(w: nat)
    | Commit(w: nat)
    | Abort(w: nat)              // an error and its rollback, or a crash

  function KeyOf(sv: Save, i: nat): string
    requires i < |sv.message.files|
  {
    ObjectKey(sv.user, sv.message.uid, i + 1, sv.message.files[i].name)
  }

  function ObjectOf(sv: Save, i: nat): Object
    requires i < |sv.message.files|
  {
    Object(sv.user, sv.message.uid, i + 1, sv.message.files[i].name, sv.message.files[i].data)
  }

  predicate SameMessage(e: EmailRow, sv: Save) { e.mailbox == sv.mailbox && e.uid == sv.message.uid }

  ghost predicate Stored(emails: map<nat, EmailRow>, sv: Save) { exists e :: e in emails && SameMessage(emails[e], sv) }

  /** Another transaction has upserted the same message and not ended: the unique index makes this one wait. */
  ghost predicate Blocked(s: State, w: nat)
    requires w in s.saves
  {
    exists v :: v in s.saves && v != w && s.saves[v].row.Some?
                && s.saves[v].mailbox == s.saves[w].mailbox && s.saves[v].message.uid == s.saves[w].message.uid
  }

  ghost predicate Enabled(s: State, step: Step) {
    match step
    case Begin(w, user, _) => w !in s.saves && user in s.users
    case Upsert(w, row) =>
      && w in s.saves && s.saves[w].row.None? && !Blocked(s, w)
      && if Stored(s.emails, s.saves[w])
         then row in s.emails && SameMessage(s.emails[row], s.saves[w])
         else row == s.next
    case Upload(w) =>
      w in s.saves && s.saves[w].row.Some? && s.saves[w].uploaded == s.saves[w].inserted < |s.saves[w].message.files|
    case Insert(w) => w in s.saves && Insertable(s.saves[w])
    case CreateTask(w) =>
      w in s.saves && s.saves[w].row.Some? && s.saves[w].inserted == |s.saves[w].message.files| && s.saves[w].task.None?
    case Commit(w) => Committable(s, w)
    case Abort(w) => w in s.saves
  }

  function Without(saves: map<nat, Save>, w: nat): map<nat, Save> { map v | v in saves && v != w :: saves[v] }

  predicate Insertable(sv: Save) { sv.row.Some? && sv.inserted < sv.uploaded <= |sv.message.files| }

  function NextDocument(sv: Save): DocumentRow
    requires Insertable(sv)
  {
    var f := sv.message.files[sv.inserted];
    DocumentRow(sv.row.value, f.name, KeyOf(sv, sv.inserted), |f.data|)
  }

  function WithDocument(sv: Save, id: nat): Save
    requires Insertable(sv)
  {
    sv.(inserted := sv.inserted + 1, documents := sv.documents[id := NextDocument(sv)],
        first := if sv.first.None? then Some(id) else sv.first)
  }

  ghost predicate Committable(s: State, w: nat) { w in s.saves && s.saves[w].row.Some? && s.saves[w].task.Some? }

  ghost function Committed(s: State, w: nat): State
    requires Committable(s, w)
  {
    var sv := s.saves[w];
    s.(emails := s.emails[sv.row.value := EmailRow(sv.user, sv.mailbox, sv.message.uid, sv.message.subject)],
       documents := s.documents + sv.documents,
       tasks := s.tasks[sv.task.value := TaskRow(sv.row.value, sv.first)],
       saves := Without(s.saves, w),
       commits := s.commits + multiset{sv.row.value},
       files := s.files[sv.row.value := s.files[sv.row.value] + |sv.message.files|])
  }

  ghost function Apply(s: State, step: Step): State
    requires Enabled(s, step)
  {
    match step
    case Begin(w, user, message) =>
      s.(saves := s.saves[w := Save(user, s.users[user], message, None, 0, 0, map[], None, None)])
    case Upsert(w, row) => s.(saves := s.saves[w := s.saves[w].(row := Some(row))], next := s.next + 1)
    case Upload(w) =>
      var sv := s.saves[w];
      s.(objects := s.objects[KeyOf(sv, sv.uploaded) := ObjectOf(sv, sv.uploaded)],
         saves := s.saves[w := sv.(uploaded := sv.uploaded + 1)])
    case Insert(w) => s.(saves := s.saves[w := WithDocument(s.saves[w], s.next)], next := s.next + 1)
    case CreateTask(w) => s.(saves := s.saves[w := s.saves[w].(task := Some(s.next))], next := s.next + 1)
    case Commit(w) => Committed(s, w)
    case Abort(w) => s.(saves := Without(s.saves, w))
  }

  ghost predicate Runs(s: State, steps: seq<Step>)
    decreases |steps|
  {
    steps == [] || (Enabled(s, steps[0]) && Runs(Apply(s, steps[0]), steps[1..]))
  }

  ghost function After(s: State, steps: seq<Step>): State
    requires Runs(s, steps)
    decreases |steps|
  {
    if steps == [] then s else After(Apply(s, steps[0]), steps[1..])
  }

  function Start(users: map<nat, string>): State
  {
    State(users, map[], map[], map[], map[], map[], 0, multiset{}, multiset{})
  }

  // ---------- invariant ----------

  ghost predicate OneRow(emails: map<nat, EmailRow>) {
    forall d, e ::
      d in emails && e in emails && emails[d].mailbox == emails[e].mailbox && emails[d].uid == emails[e].uid ==> d == e
  }

  ghost predicate HasObjects(documents: map<nat, DocumentRow>, objects: map<string, Object>) {
    forall d :: d in documents ==> documents[d].key in objects
  }

  ghost function TasksOf(tasks: map<nat, TaskRow>, e: nat): set<nat> { set t | t in tasks && tasks[t].email == e }

  ghost function DocumentsOf(documents: map<nat, DocumentRow>, e: nat): set<nat> {
    set d | d in documents && documents[d].email == e
  }

  ghost predicate Counted(s: State) {
    forall e :: |TasksOf(s.tasks, e)| == s.commits[e] && |DocumentsOf(s.documents, e)| == s.files[e]
  }

  ghost predicate Below(ids: set<nat>, n: nat) { forall i :: i in ids ==> i < n }

  ghost predicate References(s: State) {
    && (forall d :: d in s.documents ==> s.documents[d].email in s.emails)
    && (forall t :: t in s.tasks ==> s.tasks[t].email in s.emails)
    && (forall t :: t in s.tasks && s.tasks[t].document.Some? ==>
          s.tasks[t].document.value in s.documents && s.documents[s.tasks[t].document.value].email == s.tasks[t].email)
  }

  /** The row an open transaction writes to: its own message's, or a new one for a message without row. */
  ghost predicate RowOk(emails: map<nat, EmailRow>, sv: Save) {
    sv.row.Some? ==>
      if sv.row.value in emails then SameMessage(emails[sv.row.value], sv) else !Stored(emails, sv)
  }

  /** The document rows of an open transaction. */
  ghost predicate DocumentsOk(sv: Save, committed: set<nat>, next: nat) {
    && (sv.documents == map[] || sv.row.Some?)
    && (forall d :: d in sv.documents ==> sv.documents[d].email == sv.row.value && d !in committed && d < next)
    && (sv.first.Some? ==> sv.first.value in sv.documents)
  }

  ghost predicate UploadsOk(sv: Save, objects: map<string, Object>) {
    && |sv.documents| == sv.inserted <= sv.uploaded <= |sv.message.files|
    && (sv.task.Some? ==> sv.inserted == |sv.message.files|)
    && (forall i :: 0 <= i < sv.uploaded ==> KeyOf(sv, i) in objects)
    && HasObjects(sv.documents, objects)
  }

  ghost predicate IdsOk(s: State, sv: Save) {
    && (sv.row.Some? ==> sv.row.value < s.next)
    && (sv.task.Some? ==> sv.task.value < s.next && sv.task.value !in s.tasks)
  }

  ghost predicate SaveOk(s: State, sv: Save) {
    RowOk(s.emails, sv) && DocumentsOk(sv, s.documents.Keys, s.next) && UploadsOk(sv, s.objects) && IdsOk(s, sv)
  }

  /** Two open transactions write to different rows. */
  ghost predicate Apart(a: Save, b: Save) {
    && (a.row.Some? && b.row.Some? ==> a.row != b.row && !(a.mailbox == b.mailbox && a.message.uid == b.message.uid))
    && (a.task.Some? && b.task.Some? ==> a.task != b.task)
    && a.documents.Keys !! b.documents.Keys
  }

  ghost predicate TablesOk(s: State) {
    && OneRow(s.emails) && HasObjects(s.documents, s.objects) && Counted(s) && References(s)
    && Below(s.emails.Keys, s.next) && Below(s.documents.Keys, s.next) && Below(s.tasks.Keys, s.next)
  }

  ghost predicate SavesOk(s: State) {
    && (forall w :: w in s.saves ==> SaveOk(s, s.saves[w]))
    && (forall v, w :: v in s.saves && w in s.saves && v != w ==> Apart(s.saves[v], s.saves[w]))
  }

  ghost predicate Invariant(s: State) { TablesOk(s) && SavesOk(s) }

  // ---------- steps inside a transaction ----------

  /** The committed tables are the same; objects and ids only grow. */
  ghost predicate Grown(s: State, s': State) {
    && s'.users == s.users && s'.emails == s.emails && s'.documents == s.documents && s'.tasks == s.tasks
    && s'.commits == s.commits && s'.files == s.files
    && s.next <= s'.next && s.objects.Keys <= s'.objects.Keys
  }

  lemma TablesGrown(s: State, s': State)
    requires TablesOk(s) && Grown(s, s')
    ensures TablesOk(s')
  {
  }

  lemma SaveGrown(s: State, s': State, sv: Save)
    requires SaveOk(s, sv) && Grown(s, s')
    ensures SaveOk(s', sv)
  {
  }

  lemma ApartSym(a: Save, b: Save)
    requires Apart(a, b)
    ensures Apart(b, a)
  {
  }

  /** One transaction moves on, the others stay. */
  lemma OneMoved(s: State, s': State, w: nat)
    requires Invariant(s) && Grown(s, s') && w in s'.saves
    requires forall v :: v != w ==> (v in s'.saves <==> v in s.saves) && (v in s.saves ==> s'.saves[v] == s.saves[v])
    requires SaveOk(s', s'.saves[w])
    requires forall v :: v in s.saves && v != w ==> Apart(s.saves[v], s'.saves[w])
    ensures Invariant(s')
  {
    TablesGrown(s, s');
    forall v | v in s.saves && v != w
      ensures Apart(s'.saves[w], s.saves[v])
    {
      ApartSym(s.saves[v], s'.saves[w]);
    }
    forall v | v in s'.saves
      ensures SaveOk(s', s'.saves[v])
    {
      if v != w {
        SaveGrown(s, s', s.saves[v]);
      }
    }
  }

  lemma BeginKeeps(s: State, step: Step)
    requires Invariant(s) && step.Begin? && Enabled(s, step)
    ensures Invariant(Apply(s, step))
  {
    OneMoved(s, Apply(s, step), step.w);
  }

  lemma UpsertApart(s: State, step: Step, v: nat)
    requires Invariant(s) && step.Upsert? && Enabled(s, step) && v in s.saves && v != step.w
    ensures Apart(s.saves[v], s.saves[step.w].(row := Some(step.row)))
  {
    var sv, other := s.saves[step.w], s.saves[v];
    assert Apart(other, sv) && SaveOk(s, other);
    if other.row.Some? {
      assert !(other.mailbox == sv.mailbox && other.message.uid == sv.message.uid);
    }
  }

  lemma UpsertKeeps(s: State, step: Step)
    requires Invariant(s) && step.Upsert? && Enabled(s, step)
    ensures Invariant(Apply(s, step))
  {
    forall v | v in s.saves && v != step.w
      ensures Apart(s.saves[v], Apply(s, step).saves[step.w])
    {
      UpsertApart(s, step, v);
    }
    UpsertedOk(s, step);
    OneMoved(s, Apply(s, step), step.w);
  }

  lemma UpsertedOk(s: State, step: Step)
    requires Invariant(s) && step.Upsert? && Enabled(s, step)
    ensures SaveOk(Apply(s, step), Apply(s, step).saves[step.w])
  {
    var sv, s' := s.saves[step.w], Apply(s, step);
    assert SaveOk(s, sv);
    assert Stored(s.emails, sv) <==> Stored(s'.emails, s'.saves[step.w]);
    assert forall i :: 0 <= i < |sv.message.files| ==> KeyOf(s'.saves[step.w], i) == KeyOf(sv, i);
  }

  lemma UploadedOk(s: State, sv: Save, s': State)
    requires SaveOk(s, sv) && Grown(s, s') && sv.uploaded < |sv.message.files| && KeyOf(sv, sv.uploaded) in s'.objects
    requires sv.task.None?
    ensures SaveOk(s', sv.(uploaded := sv.uploaded + 1))
  {
    SaveGrown(s, s', sv);
    var now := sv.(uploaded := sv.uploaded + 1);
    assert forall i :: 0 <= i < |sv.message.files| ==> KeyOf(now, i) == KeyOf(sv, i);
  }

  lemma ApartKept(a: Save, b: Save, b': Save)
    requires Apart(a, b) && b'.row == b.row && b'.mailbox == b.mailbox && b'.message == b.message
    requires b'.task == b.task && b'.documents == b.documents
    ensures Apart(a, b')
  {
  }

  lemma UploadKeeps(s: State, step: Step)
    requires Invariant(s) && step.Upload? && Enabled(s, step)
    ensures Invariant(Apply(s, step))
  {
    var s', sv := Apply(s, step), s.saves[step.w];
    assert SaveOk(s, sv);
    UploadedOk(s, sv, s');
    forall v | v in s.saves && v != step.w
      ensures Apart(s.saves[v], s'.saves[step.w])
    {
      ApartKept(s.saves[v], sv, s'.saves[step.w]);
    }
    OneMoved(s, s', step.w);
  }

  lemma InsertedOk(s: State, sv: Save, s': State)
    requires SaveOk(s, sv) && Grown(s, s') && Insertable(sv) && sv.task.None?
    requires Below(s.documents.Keys, s.next) && s'.next == s.next + 1
    ensures SaveOk(s', WithDocument(sv, s.next))
  {
    SaveGrown(s, s', sv);
    var now := WithDocument(sv, s.next);
    assert forall i :: 0 <= i < |sv.message.files| ==> KeyOf(now, i) == KeyOf(sv, i);
  }

  lemma InsertApart(s: State, a: Save, b: Save)
    requires Apart(a, b) && SaveOk(s, a) && Insertable(b)
    ensures Apart(a, WithDocument(b, s.next))
  {
    assert s.next !in a.documents;
  }

  lemma InsertKeeps(s: State, w: nat)
    requires Invariant(s) && w in s.saves && Insertable(s.saves[w])
    ensures Invariant(Apply(s, Insert(w)))
  {
    var s', sv := Apply(s, Insert(w)), s.saves[w];
    assert SaveOk(s, sv);
    InsertedOk(s, sv, s');
    forall v | v in s.saves && v != w
      ensures Apart(s.saves[v], s'.saves[w])
    {
      InsertApart(s, s.saves[v], sv);
    }
    OneMoved(s, s', w);
  }

  lemma CreateTaskKeeps(s: State, step: Step)
    requires Invariant(s) && step.CreateTask? && Enabled(s, step)
    ensures Invariant(Apply(s, step))
  {
    var s', sv := Apply(s, step), s.saves[step.w];
    assert SaveOk(s, sv);
    SaveGrown(s, s', sv);
    assert forall i :: 0 <= i < |sv.message.files| ==> KeyOf(s'.saves[step.w], i) == KeyOf(sv, i);
    forall v | v in s.saves && v != step.w
      ensures Apart(s.saves[v], s'.saves[step.w])
    {
      assert Apart(s.saves[v], sv) && SaveOk(s, s.saves[v]);
    }
    OneMoved(s, s', step.w);
  }

  lemma AbortKeeps(s: State, step: Step)
    requires Invariant(s) && step.Abort? && Enabled(s, step)
    ensures Invariant(Apply(s, step))
  {
    var s' := Apply(s, step);
    TablesGrown(s, s');
    forall v | v in s'.saves
      ensures SaveOk(s', s'.saves[v])
    {
      SaveGrown(s, s', s.saves[v]);
    }
  }

  // ---------- commit ----------

  lemma CommitEmails(s: State, w: nat)
    requires Invariant(s) && Committable(s, w)
    ensures OneRow(Committed(s, w).emails)
  {
    var sv := s.saves[w];
    assert SaveOk(s, sv);
  }

  lemma AddedTask(tasks: map<nat, TaskRow>, id: nat, task: TaskRow, e: nat)
    requires id !in tasks
    ensures |TasksOf(tasks[id := task], e)| == |TasksOf(tasks, e)| + if task.email == e then 1 else 0
  {
    if task.email == e {
      assert TasksOf(tasks[id := task], e) == TasksOf(tasks, e) + {id};
    } else {
      assert TasksOf(tasks[id := task], e) == TasksOf(tasks, e);
    }
  }

  lemma AddedDocuments(documents: map<nat, DocumentRow>, more: map<nat, DocumentRow>, row: nat, e: nat)
    requires documents.Keys !! more.Keys && forall d :: d in more ==> more[d].email == row
    ensures |DocumentsOf(documents + more, e)| == |DocumentsOf(documents, e)| + if e == row then |more| else 0
  {
    var mine := if e == row then more.Keys else {};
    assert DocumentsOf(documents + more, e) == DocumentsOf(documents, e) + mine by {
      forall d
        ensures d in DocumentsOf(documents + more, e) <==> d in DocumentsOf(documents, e) + mine
      {
      }
    }
    assert DocumentsOf(documents, e) !! mine;
    assert |more.Keys| == |more|;
  }

  /** What a transaction brings to its commit. */
  lemma CommitReady(s: State, w: nat)
    requires SavesOk(s) && Committable(s, w)
    ensures var sv := s.saves[w];
            && sv.task.value !in s.tasks && s.documents.Keys !! sv.documents.Keys
            && |sv.documents| == |sv.message.files|
            && (forall d :: d in sv.documents ==> sv.documents[d].email == sv.row.value)
            && (sv.first.Some? ==> sv.first.value in sv.documents)
            && HasObjects(sv.documents, s.objects)
  {
    assert SaveOk(s, s.saves[w]);
  }

  lemma CommitCounts(s: State, w: nat)
    requires Invariant(s) && Committable(s, w)
    ensures Counted(Committed(s, w))
  {
    CommitReady(s, w);
    var sv := s.saves[w];
    forall e
      ensures |TasksOf(Committed(s, w).tasks, e)| == Committed(s, w).commits[e]
      ensures |DocumentsOf(Committed(s, w).documents, e)| == Committed(s, w).files[e]
    {
      AddedTask(s.tasks, sv.task.value, TaskRow(sv.row.value, sv.first), e);
      AddedDocuments(s.documents, sv.documents, sv.row.value, e);
    }
  }

  lemma CommitReferences(s: State, w: nat)
    requires TablesOk(s) && SavesOk(s) && Committable(s, w)
    ensures References(Committed(s, w))
  {
    var sv := s.saves[w];
    CommitReady(s, w);
    ReferencesAdded(s, sv, EmailRow(sv.user, sv.mailbox, sv.message.uid, sv.message.subject), Committed(s, w));
  }

  lemma CommitObjects(s: State, w: nat)
    requires TablesOk(s) && SavesOk(s) && Committable(s, w)
    ensures HasObjects(Committed(s, w).documents, Committed(s, w).objects)
  {
    CommitReady(s, w);
  }

  lemma CommitBounds(s: State, w: nat)
    requires TablesOk(s) && SavesOk(s) && Committable(s, w)
    ensures var s' := Committed(s, w);
            Below(s'.emails.Keys, s'.next) && Below(s'.documents.Keys, s'.next) && Below(s'.tasks.Keys, s'.next)
  {
    assert SaveOk(s, s.saves[w]);
  }

  lemma ReferencesAdded(s: State, sv: Save, row: EmailRow, s': State)
    requires References(s) && s.documents.Keys !! sv.documents.Keys
    requires sv.row.Some? && sv.task.Some? && sv.task.value !in s.tasks
    requires forall d :: d in sv.documents ==> sv.documents[d].email == sv.row.value
    requires sv.first.Some? ==> sv.first.value in sv.documents
    requires s'.emails == s.emails[sv.row.value := row] && s'.documents == s.documents + sv.documents
    requires s'.tasks == s.tasks[sv.task.value := TaskRow(sv.row.value, sv.first)]
    ensures References(s')
  {
  }

  lemma CommitTables(s: State, w: nat)
    requires Invariant(s) && Committable(s, w)
    ensures TablesOk(Committed(s, w))
  {
    CommitEmails(s, w);
    CommitCounts(s, w);
    CommitReferences(s, w);
    CommitObjects(s, w);
    CommitBounds(s, w);
  }

  lemma CommitOther(s: State, w: nat, v: nat)
    requires Invariant(s) && Committable(s, w) && v in s.saves && v != w
    ensures SaveOk(Committed(s, w), s.saves[v])
  {
    var sv, other, s' := s.saves[w], s.saves[v], Committed(s, w);
    assert SaveOk(s, sv) && SaveOk(s, other) && Apart(other, sv);
    assert RowOk(s'.emails, other);
  }

  lemma CommitKeeps(s: State, w: nat)
    requires Invariant(s) && Committable(s, w)
    ensures Invariant(Committed(s, w))
  {
    var s' := Committed(s, w);
    CommitTables(s, w);
    forall v | v in s'.saves
      ensures SaveOk(s', s'.saves[v])
    {
      CommitOther(s, w, v);
    }
  }

  lemma StepKeeps(s: State, step: Step)
    requires Invariant(s) && Enabled(s, step)
    ensures Invariant(Apply(s, step))
  {
    match step
    case Begin(_, _, _) => BeginKeeps(s, step);
    case Upsert(_, _) => UpsertKeeps(s, step);
    case Upload(_) => UploadKeeps(s, step);
    case Insert(w) => InsertKeeps(s, w);
    case CreateTask(_) => CreateTaskKeeps(s, step);
    case Commit(w) => CommitKeeps(s, w);
    case Abort(_) => AbortKeeps(s, step);
  }

  lemma {:induction false} RunKeeps(s: State, steps: seq<Step>)
    requires Invariant(s) && Runs(s, steps)
    ensures Invariant(After(s, steps))
    decreases |steps|
  {
    if steps != [] {
      StepKeeps(s, steps[0]);
      RunKeeps(Apply(s, steps[0]), steps[1..]);
    }
  }

  lemma StartOk(users: map<nat, string>)
    ensures Invariant(Start(users))
  {
    var s := Start(users);
    forall e
      ensures |TasksOf(s.tasks, e)| == s.commits[e] && |DocumentsOf(s.documents, e)| == s.files[e]
    {
      assert TasksOf(s.tasks, e) == {} && DocumentsOf(s.documents, e) == {};
    }
  }

  /** Every committed row of s is still there in s'. */
  ghost predicate Stay(s: State, s': State) {
    && (forall e :: e in s.emails ==>
         e in s'.emails && s'.emails[e].mailbox == s.emails[e].mailbox && s'.emails[e].uid == s.emails[e].uid)
    && (forall d :: d in s.documents ==> d in s'.documents && s'.documents[d] == s.documents[d])
    && (forall t :: t in s.tasks ==> t in s'.tasks && s'.tasks[t] == s.tasks[t])
  }

  lemma CommitStays(s: State, w: nat)
    requires SavesOk(s) && Committable(s, w)
    ensures Stay(s, Committed(s, w))
  {
    CommitReady(s, w);
    assert SaveOk(s, s.saves[w]);
  }

  // ---------- which object a document row points to ----------

  /** An object lies under the key of the save that put it there. */
  ghost predicate ObjectsPlaced(objects: map<string, Object>) {
    forall key :: key in objects ==>
      var o := objects[key];
      key == ObjectKey(o.user, o.uid, o.index, o.name)
  }

  /** The key of a document row, for a message of one user. */
  ghost predicate KeyFor(doc: DocumentRow, user: nat, uid: nat, index: nat) {
    doc.key == ObjectKey(user, uid, index, doc.filename)
  }

  ghost predicate SaveTraced(users: map<nat, string>, sv: Save) {
    && sv.user in users && users[sv.user] == sv.mailbox
    && forall d :: d in sv.documents ==> exists index :: KeyFor(sv.documents[d], sv.user, sv.message.uid, index)
  }

  /** A committed document row has the key of a file of its own email's message, as some user of that mailbox. */
  ghost predicate RowTraced(users: map<nat, string>, emails: map<nat, EmailRow>, doc: DocumentRow) {
    doc.email in emails
    && exists user, index ::
         && user in users && users[user] == emails[doc.email].mailbox
         && KeyFor(doc, user, emails[doc.email].uid, index)
  }

  ghost predicate Traced(s: State) {
    && ObjectsPlaced(s.objects)
    && (forall w :: w in s.saves ==> SaveTraced(s.users, s.saves[w]))
    && (forall d :: d in s.documents ==> RowTraced(s.users, s.emails, s.documents[d]))
  }

  lemma InsertTraced(users: map<nat, string>, sv: Save, id: nat)
    requires SaveTraced(users, sv) && Insertable(sv)
    ensures SaveTraced(users, WithDocument(sv, id))
  {
    var now := WithDocument(sv, id);
    assert KeyFor(NextDocument(sv), sv.user, sv.message.uid, sv.inserted + 1);
    forall d | d in now.documents
      ensures exists index :: KeyFor(now.documents[d], sv.user, sv.message.uid, index)
    {
      if d == id {
        assert KeyFor(now.documents[d], sv.user, sv.message.uid, sv.inserted + 1);
      } else {
        assert d in sv.documents;
      }
    }
  }

  lemma RowStaysTraced(users: map<nat, string>, emails: map<nat, EmailRow>, emails': map<nat, EmailRow>,
                       doc: DocumentRow)
    requires RowTraced(users, emails, doc)
    requires forall e :: e in emails ==>
               e in emails' && emails'[e].mailbox == emails[e].mailbox && emails'[e].uid == emails[e].uid
    ensures RowTraced(users, emails', doc)
  {
    var user, index :|
      && user in users && users[user] == emails[doc.email].mailbox
      && KeyFor(doc, user, emails[doc.email].uid, index);
    assert KeyFor(doc, user, emails'[doc.email].uid, index);
  }

  lemma CommitTraced(s: State, w: nat)
    requires Invariant(s) && Traced(s) && Committable(s, w)
    ensures Traced(Committed(s, w))
  {
    var sv, s' := s.saves[w], Committed(s, w);
    CommitReady(s, w);
    CommitStays(s, w);
    forall d | d in s'.documents
      ensures RowTraced(s.users, s'.emails, s'.documents[d])
    {
      if d in sv.documents {
        var index :| KeyFor(sv.documents[d], sv.user, sv.message.uid, index);
        assert s'.emails[sv.row.value].mailbox == sv.mailbox;
      } else {
        RowStaysTraced(s.users, s.emails, s'.emails, s.documents[d]);
      }
    }
  }

  lemma OneSaveTraced(s: State, s': State, w: nat)
    requires Traced(s) && s'.users == s.users && s'.emails == s.emails && s'.documents == s.documents
    requires ObjectsPlaced(s'.objects) && w in s'.saves && SaveTraced(s.users, s'.saves[w])
    requires forall v :: v in s'.saves && v != w ==> v in s.saves && s'.saves[v] == s.saves[v]
    ensures Traced(s')
  {
  }

  lemma SaveStepTraced(s: State, step: Step)
    requires Traced(s) && Enabled(s, step)
    requires (step.Begin? || step.Upsert? || step.Upload? || step.Insert? || step.CreateTask?)
    ensures Traced(Apply(s, step))
  {
    if step.Insert? {
      InsertTraced(s.users, s.saves[step.w], s.next);
    } else if !step.Begin? {
      assert SaveTraced(s.users, s.saves[step.w]);
    }
    OneSaveTraced(s, Apply(s, step), step.w);
  }

  lemma AbortTraced(s: State, w: nat)
    requires Traced(s) && w in s.saves
    ensures Traced(s.(saves := Without(s.saves, w)))
  {
  }

  lemma UsersStay(s: State, step: Step)
    requires Enabled(s, step)
    ensures Apply(s, step).users == s.users
  {
  }

  lemma StepTraced(s: State, step: Step)
    requires Invariant(s) && Traced(s) && Enabled(s, step)
    ensures Traced(Apply(s, step))
  {
    match step
    case Commit(w) => CommitTraced(s, w);
    case Abort(w) => AbortTraced(s, w);
    case _ => SaveStepTraced(s, step);
  }

  lemma {:induction false} RunTraced(s: State, steps: seq<Step>)
    requires Invariant(s) && Traced(s) && Runs(s, steps)
    ensures Traced(After(s, steps)) && After(s, steps).users == s.users
    decreases |steps|
  {
    if steps != [] {
      StepKeeps(s, steps[0]);
      StepTraced(s, steps[0]);
      UsersStay(s, steps[0]);
      RunTraced(Apply(s, steps[0]), steps[1..]);
    }
  }

  /** The object under a document's key was put there by a save of the document's own message: same uid, a user
      of the same mailbox, same place and same name. */
  lemma ObjectOfDocument(users: map<nat, string>, steps: seq<Step>, d: nat)
    requires Runs(Start(users), steps) && d in After(Start(users), steps).documents
    ensures var s := After(Start(users), steps);
            var doc := s.documents[d];
            && doc.key in s.objects && doc.email in s.emails
            && s.objects[doc.key].uid == s.emails[doc.email].uid && s.objects[doc.key].name == doc.filename
            && s.objects[doc.key].user in users && users[s.objects[doc.key].user] == s.emails[doc.email].mailbox
            && KeyFor(doc, s.objects[doc.key].user, s.objects[doc.key].uid, s.objects[doc.key].index)
  {
    StartOk(users);
    RunKeeps(Start(users), steps);
    RunTraced(Start(users), steps);
    var s := After(Start(users), steps);
    var doc := s.documents[d];
    assert RowTraced(s.users, s.emails, doc);
    var user, index :|
      && user in s.users && s.users[user] == s.emails[doc.email].mailbox
      && KeyFor(doc, user, s.emails[doc.email].uid, index);
    var o := s.objects[doc.key];
    KeyInjective(user, s.emails[doc.email].uid, index, doc.filename, o.user, o.uid, o.index, o.name);
  }

  // ---------- what committed state promises ----------

  /** After any run: one email row for each mailbox and uid, as many tasks of an email as committed saves of
      it, as many documents as they had files, an object for every document row, and no row referring to a
      missing one. */
  lemma Promises(users: map<nat, string>, steps: seq<Step>)
    requires Runs(Start(users), steps)
    ensures var s := After(Start(users), steps);
            OneRow(s.emails) && Counted(s) && HasObjects(s.documents, s.objects) && References(s)
  {
    StartOk(users);
    RunKeeps(Start(users), steps);
  }

  /** The steps a transaction still has to take. */
  function ToDo(sv: Save): int {
    (if sv.row.None? then 1 else 0) + 2 * |sv.message.files| - sv.uploaded - sv.inserted
    + if sv.task.None? then 1 else 0
  }

  /** An open transaction that does not wait for another one can always go on, and gets to its commit. */
  lemma SaveNeverStuck(users: map<nat, string>, steps: seq<Step>, w: nat) returns (step: Step)
    requires Runs(Start(users), steps)
    requires var s := After(Start(users), steps); w in s.saves && (s.saves[w].row.Some? || !Blocked(s, w))
    ensures step.w == w && !step.Abort? && Enabled(After(Start(users), steps), step)
    ensures step.Commit? ||
            var s := After(Start(users), steps);
            w in Apply(s, step).saves && 0 <= ToDo(Apply(s, step).saves[w]) < ToDo(s.saves[w])
  {
    StartOk(users);
    RunKeeps(Start(users), steps);
    step := NextOf(After(Start(users), steps), w);
  }

  lemma NextOf(s: State, w: nat) returns (step: Step)
    requires Invariant(s) && w in s.saves && (s.saves[w].row.Some? || !Blocked(s, w))
    ensures step.w == w && !step.Abort? && Enabled(s, step)
    ensures step.Commit? || (w in Apply(s, step).saves && 0 <= ToDo(Apply(s, step).saves[w]) < ToDo(s.saves[w]))
  {
    var sv := s.saves[w];
    assert SaveOk(s, sv);
    if sv.row.None? {
      if Stored(s.emails, sv) {
        var row :| row in s.emails && SameMessage(s.emails[row], sv);
        step := Upsert(w, row);
      } else {
        step := Upsert(w, s.next);
      }
    } else if sv.inserted < sv.uploaded {
      step := Insert(w);
    } else if sv.uploaded < |sv.message.files| {
      step := Upload(w);
    } else if sv.task.None? {
      step := CreateTask(w);
    } else {
      step := Commit(w);
    }
  }

  /** No step takes a committed row away: emails keep their identity, documents and tasks their content, and
      only a commit adds any. */
  lemma RowsStay(users: map<nat, string>, steps: seq<Step>, step: Step)
    requires Runs(Start(users), steps) && Enabled(After(Start(users), steps), step)
    ensures var s := After(Start(users), steps);
            var s' := Apply(s, step);
            && Stay(s, s')
            && (!step.Commit? ==> s'.emails == s.emails && s'.documents == s.documents && s'.tasks == s.tasks)
  {
    StartOk(users);
    RunKeeps(Start(users), steps);
    if step.Commit? {
      CommitStays(After(Start(users), steps), step.w);
    }
  }
}
