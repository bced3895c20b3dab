/** What the rows committed by SaveOrder (mail/internal/storage/repo.go) say about the files of the message. */
module IngestRows {
  import opened Text
  import opened ObjectKeys
  import opened Ingest

  /** The row of the message's file i. */
  ghost function RowOfFile(sv: Save, i: nat): DocumentRow
    requires sv.row.Some? && i < |sv.message.files|
  {
    var file := sv.message.files[i];
    DocumentRow(sv.row.value, file.name, ObjectKey(sv.user, sv.message.uid, i + 1, file.name), |file.data|)
  }

  function FirstOf(ids: seq<nat>): Option<nat> { if ids == [] then None else Some(ids[0]) }

  /** The document rows of a transaction are those of its message's first files, in order, and the first of them is
      the one remembered for the task. */
  ghost predicate Listed(sv: Save, ids: seq<nat>) {
    && |ids| == sv.inserted <= |sv.message.files|
    && (ids != [] ==> sv.row.Some?)
    && (forall i :: 0 <= i < |ids| ==> ids[i] in sv.documents && sv.documents[ids[i]] == RowOfFile(sv, i))
    && (forall d :: d in sv.documents ==> d in ids)
    && (forall i, j :: 0 <= i < j < |ids| ==> ids[i] < ids[j])
    && sv.first == FirstOf(ids)
  }

  ghost predicate AllListed(saves: map<nat, Save>) { forall w :: w in saves ==> exists ids :: Listed(saves[w], ids) }

  lemma InsertedRows(s: State, sv: Save, ids: seq<nat>, i: nat)
    requires SaveOk(s, sv) && Insertable(sv) && Listed(sv, ids) && i <= |ids|
    ensures var now, all := WithDocument(sv, s.next), ids + [s.next];
            all[i] in now.documents && now.documents[all[i]] == RowOfFile(now, i)
    ensures i < |ids| ==> ids[i] < s.next
  {
    if i < |ids| {
      assert ids[i] in sv.documents && ids[i] < s.next;
    }
  }

  lemma AscendingSnoc(ids: seq<nat>, next: nat)
    requires (forall i, j :: 0 <= i < j < |ids| ==> ids[i] < ids[j]) && forall i :: 0 <= i < |ids| ==> ids[i] < next
    ensures forall i, j :: 0 <= i < j < |ids| + 1 ==> (ids + [next])[i] < (ids + [next])[j]
    ensures FirstOf(ids + [next]) == if ids == [] then Some(next) else FirstOf(ids)
    ensures forall d :: d in ids + [next] <==> d in ids || d == next
  {
  }

  lemma InsertListed(s: State, sv: Save, ids: seq<nat>)
    requires SaveOk(s, sv) && Insertable(sv) && Listed(sv, ids)
    ensures Listed(WithDocument(sv, s.next), ids + [s.next])
  {
    var now, all := WithDocument(sv, s.next), ids + [s.next];
    forall i | 0 <= i < |all|
      ensures all[i] in now.documents && now.documents[all[i]] == RowOfFile(now, i)
      ensures i < |ids| ==> ids[i] < s.next
    {
      InsertedRows(s, sv, ids, i);
    }
    AscendingSnoc(ids, s.next);
  }

  lemma ListedKept(sv: Save, sv': Save, ids: seq<nat>)
    requires Listed(sv, ids) && sv'.documents == sv.documents && sv'.first == sv.first && sv'.inserted == sv.inserted
    requires sv'.user == sv.user && sv'.message == sv.message && (sv'.row == sv.row || sv.documents == map[])
    ensures Listed(sv', ids)
  {
    if ids != [] {
      assert ids[0] in sv.documents;
    }
  }

  lemma OneListed(saves: map<nat, Save>, w: nat, sv: Save, ids: seq<nat>)
    requires AllListed(saves) && Listed(sv, ids)
    ensures AllListed(saves[w := sv])
  {
  }

  lemma TheIds(saves: map<nat, Save>, w: nat) returns (ids: seq<nat>)
    requires AllListed(saves) && w in saves
    ensures Listed(saves[w], ids)
  {
    assert exists ids :: Listed(saves[w], ids);
    ids :| Listed(saves[w], ids);
  }

  lemma TheSave(s: State, w: nat)
    requires Invariant(s) && w in s.saves
    ensures SaveOk(s, s.saves[w])
  {
  }

  lemma InsertStepListed(s: State, w: nat)
    requires w in s.saves && SaveOk(s, s.saves[w]) && AllListed(s.saves) && Insertable(s.saves[w])
    ensures AllListed(s.saves[w := WithDocument(s.saves[w], s.next)])
  {
    var ids := TheIds(s.saves, w);
    InsertListed(s, s.saves[w], ids);
    OneListed(s.saves, w, WithDocument(s.saves[w], s.next), ids + [s.next]);
  }

  lemma OtherStepListed(saves: map<nat, Save>, w: nat, sv: Save)
    requires w in saves && AllListed(saves)
    requires var was := saves[w];
             && sv.documents == was.documents && sv.first == was.first && sv.inserted == was.inserted
             && sv.user == was.user && sv.message == was.message && (sv.row == was.row || was.documents == map[])
    ensures AllListed(saves[w := sv])
  {
    var ids := TheIds(saves, w);
    ListedKept(saves[w], sv, ids);
    OneListed(saves, w, sv, ids);
  }

  lemma StepListed(s: State, step: Step)
    requires Invariant(s) && AllListed(s.saves) && Enabled(s, step)
    ensures AllListed(Apply(s, step).saves)
  {
    if !step.Begin? {
      TheSave(s, step.w);
    }
    ListedByStep(s, step);
  }

  lemma ListedByStep(s: State, step: Step)
    requires Enabled(s, step) && AllListed(s.saves) && (!step.Begin? ==> SaveOk(s, s.saves[step.w]))
    ensures AllListed(Apply(s, step).saves)
  {
    match step
    case Begin(w, user, message) =>
      OneListed(s.saves, w, Save(user, s.users[user], message, None, 0, 0, map[], None, None), []);
    case Insert(w) => InsertStepListed(s, w);
    case Commit(_) =>
    case Abort(_) =>
    case _ => OtherStepListed(s.saves, step.w, Apply(s, step).saves[step.w]);
  }

  // ---------- committed tasks ----------

  /** The document of a task has the key of the first file of a message of its email. */
  ghost predicate TaskFirst(s: State, t: nat)
    requires t in s.tasks
  {
    s.tasks[t].document.Some? ==>
      && s.tasks[t].document.value in s.documents && s.tasks[t].email in s.emails
      && exists user ::
           && user in s.users && s.users[user] == s.emails[s.tasks[t].email].mailbox
           && KeyFor(s.documents[s.tasks[t].document.value], user, s.emails[s.tasks[t].email].uid, 1)
  }

  ghost predicate TasksFirst(s: State) { forall t :: t in s.tasks ==> TaskFirst(s, t) }

  lemma CommitNames(s: State, w: nat, ids: seq<nat>)
    requires Invariant(s) && Committable(s, w) && Listed(s.saves[w], ids)
    ensures |ids| == |s.saves[w].message.files|
    ensures forall i :: 0 <= i < |ids| ==>
              ids[i] in Committed(s, w).documents && Committed(s, w).documents[ids[i]] == RowOfFile(s.saves[w], i)
    ensures forall d :: d in Committed(s, w).documents ==> d in ids || d in s.documents
  {
    assert SaveOk(s, s.saves[w]);
  }

  lemma CommitFirst(s: State, w: nat)
    requires Invariant(s) && Traced(s) && AllListed(s.saves) && TasksFirst(s) && Committable(s, w)
    ensures TasksFirst(Committed(s, w))
  {
    var sv, s' := s.saves[w], Committed(s, w);
    var ids :| Listed(sv, ids);
    CommitNames(s, w, ids);
    CommitStays(s, w);
    forall t | t in s'.tasks
      ensures TaskFirst(s', t)
    {
      if t == sv.task.value {
        NewTaskFirst(s, w, ids);
      } else {
        OldTaskFirst(s, s', t);
      }
    }
  }

  /** A task row that points to the row of file 0, or to none. */
  lemma FirstFile(s: State, t: nat, sv: Save, ids: seq<nat>)
    requires t in s.tasks && sv.row.Some? && s.tasks[t] == TaskRow(sv.row.value, FirstOf(ids))
    requires ids != [] ==>
               sv.message.files != [] && ids[0] in s.documents && s.documents[ids[0]] == RowOfFile(sv, 0)
    requires sv.row.value in s.emails && s.emails[sv.row.value].mailbox == sv.mailbox
    requires s.emails[sv.row.value].uid == sv.message.uid && sv.user in s.users && s.users[sv.user] == sv.mailbox
    ensures TaskFirst(s, t)
  {
    if ids != [] {
      assert KeyFor(s.documents[ids[0]], sv.user, sv.message.uid, 1);
    }
  }

  lemma NewTaskFirst(s: State, w: nat, ids: seq<nat>)
    requires Invariant(s) && Traced(s) && Committable(s, w) && Listed(s.saves[w], ids)
    ensures TaskFirst(Committed(s, w), s.saves[w].task.value)
  {
    var sv, s' := s.saves[w], Committed(s, w);
    CommitNames(s, w, ids);
    assert sv.user in s.users && s.users[sv.user] == sv.mailbox by {
      assert SaveTraced(s.users, sv);
    }
    FirstFile(s', sv.task.value, sv, ids);
  }

  lemma OldTaskFirst(s: State, s': State, t: nat)
    requires t in s.tasks && TaskFirst(s, t) && Stay(s, s') && s'.users == s.users
    ensures t in s'.tasks && TaskFirst(s', t)
  {
    if s.tasks[t].document.Some? {
      var doc, e := s.documents[s.tasks[t].document.value], s.tasks[t].email;
      var user :| user in s.users && s.users[user] == s.emails[e].mailbox && KeyFor(doc, user, s.emails[e].uid, 1);
      assert KeyFor(s'.documents[s'.tasks[t].document.value], user, s'.emails[e].uid, 1);
    }
  }

  lemma OldTasksFirst(s: State, s': State)
    requires TasksFirst(s) && Stay(s, s') && s'.users == s.users && s'.tasks == s.tasks
    ensures TasksFirst(s')
  {
    forall t | t in s'.tasks
      ensures TaskFirst(s', t)
    {
      OldTaskFirst(s, s', t);
    }
  }

  lemma OthersStay(s: State, step: Step)
    requires Enabled(s, step) && !step.Commit?
    ensures Stay(s, Apply(s, step)) && Apply(s, step).users == s.users && Apply(s, step).tasks == s.tasks
  {
  }

  lemma StepFirst(s: State, step: Step)
    requires Invariant(s) && Traced(s) && AllListed(s.saves) && TasksFirst(s) && Enabled(s, step)
    ensures TasksFirst(Apply(s, step))
  {
    if step.Commit? {
      CommitFirst(s, step.w);
    } else {
      OthersStay(s, step);
      OldTasksFirst(s, Apply(s, step));
    }
  }

  lemma {:induction false} RunRows(s: State, steps: seq<Step>)
    requires Invariant(s) && Traced(s) && AllListed(s.saves) && TasksFirst(s) && Runs(s, steps)
    ensures Invariant(After(s, steps)) && Traced(After(s, steps)) && AllListed(After(s, steps).saves)
    ensures TasksFirst(After(s, steps)) && After(s, steps).users == s.users
    decreases |steps|
  {
    if steps != [] {
      StepKeeps(s, steps[0]);
      StepTraced(s, steps[0]);
      StepListed(s, steps[0]);
      StepFirst(s, steps[0]);
      UsersStay(s, steps[0]);
      RunRows(Apply(s, steps[0]), steps[1..]);
    }
  }

  /** A commit adds one document row for each file of its message, in order, with the file's name and size and its own
      key, and no other; and a task that points to the row of the first file, or to none if there is no file. */
  ghost predicate CommitsFiles(s: State, w: nat, ids: seq<nat>)
    requires Committable(s, w)
  {
    var sv, s' := s.saves[w], Committed(s, w);
    && |ids| == |sv.message.files| && (forall i, j :: 0 <= i < j < |ids| ==> ids[i] < ids[j])
    && (forall i :: 0 <= i < |ids| ==>
          ids[i] !in s.documents && ids[i] in s'.documents && s'.documents[ids[i]] == RowOfFile(sv, i))
    && (forall d :: d in s'.documents ==> d in ids || (d in s.documents && s'.documents[d] == s.documents[d]))
    && sv.task.value !in s.tasks
    && s'.tasks == s.tasks[sv.task.value := TaskRow(sv.row.value, FirstOf(ids))]
  }

  lemma CommitAdds(s: State, w: nat) returns (ids: seq<nat>)
    requires Invariant(s) && AllListed(s.saves) && Committable(s, w)
    ensures CommitsFiles(s, w, ids)
  {
    ids := TheIds(s.saves, w);
    CommitNames(s, w, ids);
    CommitReady(s, w);
    assert forall i :: 0 <= i < |ids| ==> ids[i] in s.saves[w].documents;
  }

  /** So it is in every reachable state. */
  lemma CommitRows(users: map<nat, string>, steps: seq<Step>, w: nat) returns (ids: seq<nat>)
    requires Runs(Start(users), steps) && Committable(After(Start(users), steps), w)
    ensures CommitsFiles(After(Start(users), steps), w, ids)
  {
    StartOk(users);
    RunRows(Start(users), steps);
    ids := CommitAdds(After(Start(users), steps), w);
  }

  /** After any run, the document a task points to is the first file of a message of its email: the object under its
      key was put there as the first of its save. */
  lemma TaskPointsToFirst(users: map<nat, string>, steps: seq<Step>, t: nat)
    requires Runs(Start(users), steps) && t in After(Start(users), steps).tasks
    requires After(Start(users), steps).tasks[t].document.Some?
    ensures var s := After(Start(users), steps);
            var d := s.tasks[t].document.value;
            && d in s.documents && s.documents[d].email == s.tasks[t].email && s.documents[d].key in s.objects
            && s.objects[s.documents[d].key].index == 1 && s.objects[s.documents[d].key].name == s.documents[d].filename
  {
    StartOk(users);
    RunRows(Start(users), steps);
    var s := After(Start(users), steps);
    var doc, e := s.documents[s.tasks[t].document.value], s.tasks[t].email;
    assert TaskFirst(s, t);
    var user :| user in s.users && s.users[user] == s.emails[e].mailbox && KeyFor(doc, user, s.emails[e].uid, 1);
    var o := s.objects[doc.key];
    KeyInjective(user, s.emails[e].uid, 1, doc.filename, o.user, o.uid, o.index, o.name);
  }
}
