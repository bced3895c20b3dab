/** The mail agent's supervisor (mail/cmd/mail-agent/main.go) and its user workers
    (mail/cmd/mail-agent/worker.go), in every interleaving of their steps. */
module Supervisor {

  type User = nat

  /** Where a worker's goroutine is. The deferred calls run in the order close client, onExit, wg.Done. */
  datatype Phase = Live | Leaving | ClientClosed | Exited | Finished

  /** client: imapClient is set. open: connections opened and not closed by this worker. */
  datatype Worker = Worker(user: User, phase: Phase, client: bool, open: int)

  /** Where the main goroutine is. Discovery and shutdown both run there. */
  datatype Main =
    | Waiting                              // in select
    | Scanning(rest: seq<User>)            // at the head of the loop over the users
    | Claimed(user: User, rest: seq<User>) // marked as running, before wg.Add
    | Added(user: User, rest: seq<User>)   // before the go statement
    | Flagged                              // shuttingDown is set
    | Joining                              // stopChan is closed, in wg.Wait
    | Returned

  datatype State = State(
    main: Main,
    active: set<User>,
    shuttingDown: bool,
    stopped: bool,
    wg: int,
    workers: seq<Worker>)   // every worker ever launched, oldest first

  const START := State(Waiting, {}, false, false, 0, [])

  datatype Step =
    | Discover(users: seq<User>)  // the first call and every tick
    | Look                        // the section under the mutex, for the next user
    | EndScan
    | Add
    | Launch
    | Signal
    | CloseStop
    | Return
    | Connect(w: nat)
    | Reset(w: nat)
    | Leave(w: nat)
    | CloseClient(w: nat)
    | OnExit(w: nat)
    | Done(w: nat)

  ghost predicate In(s: State, w: nat, phase: Phase) {
    w < |s.workers| && s.workers[w].phase == phase
  }

  ghost predicate Enabled(s: State, step: Step) {
    match step
    case Discover(_) => s.main.Waiting?
    case Look => s.main.Scanning? && s.main.rest != []
    case EndScan => s.main.Scanning? && s.main.rest == []
    case Add => s.main.Claimed?
    case Launch => s.main.Added?
    case Signal => s.main.Waiting?
    case CloseStop => s.main.Flagged?
    case Return => s.main.Joining? && s.wg == 0
    case Connect(w) => In(s, w, Live) && !s.workers[w].client
    case Reset(w) => In(s, w, Live) && s.workers[w].client
    case Leave(w) => In(s, w, Live) && s.stopped
    case CloseClient(w) => In(s, w, Leaving)
    case OnExit(w) => In(s, w, ClientClosed)
    case Done(w) => In(s, w, Exited)
  }

  ghost function Changed(s: State, w: nat, now: Worker): State
    requires w < |s.workers|
  {
    s.(workers := s.workers[w := now])
  }

  ghost function Apply(s: State, step: Step): State
    requires Enabled(s, step)
  {
    match step
    case Discover(users) => s.(main := Scanning(users))
    case Look =>
      var u, rest := s.main.rest[0], s.main.rest[1..];
      if s.shuttingDown then s.(main := Waiting)
      else if u in s.active then s.(main := Scanning(rest))
      else s.(main := Claimed(u, rest), active := s.active + {u})
    case EndScan => s.(main := Waiting)
    case Add => s.(main := Added(s.main.user, s.main.rest), wg := s.wg + 1)
    case Launch => s.(main := Scanning(s.main.rest), workers := s.workers + [Worker(s.main.user, Live, false, 0)])
    case Signal => s.(main := Flagged, shuttingDown := true)
    case CloseStop => s.(main := Joining, stopped := true)
    case Return => s.(main := Returned)
    case Connect(w) => Changed(s, w, s.workers[w].(client := true, open := s.workers[w].open + 1))
    case Reset(w) => Changed(s, w, s.workers[w].(client := false, open := s.workers[w].open - 1))
    case Leave(w) => Changed(s, w, s.workers[w].(phase := Leaving))
    case CloseClient(w) =>
      var k := s.workers[w];
      Changed(s, w, if k.client then k.(phase := ClientClosed, open := k.open - 1) else k.(phase := ClientClosed))
    case OnExit(w) =>
      var active := if s.shuttingDown then s.active else s.active - {s.workers[w].user};
      Changed(s.(active := active), w, s.workers[w].(phase := Exited))
    case Done(w) => Changed(s.(wg := s.wg - 1), w, s.workers[w].(phase := Finished))
  }

  ghost predicate Runs(s: State, steps: seq<Step>)
    decreases |steps|
  {
    steps == [] || (Enabled(s, steps[0]) && Runs(Apply(s, steps[0]), steps[1..]))
  }

  ghost function After(s: State, steps: seq<Step>): State
    requires Runs(s, steps)
    decreases |steps|
  {
    if steps == [] then s else After(Apply(s, steps[0]), steps[1..])
  }

  // ---------- invariant ----------

  /** Workers launched whose wg.Done has not run. */
  ghost function Unfinished(workers: seq<Worker>): nat {
    if workers == [] then 0
    else Unfinished(workers[..|workers| - 1]) + if workers[|workers| - 1].phase.Finished? then 0 else 1
  }

  /** wg.Add has run, the go statement has not. */
  function Announced(s: State): nat { if s.main.Added? then 1 else 0 }

  /** The client variable and the open connections of one worker. */
  ghost predicate Connections(k: Worker) {
    && (k.phase.Live? || k.phase.Leaving? ==> k.open == if k.client then 1 else 0)
    && (!k.phase.Live? && !k.phase.Leaving? ==> k.open == 0)
  }

  ghost predicate Stopping(s: State) { s.main.Flagged? || s.main.Joining? || s.main.Returned? }

  ghost predicate FlagsOk(s: State) {
    && (s.shuttingDown <==> Stopping(s))
    && (s.stopped <==> s.main.Joining? || s.main.Returned?)
    && s.wg == Unfinished(s.workers) + Announced(s)
    && (s.main.Returned? ==> s.wg == 0)
  }

  ghost predicate WorkersOk(s: State) {
    && (forall w :: 0 <= w < |s.workers| ==> Connections(s.workers[w]) && s.workers[w].user in s.active)
    && (forall w :: 0 <= w < |s.workers| ==> s.workers[w].phase.Live? || s.stopped)
  }

  ghost predicate UsersOk(s: State) {
    && (forall v, w :: 0 <= v < w < |s.workers| ==> s.workers[v].user != s.workers[w].user)
    && (s.main.Claimed? || s.main.Added? ==>
          s.main.user in s.active && forall w :: 0 <= w < |s.workers| ==> s.workers[w].user != s.main.user)
  }

  ghost predicate Invariant(s: State) { FlagsOk(s) && WorkersOk(s) && UsersOk(s) }

  lemma {:induction false} UnfinishedChanged(workers: seq<Worker>, w: nat, now: Worker)
    requires w < |workers|
    ensures Unfinished(workers[w := now]) - Unfinished(workers)
            == (if now.phase.Finished? then 0 else 1) - (if workers[w].phase.Finished? then 0 else 1)
  {
    var n := |workers| - 1;
    if w < n {
      UnfinishedChanged(workers[..n], w, now);
      assert workers[w := now][..n] == workers[..n][w := now];
    } else {
      assert workers[w := now][..n] == workers[..n];
    }
  }

  lemma {:induction false} NoneUnfinished(workers: seq<Worker>, w: nat)
    requires Unfinished(workers) == 0 && w < |workers|
    ensures workers[w].phase.Finished?
  {
    if w < |workers| - 1 {
      NoneUnfinished(workers[..|workers| - 1], w);
    }
  }

  lemma LaunchCounts(workers: seq<Worker>, k: Worker)
    ensures Unfinished(workers + [k]) == Unfinished(workers) + if k.phase.Finished? then 0 else 1
  {
    assert (workers + [k])[..|workers|] == workers;
  }

  predicate OfMain(step: Step) {
    || step.Discover? || step.Look? || step.EndScan? || step.Add? || step.Launch?
    || step.Signal? || step.CloseStop? || step.Return?
  }

  lemma MainStepKeeps(s: State, step: Step)
    requires Invariant(s) && Enabled(s, step)
    requires OfMain(step)
    ensures Invariant(Apply(s, step))
  {
    if step.Launch? {
      LaunchCounts(s.workers, Worker(s.main.user, Live, false, 0));
    }
  }

  lemma WorkerStepKeeps(s: State, step: Step, w: nat)
    requires Invariant(s) && Enabled(s, step)
    requires step in {Connect(w), Reset(w), Leave(w), CloseClient(w), OnExit(w), Done(w)}
    ensures Invariant(Apply(s, step))
  {
    UnfinishedChanged(s.workers, w, Apply(s, step).workers[w]);
    assert s.workers[w].phase.Live? || s.stopped;
    assert Connections(s.workers[w]);
  }

  lemma StepKeeps(s: State, step: Step)
    requires Invariant(s) && Enabled(s, step)
    ensures Invariant(Apply(s, step))
  {
    if OfMain(step) {
      MainStepKeeps(s, step);
    } else {
      WorkerStepKeeps(s, step, step.w);
    }
  }

  lemma {:induction false} RunKeeps(s: State, steps: seq<Step>)
    requires Invariant(s) && Runs(s, steps)
    ensures Invariant(After(s, steps))
    decreases |steps|
  {
    if steps != [] {
      StepKeeps(s, steps[0]);
      RunKeeps(Apply(s, steps[0]), steps[1..]);
    }
  }

  // ---------- what the supervisor promises ----------

  /** In every reachable state: no two workers of one user, over the whole life of the process; at most one
      connection per worker; the wait group counts the launched and unfinished workers, plus the one main is
      about to launch. */
  lemma Promises(steps: seq<Step>)
    requires Runs(START, steps)
    ensures var s := After(START, steps);
            && (forall v, w :: 0 <= v < w < |s.workers| ==> s.workers[v].user != s.workers[w].user)
            && (forall w :: 0 <= w < |s.workers| ==> 0 <= s.workers[w].open <= 1)
            && s.wg == Unfinished(s.workers) + Announced(s)
  {
    RunKeeps(START, steps);
  }

  /** Once the flag is set nothing is launched, and the branch of onExit that forgets a user is never taken. */
  lemma NothingStartsAfterShutdown(steps: seq<Step>, step: Step)
    requires Runs(START, steps) && Enabled(After(START, steps), step)
    ensures var s := After(START, steps);
            && (s.shuttingDown ==> !step.Launch? && !step.Look? && |Apply(s, step).workers| == |s.workers|)
            && (step.OnExit? ==> s.shuttingDown)
            && s.active <= Apply(s, step).active
  {
    RunKeeps(START, steps);
  }

  /** When wg.Wait has let main return, every worker is past its last step and holds no connection. */
  lemma AllDoneAtReturn(steps: seq<Step>)
    requires Runs(START, steps) && After(START, steps).main.Returned?
    ensures var s := After(START, steps);
            forall w :: 0 <= w < |s.workers| ==> s.workers[w].phase.Finished? && s.workers[w].open == 0
  {
    RunKeeps(START, steps);
    var s := After(START, steps);
    forall w | 0 <= w < |s.workers|
      ensures s.workers[w].phase.Finished? && s.workers[w].open == 0
    {
      NoneUnfinished(s.workers, w);
      assert Connections(s.workers[w]);
    }
  }

  /** And it can always get there: from the signal on, some step of the shutdown is enabled until main has
      returned, and each brings the end nearer. */
  lemma ShutdownNeverStuck(steps: seq<Step>) returns (step: Step)
    requires Runs(START, steps) && Stopping(After(START, steps)) && !After(START, steps).main.Returned?
    ensures Enabled(After(START, steps), step)
    ensures Progress(Apply(After(START, steps), step)) < Progress(After(START, steps))
    ensures Stopping(Apply(After(START, steps), step))
  {
    RunKeeps(START, steps);
    step := ShutdownStep(After(START, steps));
  }

  lemma ShutdownStep(s: State) returns (step: Step)
    requires Invariant(s) && Stopping(s) && !s.main.Returned?
    ensures Enabled(s, step) && Progress(Apply(s, step)) < Progress(s) && Stopping(Apply(s, step))
  {
    if s.main.Flagged? {
      step := CloseStop;
    } else if s.wg == 0 {
      step := Return;
    } else {
      var w := SomeUnfinished(s.workers);
      var k := s.workers[w];
      step := match k.phase
        case Live => Leave(w)
        case Leaving => CloseClient(w)
        case ClientClosed => OnExit(w)
        case _ => Done(w);
      StagesChanged(s.workers, w, Apply(s, step).workers[w]);
    }
  }

  /** The signal is taken in the select, where discovery starts as well. */
  lemma WaitingCanStop(steps: seq<Step>, users: seq<User>)
    requires Runs(START, steps) && After(START, steps).main.Waiting?
    ensures var s := After(START, steps);
            && Enabled(s, Signal) && Stopping(Apply(s, Signal)) && Apply(s, Signal).shuttingDown
            && Enabled(s, Discover(users)) && Scanned(Apply(s, Discover(users)), users)
  {
  }

  function Left(p: Phase): nat {
    match p
    case Live => 4
    case Leaving => 3
    case ClientClosed => 2
    case Exited => 1
    case Finished => 0
  }

  /** Steps every worker still has to take to finish. */
  ghost function Stages(workers: seq<Worker>): nat {
    if workers == [] then 0 else Stages(workers[..|workers| - 1]) + Left(workers[|workers| - 1].phase)
  }

  /** What is left of the shutdown: the two steps of main and those of the workers. */
  ghost function Progress(s: State): nat {
    Stages(s.workers) + if s.main.Returned? then 0 else if s.main.Joining? then 1 else 2
  }

  lemma {:induction false} StagesChanged(workers: seq<Worker>, w: nat, now: Worker)
    requires w < |workers|
    ensures Stages(workers[w := now]) - Stages(workers) == Left(now.phase) - Left(workers[w].phase)
  {
    var n := |workers| - 1;
    if w < n {
      StagesChanged(workers[..n], w, now);
      assert workers[w := now][..n] == workers[..n][w := now];
    } else {
      assert workers[w := now][..n] == workers[..n];
    }
  }

  lemma {:induction false} SomeUnfinished(workers: seq<Worker>) returns (w: nat)
    requires Unfinished(workers) > 0
    ensures w < |workers| && !workers[w].phase.Finished?
  {
    var n := |workers| - 1;
    if workers[n].phase.Finished? {
      w := SomeUnfinished(workers[..n]);
    } else {
      w := n;
    }
  }

  // ---------- every user gets a worker ----------

  ghost predicate HasWorker(s: State, u: User) { exists w :: 0 <= w < |s.workers| && s.workers[w].user == u }

  /** u is between being marked as running and its go statement. */
  ghost predicate Coming(s: State, u: User) { (s.main.Claimed? || s.main.Added?) && s.main.user == u }

  /** A user is marked as running iff it has a worker or is about to get one. */
  ghost predicate Marked(s: State) { forall u :: u in s.active <==> HasWorker(s, u) || Coming(s, u) }

  lemma WorkersKept(s: State, step: Step, u: User)
    requires Enabled(s, step)
    ensures HasWorker(s, u) ==> HasWorker(Apply(s, step), u)
    ensures HasWorker(Apply(s, step), u) ==> HasWorker(s, u) || (step.Launch? && s.main.user == u)
    ensures step.Launch? ==> HasWorker(Apply(s, step), s.main.user)
  {
    var s' := Apply(s, step);
    if HasWorker(s, u) {
      var w :| 0 <= w < |s.workers| && s.workers[w].user == u;
      assert s'.workers[w].user == u;
    }
    if HasWorker(s', u) {
      var w :| 0 <= w < |s'.workers| && s'.workers[w].user == u;
      assert w < |s.workers| ==> s.workers[w].user == u;
    }
    if step.Launch? {
      assert s'.workers[|s.workers|].user == s.main.user;
    }
  }

  lemma StepMarks(s: State, step: Step)
    requires Invariant(s) && Marked(s) && Enabled(s, step)
    ensures Marked(Apply(s, step))
  {
    var s' := Apply(s, step);
    forall u
      ensures u in s'.active <==> HasWorker(s', u) || Coming(s', u)
    {
      WorkersKept(s, step, u);
      assert u in s.active <==> HasWorker(s, u) || Coming(s, u);
    }
  }

  lemma {:induction false} RunMarks(s: State, steps: seq<Step>)
    requires Invariant(s) && Marked(s) && Runs(s, steps)
    ensures Invariant(After(s, steps)) && Marked(After(s, steps))
    decreases |steps|
  {
    if steps != [] {
      StepKeeps(s, steps[0]);
      StepMarks(s, steps[0]);
      RunMarks(Apply(s, steps[0]), steps[1..]);
    }
  }

  /** In every reachable state outside the launch of a worker, the users marked as running are exactly those that
      have a worker. */
  lemma ActiveHaveWorkers(steps: seq<Step>)
    requires Runs(START, steps)
    ensures var s := After(START, steps);
            !s.main.Claimed? && !s.main.Added? ==> forall u :: u in s.active <==> HasWorker(s, u)
  {
    RunMarks(START, steps);
  }

  /** Where the scan over `users` stands: whoever is not still to be looked at has a worker or is about to get one. */
  ghost predicate Scanned(s: State, users: seq<User>) {
    && (s.main.Scanning? || s.main.Claimed? || s.main.Added?)
    && forall u :: u in users ==> u in s.main.rest || HasWorker(s, u) || Coming(s, u)
  }

  lemma StepScans(s: State, users: seq<User>, step: Step)
    requires Invariant(s) && Marked(s) && Enabled(s, step) && Scanned(s, users) && !step.EndScan?
    ensures Scanned(Apply(s, step), users)
  {
    var s' := Apply(s, step);
    forall u | u in users
      ensures u in s'.main.rest || HasWorker(s', u) || Coming(s', u)
    {
      WorkersKept(s, step, u);
      if step.Look? && u in s.main.rest && u != s.main.rest[0] {
        assert u in s.main.rest[1..];
      }
    }
  }

  lemma {:induction false} RunScans(s: State, users: seq<User>, steps: seq<Step>)
    requires Invariant(s) && Marked(s) && Scanned(s, users) && Runs(s, steps)
    requires forall k :: 0 <= k < |steps| ==> !steps[k].EndScan?
    ensures Scanned(After(s, steps), users)
    decreases |steps|
  {
    if steps != [] {
      StepKeeps(s, steps[0]);
      StepMarks(s, steps[0]);
      StepScans(s, users, steps[0]);
      RunScans(Apply(s, steps[0]), users, steps[1..]);
    }
  }

  /** When a scan reaches its end, every user discovered has a worker, whatever the workers did meanwhile. No signal
      can come in between: discovery and shutdown are steps of one goroutine. */
  lemma EveryUserServed(before: seq<Step>, users: seq<User>, during: seq<Step>)
    requires Runs(START, before) && Enabled(After(START, before), Discover(users))
    requires Runs(Apply(After(START, before), Discover(users)), during)
    requires forall k :: 0 <= k < |during| ==> !during[k].EndScan?
    requires Enabled(After(Apply(After(START, before), Discover(users)), during), EndScan)
    ensures var s := Apply(After(Apply(After(START, before), Discover(users)), during), EndScan);
            forall u :: u in users ==> HasWorker(s, u)
  {
    RunMarks(START, before);
    ScanServes(After(START, before), users, during);
  }

  lemma ScanServes(s: State, users: seq<User>, during: seq<Step>)
    requires Invariant(s) && Marked(s) && Enabled(s, Discover(users))
    requires Runs(Apply(s, Discover(users)), during)
    requires forall k :: 0 <= k < |during| ==> !during[k].EndScan?
    requires Enabled(After(Apply(s, Discover(users)), during), EndScan)
    ensures forall u :: u in users ==> HasWorker(Apply(After(Apply(s, Discover(users)), during), EndScan), u)
  {
    var s' := Apply(s, Discover(users));
    StepKeeps(s, Discover(users));
    StepMarks(s, Discover(users));
    RunScans(s', users, during);
    EndServes(After(s', during), users);
  }

  lemma EndServes(s: State, users: seq<User>)
    requires Scanned(s, users) && Enabled(s, EndScan)
    ensures forall u :: u in users ==> HasWorker(Apply(s, EndScan), u)
  {
    forall u | u in users
      ensures HasWorker(Apply(s, EndScan), u)
    {
      WorkersKept(s, EndScan, u);
    }
  }

  /** How far a scan is from its end. */
  ghost function ToScan(s: State): nat {
    match s.main
    case Scanning(rest) => 3 * |rest|
    case Claimed(_, rest) => 3 * |rest| + 2
    case Added(_, rest) => 3 * |rest| + 1
    case _ => 0
  }

  /** A scan can always go on: its end is reached, or main has a step that brings it nearer. */
  lemma ScanNeverStuck(steps: seq<Step>) returns (step: Step)
    requires Runs(START, steps)
    requires var main := After(START, steps).main; main.Scanning? || main.Claimed? || main.Added?
    ensures OfMain(step) && Enabled(After(START, steps), step)
    ensures step.EndScan? || ToScan(Apply(After(START, steps), step)) < ToScan(After(START, steps))
  {
    RunKeeps(START, steps);
    var s := After(START, steps);
    step := match s.main
      case Scanning(rest) => if rest == [] then EndScan else Look
      case Claimed(_, _) => Add
      case _ => Launch;
  }

  // ---------- connections over a run ----------

  function ClientOf(s: State, w: nat): int { if w < |s.workers| && s.workers[w].client then 1 else 0 }

  /** A worker has a client exactly when it has connected once more than it has reset. */
  lemma {:induction false} ClientCounts(s: State, steps: seq<Step>, w: nat)
    requires Runs(s, steps)
    ensures ClientOf(After(s, steps), w)
            == ClientOf(s, w) + multiset(steps)[Connect(w)] - multiset(steps)[Reset(w)]
    decreases |steps|
  {
    if steps != [] {
      assert steps == [steps[0]] + steps[1..];
      ClientCounts(Apply(s, steps[0]), steps[1..], w);
    }
  }
}
