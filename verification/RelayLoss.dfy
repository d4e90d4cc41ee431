/** When a restart loses a run command to the cancel poll of a worker that is
    still busy (src/sftp/worker.rs drains its channel and keeps only cancels), and
    what that does to the relay afterwards. */
module RelayLoss {
  import opened Wrappers
  import opened Relay
  import opened RelaySystem
  import opened RelaySafety
  import opened RelayResults

  lemma LostOnlyGrows(s: Sys, step: Step)
    requires Enabled(s, step)
    ensures Next(s, step).lost >= s.lost
  {
  }

  /** Once one run command is lost, every later answer is swallowed: no relay
      advances ever again, in any continuation. */
  lemma {:induction false} LossStopsEveryRelay(s: Sys, steps: seq<Step>, side: Side)
    requires Inv(s) && s.lost > 0 && Trace(s, steps)
    ensures var t := Run(s, steps);
      && t.lost > 0
      && (t.At(side).outbox != [] && t.At(side).outbox[0].QueueDone? ==> t.ui.swallowDone > 0)
    decreases |steps|
  {
    if steps == [] {
      if s.At(side).outbox != [] && s.At(side).outbox[0].QueueDone? && s.ui.swallowDone == 0 {
        AdvanceIsEarned(s, side);
      }
    } else {
      StepKeepsInv(s, steps[0]);
      LostOnlyGrows(s, steps[0]);
      LossStopsEveryRelay(Next(s, steps[0]), steps[1..], side);
    }
  }

  // ---------- Restarting only when nothing is owed ----------

  /** At most one run is unanswered and none was lost. */
  ghost predicate Calm(s: Sys) {
    s.lost == 0 && Owed(s) <= 1
  }

  /** The confirm key is only pressed when no stale `QueueDone` is still owed. */
  ghost predicate Patient(s: Sys, steps: seq<Step>)
    requires Trace(s, steps)
    decreases |steps|
  {
    steps == [] || ((steps[0].Press? ==> s.ui.swallowDone == 0) && Patient(Next(s, steps[0]), steps[1..]))
  }

  lemma EventSettles(ui: Ui, side: Side, ev: Event, dirMade: bool)
    requires ev.QueueDone? ==> ui.swallowDone > 0 || ui.relay.Some?
    ensures var after := ui.OnEvent(side, ev, dirMade);
      after.swallowDone + Live(after) <= ui.swallowDone + Live(ui)
  {
  }

  lemma PollOfTheOnlyRun(s: Sys, side: Side, n: nat)
    requires Calm(s) && Enabled(s, Poll(side, n))
    ensures PollStep(s, side, n).lost == 0
  {
    RunsSplit(s.Inbox(side), n);
  }

  lemma DeliverKeepsCalm(s: Sys, side: Side, dirMade: bool)
    requires Inv(s) && Calm(s) && Enabled(s, Deliver(side, dirMade)) && Account(DeliverStep(s, side, dirMade))
    ensures Calm(DeliverStep(s, side, dirMade))
  {
    var ev := s.At(side).outbox[0];
    if ev.QueueDone? && s.ui.swallowDone == 0 {
      LastAnswer(s, side);
    }
    EventSettles(s.ui, side, ev, dirMade);
  }

  lemma PressKeepsCalm(s: Sys, dirMade: bool)
    requires Inv(s) && Calm(s) && s.ui.swallowDone == 0 && Account(Next(s, Press(dirMade)))
    ensures Calm(Next(s, Press(dirMade)))
  {
  }

  /** Apart from presses and deliveries nothing touches the balance, and apart
      from polls nothing is lost. */
  lemma OthersKeepBalance(s: Sys, step: Step)
    requires Enabled(s, step) && !step.Press? && !step.Deliver?
    ensures Next(s, step).ui.swallowDone == s.ui.swallowDone && Next(s, step).ui.relay == s.ui.relay
    ensures !step.Poll? ==> Next(s, step).lost == s.lost
  {
  }

  lemma BalancedIsCalm(s: Sys, t: Sys)
    requires Account(s) && Account(t) && Calm(s) && t.lost == 0
    requires t.ui.swallowDone == s.ui.swallowDone && t.ui.relay == s.ui.relay
    ensures Calm(t)
  {
  }

  lemma StepKeepsCalm(s: Sys, step: Step)
    requires Inv(s) && Calm(s) && Enabled(s, step)
    requires step.Press? ==> s.ui.swallowDone == 0
    ensures Calm(Next(s, step))
  {
    StepKeepsInv(s, step);
    if step.Deliver? {
      DeliverKeepsCalm(s, step.side, step.dirMade);
    } else if step.Press? {
      PressKeepsCalm(s, step.dirMade);
    } else {
      OthersKeepBalance(s, step);
      if step.Poll? {
        PollOfTheOnlyRun(s, step.side, step.n);
      }
      BalancedIsCalm(s, Next(s, step));
    }
  }

  /** Restarted only while nothing is owed, the relay never loses a command, and
      the undelivered `QueueDone`s are exactly the owed ones plus the live relay's. */
  lemma {:induction false} PatientRunsLoseNothing(s: Sys, steps: seq<Step>)
    requires Inv(s) && Calm(s) && Trace(s, steps) && Patient(s, steps)
    ensures var t := Run(s, steps); Inv(t) && t.lost == 0 && Owed(t) == t.ui.swallowDone + Live(t.ui)
    decreases |steps|
  {
    if steps != [] {
      StepKeepsInv(s, steps[0]);
      StepKeepsCalm(s, steps[0]);
      PatientRunsLoseNothing(Next(s, steps[0]), steps[1..]);
    }
  }

  // ---------- Exactly when a command can be lost ----------

  /** A cancel poll of this worker lies ahead of a waiting run. */
  ghost predicate Endangered(s: Sys, side: Side) {
    Runs(s.Inbox(side)) >= if Polls(s.At(side).phase) then 1 else 2
  }

  predicate WorkerStep(step: Step) {
    step.Take? || step.Poll? || step.Report? || step.End? || step.Close?
  }

  ghost predicate WorkersOnly(steps: seq<Step>) {
    forall i :: 0 <= i < |steps| ==> WorkerStep(steps[i])
  }

  /** The workers alone, from here, can lose a run command. */
  ghost predicate CanLose(s: Sys) {
    exists steps :: WorkersOnly(steps) && Trace(s, steps) && Run(s, steps).lost > s.lost
  }

  lemma CanLoseLater(s: Sys, step: Step)
    requires WorkerStep(step) && Enabled(s, step) && Next(s, step).lost == s.lost && CanLose(Next(s, step))
    ensures CanLose(s)
  {
    var steps :| WorkersOnly(steps) && Trace(Next(s, step), steps)
        && Run(Next(s, step), steps).lost > Next(s, step).lost;
    assert ([step] + steps)[1..] == steps;
    assert WorkersOnly([step] + steps) && Trace(s, [step] + steps) && Run(s, [step] + steps).lost > s.lost;
  }

  lemma PollAllLoses(s: Sys, side: Side)
    requires Polls(s.At(side).phase) && Runs(s.Inbox(side)) >= 1
    ensures CanLose(s)
  {
    var step := Poll(side, |s.Inbox(side)|);
    assert s.Inbox(side)[..|s.Inbox(side)|] == s.Inbox(side);
    assert Next(s, step).lost > s.lost;
    assert [step][1..] == [];
    assert Trace(Next(s, step), []);
    assert Trace(s, [step]) && Run(s, [step]).lost > s.lost && WorkersOnly([step]);
  }

  /** How far the worker is from its next poll. */
  function Distance(phase: WorkerPhase): nat {
    match phase
    case Idle => 0
    case Closing(_) => 1
    case Moving(_, _) => 2
    case Starting(_, _) => 3
  }

  lemma {:induction false} EndangeredCanLose(s: Sys, side: Side)
    requires Endangered(s, side)
    ensures CanLose(s)
    decreases |s.Inbox(side)|, Distance(s.At(side).phase)
  {
    var phase := s.At(side).phase;
    if Polls(phase) {
      PollAllLoses(s, side);
    } else {
      var step := match phase
        case Idle => Take(side, true)
        case Closing(_) => Close(side)
        case _ => End(side, true);
      var t := Next(s, step);
      if phase.Idle? {
        TakeEffect(s, side, true);
      } else {
        assert t.Inbox(side) == s.Inbox(side);
      }
      EndangeredCanLose(t, side);
      CanLoseLater(s, step);
    }
  }

  lemma SafeStep(s: Sys, step: Step)
    requires WorkerStep(step) && Enabled(s, step)
    requires !Endangered(s, Remote) && !Endangered(s, Local)
    ensures Next(s, step).lost == s.lost && !Endangered(Next(s, step), Remote) && !Endangered(Next(s, step), Local)
  {
    var t := Next(s, step);
    if step.Poll? {
      RunsSplit(s.Inbox(step.side), step.n);
      assert t.Inbox(step.side) == s.Inbox(step.side)[step.n..];
    } else if step.Take? {
      TakeEffect(s, step.side, step.ok);
      assert t.Inbox(step.side) == s.Inbox(step.side)[1..];
    }
  }

  lemma {:induction false} SafeCannotLose(s: Sys, steps: seq<Step>)
    requires !Endangered(s, Remote) && !Endangered(s, Local) && WorkersOnly(steps) && Trace(s, steps)
    ensures Run(s, steps).lost == s.lost
    decreases |steps|
  {
    if steps != [] {
      assert WorkerStep(steps[0]);
      SafeStep(s, steps[0]);
      SafeCannotLose(Next(s, steps[0]), steps[1..]);
    }
  }

  /** The workers can lose a run command exactly when one of them still has a
      cancel poll ahead of a run that waits behind it. */
  lemma CanLoseIffEndangered(s: Sys)
    ensures CanLose(s) <==> Endangered(s, Remote) || Endangered(s, Local)
  {
    if Endangered(s, Remote) {
      EndangeredCanLose(s, Remote);
    } else if Endangered(s, Local) {
      EndangeredCanLose(s, Local);
    } else if CanLose(s) {
      var steps :| WorkersOnly(steps) && Trace(s, steps) && Run(s, steps).lost > s.lost;
      SafeCannotLose(s, steps);
    }
  }

  /** From a state in which nothing can be lost, pressing the confirm key makes the
      new leg losable exactly when the worker it goes to still has a run waiting or
      polling. */
  lemma PressIsSafeIff(s: Sys)
    requires !CanLose(s) && s.ui.phase == Browsing && s.ui.queue != []
    ensures var side := LegFor(s.ui.queue[0], s.ui.dirs, Fetching).side;
      CanLose(Next(s, Press(true))) <==> Polls(s.At(side).phase) || Runs(s.Inbox(side)) >= 1
  {
    var side := LegFor(s.ui.queue[0], s.ui.dirs, Fetching).side;
    var t := Next(s, Press(true));
    var cmd := RunQueue(s.ui.runs, LegFor(s.ui.queue[0], s.ui.dirs, Fetching).item);
    assert t.Inbox(side) == s.Inbox(side) + [cmd] && t.Inbox(Other(side)) == s.Inbox(Other(side));
    assert Runs([cmd]) == 1;
    RunsConcat(s.Inbox(side), [cmd]);
    CanLoseIffEndangered(s);
    CanLoseIffEndangered(t);
    assert side == Remote || side == Local;
  }

  lemma {:induction false} TraceConcat(s: Sys, a: seq<Step>, b: seq<Step>)
    requires Trace(s, a) && Trace(Run(s, a), b)
    ensures Trace(s, a + b) && Run(s, a + b) == Run(Run(s, a), b)
    decreases |a|
  {
    if a == [] {
      assert a + b == b;
    } else {
      assert (a + b)[1..] == a[1..] + b;
      TraceConcat(Next(s, a[0]), a[1..], b);
    }
  }

  lemma TraceOne(s: Sys, step: Step)
    requires Enabled(s, step)
    ensures Trace(s, [step]) && Run(s, [step]) == Next(s, step)
  {
  }

  lemma TraceSnoc(s: Sys, a: seq<Step>, step: Step)
    requires Trace(s, a) && Enabled(Run(s, a), step)
    ensures Trace(s, a + [step]) && Run(s, a + [step]) == Next(Run(s, a), step)
  {
    TraceOne(Run(s, a), step);
    TraceConcat(s, a, [step]);
  }

  const PHOTOS := Item(Download, "/srv/photos", "/backup/photos", "photos", true)

  const FETCH0 := LegFor(PHOTOS, 0, Fetching).item
  const FETCH1 := LegFor(PHOTOS, 1, Fetching).item

  /** A directory is being fetched on the right ... */
  lemma FetchRuns() returns (steps: seq<Step>)
    ensures Trace(Init(), steps)
    ensures var s := Run(Init(), steps);
      && s.ui.relay.Some? && s.ui.queue == [PHOTOS] && s.ui.swallowDone == 0 && s.lost == 0
      && s.ui.tx == [] && s.ui.tx2 == [] && s.ui.runs == 1 && s.ui.dirs == 1
      && s.right == Worker(Moving(0, FETCH0), []) && s.left == Worker(Idle, [])
  {
    steps := [StageItem(PHOTOS)];
    TraceOne(Init(), StageItem(PHOTOS));
    assert Run(Init(), steps).ui.queue == [PHOTOS];
    TraceSnoc(Init(), steps, Press(true));
    steps := steps + [Press(true)];
    assert Run(Init(), steps).ui.tx == [RunQueue(0, FETCH0)];
    TraceSnoc(Init(), steps, Take(Remote, true));
    steps := steps + [Take(Remote, true)];
    TraceSnoc(Init(), steps, Poll(Remote, 0));
    steps := steps + [Poll(Remote, 0)];
  }

  /** ... when a listing fails on the left, which stops the relay ... */
  lemma ListingFails(s: Sys) returns (steps: seq<Step>)
    requires s.ui.relay.Some? && s.ui.queue == [PHOTOS] && s.ui.swallowDone == 0 && s.lost == 0
    requires s.ui.tx == [] && s.ui.tx2 == [] && s.left == Worker(Idle, [])
    ensures Trace(s, steps)
    ensures var t := Run(s, steps);
      && t.ui.relay.None? && t.ui.queue == [PHOTOS] && t.ui.phase == Browsing && t.ui.swallowDone == 1 && t.lost == 0
      && t.ui.tx == [Cancel, ListDir] && t.ui.tx2 == [Cancel, ListDir]
      && t.ui.runs == s.ui.runs && t.ui.dirs == s.ui.dirs && t.right == s.right && t.left == Worker(Idle, [])
  {
    steps := [Browse(Local)];
    TraceOne(s, Browse(Local));
    TraceSnoc(s, steps, Take(Local, false));
    steps := steps + [Take(Local, false)];
    assert Run(s, steps).left.outbox == [Error(None)];
    TraceSnoc(s, steps, Deliver(Local, true));
    steps := steps + [Deliver(Local, true)];
  }

  /** ... and the user confirms again at once: the new fetch is drained together
      with the cancel ... */
  lemma RestartIsDrained(s: Sys) returns (steps: seq<Step>)
    requires s.ui.relay.None? && s.ui.queue == [PHOTOS] && s.ui.phase == Browsing
    requires s.ui.swallowDone == 1 && s.lost == 0
    requires s.ui.tx == [Cancel, ListDir] && s.ui.tx2 == [Cancel, ListDir] && s.ui.runs == 1 && s.ui.dirs == 1
    requires s.right == Worker(Moving(0, FETCH0), []) && s.left == Worker(Idle, [])
    ensures Trace(s, steps)
    ensures var t := Run(s, steps);
      && t.ui.relay.Some? && t.ui.swallowDone == 1 && t.lost == 1
      && t.ui.tx == [] && t.ui.tx2 == [Cancel, ListDir] && t.right == Worker(Closing(0), [])
      && t.left == Worker(Idle, [])
  {
    var run := RunQueue(1, FETCH1);
    steps := [Press(true)];
    TraceOne(s, Press(true));
    assert Run(s, steps).ui.tx == [Cancel, ListDir] + [run];
    RunsConcat([Cancel, ListDir], [run]);
    assert Runs([run]) == 1 && Runs([Cancel, ListDir]) == 0 by {
      assert [Cancel, ListDir][1..] == [ListDir];
    }
    var drained := Run(s, steps).ui.tx[..3];
    assert drained == [Cancel, ListDir] + [run] && drained[0] == Cancel;
    TraceSnoc(s, steps, Poll(Remote, 3));
    steps := steps + [Poll(Remote, 3)];
  }

  /** ... so that, once the first fetch reports, the relay waits for an answer
      nobody owes it. */
  lemma OnlyAnswerIsSwallowed(s: Sys) returns (steps: seq<Step>)
    requires s.ui.relay.Some? && s.ui.swallowDone == 1 && s.right == Worker(Closing(0), [])
    ensures Trace(s, steps)
    ensures Run(s, steps) == s.(right := Worker(Idle, []), ui := s.ui.(swallowDone := 0))
  {
    steps := [Close(Remote)];
    TraceOne(s, Close(Remote));
    assert Run(s, steps).right.outbox == [QueueDone(0)];
    TraceSnoc(s, steps, Deliver(Remote, true));
    steps := steps + [Deliver(Remote, true)];
  }

  /** The accounting does fail: a restart right after an abort can leave a relay
      running with no answer on its way. */
  lemma ImpatientRestartHangs() returns (steps: seq<Step>)
    ensures Trace(Init(), steps)
    ensures var t := Run(Init(), steps); t.ui.relay.Some? && t.ui.swallowDone == 0 && Owed(t) == 0 && t.lost == 1
  {
    steps := FetchRuns();
    var more := ListingFails(Run(Init(), steps));
    TraceConcat(Init(), steps, more);
    steps := steps + more;
    more := RestartIsDrained(Run(Init(), steps));
    TraceConcat(Init(), steps, more);
    steps := steps + more;
    more := OnlyAnswerIsSwallowed(Run(Init(), steps));
    TraceConcat(Init(), steps, more);
    steps := steps + more;
    assert [Cancel, ListDir][1..] == [ListDir];
  }

  /** Whatever the run, the relay's invariants hold from the start on, its legs
      follow the plan, and, as long as nothing is unstaged under a live relay, its
      queue is kept. */
  lemma {:induction false} EveryRun(s: Sys, steps: seq<Step>)
    requires Inv(s) && Awaiting(s.ui) && Trace(s, steps)
    ensures Inv(Run(s, steps)) && Awaiting(Run(s, steps).ui)
    ensures QueueKept(s.ui) && (forall i :: 0 <= i < |steps| ==> !steps[i].UnstageLast?) ==> QueueKept(Run(s, steps).ui)
    decreases |steps|
  {
    if steps != [] {
      StepKeepsInv(s, steps[0]);
      StepKeepsAwaiting(s, steps[0]);
      if QueueKept(s.ui) && !steps[0].UnstageLast? {
        StepKeepsQueue(s, steps[0]);
      }
      EveryRun(Next(s, steps[0]), steps[1..]);
    }
  }
}
