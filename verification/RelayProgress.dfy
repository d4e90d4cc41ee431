/** That a relay can end: from any state in which nothing but its current leg is
    outstanding, the workers and the event loop alone carry it to completion. */
module RelayProgress {
  import opened Wrappers
  import opened Relay
  import opened RelaySystem
  import opened RelaySafety
  import opened RelayResults
  import opened RelayLoss

  ghost predicate NoErrors(s: Sys) {
    forall side, i :: 0 <= i < |s.At(side).outbox| ==> !s.At(side).outbox[i].Error?
  }

  /** A relay is live, at most one run is unanswered, and no error is on its way. */
  ghost predicate Going(s: Sys) {
    Inv(s) && Calm(s) && NoErrors(s) && Awaiting(s.ui) && s.ui.relay.Some?
  }

  /** The side with the unanswered run. */
  function Busy(s: Sys): Side {
    if OwedBy(s, Remote) > 0 then Remote else Local
  }

  /** What the busy side does next when nothing fails. */
  function Forward(s: Sys): Step {
    var side := Busy(s);
    if Runs(s.Inbox(side)) > 0 then Take(side, true)
    else match s.At(side).phase
         case Idle => Deliver(side, true)
         case Starting(_, _) => Poll(side, |s.Inbox(side)|)
         case Moving(_, _) => End(side, true)
         case Closing(_) => Close(side)
  }

  function LegsLeft(ui: Ui): nat {
    match ui.relay
    case None => 0
    case Some(job) => if job.items == [] then 0 else 2 * |job.items| - if job.leg == Pushing then 1 else 0
  }

  /** How far the unanswered run is from its end. */
  function Stage(s: Sys): nat {
    if Runs(s.Inbox(Busy(s))) > 0 then 4
    else match s.At(Busy(s)).phase case Idle => 0 case Starting(_, _) => 3 case Moving(_, _) => 2 case Closing(_) => 1
  }

  /** What is still ahead of the run, or of its answer. */
  function Ahead(s: Sys): nat {
    if Stage(s) == 4 then |s.Inbox(Busy(s))| else |s.At(Busy(s)).outbox|
  }

  /** Exactly one answer is outstanding, on the busy side. */
  lemma OneIsOwed(s: Sys)
    requires Going(s)
    ensures s.ui.swallowDone == 0 && s.lost == 0 && OwedBy(s, Busy(s)) == 1 && OwedBy(s, Other(Busy(s))) == 0
  {
  }

  lemma ForwardIsEnabled(s: Sys)
    requires Going(s)
    ensures Enabled(s, Forward(s))
  {
    OneIsOwed(s);
  }

  /** The measure goes down, leg by leg, stage by stage, command by command. */
  predicate Nearer(t: Sys, s: Sys) {
    LegsLeft(t.ui) < LegsLeft(s.ui)
    || (LegsLeft(t.ui) == LegsLeft(s.ui) && (Stage(t) < Stage(s) || (Stage(t) == Stage(s) && Ahead(t) < Ahead(s))))
  }

  lemma RunsOfRest(cmds: seq<Command>)
    requires cmds != []
    ensures Runs(cmds) == Runs(cmds[1..]) + if cmds[0].RunQueue? then 1 else 0
  {
  }

  /** The run of the busy side, and nothing on the other. */
  ghost predicate OnlyOn(s: Sys, side: Side) {
    OwedBy(s, side) > 0 && OwedBy(s, Other(side)) == 0
  }

  lemma OnlyOneIsBusy(s: Sys, side: Side)
    requires OnlyOn(s, side)
    ensures Busy(s) == side
  {
  }

  lemma TakeIsNearer(s: Sys, side: Side)
    requires OnlyOn(s, side) && OwedBy(s, side) == 1 && Runs(s.Inbox(side)) > 0
    ensures var t := TakeStep(s, side, true);
            OnlyOn(t, side) && Stage(t) <= Stage(s) && (Stage(t) == Stage(s) ==> Ahead(t) < Ahead(s))
  {
    var t := TakeStep(s, side, true);
    RunsOfRest(s.Inbox(side));
    TakeEffect(s, side, true);
    OnlyOneIsBusy(s, side);
    if !s.Inbox(side)[0].RunQueue? {
      assert OnlyOn(t, side);
    } else {
      assert t.At(side).phase.Starting?;
    }
    OnlyOneIsBusy(t, side);
  }

  lemma PollIsNearer(s: Sys, side: Side)
    requires OnlyOn(s, side) && Runs(s.Inbox(side)) == 0 && s.At(side).phase.Starting?
    ensures var t := PollStep(s, side, |s.Inbox(side)|); OnlyOn(t, side) && Stage(t) < Stage(s)
  {
    var t := PollStep(s, side, |s.Inbox(side)|);
    OnlyOneIsBusy(s, side);
    assert t.Inbox(side) == [] && t.Inbox(Other(side)) == s.Inbox(Other(side))
        && t.At(Other(side)) == s.At(Other(side));
    OnlyOneIsBusy(t, side);
  }

  lemma EndIsNearer(s: Sys, side: Side)
    requires OnlyOn(s, side) && Runs(s.Inbox(side)) == 0 && s.At(side).phase.Moving?
    ensures var t := EndStep(s, side, true); OnlyOn(t, side) && Stage(t) < Stage(s)
  {
    var t := EndStep(s, side, true);
    OnlyOneIsBusy(s, side);
    assert t.At(Other(side)) == s.At(Other(side)) && t.Inbox(Other(side)) == s.Inbox(Other(side));
    OnlyOneIsBusy(t, side);
  }

  function CloseStep(s: Sys, side: Side): Sys
    requires s.At(side).phase.Closing?
  {
    s.Emit(side, QueueDone(s.At(side).phase.ticket)).Phase(side, Idle)
  }

  lemma CloseIsNearer(s: Sys, side: Side)
    requires OnlyOn(s, side) && Runs(s.Inbox(side)) == 0 && s.At(side).phase.Closing?
    ensures var t := CloseStep(s, side); OnlyOn(t, side) && Stage(t) < Stage(s)
  {
    var t := CloseStep(s, side);
    OnlyOneIsBusy(s, side);
    DonesConcat(s.At(side).outbox, [QueueDone(s.At(side).phase.ticket)]);
    assert t.At(Other(side)) == s.At(Other(side)) && t.Inbox(Other(side)) == s.Inbox(Other(side));
    OnlyOneIsBusy(t, side);
  }

  /** An event that is no answer and no error only brings the answer to the front. */
  lemma PassIsNearer(s: Sys, side: Side)
    requires OnlyOn(s, side) && Runs(s.Inbox(side)) == 0 && s.At(side).phase.Idle? && s.At(side).outbox != []
    requires var ev := s.At(side).outbox[0]; !ev.QueueDone? && !ev.Error?
    ensures var t := DeliverStep(s, side, true); OnlyOn(t, side) && Stage(t) == Stage(s) && Ahead(t) < Ahead(s)
    ensures var t := DeliverStep(s, side, true); t.ui.relay == s.ui.relay && t.ui.history == s.ui.history
  {
    var t := DeliverStep(s, side, true);
    OnlyOneIsBusy(s, side);
    DonesPop(s.At(side).outbox);
    RunsConcat(s.Inbox(Remote), [ListDir]);
    RunsConcat(s.Inbox(Local), [ListDir]);
    assert Runs(t.Inbox(side)) == Runs(s.Inbox(side)) && Runs(t.Inbox(Other(side))) == Runs(s.Inbox(Other(side)));
    assert t.At(side).outbox == s.At(side).outbox[1..] && t.At(Other(side)) == s.At(Other(side));
    OnlyOneIsBusy(t, side);
  }

  lemma AnswerIsNearer(ui: Ui)
    requires ui.relay.Some? && ui.relay.value.items != []
    ensures var after := ui.RelayQueueDone();
            LegsLeft(after) < LegsLeft(ui) && after.history.batch == ui.history.batch
            && (after.relay.Some? ==> after.relay.value.dir == ui.relay.value.dir)
  {
  }

  lemma StepAddsNoErrors(s: Sys)
    requires NoErrors(s) && Enabled(s, Forward(s))
    ensures NoErrors(Next(s, Forward(s)))
  {
    var t, side := Next(s, Forward(s)), Busy(s);
    forall other, i | 0 <= i < |t.At(other).outbox| ensures !t.At(other).outbox[i].Error? {
      if other == side && i < |s.At(side).outbox| && Forward(s).Deliver? {
        assert t.At(side).outbox[i] == s.At(side).outbox[i + 1];
      } else if i < |s.At(other).outbox| {
        assert t.At(other).outbox[i] == s.At(other).outbox[i];
      }
    }
  }

  lemma WorkIsNearer(s: Sys)
    requires Going(s) && Enabled(s, Forward(s)) && !Forward(s).Deliver?
    ensures Next(s, Forward(s)).ui.relay == s.ui.relay && Next(s, Forward(s)).ui.history == s.ui.history
    ensures Nearer(Next(s, Forward(s)), s)
  {
    OneIsOwed(s);
    OthersKeepBalance(s, Forward(s));
    OtherStepsKeepJob(s, Forward(s));
    match Forward(s) {
      case Take(_, _) => TakeIsNearer(s, Busy(s));
      case Poll(_, _) => PollIsNearer(s, Busy(s));
      case End(_, _) => EndIsNearer(s, Busy(s));
      case Close(_) => CloseIsNearer(s, Busy(s));
    }
  }

  /** What a step leaves of the relay: less to do, or nothing. */
  predicate Approaches(s: Sys, t: Sys)
    requires s.ui.relay.Some?
  {
    && t.ui.history.batch == s.ui.history.batch
    && (t.ui.relay.Some? ==> Nearer(t, s) && t.ui.relay.value.dir == s.ui.relay.value.dir)
  }

  lemma AnswerApproaches(s: Sys, side: Side)
    requires Account(s) && s.ui.relay.Some? && s.ui.swallowDone == 0
    requires s.At(side).outbox != [] && s.At(side).outbox[0].QueueDone?
    ensures Approaches(s, DeliverStep(s, side, true))
  {
    AnswerIsNearer(s.ui);
    assert DeliverStep(s, side, true).ui == s.ui.RelayQueueDone();
  }

  lemma DeliveryIsNearer(s: Sys)
    requires Going(s) && Enabled(s, Forward(s)) && Forward(s).Deliver?
    ensures Approaches(s, DeliverStep(s, Busy(s), true))
    ensures DeliverStep(s, Busy(s), true).ui.relay.None? ==> s.At(Busy(s)).outbox[0].QueueDone?
  {
    OneIsOwed(s);
    if s.At(Busy(s)).outbox[0].QueueDone? {
      AnswerApproaches(s, Busy(s));
    } else {
      PassIsNearer(s, Busy(s));
    }
  }

  /** The batch of the history went through completely. */
  predicate Completed(h: History, dir: nat) {
    h.counted == 2 * |h.batch| && h.legs == Plan(h.batch, dir)
  }

  /** Worker progress without failures, and event delivery. */
  predicate Smooth(step: Step) {
    match step
    case Take(_, ok) => ok
    case End(_, ok) => ok
    case Poll(_, _) => true
    case Close(_) => true
    case Deliver(_, _) => true
    case _ => false
  }

  /** These steps, none of them a failure or a key press, end the relay, and the
      whole of the batch is across. */
  ghost predicate Finish(s: Sys, steps: seq<Step>, batch: seq<Item>, dir: nat) {
    Trace(s, steps) && (forall i :: 0 <= i < |steps| ==> Smooth(steps[i]))
    && var t := Run(s, steps); t.ui.relay.None? && t.ui.history.batch == batch && Completed(t.ui.history, dir)
  }

  lemma FinishLater(s: Sys, step: Step, t: Sys, rest: seq<Step>, batch: seq<Item>, dir: nat)
    requires Enabled(s, step) && Smooth(step) && t == Next(s, step) && Finish(t, rest, batch, dir)
    ensures Finish(s, [step] + rest, batch, dir)
  {
    assert ([step] + rest)[1..] == rest;
  }

  /** One step forward, and what it leaves. */
  lemma GoOn(s: Sys) returns (step: Step, t: Sys)
    requires Going(s)
    ensures Enabled(s, step) && Smooth(step) && t == Next(s, step)
    ensures t.ui.history.batch == s.ui.history.batch
    ensures t.ui.relay.Some? ==> Going(t) && Nearer(t, s) && t.ui.relay.value.dir == s.ui.relay.value.dir
    ensures t.ui.relay.None? ==> Completed(t.ui.history, s.ui.relay.value.dir)
    ensures t.ui.relay.None? ==> step.Deliver? && s.At(step.side).outbox[0].QueueDone?
  {
    ForwardIsEnabled(s);
    step, t := Forward(s), Next(s, Forward(s));
    StepKeepsInv(s, step);
    StepKeepsCalm(s, step);
    StepKeepsAwaiting(s, step);
    StepAddsNoErrors(s);
    if step.Deliver? {
      DeliveryIsNearer(s);
      if t.ui.relay.None? {
        FinishIsComplete(s, Busy(s), true);
      }
    } else {
      WorkIsNearer(s);
    }
  }

  /** From every such state the workers and the event loop can bring the relay to
      its end. */
  lemma {:induction false} RelayCanFinish(s: Sys) returns (steps: seq<Step>)
    requires Going(s)
    ensures Finish(s, steps, s.ui.history.batch, s.ui.relay.value.dir)
    decreases LegsLeft(s.ui), Stage(s), Ahead(s)
  {
    var step, t := GoOn(s);
    var rest: seq<Step> := [];
    if t.ui.relay.Some? {
      rest := RelayCanFinish(t);
    }
    FinishLater(s, step, t, rest, s.ui.history.batch, s.ui.relay.value.dir);
    steps := [step] + rest;
  }

  /** In particular the confirm key, pressed with something staged and nothing
      outstanding, starts a relay that can finish. */
  lemma PressCanFinish(s: Sys) returns (steps: seq<Step>)
    requires Inv(s) && s.lost == 0 && Owed(s) == 0 && NoErrors(s) && s.ui.queue != []
    ensures Finish(Next(s, Press(true)), steps, s.ui.queue, s.ui.dirs)
  {
    PressGoes(s);
    steps := RelayCanFinish(Next(s, Press(true)));
  }

  lemma PressGoes(s: Sys)
    requires Inv(s) && s.lost == 0 && Owed(s) == 0 && NoErrors(s) && s.ui.queue != []
    ensures Going(Next(s, Press(true))) && Next(s, Press(true)).ui.history.batch == s.ui.queue
    ensures Next(s, Press(true)).ui.relay.value.dir == s.ui.dirs
  {
    assert s.ui.relay.None? && s.ui.swallowDone == 0;
    StepKeepsInv(s, Press(true));
    PressKeepsCalm(s, true);
    StepKeepsAwaiting(s, Press(true));
  }
}
