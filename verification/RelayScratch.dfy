/** The scratch directory at the start of every leg, whether or not a run command
    has been lost before: empty for a fetch, holding just the item for a push. */
module RelayScratch {
  import opened Wrappers
  import opened Relay
  import opened RelaySystem
  import opened RelaySafety

  /** The run is still to begin moving: waiting in the channel or just received. */
  ghost predicate Waits(cmds: seq<Command>, phase: WorkerPhase, k: nat) {
    !NoRun(cmds, k) || (phase.Starting? && phase.ticket == k)
  }

  ghost predicate SideClean(job: Job, side: Side, cmds: seq<Command>, phase: WorkerPhase, files: set<string>)
    requires job.items != []
  {
    && Apart(cmds, phase, job.ticket, job.dir)
    && (forall p, q :: 0 <= p < q < |cmds| && IsRun(cmds[p], job.ticket) ==> !IsRun(cmds[q], job.ticket))
    && (Works(phase, job.ticket) ==> NoRun(cmds, job.ticket))
    && (Waits(cmds, phase, job.ticket) || Works(phase, job.ticket) ==> side == LegOf(job).side)
    && (Waits(cmds, phase, job.ticket) ==> files == Before(job))
  }

  ghost predicate JobClean(s: Sys, job: Job)
    requires job.items != [] && job.dir in s.ui.disk
  {
    forall side :: SideClean(job, side, s.Inbox(side), s.At(side).phase, s.ui.disk[job.dir])
  }

  /** The live relay's leg finds the directory as it should while it waits, and no
      other run writes there. */
  ghost predicate ScratchClean(s: Sys) {
    s.ui.relay.Some? ==>
      var job := s.ui.relay.value;
      job.items != [] && job.ticket < s.ui.runs && job.dir in s.ui.disk && JobClean(s, job)
  }

  lemma TrackedIsClean(job: Job, side: Side, cmds: seq<Command>, w: Worker, outcome: Option<Outcome>,
                       files: set<string>)
    requires job.items != [] && SideTracked(job, side, cmds, w, outcome, files)
    ensures SideClean(job, side, cmds, w.phase, files)
  {
  }

  lemma PlacedIsClean(s: Sys)
    requires Placed(s)
    ensures ScratchClean(s)
  {
    var job := s.ui.relay.value;
    forall side ensures SideClean(job, side, s.Inbox(side), s.At(side).phase, s.ui.disk[job.dir]) {
      assert side == Remote || side == Local;
      TrackedIsClean(job, side, s.Inbox(side), s.At(side), OutcomeOf(s, job.ticket), s.ui.disk[job.dir]);
    }
  }

  lemma SideStaysClean(job: Job, side: Side, cmds: seq<Command>, extra: seq<Command>, phase: WorkerPhase,
                       files: set<string>)
    requires job.items != [] && SideClean(job, side, cmds, phase, files) && Quiet(extra)
    ensures SideClean(job, side, cmds + extra, phase, files)
  {
    var all := cmds + extra;
    assert forall q :: 0 <= q < |all| ==> all[q] == if q < |cmds| then cmds[q] else extra[q - |cmds|];
  }

  lemma QuietKeepsClean(s: Sys, after: Ui, e1: seq<Command>, e2: seq<Command>)
    requires ScratchClean(s) && Quiet(e1) && Quiet(e2)
    requires after.tx == s.ui.tx + e1 && after.tx2 == s.ui.tx2 + e2
    requires after.relay == s.ui.relay && after.disk == s.ui.disk && after.runs == s.ui.runs
    ensures ScratchClean(s.(ui := after))
  {
    if s.ui.relay.Some? {
      var job, t := s.ui.relay.value, s.(ui := after);
      forall side ensures SideClean(job, side, t.Inbox(side), t.At(side).phase, t.ui.disk[job.dir]) {
        assert SideClean(job, side, s.Inbox(side), s.At(side).phase, s.ui.disk[job.dir]);
        SideStaysClean(job, side, s.Inbox(side), if side == Remote then e1 else e2,
                       s.At(side).phase, s.ui.disk[job.dir]);
      }
    }
  }

  lemma PressKeepsClean(s: Sys, dirMade: bool)
    requires Inv(s) && ScratchClean(s)
    ensures ScratchClean(s.(ui := s.ui.RunAll(dirMade)))
  {
    if s.ui.phase == Running || s.ui.queue == [] || !dirMade {
      QuietKeepsClean(s, s.ui.RunAll(dirMade), [], []);
    } else {
      LegSent(s.(ui := s.ui.Armed()));
      PlacedIsClean(s.(ui := s.ui.RunAll(dirMade)));
    }
  }

  lemma PopKeepsClean(s: Sys, side: Side)
    requires ScratchClean(s) && s.At(side).outbox != []
    ensures ScratchClean(s.Put(side, s.At(side).(outbox := s.At(side).outbox[1..])))
  {
    var t := s.Put(side, s.At(side).(outbox := s.At(side).outbox[1..]));
    if s.ui.relay.Some? {
      assert forall other :: t.At(other).phase == s.At(other).phase && t.Inbox(other) == s.Inbox(other);
    }
  }

  lemma DeliverKeepsClean(s: Sys, side: Side, dirMade: bool)
    requires Inv(s) && ScratchClean(s) && Enabled(s, Deliver(side, dirMade))
    ensures ScratchClean(DeliverStep(s, side, dirMade))
  {
    var w, ev := s.At(side), s.At(side).outbox[0];
    var popped := s.Put(side, w.(outbox := w.outbox[1..]));
    PopKeepsClean(s, side);
    match ev {
      case QueueDone(_) =>
        if s.ui.swallowDone == 0 {
          AdvanceIsEarned(s, side);
          AdvanceKeepsTracked(s, side, dirMade);
          if DeliverStep(s, side, dirMade).ui.relay.Some? {
            StepKeepsAccount(s, Deliver(side, dirMade));
            PlacedIsClean(DeliverStep(s, side, dirMade));
          }
        } else {
          QuietKeepsClean(popped, s.ui.OnEvent(side, ev, dirMade), [], []);
        }
      case OpDone => QuietKeepsClean(popped, s.ui.RefreshPanes(), [ListDir], [ListDir]);
      case Error(_) => assert DeliverStep(s, side, dirMade).ui.relay.None?;
      case _ =>
    }
  }

  lemma SideTakes(job: Job, side: Side, cmds: seq<Command>, phase': WorkerPhase, files: set<string>)
    requires job.items != [] && cmds != [] && SideClean(job, side, cmds, Idle, files)
    requires phase' == if cmds[0].RunQueue? then Starting(cmds[0].ticket, cmds[0].item) else Idle
    ensures SideClean(job, side, cmds[1..], phase', files)
  {
    if IsRun(cmds[0], job.ticket) {
      assert !NoRun(cmds, job.ticket);
    }
  }

  lemma TakeKeepsClean(s: Sys, side: Side, ok: bool)
    requires ScratchClean(s) && Enabled(s, Take(side, ok))
    ensures ScratchClean(TakeStep(s, side, ok))
  {
    var t := TakeStep(s, side, ok);
    TakeEffect(s, side, ok);
    if s.ui.relay.Some? {
      var job := s.ui.relay.value;
      SideTakes(job, side, s.Inbox(side), t.At(side).phase, s.ui.disk[job.dir]);
      forall other ensures SideClean(job, other, t.Inbox(other), t.At(other).phase, t.ui.disk[job.dir]) {
        assert other == side || other == Other(side);
      }
    }
  }

  /** What polling leaves of a side: fewer commands, and the run moving or closing. */
  lemma SidePolls(job: Job, side: Side, cmds: seq<Command>, n: nat, phase: WorkerPhase, phase': WorkerPhase,
                  files: set<string>, files': set<string>)
    requires job.items != [] && n <= |cmds| && SideClean(job, side, cmds, phase, files) && Polls(phase)
    requires phase' in {Closing(phase.ticket), Moving(phase.ticket, phase.item)}
    requires phase.ticket != job.ticket ==> files' == files
    ensures SideClean(job, side, cmds[n..], phase', files')
  {
  }

  lemma PollKeepsClean(s: Sys, side: Side, n: nat)
    requires ScratchClean(s) && Enabled(s, Poll(side, n))
    ensures ScratchClean(PollStep(s, side, n))
  {
    var t, phase := PollStep(s, side, n), s.At(side).phase;
    if s.ui.relay.Some? {
      var job := s.ui.relay.value;
      SidePolls(job, side, s.Inbox(side), n, phase, t.At(side).phase, s.ui.disk[job.dir], t.ui.disk[job.dir]);
      assert t.Inbox(side) == s.Inbox(side)[n..];
      forall other ensures SideClean(job, other, t.Inbox(other), t.At(other).phase, t.ui.disk[job.dir]) {
        if other != side {
          assert t.Inbox(other) == s.Inbox(other) && t.At(other) == s.At(other);
        }
      }
    }
  }

  lemma EmitKeepsClean(s: Sys, step: Step)
    requires ScratchClean(s) && Enabled(s, step) && (step.Report? || step.End? || step.Close?)
    ensures ScratchClean(Next(s, step))
  {
    var t := Next(s, step);
    if s.ui.relay.Some? {
      var job := s.ui.relay.value;
      forall other ensures SideClean(job, other, t.Inbox(other), t.At(other).phase, t.ui.disk[job.dir]) {
        assert SideClean(job, other, s.Inbox(other), s.At(other).phase, s.ui.disk[job.dir]);
      }
    }
  }

  lemma StepKeepsClean(s: Sys, step: Step)
    requires Inv(s) && ScratchClean(s) && Enabled(s, step)
    ensures ScratchClean(Next(s, step))
  {
    match step {
      case Press(dirMade) => PressKeepsClean(s, dirMade);
      case StageItem(t) => QuietKeepsClean(s, s.ui.Stage(t), [], []);
      case UnstageLast => QuietKeepsClean(s, s.ui.Unstage(), [], []);
      case Browse(side) =>
        QuietKeepsClean(s, s.ui.Send(side, ListDir), if side == Remote then [ListDir] else [],
                        if side == Remote then [] else [ListDir]);
      case Operate(side) =>
        QuietKeepsClean(s, s.ui.Send(side, FileOp), if side == Remote then [FileOp] else [],
                        if side == Remote then [] else [FileOp]);
      case Deliver(side, dirMade) => DeliverKeepsClean(s, side, dirMade);
      case Take(side, ok) => TakeKeepsClean(s, side, ok);
      case Poll(side, n) => PollKeepsClean(s, side, n);
      case _ => EmitKeepsClean(s, step);
    }
  }

  lemma {:induction false} CleanAlways(s: Sys, steps: seq<Step>)
    requires Inv(s) && ScratchClean(s) && Trace(s, steps)
    ensures Inv(Run(s, steps)) && ScratchClean(Run(s, steps))
    decreases |steps|
  {
    if steps != [] {
      StepKeepsInv(s, steps[0]);
      StepKeepsClean(s, steps[0]);
      CleanAlways(Next(s, steps[0]), steps[1..]);
    }
  }

  lemma CleanLegFiles(s: Sys, side: Side)
    requires ScratchClean(s) && s.ui.relay.Some?
    requires s.At(side).phase.Starting? && s.At(side).phase.ticket == s.ui.relay.value.ticket
    ensures var job := s.ui.relay.value;
            job.items != [] && side == LegOf(job).side && job.dir in s.ui.disk
            && s.ui.disk[job.dir] == if job.leg == Fetching then {} else {job.items[0].name}
  {
    assert SideClean(s.ui.relay.value, side, s.Inbox(side), s.At(side).phase, s.ui.disk[s.ui.relay.value.dir]);
  }

  /** In every reachable state, losses included: a worker about to start the live
      relay's current leg finds an empty directory for a fetch, and just the item
      for a push. So items of the same name never meet. */
  lemma EveryLegFindsItsFiles(steps: seq<Step>, s: Sys, side: Side)
    requires Trace(Init(), steps) && s == Run(Init(), steps) && s.ui.relay.Some?
    requires s.At(side).phase.Starting? && s.At(side).phase.ticket == s.ui.relay.value.ticket
    ensures var job := s.ui.relay.value;
            job.items != [] && side == LegOf(job).side && job.dir in s.ui.disk
            && s.ui.disk[job.dir] == if job.leg == Fetching then {} else {job.items[0].name}
  {
    InitInv();
    CleanAlways(Init(), steps);
    CleanLegFiles(s, side);
  }
}
