/** What every interleaving of the relay keeps: where the current leg is, what its
    scratch directory holds, and that a leg only advances once it has succeeded. */
module RelaySafety {
  import opened Wrappers
  import opened Relay
  import opened RelaySystem

  predicate IsRun(cmd: Command, k: nat) {
    cmd.RunQueue? && cmd.ticket == k
  }

  ghost predicate NoRun(cmds: seq<Command>, k: nat) {
    forall q :: 0 <= q < |cmds| ==> !IsRun(cmds[q], k)
  }

  predicate Writes(item: Transfer, dir: nat) {
    item.dst.InScratch? && item.dst.dir == dir
  }

  // ---------- Fresh numbers ----------

  predicate Numbered(ticket: nat, item: Transfer, runs: nat, dirs: nat) {
    ticket < runs && (item.dst.InScratch? ==> item.dst.dir < dirs)
  }

  ghost predicate FreshCommands(cmds: seq<Command>, runs: nat, dirs: nat) {
    forall q :: 0 <= q < |cmds| && cmds[q].RunQueue? ==> Numbered(cmds[q].ticket, cmds[q].item, runs, dirs)
  }

  predicate FreshPhase(phase: WorkerPhase, runs: nat, dirs: nat) {
    match phase
    case Idle => true
    case Starting(ticket, item) => Numbered(ticket, item, runs, dirs)
    case Moving(ticket, item) => Numbered(ticket, item, runs, dirs)
    case Closing(ticket) => ticket < runs
  }

  /** The next run number and the next scratch directory are unused. */
  ghost predicate Fresh(s: Sys) {
    && FreshCommands(s.ui.tx, s.ui.runs, s.ui.dirs) && FreshCommands(s.ui.tx2, s.ui.runs, s.ui.dirs)
    && FreshPhase(s.right.phase, s.ui.runs, s.ui.dirs) && FreshPhase(s.left.phase, s.ui.runs, s.ui.dirs)
    && (forall k :: k in s.outcomes ==> k < s.ui.runs)
    && (s.ui.relay.Some? ==> s.ui.relay.value.dir < s.ui.dirs)
  }

  /** The handlers only append, and what they append is numbered below the new
      counters. */
  ghost predicate Grows(ui: Ui, after: Ui) {
    && ui.runs <= after.runs && ui.dirs <= after.dirs
    && ui.tx <= after.tx && ui.tx2 <= after.tx2
    && FreshCommands(after.tx[|ui.tx|..], after.runs, after.dirs)
    && FreshCommands(after.tx2[|ui.tx2|..], after.runs, after.dirs)
    && (after.relay.Some? ==> after.relay.value.dir < after.dirs)
  }

  lemma SendGrows(ui: Ui, mid: Ui, side: Side, cmd: Command)
    requires Grows(ui, mid)
    requires cmd.RunQueue? ==> Numbered(cmd.ticket, cmd.item, mid.runs, mid.dirs)
    ensures Grows(ui, mid.Send(side, cmd))
  {
  }

  lemma RelayStepGrows(ui: Ui, mid: Ui)
    requires Grows(ui, mid)
    ensures Grows(ui, mid.RelayStep())
  {
    if mid.relay.Some? {
      if mid.relay.value.items == [] {
        var idle := mid.(relay := None, disk := mid.DropScratch(), phase := Browsing, running := []);
        SendGrows(ui, idle, Remote, ListDir);
        SendGrows(ui, idle.Send(Remote, ListDir), Local, ListDir);
      } else {
        var leg := LegOf(mid.relay.value);
        var armed := mid.(relay := Some(mid.relay.value.(ticket := mid.runs)), runs := mid.runs + 1,
                          history := mid.history.(legs := mid.history.legs + [leg]));
        assert armed.tx == mid.tx && armed.tx2 == mid.tx2 && armed.relay.value.dir == mid.relay.value.dir;
        assert Grows(ui, armed);
        SendGrows(ui, armed, leg.side, RunQueue(mid.runs, leg.item));
      }
    }
  }

  lemma RunAllGrows(ui: Ui, mid: Ui, dirMade: bool)
    requires Grows(ui, mid)
    ensures Grows(ui, mid.RunAll(dirMade))
  {
  }

  lemma RefreshGrows(ui: Ui, mid: Ui)
    requires Grows(ui, mid)
    ensures Grows(ui, mid.RefreshPanes())
  {
  }

  lemma ErrorGrows(ui: Ui)
    requires Grows(ui, ui)
    ensures Grows(ui, ui.OnError())
  {
  }

  lemma EventGrows(ui: Ui, side: Side, ev: Event, dirMade: bool)
    requires Grows(ui, ui)
    ensures Grows(ui, ui.OnEvent(side, ev, dirMade))
  {
    match ev {
      case QueueDone(_) =>
        if ui.swallowDone == 0 {
          if ui.relay.Some? {
            assert Grows(ui, ui.NextLeg());
            RelayStepGrows(ui, ui.NextLeg());
          } else if side == Remote {
            var done := ui.(phase := Browsing, running := [], queue := Minus(ui.queue, ui.running));
            assert Grows(ui, done);
            RefreshGrows(ui, done);
            RunAllGrows(ui, done.RefreshPanes(), dirMade);
          }
        }
      case Error(_) => ErrorGrows(ui);
      case OpDone => RefreshGrows(ui, ui);
      case _ =>
    }
  }

  lemma GrowsKeepsFresh(s: Sys, after: Ui)
    requires Fresh(s) && Grows(s.ui, after)
    ensures Fresh(s.(ui := after))
  {
  }

  lemma FreshGrowsSelf(s: Sys)
    requires Fresh(s)
    ensures Grows(s.ui, s.ui)
  {
  }

  lemma UiKeepsFresh(s: Sys, step: Step)
    requires Fresh(s) && Enabled(s, step) && (step.Press? || step.Browse? || step.Operate? || step.Deliver?)
    ensures Fresh(Next(s, step))
  {
    FreshGrowsSelf(s);
    match step {
      case Press(dirMade) => RunAllGrows(s.ui, s.ui, dirMade); GrowsKeepsFresh(s, s.ui.RunAll(dirMade));
      case Browse(side) => SendGrows(s.ui, s.ui, side, ListDir); GrowsKeepsFresh(s, s.ui.Send(side, ListDir));
      case Operate(side) => SendGrows(s.ui, s.ui, side, FileOp); GrowsKeepsFresh(s, s.ui.Send(side, FileOp));
      case Deliver(side, dirMade) =>
        var w := s.At(side);
        var popped := s.Put(side, w.(outbox := w.outbox[1..]));
        assert Fresh(popped) && popped.ui == s.ui;
        EventGrows(s.ui, side, w.outbox[0], dirMade);
        GrowsKeepsFresh(popped, s.ui.OnEvent(side, w.outbox[0], dirMade));
    }
  }

  lemma InboxKeepsFresh(s: Sys, side: Side, n: nat)
    requires Fresh(s) && n <= |s.Inbox(side)|
    ensures Fresh(s.PutInbox(side, s.Inbox(side)[n..]))
  {
  }

  lemma PhaseKeepsFresh(s: Sys, side: Side, phase: WorkerPhase)
    requires Fresh(s) && FreshPhase(phase, s.ui.runs, s.ui.dirs)
    ensures Fresh(s.Phase(side, phase))
  {
  }

  lemma TakeKeepsFresh(s: Sys, side: Side, ok: bool)
    requires Fresh(s) && Enabled(s, Take(side, ok))
    ensures Fresh(TakeStep(s, side, ok))
  {
    InboxKeepsFresh(s, side, 1);
    var cmd, rest := s.Inbox(side)[0], s.PutInbox(side, s.Inbox(side)[1..]);
    if cmd.RunQueue? {
      PhaseKeepsFresh(rest, side, Starting(cmd.ticket, cmd.item));
    }
  }

  lemma PollKeepsFresh(s: Sys, side: Side, n: nat)
    requires Fresh(s) && Enabled(s, Poll(side, n))
    ensures Fresh(PollStep(s, side, n))
  {
    InboxKeepsFresh(s, side, n);
  }

  lemma StepKeepsFresh(s: Sys, step: Step)
    requires Fresh(s) && Enabled(s, step)
    ensures Fresh(Next(s, step))
  {
    match step {
      case Take(side, ok) => TakeKeepsFresh(s, side, ok);
      case Poll(side, n) => PollKeepsFresh(s, side, n);
      case _ =>
        if step.Press? || step.Browse? || step.Operate? || step.Deliver? {
          UiKeepsFresh(s, step);
        }
    }
  }

  // ---------- Where the current leg is ----------

  /** The leg's run waits at position `p`, once, and no cancel was sent after it. */
  ghost predicate RunAt(cmds: seq<Command>, p: int, k: nat, item: Transfer) {
    && 0 <= p < |cmds| && cmds[p] == RunQueue(k, item)
    && (forall q :: 0 <= q < |cmds| && q != p ==> !IsRun(cmds[q], k))
    && (forall q :: p < q < |cmds| ==> cmds[q] != Cancel)
  }

  predicate Works(phase: WorkerPhase, k: nat) {
    (phase.Starting? || phase.Moving?) && phase.ticket == k
  }

  predicate Ends(phase: WorkerPhase, k: nat) {
    phase.Closing? && phase.ticket == k
  }

  /** A failed run's error is still to be delivered, ahead of its `QueueDone`. */
  ghost predicate ErrorAt(w: Worker, i: int, k: nat) {
    && 0 <= i < |w.outbox| && w.outbox[i] == Error(Some(k))
    && (Ends(w.phase, k) || QueueDone(k) in w.outbox[i + 1..])
  }

  /** What the scratch directory holds before the leg moves anything. */
  function Before(job: Job): set<string>
    requires job.items != []
  {
    if job.leg == Fetching then {} else {job.items[0].name}
  }

  ghost predicate LegPlace(job: Job, cmds: seq<Command>, w: Worker, outcome: Option<Outcome>, files: set<string>)
    requires job.items != []
  {
    var k, item, name := job.ticket, LegOf(job).item, job.items[0].name;
    if outcome.Some? then
      && NoRun(cmds, k) && !Works(w.phase, k)
      && ((outcome.value == Done && files == {name}) || (outcome.value == Failed && exists i :: ErrorAt(w, i, k)))
    else if Works(w.phase, k) then
      && NoRun(cmds, k) && Cancel !in cmds && w.phase.item == item
      && files == if w.phase.Starting? then Before(job) else {name}
    else
      !Ends(w.phase, k) && files == Before(job) && exists p :: RunAt(cmds, p, k, item)
  }

  /** Runs other than the current leg leave its scratch directory alone. */
  ghost predicate Apart(cmds: seq<Command>, phase: WorkerPhase, k: nat, dir: nat) {
    && (forall q :: 0 <= q < |cmds| && cmds[q].RunQueue? && cmds[q].ticket != k ==> !Writes(cmds[q].item, dir))
    && ((phase.Starting? || phase.Moving?) && phase.ticket != k ==> !Writes(phase.item, dir))
  }

  /** The worker that does not run the current leg does not know its number. */
  ghost predicate Stranger(cmds: seq<Command>, phase: WorkerPhase, k: nat) {
    NoRun(cmds, k) && !Works(phase, k) && !Ends(phase, k)
  }

  function Other(side: Side): Side {
    if side == Remote then Local else Remote
  }

  function OutcomeOf(s: Sys, k: nat): Option<Outcome> {
    if k in s.outcomes then Some(s.outcomes[k]) else None
  }

  ghost predicate SideTracked(job: Job, side: Side, cmds: seq<Command>, w: Worker, outcome: Option<Outcome>,
                              files: set<string>)
    requires job.items != []
  {
    && Apart(cmds, w.phase, job.ticket, job.dir)
    && if side == LegOf(job).side then LegPlace(job, cmds, w, outcome, files) else Stranger(cmds, w.phase, job.ticket)
  }

  predicate Tracking(s: Sys) {
    s.ui.relay.Some? && s.ui.relay.value.items != [] && s.lost == 0
  }

  ghost predicate JobTracked(s: Sys, job: Job, side: Side)
    requires job.items != [] && job.dir in s.ui.disk
  {
    SideTracked(job, side, s.Inbox(side), s.At(side), OutcomeOf(s, job.ticket), s.ui.disk[job.dir])
  }

  /** A relay is live and its current leg is in place on both sides. */
  ghost predicate Placed(s: Sys) {
    s.ui.relay.Some? && s.ui.relay.value.items != []
    && var job := s.ui.relay.value;
       job.ticket < s.ui.runs && job.dir in s.ui.disk && JobTracked(s, job, Remote) && JobTracked(s, job, Local)
  }

  /** While no command was lost, the live relay's current leg is in exactly one
      place and its scratch directory holds what that place implies. */
  ghost predicate LegTracked(s: Sys) {
    Tracking(s) ==> Placed(s)
  }

  ghost predicate Inv(s: Sys) {
    Account(s) && Fresh(s) && LegTracked(s)
  }

  /** The `QueueDone` that advances a relay is the last answer outstanding, and the
      leg it concludes ended well: nothing is waiting or running on either worker,
      no command was lost, and the item is complete in the scratch directory. */
  lemma AdvanceIsEarned(s: Sys, side: Side)
    requires Inv(s) && s.ui.swallowDone == 0
    requires s.At(side).outbox != [] && s.At(side).outbox[0].QueueDone?
    ensures s.ui.relay.Some? && s.lost == 0 && s.ui.relay.value.items != []
    ensures var job := s.ui.relay.value;
      && OutcomeOf(s, job.ticket) == Some(Done)
      && job.dir in s.ui.disk && s.ui.disk[job.dir] == {job.items[0].name}
    ensures forall other :: NoneRun(s.Inbox(other)) && s.At(other).phase.Idle?
  {
    LastAnswer(s, side);
    forall other ensures NoneRun(s.Inbox(other)) {
      ZeroRuns(s.Inbox(other));
    }
    var job := s.ui.relay.value;
    var legSide := LegOf(job).side;
    var cmds, w := s.Inbox(legSide), s.At(legSide);
    assert JobTracked(s, job, legSide);
    match OutcomeOf(s, job.ticket) {
      case Some(Failed) =>
        var i :| ErrorAt(w, i, job.ticket);
        DonesAtLeast(w.outbox, i, job.ticket);
        DonesPop(s.At(side).outbox);
      case Some(_) =>
      case None =>
    }
  }

  ghost predicate NoneRun(cmds: seq<Command>) {
    forall q :: 0 <= q < |cmds| ==> !cmds[q].RunQueue?
  }

  lemma ZeroRuns(cmds: seq<Command>)
    ensures Runs(cmds) == 0 <==> NoneRun(cmds)
  {
  }

  lemma DoneCounts(events: seq<Event>, k: nat)
    requires QueueDone(k) in events
    ensures Dones(events) >= 1
  {
  }

  /** A `QueueDone` behind an earlier error is not the first event. */
  lemma DonesAtLeast(events: seq<Event>, i: nat, k: nat)
    requires i < |events| && !events[i].QueueDone? && QueueDone(k) in events[i + 1..]
    ensures events[0].QueueDone? ==> Dones(events) >= 2
    ensures Dones(events) >= 1
  {
    if i == 0 {
      DoneCounts(events[1..], k);
    } else {
      assert events[i + 1..] == events[1..][i..];
      DonesAtLeast(events[1..], i - 1, k);
    }
  }

  // ---------- Key presses and deliveries keep the leg tracked ----------

  /** Commands that neither start nor stop a run. */
  ghost predicate Quiet(cmds: seq<Command>) {
    forall q :: 0 <= q < |cmds| ==> cmds[q] == ListDir || cmds[q] == FileOp
  }

  lemma SideAppend(job: Job, side: Side, cmds: seq<Command>, extra: seq<Command>, w: Worker, outcome: Option<Outcome>,
                   files: set<string>)
    requires job.items != [] && SideTracked(job, side, cmds, w, outcome, files) && Quiet(extra)
    ensures SideTracked(job, side, cmds + extra, w, outcome, files)
  {
    if side == LegOf(job).side && outcome.None? && !Works(w.phase, job.ticket) {
      var p :| RunAt(cmds, p, job.ticket, LegOf(job).item);
      assert RunAt(cmds + extra, p, job.ticket, LegOf(job).item);
    }
  }

  lemma QuietKeepsTracked(s: Sys, after: Ui, e1: seq<Command>, e2: seq<Command>)
    requires LegTracked(s) && Quiet(e1) && Quiet(e2)
    requires after.tx == s.ui.tx + e1 && after.tx2 == s.ui.tx2 + e2
    requires after.relay == s.ui.relay && after.disk == s.ui.disk && after.runs == s.ui.runs
    ensures LegTracked(s.(ui := after))
  {
    if Tracking(s) {
      var job := s.ui.relay.value;
      SideAppend(job, Remote, s.ui.tx, e1, s.right, OutcomeOf(s, job.ticket), s.ui.disk[job.dir]);
      SideAppend(job, Local, s.ui.tx2, e2, s.left, OutcomeOf(s, job.ticket), s.ui.disk[job.dir]);
    }
  }

  /** No run on that side writes into `dir`. */
  ghost predicate Untouched(cmds: seq<Command>, phase: WorkerPhase, dir: nat) {
    && (forall q :: 0 <= q < |cmds| && cmds[q].RunQueue? ==> !Writes(cmds[q].item, dir))
    && (phase.Starting? || phase.Moving? ==> !Writes(phase.item, dir))
  }

  /** Sending a leg puts it in place: a new number, last in its worker's channel. */
  lemma SideSent(job: Job, side: Side, cmds: seq<Command>, w: Worker, dirs: nat)
    requires job.items != [] && Untouched(cmds, w.phase, job.dir)
    requires FreshCommands(cmds, job.ticket, dirs) && FreshPhase(w.phase, job.ticket, dirs)
    ensures SideTracked(job, side,
                        if side == LegOf(job).side then cmds + [RunQueue(job.ticket, LegOf(job).item)] else cmds,
                        w, None, Before(job))
  {
    if side == LegOf(job).side {
      assert RunAt(cmds + [RunQueue(job.ticket, LegOf(job).item)], |cmds|, job.ticket, LegOf(job).item);
    }
  }

  lemma LegSent(s: Sys)
    requires Fresh(s) && s.ui.relay.Some? && s.ui.relay.value.items != []
    requires s.ui.relay.value.dir in s.ui.disk && s.ui.disk[s.ui.relay.value.dir] == Before(s.ui.relay.value)
    requires Untouched(s.ui.tx, s.right.phase, s.ui.relay.value.dir)
        && Untouched(s.ui.tx2, s.left.phase, s.ui.relay.value.dir)
    ensures LegTracked(s.(ui := s.ui.RelayStep()))
    ensures Placed(s.(ui := s.ui.RelayStep()))
  {
    var job := s.ui.relay.value.(ticket := s.ui.runs);
    assert LegOf(s.ui.relay.value) == LegOf(job) && Before(s.ui.relay.value) == Before(job);
    SideSent(job, Remote, s.ui.tx, s.right, s.ui.dirs);
    SideSent(job, Local, s.ui.tx2, s.left, s.ui.dirs);
    var t := s.(ui := s.ui.RelayStep());
    assert t.ui.relay == Some(job) && t.ui.disk == s.ui.disk && OutcomeOf(t, job.ticket) == None;
    assert JobTracked(t, job, Remote) && JobTracked(t, job, Local);
  }

  lemma PressKeepsTracked(s: Sys, dirMade: bool)
    requires Inv(s)
    ensures LegTracked(s.(ui := s.ui.RunAll(dirMade)))
  {
    if s.ui.phase == Running || s.ui.queue == [] || !dirMade {
      QuietKeepsTracked(s, s.ui.RunAll(dirMade), [], []);
    } else {
      LegSent(s.(ui := s.ui.Armed()));
    }
  }

  lemma SidePop(job: Job, side: Side, cmds: seq<Command>, w: Worker, outcome: Option<Outcome>, files: set<string>)
    requires job.items != [] && SideTracked(job, side, cmds, w, outcome, files)
    requires w.outbox != [] && !w.outbox[0].Error?
    ensures SideTracked(job, side, cmds, w.(outbox := w.outbox[1..]), outcome, files)
  {
    if side == LegOf(job).side && outcome == Some(Failed) {
      var i :| ErrorAt(w, i, job.ticket);
      assert w.outbox[i + 1..] == w.outbox[1..][i..];
      assert ErrorAt(w.(outbox := w.outbox[1..]), i - 1, job.ticket);
    }
  }

  lemma PopKeepsTracked(s: Sys, side: Side)
    requires LegTracked(s) && s.At(side).outbox != [] && !s.At(side).outbox[0].Error?
    ensures LegTracked(s.Put(side, s.At(side).(outbox := s.At(side).outbox[1..])))
  {
    if Tracking(s) {
      var job := s.ui.relay.value;
      SidePop(job, side, s.Inbox(side), s.At(side), OutcomeOf(s, job.ticket), s.ui.disk[job.dir]);
    }
  }

  /** A counted `QueueDone` leaves the next leg in place, with the directory empty
      before every fetch. */
  lemma AdvanceKeepsTracked(s: Sys, side: Side, dirMade: bool)
    requires Inv(s) && s.ui.swallowDone == 0
    requires s.At(side).outbox != [] && s.At(side).outbox[0].QueueDone?
    ensures LegTracked(DeliverStep(s, side, dirMade))
  {
    AdvanceIsEarned(s, side);
    var w := s.At(side);
    var popped := s.Put(side, w.(outbox := w.outbox[1..]));
    var next := popped.(ui := s.ui.NextLeg());
    assert DeliverStep(s, side, dirMade) == next.(ui := next.ui.RelayStep());
    if next.ui.relay.value.items != [] {
      NextLegReady(s.ui);
      FreshGrowsSelf(popped);
      GrowsKeepsFresh(popped, s.ui.NextLeg());
      assert NoneRun(s.Inbox(Remote)) && NoneRun(s.Inbox(Local));
      assert s.At(Remote).phase.Idle? && s.At(Local).phase.Idle?;
      LegSent(next);
    }
  }

  /** Folding in a leg's end prepares the directory for the next one. */
  lemma NextLegReady(ui: Ui)
    requires ui.relay.Some? && ui.relay.value.items != []
    requires ui.relay.value.dir in ui.disk && ui.disk[ui.relay.value.dir] == {ui.relay.value.items[0].name}
    ensures var next := ui.NextLeg();
      && next.tx == ui.tx && next.tx2 == ui.tx2 && next.runs == ui.runs && next.dirs == ui.dirs
      && next.relay.Some? && next.relay.value.dir == ui.relay.value.dir
      && (next.relay.value.items != [] ==>
            next.relay.value.dir in next.disk && next.disk[next.relay.value.dir] == Before(next.relay.value))
  {
  }

  lemma DeliverKeepsTracked(s: Sys, side: Side, dirMade: bool)
    requires Inv(s) && Enabled(s, Deliver(side, dirMade))
    ensures LegTracked(DeliverStep(s, side, dirMade))
  {
    var w, ev := s.At(side), s.At(side).outbox[0];
    var popped := s.Put(side, w.(outbox := w.outbox[1..]));
    if !ev.Error? {
      PopKeepsTracked(s, side);
    }
    match ev {
      case QueueDone(_) =>
        if s.ui.swallowDone == 0 {
          AdvanceKeepsTracked(s, side, dirMade);
        } else {
          QuietKeepsTracked(popped, s.ui.OnEvent(side, ev, dirMade), [], []);
        }
      case OpDone => QuietKeepsTracked(popped, s.ui.RefreshPanes(), [ListDir], [ListDir]);
      case Error(_) => assert DeliverStep(s, side, dirMade).ui.relay.None?;
      case _ =>
    }
  }

  // ---------- Worker progress keeps the leg tracked ----------

  ghost predicate Taken(cmds: seq<Command>, w: Worker, w': Worker)
    requires cmds != []
  {
    if cmds[0].RunQueue? then w' == w.(phase := Starting(cmds[0].ticket, cmds[0].item))
    else w'.phase == w.phase && w.outbox <= w'.outbox
  }

  lemma SideTake(job: Job, side: Side, cmds: seq<Command>, w: Worker, w': Worker, outcome: Option<Outcome>,
                 files: set<string>)
    requires job.items != [] && SideTracked(job, side, cmds, w, outcome, files)
    requires w.phase.Idle? && cmds != [] && Taken(cmds, w, w')
    ensures SideTracked(job, side, cmds[1..], w', outcome, files)
  {
    var k := job.ticket;
    if side == LegOf(job).side {
      if outcome == Some(Failed) {
        var i :| ErrorAt(w, i, k);
        assert w'.outbox[i + 1..] == w.outbox[i + 1..] + w'.outbox[|w.outbox|..];
        assert ErrorAt(w', i, k);
      } else if outcome.None? {
        var p :| RunAt(cmds, p, k, LegOf(job).item);
        if p > 0 {
          assert RunAt(cmds[1..], p - 1, k, LegOf(job).item);
        }
      }
    }
  }

  lemma TakeEffect(s: Sys, side: Side, ok: bool)
    requires Enabled(s, Take(side, ok))
    ensures var t := TakeStep(s, side, ok);
      && t.Inbox(side) == s.Inbox(side)[1..] && Taken(s.Inbox(side), s.At(side), t.At(side))
      && t.Inbox(Other(side)) == s.Inbox(Other(side)) && t.At(Other(side)) == s.At(Other(side))
      && t.ui.relay == s.ui.relay && t.ui.disk == s.ui.disk && t.ui.runs == s.ui.runs
      && t.outcomes == s.outcomes && t.lost == s.lost
  {
  }

  lemma TakeKeepsTracked(s: Sys, side: Side, ok: bool)
    requires LegTracked(s) && Enabled(s, Take(side, ok))
    ensures LegTracked(TakeStep(s, side, ok))
  {
    var t := TakeStep(s, side, ok);
    TakeEffect(s, side, ok);
    if Tracking(s) {
      var job := s.ui.relay.value;
      SideTake(job, side, s.Inbox(side), s.At(side), t.At(side), OutcomeOf(s, job.ticket), s.ui.disk[job.dir]);
      assert JobTracked(t, job, side);
      assert JobTracked(t, job, Other(side));
    }
  }

  lemma SidePoll(job: Job, side: Side, cmds: seq<Command>, n: nat, w: Worker, w': Worker, outcome: Option<Outcome>,
                 files: set<string>)
    requires job.items != [] && SideTracked(job, side, cmds, w, outcome, files)
    requires n <= |cmds| && NoneRun(cmds[..n]) && Polls(w.phase) && w'.outbox == w.outbox
    requires w.phase.ticket == job.ticket ==> w'.phase == Moving(w.phase.ticket, w.phase.item)
    requires w.phase.ticket != job.ticket ==>
        w'.phase in {Closing(w.phase.ticket), Moving(w.phase.ticket, w.phase.item)}
    ensures SideTracked(job, side, cmds[n..], w', outcome,
                        if w.phase.ticket == job.ticket then {job.items[0].name} else files)
  {
    var k := job.ticket;
    assert forall q :: 0 <= q < n ==> cmds[..n][q] == cmds[q];
    if side == LegOf(job).side && w.phase.ticket != k {
      if outcome == Some(Failed) {
        var i :| ErrorAt(w, i, k);
        assert ErrorAt(w', i, k);
      } else if outcome.None? {
        var p :| RunAt(cmds, p, k, LegOf(job).item);
        assert RunAt(cmds[n..], p - n, k, LegOf(job).item);
      }
    }
  }

  /** The poll of the leg's own run finds no cancel and starts moving; the poll of
      any other run leaves the leg's outcome and directory alone. */
  lemma PollEffect(s: Sys, side: Side, n: nat)
    requires Tracking(s) && LegTracked(s) && Enabled(s, Poll(side, n))
    ensures var job, t, phase := s.ui.relay.value, PollStep(s, side, n), s.At(side).phase;
      && OutcomeOf(t, job.ticket) == OutcomeOf(s, job.ticket)
      && job.dir in t.ui.disk
      && t.ui.disk[job.dir] == (if phase.ticket == job.ticket then {job.items[0].name} else s.ui.disk[job.dir])
      && (phase.ticket == job.ticket ==>
          t.At(side).phase == Moving(phase.ticket, phase.item) && side == LegOf(job).side)
  {
  }

  lemma PollKeepsTracked(s: Sys, side: Side, n: nat)
    requires LegTracked(s) && Enabled(s, Poll(side, n))
    ensures LegTracked(PollStep(s, side, n))
  {
    var t := PollStep(s, side, n);
    if Tracking(t) {
      var job := s.ui.relay.value;
      ZeroRuns(s.Inbox(side)[..n]);
      PollEffect(s, side, n);
      SidePoll(job, side, s.Inbox(side), n, s.At(side), t.At(side), OutcomeOf(s, job.ticket), s.ui.disk[job.dir]);
      assert t.Inbox(side) == s.Inbox(side)[n..];
      assert JobTracked(t, job, side);
      assert JobTracked(t, job, Other(side));
    }
  }

  /** How an event and a later phase of the same run go together. */
  predicate Emits(before: WorkerPhase, after: WorkerPhase, ev: Event) {
    || (ev == Progress && before.Moving? && after == before)
    || (before.Moving? && after == Closing(before.ticket)
          && ev in {TransferDone(before.ticket), Error(Some(before.ticket))})
    || (before.Closing? && after == Idle && ev == QueueDone(before.ticket))
  }

  function OutcomeAfter(outcome: Option<Outcome>, ev: Event, k: nat): Option<Outcome> {
    if ev == TransferDone(k) then Some(Done) else if ev == Error(Some(k)) then Some(Failed) else outcome
  }

  lemma SideEmit(job: Job, side: Side, cmds: seq<Command>, w: Worker, w': Worker, outcome: Option<Outcome>,
                 files: set<string>, ev: Event)
    requires job.items != [] && SideTracked(job, side, cmds, w, outcome, files)
    requires Emits(w.phase, w'.phase, ev) && w'.outbox == w.outbox + [ev]
    ensures SideTracked(job, side, cmds, w', OutcomeAfter(outcome, ev, job.ticket), files)
    ensures side != LegOf(job).side ==> OutcomeAfter(outcome, ev, job.ticket) == outcome
  {
    var k := job.ticket;
    if side == LegOf(job).side {
      if outcome == Some(Failed) {
        var i :| ErrorAt(w, i, k);
        assert w'.outbox[i + 1..] == w.outbox[i + 1..] + [ev];
        assert ErrorAt(w', i, k);
      } else if outcome.None? && ev == Error(Some(k)) {
        assert ErrorAt(w', |w.outbox|, k);
      }
    }
  }

  lemma EmitKeepsTracked(s: Sys, side: Side, ev: Event, phase: WorkerPhase, outcomes: map<nat, Outcome>)
    requires LegTracked(s) && Emits(s.At(side).phase, phase, ev)
    requires ev.TransferDone? || ev.Error? || outcomes == s.outcomes
    requires ev.TransferDone? ==> outcomes == s.outcomes[ev.ticket := Done]
    requires ev.Error? ==> outcomes == s.outcomes[s.At(side).phase.ticket := Failed]
    ensures LegTracked(s.Emit(side, ev).Phase(side, phase).(outcomes := outcomes))
  {
    if Tracking(s) {
      var job, t := s.ui.relay.value, s.Emit(side, ev).Phase(side, phase).(outcomes := outcomes);
      SideEmit(job, side, s.Inbox(side), s.At(side), t.At(side), OutcomeOf(s, job.ticket), s.ui.disk[job.dir], ev);
      assert OutcomeOf(t, job.ticket) == OutcomeAfter(OutcomeOf(s, job.ticket), ev, job.ticket);
      assert JobTracked(t, job, side);
      assert JobTracked(t, job, Other(side));
    }
  }

  lemma QuietSendKeepsTracked(s: Sys, side: Side, cmd: Command)
    requires LegTracked(s) && Quiet([cmd])
    ensures LegTracked(s.(ui := s.ui.Send(side, cmd)))
  {
    var (right, left) := if side == Remote then ([cmd], []) else ([], [cmd]);
    QuietKeepsTracked(s, s.ui.Send(side, cmd), right, left);
  }

  lemma StepKeepsTracked(s: Sys, step: Step)
    requires Inv(s) && Enabled(s, step)
    ensures LegTracked(Next(s, step))
  {
    match step {
      case Press(dirMade) => PressKeepsTracked(s, dirMade);
      case StageItem(t) => QuietKeepsTracked(s, s.ui.Stage(t), [], []);
      case UnstageLast => QuietKeepsTracked(s, s.ui.Unstage(), [], []);
      case Browse(side) => QuietSendKeepsTracked(s, side, ListDir);
      case Operate(side) => QuietSendKeepsTracked(s, side, FileOp);
      case Deliver(side, dirMade) => DeliverKeepsTracked(s, side, dirMade);
      case Take(side, ok) => TakeKeepsTracked(s, side, ok);
      case Poll(side, n) => PollKeepsTracked(s, side, n);
      case Report(side) => EmitKeepsTracked(s, side, Progress, s.At(side).phase, s.outcomes);
      case End(side, ok) =>
        var ticket := s.At(side).phase.ticket;
        EmitKeepsTracked(s, side, if ok then TransferDone(ticket) else Error(Some(ticket)), Closing(ticket),
                         s.outcomes[ticket := if ok then Done else Failed]);
      case Close(side) => EmitKeepsTracked(s, side, QueueDone(s.At(side).phase.ticket), Idle, s.outcomes);
    }
  }

  lemma StepKeepsInv(s: Sys, step: Step)
    requires Inv(s) && Enabled(s, step)
    ensures Inv(Next(s, step))
  {
    StepKeepsAccount(s, step);
    StepKeepsFresh(s, step);
    StepKeepsTracked(s, step);
  }

  /** Every reachable state of the relay and its workers is accounted for and
      tracked. */
  lemma {:induction false} InvAlways(s: Sys, steps: seq<Step>)
    requires Inv(s) && Trace(s, steps)
    ensures Inv(Run(s, steps))
    decreases |steps|
  {
    if steps != [] {
      StepKeepsInv(s, steps[0]);
      InvAlways(Next(s, steps[0]), steps[1..]);
    }
  }

  lemma InitInv()
    ensures Inv(Init())
  {
  }
}
