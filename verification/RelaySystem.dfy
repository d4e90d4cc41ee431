/** The relay together with its two workers (src/sftp/worker.rs): every
    interleaving of key presses, worker progress and event delivery, while both
    connections are up. */
module RelaySystem {
  import opened Wrappers
  import opened Relay

  /** Where a worker thread is: between commands, before the first cancel poll of
      a run, moving files, or about to report the run's end. */
  datatype WorkerPhase =
    Idle | Starting(ticket: nat, item: Transfer) | Moving(ticket: nat, item: Transfer) | Closing(ticket: nat)

  datatype Worker = Worker(phase: WorkerPhase, outbox: seq<Event>)

  datatype Outcome = Done | Failed | Cancelled

  /** `outcomes` records how each ended run went and `lost` counts the run commands
      a worker threw away unanswered; both are bookkeeping of the model. */
  datatype Sys = Sys(ui: Ui, right: Worker, left: Worker, outcomes: map<nat, Outcome>, lost: nat) {
    function At(side: Side): Worker {
      if side == Remote then right else left
    }

    function Put(side: Side, w: Worker): Sys {
      if side == Remote then this.(right := w) else this.(left := w)
    }

    function Inbox(side: Side): seq<Command> {
      ui.Channel(side)
    }

    function PutInbox(side: Side, inbox: seq<Command>): Sys {
      this.(ui := if side == Remote then ui.(tx := inbox) else ui.(tx2 := inbox))
    }

    function Emit(side: Side, ev: Event): Sys {
      Put(side, At(side).(outbox := At(side).outbox + [ev]))
    }

    function Phase(side: Side, phase: WorkerPhase): Sys {
      Put(side, At(side).(phase := phase))
    }
  }

  datatype Step =
    | Press(dirMade: bool)
    | StageItem(t: Item)
    | UnstageLast
    | Browse(side: Side)
    | Operate(side: Side)
    | Deliver(side: Side, dirMade: bool)
    | Take(side: Side, ok: bool)
    | Poll(side: Side, n: nat)
    | Report(side: Side)
    | End(side: Side, ok: bool)
    | Close(side: Side)

  predicate Enabled(s: Sys, step: Step) {
    match step
    case Operate(_) => s.ui.phase != Running
    case Deliver(side, _) => s.At(side).outbox != []
    case Take(side, _) => s.At(side).phase.Idle? && s.Inbox(side) != []
    case Poll(side, n) => Polls(s.At(side).phase) && n <= |s.Inbox(side)|
    case Report(side) => s.At(side).phase.Moving?
    case End(side, _) => s.At(side).phase.Moving?
    case Close(side) => s.At(side).phase.Closing?
    case _ => true
  }

  /** A run looks for a cancel before it starts, and between the files of a
      directory; a single file is moved without looking. */
  predicate Polls(phase: WorkerPhase) {
    phase.Starting? || (phase.Moving? && phase.item.isDir)
  }

  /** The next command of an idle worker. */
  function TakeStep(s: Sys, side: Side, ok: bool): Sys
    requires s.Inbox(side) != []
  {
    var rest := s.PutInbox(side, s.Inbox(side)[1..]);
    match s.Inbox(side)[0]
    case Cancel => rest
    case ListDir => rest.Emit(side, if ok then Listing else Error(None))
    case FileOp => rest.Emit(side, if ok then OpDone else Error(None))
    case RunQueue(ticket, item) => rest.Phase(side, Starting(ticket, item))
  }

  function Runs(cmds: seq<Command>): nat {
    if cmds == [] then 0 else (if cmds[0].RunQueue? then 1 else 0) + Runs(cmds[1..])
  }

  /** The cancel poll drains what has arrived, the first `n` commands, and drops
      everything in it that is not a cancel. */
  function PollStep(s: Sys, side: Side, n: nat): Sys
    requires Polls(s.At(side).phase) && n <= |s.Inbox(side)|
  {
    var phase, drained := s.At(side).phase, s.Inbox(side)[..n];
    var rest := s.PutInbox(side, s.Inbox(side)[n..]);
    var disk := if Cancel in drained || phase.Moving? then s.ui.disk else Written(s.ui.disk, phase.item.dst);
    var outcomes := if Cancel in drained then s.outcomes[phase.ticket := Cancelled] else s.outcomes;
    var noted := Sys(rest.ui.(disk := disk), s.right, s.left, outcomes, s.lost + Runs(drained));
    noted.Phase(side, if Cancel in drained then Closing(phase.ticket) else Moving(phase.ticket, phase.item))
  }

  /** Moving into a scratch directory creates the file there, if the directory
      still exists. */
  function Written(disk: map<nat, set<string>>, dst: Place): map<nat, set<string>> {
    if dst.InScratch? && dst.dir in disk then disk[dst.dir := disk[dst.dir] + {dst.file}] else disk
  }

  /** What is written is added to the directory, and only there. */
  lemma WrittenAdds(disk: map<nat, set<string>>, dst: Place, dir: nat, name: string)
    requires dir in disk
    ensures Written(disk, dst).Keys == disk.Keys
    ensures name in Written(disk, dst)[dir] <==> name in disk[dir] || dst == InScratch(dir, name)
  {
  }

  /** A single file is moved without looking for a cancel. */
  lemma FilesAreNotInterrupted(s: Sys, side: Side, n: nat)
    requires s.At(side).phase.Moving?
    ensures Enabled(s, Poll(side, n)) <==> s.At(side).phase.item.isDir && n <= |s.Inbox(side)|
  {
  }

  function EndStep(s: Sys, side: Side, ok: bool): Sys
    requires s.At(side).phase.Moving?
  {
    var ticket := s.At(side).phase.ticket;
    s.Emit(side, if ok then TransferDone(ticket) else Error(Some(ticket)))
     .Phase(side, Closing(ticket)).(outcomes := s.outcomes[ticket := if ok then Done else Failed])
  }

  function DeliverStep(s: Sys, side: Side, dirMade: bool): Sys
    requires s.At(side).outbox != []
  {
    var w := s.At(side);
    s.Put(side, w.(outbox := w.outbox[1..])).(ui := s.ui.OnEvent(side, w.outbox[0], dirMade))
  }

  function Next(s: Sys, step: Step): Sys
    requires Enabled(s, step)
  {
    match step
    case Press(dirMade) => s.(ui := s.ui.RunAll(dirMade))
    case StageItem(t) => s.(ui := s.ui.Stage(t))
    case UnstageLast => s.(ui := s.ui.Unstage())
    case Browse(side) => s.(ui := s.ui.Send(side, ListDir))
    case Operate(side) => s.(ui := s.ui.Send(side, FileOp))
    case Deliver(side, dirMade) => DeliverStep(s, side, dirMade)
    case Take(side, ok) => TakeStep(s, side, ok)
    case Poll(side, n) => PollStep(s, side, n)
    case Report(side) => s.Emit(side, Progress)
    case End(side, ok) => EndStep(s, side, ok)
    case Close(side) => s.Emit(side, QueueDone(s.At(side).phase.ticket)).Phase(side, Idle)
  }

  function Init(): Sys {
    Sys(Start(), Worker(Idle, []), Worker(Idle, []), map[], 0)
  }

  /** The states a list of steps leads to, each step enabled where it is taken. */
  ghost predicate Trace(s: Sys, steps: seq<Step>)
    decreases |steps|
  {
    steps == [] || (Enabled(s, steps[0]) && Trace(Next(s, steps[0]), steps[1..]))
  }

  ghost function Run(s: Sys, steps: seq<Step>): Sys
    requires Trace(s, steps)
    decreases |steps|
  {
    if steps == [] then s else Run(Next(s, steps[0]), steps[1..])
  }

  // ---------- Accounting ----------

  function Dones(events: seq<Event>): nat {
    if events == [] then 0 else (if events[0].QueueDone? then 1 else 0) + Dones(events[1..])
  }

  /** The `QueueDone`s a worker has still to deliver for runs it received or will
      receive. */
  function OwedBy(s: Sys, side: Side): nat {
    Runs(s.Inbox(side)) + (if s.At(side).phase.Idle? then 0 else 1) + Dones(s.At(side).outbox)
  }

  function Owed(s: Sys): nat {
    OwedBy(s, Remote) + OwedBy(s, Local)
  }

  function Live(ui: Ui): nat {
    if ui.relay.Some? then 1 else 0
  }

  /** Undelivered `QueueDone`s, plus those that will never come because the run
      command was dropped, against what the application expects. */
  ghost predicate Account(s: Sys) {
    && Owed(s) + s.lost == s.ui.swallowDone + Live(s.ui)
    && (s.ui.phase == Running <==> s.ui.relay.Some?)
    && (s.ui.relay.Some? ==> s.ui.relay.value.items != [])
  }

  lemma RunsConcat(a: seq<Command>, b: seq<Command>)
    ensures Runs(a + b) == Runs(a) + Runs(b)
  {
    if a == [] {
      assert a + b == b;
    } else {
      assert (a + b)[1..] == a[1..] + b;
      RunsConcat(a[1..], b);
    }
  }

  lemma DonesConcat(a: seq<Event>, b: seq<Event>)
    ensures Dones(a + b) == Dones(a) + Dones(b)
  {
    if a == [] {
      assert a + b == b;
    } else {
      assert (a + b)[1..] == a[1..] + b;
      DonesConcat(a[1..], b);
    }
  }

  /** What the handlers do to the balance of commands sent against answers expected. */
  function Balance(ui: Ui): int {
    Runs(ui.tx) + Runs(ui.tx2) - ui.swallowDone - Live(ui)
  }

  lemma SendBalance(ui: Ui, side: Side, cmd: Command)
    ensures Balance(ui.Send(side, cmd)) == Balance(ui) + if cmd.RunQueue? then 1 else 0
  {
    RunsConcat(ui.tx, [cmd]);
    RunsConcat(ui.tx2, [cmd]);
  }

  lemma RefreshBalance(ui: Ui)
    ensures Balance(ui.RefreshPanes()) == Balance(ui)
  {
    SendBalance(ui, Remote, ListDir);
    SendBalance(ui.Send(Remote, ListDir), Local, ListDir);
  }

  lemma AbortBalance(ui: Ui)
    requires ui.relay.Some?
    ensures Balance(ui.Abort()) == Balance(ui)
  {
    var stopped := ui.(relay := None, disk := ui.DropScratch(), swallowDone := ui.swallowDone + 1,
                       phase := Browsing, running := []);
    SendBalance(stopped, Remote, Cancel);
    SendBalance(stopped.Send(Remote, Cancel), Local, Cancel);
  }

  /** A relay step either sends one more run or retires the relay. */
  lemma RelayStepBalance(ui: Ui)
    requires ui.relay.Some?
    ensures Balance(ui.RelayStep()) == Balance(ui) + 1
    ensures ui.RelayStep().phase == (if ui.relay.value.items == [] then Browsing else ui.phase)
    ensures ui.RelayStep().relay.Some? <==> ui.relay.value.items != []
    ensures ui.relay.value.items != [] ==> ui.RelayStep().relay.value.items == ui.relay.value.items
  {
    if ui.relay.value.items == [] {
      RefreshBalance(ui.(relay := None, disk := ui.DropScratch(), phase := Browsing, running := []));
    } else {
      var leg := LegOf(ui.relay.value);
      SendBalance(ui.(relay := Some(ui.relay.value.(ticket := ui.runs)), runs := ui.runs + 1,
                      history := ui.history.(legs := ui.history.legs + [leg])), leg.side, RunQueue(ui.runs, leg.item));
    }
  }

  /** The part of the account the workers hold themselves. */
  function Held(s: Sys): nat {
    (if s.right.phase.Idle? then 0 else 1) + Dones(s.right.outbox)
    + (if s.left.phase.Idle? then 0 else 1) + Dones(s.left.outbox)
  }

  lemma AccountByBalance(s: Sys)
    ensures Owed(s) + s.lost == s.ui.swallowDone + Live(s.ui) <==> Balance(s.ui) + Held(s) + s.lost == 0
  {
  }

  /** With nothing to swallow, a delivered `QueueDone` is the only answer still
      outstanding: a relay is live, no command was lost, and both workers are idle
      with no run waiting. */
  lemma LastAnswer(s: Sys, side: Side)
    requires Account(s) && s.ui.swallowDone == 0
    requires s.At(side).outbox != [] && s.At(side).outbox[0].QueueDone?
    ensures s.ui.relay.Some? && s.lost == 0 && Owed(s) == 1
    ensures forall side' :: Runs(s.Inbox(side')) == 0 && s.At(side').phase.Idle?
  {
  }

  lemma DonesPop(events: seq<Event>)
    requires events != []
    ensures Dones(events[1..]) == Dones(events) - if events[0].QueueDone? then 1 else 0
  {
  }

  lemma EventBalance(ui: Ui, side: Side, ev: Event, dirMade: bool)
    requires !ev.QueueDone? && (ui.phase == Running <==> ui.relay.Some?)
    ensures var after := ui.OnEvent(side, ev, dirMade);
      && Balance(after) == Balance(ui) && (after.phase == Running <==> after.relay.Some?)
      && (after.relay.Some? ==> after.relay == ui.relay)
  {
    match ev {
      case Error(_) =>
        var noted := ui.(runFailed := true);
        if ui.relay.Some? {
          AbortBalance(noted);
          RefreshBalance(noted.Abort());
        } else {
          RefreshBalance(noted);
        }
      case OpDone => RefreshBalance(ui);
      case _ =>
    }
  }

  lemma DoneBalance(ui: Ui, side: Side, ev: Event, dirMade: bool)
    requires ev.QueueDone? && (ui.swallowDone > 0 || ui.relay.Some?) && (ui.phase == Running <==> ui.relay.Some?)
    requires ui.relay.Some? ==> ui.relay.value.items != []
    ensures var after := ui.OnEvent(side, ev, dirMade);
      && Balance(after) == Balance(ui) + 1 && (after.phase == Running <==> after.relay.Some?)
      && (after.relay.Some? ==> after.relay.value.items != [])
  {
    if ui.swallowDone == 0 {
      RelayStepBalance(ui.NextLeg());
    }
  }

  lemma DeliverKeepsAccount(s: Sys, side: Side, dirMade: bool)
    requires Account(s) && Enabled(s, Deliver(side, dirMade))
    ensures Account(DeliverStep(s, side, dirMade))
  {
    var ev := s.At(side).outbox[0];
    AccountByBalance(s);
    AccountByBalance(DeliverStep(s, side, dirMade));
    DeliverHeld(s, side, dirMade);
    if !ev.QueueDone? {
      EventBalance(s.ui, side, ev, dirMade);
    } else {
      if s.ui.swallowDone == 0 {
        LastAnswer(s, side);
      }
      DoneBalance(s.ui, side, ev, dirMade);
    }
  }

  lemma DeliverHeld(s: Sys, side: Side, dirMade: bool)
    requires Enabled(s, Deliver(side, dirMade))
    ensures Held(DeliverStep(s, side, dirMade)) == Held(s) - if s.At(side).outbox[0].QueueDone? then 1 else 0
  {
    DonesPop(s.At(side).outbox);
  }

  lemma RunsSplit(cmds: seq<Command>, n: nat)
    requires n <= |cmds|
    ensures Runs(cmds) == Runs(cmds[..n]) + Runs(cmds[n..])
  {
    assert cmds == cmds[..n] + cmds[n..];
    RunsConcat(cmds[..n], cmds[n..]);
  }

  /** Shortening an inbox changes only that worker's share. */
  lemma InboxKeepsAccount(s: Sys, side: Side, inbox: seq<Command>)
    ensures OwedBy(s.PutInbox(side, inbox), side) == OwedBy(s, side) - Runs(s.Inbox(side)) + Runs(inbox)
    ensures forall other :: other != side ==> OwedBy(s.PutInbox(side, inbox), other) == OwedBy(s, other)
    ensures Owed(s.PutInbox(side, inbox)) == Owed(s) - Runs(s.Inbox(side)) + Runs(inbox)
  {
  }

  lemma PhaseKeepsAccount(s: Sys, side: Side, phase: WorkerPhase)
    ensures Owed(s.Phase(side, phase)) ==
        Owed(s) + (if phase.Idle? then 0 else 1) - (if s.At(side).phase.Idle? then 0 else 1)
  {
  }

  lemma EmitOwed(s: Sys, side: Side, ev: Event)
    ensures Owed(s.Emit(side, ev)) == Owed(s) + if ev.QueueDone? then 1 else 0
  {
    DonesConcat(s.At(side).outbox, [ev]);
  }

  lemma TakeKeepsAccount(s: Sys, side: Side, ok: bool)
    requires Account(s) && Enabled(s, Take(side, ok))
    ensures Account(TakeStep(s, side, ok))
  {
    var cmd, rest := s.Inbox(side)[0], s.PutInbox(side, s.Inbox(side)[1..]);
    InboxKeepsAccount(s, side, s.Inbox(side)[1..]);
    match cmd {
      case RunQueue(ticket, item) => PhaseKeepsAccount(rest, side, Starting(ticket, item));
      case ListDir => EmitOwed(rest, side, if ok then Listing else Error(None));
      case FileOp => EmitOwed(rest, side, if ok then OpDone else Error(None));
      case Cancel =>
    }
  }

  lemma PollKeepsAccount(s: Sys, side: Side, n: nat)
    requires Account(s) && Enabled(s, Poll(side, n))
    ensures Account(PollStep(s, side, n))
  {
    RunsSplit(s.Inbox(side), n);
    InboxKeepsAccount(s, side, s.Inbox(side)[n..]);
    PollOwed(s, side, n);
  }

  lemma PollOwed(s: Sys, side: Side, n: nat)
    requires Enabled(s, Poll(side, n))
    ensures Owed(PollStep(s, side, n)) == Owed(s.PutInbox(side, s.Inbox(side)[n..]))
  {
  }

  lemma EmitKeepsAccount(s: Sys, side: Side, ev: Event, phase: WorkerPhase, outcomes: map<nat, Outcome>)
    requires Account(s) && !s.At(side).phase.Idle?
    requires ev.QueueDone? <==> phase.Idle?
    ensures Account(s.Emit(side, ev).Phase(side, phase).(outcomes := outcomes))
  {
    EmitOwed(s, side, ev);
    PhaseKeepsAccount(s.Emit(side, ev), side, phase);
  }

  /** A change of the application alone keeps the account when it keeps the balance. */
  lemma UiKeepsAccount(s: Sys, ui: Ui)
    requires Account(s) && Balance(ui) == Balance(s.ui)
    requires (ui.phase == Running <==> ui.relay.Some?) && (ui.relay.Some? ==> ui.relay.value.items != [])
    ensures Account(s.(ui := ui))
  {
    AccountByBalance(s);
    AccountByBalance(s.(ui := ui));
  }

  lemma PressBalance(ui: Ui, dirMade: bool)
    requires ui.phase == Running <==> ui.relay.Some?
    requires ui.relay.Some? ==> ui.relay.value.items != []
    ensures var after := ui.RunAll(dirMade);
      && Balance(after) == Balance(ui) && (after.phase == Running <==> after.relay.Some?)
      && (after.relay.Some? ==> after.relay.value.items != [])
  {
    if ui.phase != Running && ui.queue != [] && dirMade {
      RelayStepBalance(ui.Armed());
    }
  }

  lemma KeysKeepAccount(s: Sys, step: Step)
    requires Account(s) && Enabled(s, step)
    requires step.Press? || step.StageItem? || step.UnstageLast? || step.Browse? || step.Operate?
    ensures Account(Next(s, step))
  {
    match step {
      case Press(dirMade) => PressBalance(s.ui, dirMade);
      case Browse(side) => SendBalance(s.ui, side, ListDir);
      case Operate(side) => SendBalance(s.ui, side, FileOp);
      case _ =>
    }
    UiKeepsAccount(s, Next(s, step).ui);
  }

  lemma StepKeepsAccount(s: Sys, step: Step)
    requires Account(s) && Enabled(s, step)
    ensures Account(Next(s, step))
  {
    match step {
      case Deliver(side, dirMade) => DeliverKeepsAccount(s, side, dirMade);
      case Take(side, ok) => TakeKeepsAccount(s, side, ok);
      case Poll(side, n) => PollKeepsAccount(s, side, n);
      case Report(side) => EmitKeepsAccount(s, side, Progress, s.At(side).phase, s.outcomes);
      case End(side, ok) =>
        var ticket := s.At(side).phase.ticket;
        EmitKeepsAccount(s, side, if ok then TransferDone(ticket) else Error(Some(ticket)), Closing(ticket),
                         s.outcomes[ticket := if ok then Done else Failed]);
      case Close(side) => EmitKeepsAccount(s, side, QueueDone(s.At(side).phase.ticket), Idle, s.outcomes);
      case _ => KeysKeepAccount(s, step);
    }
  }

  /** In every run from the start, undelivered `QueueDone`s and dropped run
      commands together equal the owed swallows plus the live relay. */
  lemma {:induction false} AccountAlways(s: Sys, steps: seq<Step>)
    requires Account(s) && Trace(s, steps)
    ensures Account(Run(s, steps))
    decreases |steps|
  {
    if steps != [] {
      StepKeepsAccount(s, steps[0]);
      AccountAlways(Next(s, steps[0]), steps[1..]);
    }
  }
}
