/** The server-to-server relay of the SFTP tab (src/app/sftp.rs): what each
    handler does to the application state, as functions on a state value and as
    the class whose methods update the fields in place. */
module Relay {
  import opened Wrappers

  datatype Side = Remote | Local
  datatype Direction = Download | Upload
  datatype Phase = Browsing | Running
  datatype Leg = Fetching | Pushing

  /** A path on a server, or a name inside one of the relay's scratch directories. */
  datatype Place = OnServer(path: string) | InScratch(dir: nat, file: string)

  /** A staged transfer, between paths on the two servers. */
  datatype Item = Item(direction: Direction, src: string, dst: string, name: string, isDir: bool)

  /** A transfer as one worker is told to carry it out. */
  datatype Transfer = Transfer(direction: Direction, src: Place, dst: Place, name: string, isDir: bool)

  /** Commands to a worker. `ticket` numbers the runs in the order they are sent;
      it exists for reasoning only, no handler reads it. */
  datatype Command = RunQueue(ticket: nat, item: Transfer) | ListDir | FileOp | Cancel

  /** Events from a worker, tagged with the run they report on. */
  datatype Event =
    Listing | OpDone | Progress | TransferDone(ticket: nat) | QueueDone(ticket: nat) | Error(run: Option<nat>)

  datatype Job = Job(total: nat, items: seq<Item>, dir: nat, leg: Leg, ticket: nat)

  datatype Sent = Sent(side: Side, item: Transfer)

  /** What happened since the last relay was started: its items, what was staged
      meanwhile, the legs sent, and the `QueueDone`s counted towards it. */
  datatype History = History(batch: seq<Item>, staged: seq<Item>, legs: seq<Sent>, counted: nat)

  /** The fields of the application the relay reads or writes, with both panes on
      servers. `tx` and `tx2` are the commands the right and left worker have not
      received yet, `disk` the files in each live scratch directory. */
  datatype Ui = Ui(relay: Option<Job>, swallowDone: nat, runFailed: bool,
                   queue: seq<Item>, running: seq<Item>, phase: Phase,
                   tx: seq<Command>, tx2: seq<Command>, disk: map<nat, set<string>>,
                   runs: nat, dirs: nat, history: History)
  {
    function Channel(side: Side): seq<Command> {
      if side == Remote then tx else tx2
    }

    function Send(side: Side, cmd: Command): Ui {
      if side == Remote then this.(tx := tx + [cmd]) else this.(tx2 := tx2 + [cmd])
    }

    function RefreshPanes(): Ui {
      Send(Remote, ListDir).Send(Local, ListDir)
    }

    function DropScratch(): map<nat, set<string>> {
      if relay.Some? then disk - {relay.value.dir} else disk
    }

    /** Stop part-way: forget the relay, owe one `QueueDone`, tell both workers. */
    function Abort(): Ui {
      this.(relay := None, disk := DropScratch(), swallowDone := swallowDone + 1,
            phase := Browsing, running := []).Send(Remote, Cancel).Send(Local, Cancel)
    }

    function Finish(): Ui {
      this.(relay := None, disk := DropScratch(), phase := Browsing, running := []).RefreshPanes()
    }

    /** Send the current leg, or finish when nothing is left. */
    function RelayStep(): Ui {
      if relay.None? then this
      else if relay.value.items == [] then Finish()
      else
        var leg := LegOf(relay.value);
        this.(relay := Some(relay.value.(ticket := runs)), runs := runs + 1,
              history := history.(legs := history.legs + [leg])).Send(leg.side, RunQueue(runs, leg.item))
    }

    function Counted(): Ui {
      this.(history := history.(counted := history.counted + 1))
    }

    /** The front item is across: drop its temp copy and its queue entries. */
    function PopDone(): Ui
      requires relay.Some? && relay.value.items != []
    {
      var job, done := relay.value, relay.value.items[0];
      this.(relay := Some(job.(items := job.items[1..])),
            disk := RemoveFile(disk, job.dir, done.name),
            queue := Without(queue, done), running := Without(running, done))
    }

    function RelayQueueDone(): Ui {
      if relay.None? then this else NextLeg().RelayStep()
    }

    function NextLeg(): Ui
      requires relay.Some?
    {
      if relay.value.leg == Fetching then Counted().(relay := Some(relay.value.(leg := Pushing)))
      else
        var popped := if relay.value.items == [] then Counted() else Counted().PopDone();
        popped.(relay := Some(popped.relay.value.(leg := Fetching)))
    }

    /** The confirm key. `dirMade` says whether the scratch directory could be
        created. */
    function RunAll(dirMade: bool): Ui {
      if phase == Running || queue == [] then this
      else if dirMade then Armed().RelayStep()
      else this.(runFailed := false)
    }

    function Armed(): Ui {
      this.(runFailed := false, phase := Running, running := queue, dirs := dirs + 1,
            disk := disk[dirs := {}], history := History(queue, [], [], 0),
            relay := Some(Job(|queue|, queue, dirs, Fetching, runs)))
    }

    /** A `QueueDone` that belongs to no relay ends a plain run. */
    function PlainDone(dirMade: bool): Ui {
      var left := Cleared().RefreshPanes();
      if left.queue != [] && !runFailed then left.RunAll(dirMade) else left
    }

    function Cleared(): Ui {
      this.(phase := Browsing, running := [], queue := Minus(queue, running))
    }

    function OnError(): Ui {
      if relay.Some? then this.(runFailed := true).Abort().RefreshPanes()
      else this.(runFailed := true).RefreshPanes()
    }

    function OnEvent(side: Side, ev: Event, dirMade: bool): Ui {
      match ev
      case QueueDone(_) =>
        if swallowDone > 0 then this.(swallowDone := swallowDone - 1)
        else if relay.Some? then RelayQueueDone()
        else if side == Remote then PlainDone(dirMade)
        else this
      case Error(_) => OnError()
      case OpDone => RefreshPanes()
      case _ => this
    }

    function Stage(t: Item): Ui {
      if exists q :: q in queue && q.src == t.src && q.dst == t.dst then this
      else this.(queue := queue + [t], history := history.(staged := history.staged + [t]))
    }

    function Unstage(): Ui {
      if queue == [] then this else this.(queue := queue[..|queue| - 1])
    }
  }

  /** Which worker runs a leg, and what it is told to move. A download goes from
      the right pane to the left one. */
  function LegFor(item: Item, dir: nat, leg: Leg): Sent {
    var (from, to) := if item.direction == Download then (Remote, Local) else (Local, Remote);
    if leg == Fetching
    then Sent(from, Transfer(Download, OnServer(item.src), InScratch(dir, item.name), item.name, item.isDir))
    else Sent(to, Transfer(Upload, InScratch(dir, item.name), OnServer(item.dst), item.name, item.isDir))
  }

  function LegOf(job: Job): Sent
    requires job.items != []
  {
    LegFor(job.items[0], job.dir, job.leg)
  }

  function RemoveFile(disk: map<nat, set<string>>, dir: nat, name: string): map<nat, set<string>> {
    if dir in disk then disk[dir := disk[dir] - {name}] else disk
  }

  /** `retain(|q| *q != done)`. */
  function Without(s: seq<Item>, done: Item): seq<Item> {
    if s == [] then []
    else (if s[0] == done then [] else [s[0]]) + Without(s[1..], done)
  }

  /** `retain(|q| !done.contains(q))`. */
  function Minus(s: seq<Item>, done: seq<Item>): seq<Item> {
    if s == [] then []
    else (if s[0] in done then [] else [s[0]]) + Minus(s[1..], done)
  }

  /** The application state as the source holds it. Every handler is proved to do
      what its function above says. */
  class App {
    var relay: Option<Job>
    var swallowDone: nat
    var runFailed: bool
    var queue: seq<Item>
    var running: seq<Item>
    var phase: Phase
    var tx: seq<Command>
    var tx2: seq<Command>
    var disk: map<nat, set<string>>
    var runs: nat
    var dirs: nat
    ghost var history: History

    ghost function State(): Ui
      reads this
    {
      Ui(relay, swallowDone, runFailed, queue, running, phase, tx, tx2, disk, runs, dirs, history)
    }

    constructor ()
      ensures State() == Start()
    {
      relay, swallowDone, runFailed, queue, running, phase := None, 0, false, [], [], Browsing;
      tx, tx2, disk, runs, dirs, history := [], [], map[], 0, 0, History([], [], [], 0);
    }

    method Send(side: Side, cmd: Command)
      modifies this`tx, this`tx2
      ensures State() == old(State()).Send(side, cmd)
    {
      if side == Remote {
        tx := tx + [cmd];
      } else {
        tx2 := tx2 + [cmd];
      }
    }

    method RefreshPanes()
      modifies this`tx, this`tx2
      ensures State() == old(State()).RefreshPanes()
    {
      Send(Remote, ListDir);
      Send(Local, ListDir);
    }

    method DropRelay()
      modifies this`relay, this`disk
      ensures State() == old(State()).(relay := None, disk := old(State()).DropScratch())
    {
      if relay.Some? {
        disk := disk - {relay.value.dir};
      }
      relay := None;
    }

    method RelayAbort()
      modifies this
      ensures State() == old(State()).Abort()
    {
      DropRelay();
      swallowDone := swallowDone + 1;
      Send(Remote, Cancel);
      Send(Local, Cancel);
      phase := Browsing;
      running := [];
    }

    method RelayFinish()
      modifies this
      ensures State() == old(State()).Finish()
    {
      DropRelay();
      phase := Browsing;
      running := [];
      RefreshPanes();
    }

    method RelayStep()
      modifies this
      ensures State() == old(State()).RelayStep()
    {
      if relay.None? {
        return;
      }
      if relay.value.items == [] {
        RelayFinish();
        return;
      }
      var leg := LegOf(relay.value);
      var ticket := runs;
      relay := Some(relay.value.(ticket := ticket));
      runs := runs + 1;
      history := history.(legs := history.legs + [leg]);
      Send(leg.side, RunQueue(ticket, leg.item));
    }

    method CountDone()
      modifies this`history
      ensures State() == old(State()).Counted()
    {
      history := history.(counted := history.counted + 1);
    }

    /** The front item is across: drop its temp copy and its queue entries. */
    method PopDone()
      requires relay.Some? && relay.value.items != []
      modifies this`relay, this`disk, this`queue, this`running
      ensures State() == old(State()).PopDone()
    {
      var job, done := relay.value, relay.value.items[0];
      disk := RemoveFile(disk, job.dir, done.name);
      relay := Some(job.(items := job.items[1..]));
      queue := Without(queue, done);
      running := Without(running, done);
    }

    method SetLeg(leg: Leg)
      requires relay.Some?
      modifies this`relay
      ensures State() == old(State()).(relay := Some(old(State()).relay.value.(leg := leg)))
    {
      relay := Some(relay.value.(leg := leg));
    }

    /** Fold a leg's end into the relay: on to the push, or the item is across. */
    method AdvanceLeg()
      requires relay.Some?
      modifies this`relay, this`disk, this`queue, this`running, this`history
      ensures State() == old(State()).NextLeg()
    {
      CountDone();
      match relay.value.leg {
        case Fetching => SetLeg(Pushing);
        case Pushing =>
          if relay.value.items != [] {
            PopDone();
          }
          SetLeg(Fetching);
      }
    }

    method RelayQueueDone() returns (handled: bool)
      modifies this
      ensures handled <==> old(relay.Some?)
      ensures State() == old(State()).RelayQueueDone()
    {
      if relay.None? {
        return false;
      }
      AdvanceLeg();
      RelayStep();
      return true;
    }

    method TakeSwallowedDone() returns (taken: bool)
      modifies this`swallowDone
      ensures taken <==> old(swallowDone) > 0
      ensures swallowDone == if taken then old(swallowDone) - 1 else old(swallowDone)
    {
      if swallowDone == 0 {
        return false;
      }
      swallowDone := swallowDone - 1;
      return true;
    }

    method RunAll(dirMade: bool)
      modifies this
      ensures State() == old(State()).RunAll(dirMade)
    {
      if phase == Running || queue == [] {
        return;
      }
      runFailed := false;
      if dirMade {
        Arm();
        RelayStep();
      }
    }

    /** A fresh scratch directory and a relay over the whole queue. */
    method Arm()
      modifies this`runFailed, this`phase, this`running, this`relay, this`disk, this`dirs, this`history
      ensures State() == old(State()).Armed()
    {
      var dir := MakeScratch();
      runFailed, phase, running := false, Running, queue;
      relay := Some(Job(|queue|, queue, dir, Fetching, runs));
      history := History(queue, [], [], 0);
    }

    method MakeScratch() returns (dir: nat)
      modifies this`disk, this`dirs
      ensures dir == old(dirs)
      ensures State() == old(State()).(dirs := dir + 1, disk := old(disk)[dir := {}])
    {
      dir, dirs, disk := dirs, dirs + 1, disk[dirs := {}];
    }

    method OnError()
      modifies this
      ensures State() == old(State()).OnError()
    {
      runFailed := true;
      if relay.Some? {
        RelayAbort();
      }
      RefreshPanes();
    }

    method ClearRun()
      modifies this`phase, this`queue, this`running
      ensures State() == old(State()).Cleared()
    {
      phase := Browsing;
      queue := Minus(queue, running);
      running := [];
    }

    /** An event from the right pane's worker. */
    method ApplyEvent(ev: Event, dirMade: bool)
      modifies this
      ensures State() == old(State()).OnEvent(Remote, ev, dirMade)
    {
      match ev {
        case QueueDone(_) =>
          var taken := TakeSwallowedDone();
          if taken {
            return;
          }
          if relay.Some? {
            var _ := RelayQueueDone();
            return;
          }
          ClearRun();
          var more := queue != [];
          RefreshPanes();
          if more && !runFailed {
            RunAll(dirMade);
          }
        case Error(_) => OnError();
        case OpDone => RefreshPanes();
        case _ =>
      }
    }

    /** An event from the left pane's worker, the second server. */
    method ApplyEventLeft(ev: Event, dirMade: bool)
      modifies this
      ensures State() == old(State()).OnEvent(Local, ev, dirMade)
    {
      match ev {
        case QueueDone(_) =>
          var taken := TakeSwallowedDone();
          if !taken {
            var _ := RelayQueueDone();
          }
        case Error(_) => OnError();
        case OpDone => RefreshPanes();
        case _ =>
      }
    }

    method Stage(t: Item)
      modifies this`queue, this`history
      ensures State() == old(State()).Stage(t)
    {
      if exists q :: q in queue && q.src == t.src && q.dst == t.dst {
        return;
      }
      queue := queue + [t];
      history := history.(staged := history.staged + [t]);
    }

    method Unstage()
      modifies this`queue
      ensures State() == old(State()).Unstage()
    {
      if queue != [] {
        queue := queue[..|queue| - 1];
      }
    }
  }

  function Start(): Ui {
    Ui(None, 0, false, [], [], Browsing, [], [], map[], 0, 0, History([], [], [], 0))
  }
}
