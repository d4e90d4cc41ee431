/** What a relay carries: the files of both servers and of the scratch directories
    beside the relay and its workers, and what has arrived when a relay ends. */
module RelayDelivery {
  import opened Wrappers
  import opened Relay
  import opened RelaySystem
  import opened RelaySafety
  import opened RelayResults
  import opened RelayProgress

  // ---------- Files ----------

  datatype Tree = File(data: string) | Dir(entries: map<string, Tree>)

  function Found<K, V>(m: map<K, V>, k: K): Option<V> {
    if k in m then Some(m[k]) else None
  }

  /** A tree copied to where another may be: directories are filled in, anything
      else is replaced. */
  function Over(before: Option<Tree>, t: Tree): Tree
    decreases t
  {
    if before.Some? && before.value.Dir? && t.Dir? then
      Dir(map name | name in before.value.entries.Keys + t.entries.Keys ::
            if name in t.entries then Over(Found(before.value.entries, name), t.entries[name])
            else before.value.entries[name])
    else t
  }

  /** What both servers hold, by path. */
  datatype Servers = Servers(right: map<string, Tree>, left: map<string, Tree>)
  {
    function On(side: Side): map<string, Tree> {
      if side == Remote then right else left
    }

    function With(side: Side, files: map<string, Tree>): Servers {
      if side == Remote then this.(right := files) else this.(left := files)
    }
  }

  datatype Files = Files(servers: Servers, scratch: map<(nat, string), Tree>)

  function At(f: Files, side: Side, p: Place): Option<Tree> {
    match p
    case OnServer(path) => Found(f.servers.On(side), path)
    case InScratch(dir, name) => Found(f.scratch, (dir, name))
  }

  function Set<K, V>(m: map<K, V>, k: K, v: Option<V>): map<K, V> {
    if v.Some? then m[k := v.value] else m - {k}
  }

  function Put(f: Files, side: Side, p: Place, t: Option<Tree>): Files {
    match p
    case OnServer(path) => f.(servers := f.servers.With(side, Set(f.servers.On(side), path, t)))
    case InScratch(dir, name) => f.(scratch := Set(f.scratch, (dir, name), t))
  }

  /** A worker reads from its server and writes to scratch, or the other way round,
      as the direction says; anything else is no transfer it could carry out. */
  predicate Fits(item: Transfer) {
    if item.direction == Download then item.src.OnServer? && item.dst.InScratch?
    else item.src.InScratch? && item.dst.OnServer?
  }

  // ---------- The workers move files ----------

  datatype World = World(sys: Sys, files: Files)

  /** What is left to chance: the remains of a transfer that did not end well, and
      what a file operation makes of a server. */
  datatype Chance = Chance(remains: Option<Tree>, server: map<string, Tree>)

  predicate CanMove(w: World, step: Step)
    requires Enabled(w.sys, step)
  {
    step.End? && step.ok ==>
      var item := w.sys.At(step.side).phase.item; Fits(item) ==> At(w.files, step.side, item.src).Some?
  }

  function Moved(w: World, step: Step, c: Chance): Files
    requires Enabled(w.sys, step) && CanMove(w, step)
  {
    var s, f := w.sys, w.files;
    match step
    case Take(side, _) =>
      if s.Inbox(side)[0].FileOp? then f.(servers := f.servers.With(side, c.server)) else f
    case Poll(side, n) =>
      if s.At(side).phase.Moving? && Cancel in s.Inbox(side)[..n]
      then Put(f, side, s.At(side).phase.item.dst, c.remains) else f
    case End(side, ok) =>
      var item := s.At(side).phase.item;
      Put(f, side, item.dst,
          if ok && Fits(item) then Some(Over(At(f, side, item.dst), At(f, side, item.src).value)) else c.remains)
    case _ => f
  }

  /** Only what a live scratch directory lists is still there. */
  function Trim(f: Files, disk: map<nat, set<string>>): Files {
    f.(scratch := map k | k in f.scratch && k.0 in disk && k.1 in disk[k.0] :: f.scratch[k])
  }

  function WorldNext(w: World, step: Step, c: Chance): World
    requires Enabled(w.sys, step) && CanMove(w, step)
  {
    var t := Next(w.sys, step);
    World(t, Trim(Moved(w, step, c), t.ui.disk))
  }

  datatype Move = Move(step: Step, chance: Chance)

  ghost predicate Moves(w: World, moves: seq<Move>)
    decreases |moves|
  {
    moves == []
    || (Enabled(w.sys, moves[0].step) && CanMove(w, moves[0].step)
        && Moves(WorldNext(w, moves[0].step, moves[0].chance), moves[1..]))
  }

  ghost function After(w: World, moves: seq<Move>): World
    requires Moves(w, moves)
    decreases |moves|
  {
    if moves == [] then w else After(WorldNext(w, moves[0].step, moves[0].chance), moves[1..])
  }

  // ---------- What should arrive ----------

  /** The item copied straight from one server to the other. */
  function Copied(s: Servers, item: Item): Servers {
    match item.direction
    case Download =>
      if item.src in s.right
      then s.(left := s.left[item.dst := Over(Found(s.left, item.dst), s.right[item.src])]) else s
    case Upload =>
      if item.src in s.left
      then s.(right := s.right[item.dst := Over(Found(s.right, item.dst), s.left[item.src])]) else s
  }

  function AllCopied(s: Servers, items: seq<Item>): Servers {
    if items == [] then s else Copied(AllCopied(s, items[..|items| - 1]), items[|items| - 1])
  }

  /** What the item is to carry. */
  function Cargo(s: Servers, item: Item): Option<Tree> {
    Found(if item.direction == Download then s.right else s.left, item.src)
  }

  // ---------- Where the cargo is ----------

  /** No run but the given one is waiting or moving, and no file operation waits. */
  ghost predicate OnlyRun(cmds: seq<Command>, phase: WorkerPhase, k: nat) {
    (forall q :: 0 <= q < |cmds| ==> !cmds[q].FileOp? && (cmds[q].RunQueue? ==> cmds[q].ticket == k))
    && (phase.Starting? || phase.Moving? ==> phase.ticket == k)
  }

  ghost predicate OnlyLeg(s: Sys, k: nat) {
    forall side :: OnlyRun(s.Inbox(side), s.At(side).phase, k)
  }

  ghost predicate InScratchNow(f: Files, job: Job, s: Servers)
    requires job.items != []
  {
    Found(f.scratch, (job.dir, job.items[0].name)) == Cargo(s, job.items[0]) && Cargo(s, job.items[0]).Some?
  }

  /** The files while a leg is under way, with the servers before and after the
      current item: `before` until its push has ended well. */
  ghost predicate LegFiles(f: Files, job: Job, outcome: Option<Outcome>, before: Servers, after: Servers)
    requires job.items != []
  {
    match outcome
    case None =>
      f.servers == before
      && if job.leg == Pushing then InScratchNow(f, job, before) else (job.dir, job.items[0].name) !in f.scratch
    case Some(Done) =>
      if job.leg == Pushing then f.servers == after else f.servers == before && InScratchNow(f, job, before)
    case Some(_) => true
  }

  ghost predicate Delivering(w: World, start: Servers) {
    var s := w.sys;
    s.ui.relay.Some? && s.lost == 0 ==>
      var job, batch := s.ui.relay.value, s.ui.history.batch;
      job.items != [] && |job.items| <= |batch| && OnlyLeg(s, job.ticket)
      && var done := |batch| - |job.items|;
         LegFiles(w.files, job, OutcomeOf(s, job.ticket),
                  AllCopied(start, batch[..done]), AllCopied(start, batch[..done + 1]))
  }

  /** The cargo waiting in scratch is listed there. */
  lemma DiskHasCargo(s: Sys)
    requires Inv(s) && Tracking(s)
    requires var job := s.ui.relay.value;
             if job.leg == Pushing then OutcomeOf(s, job.ticket).None? else OutcomeOf(s, job.ticket) == Some(Done)
    ensures var job := s.ui.relay.value; job.dir in s.ui.disk && job.items[0].name in s.ui.disk[job.dir]
  {
    var job := s.ui.relay.value;
    assert JobTracked(s, job, LegOf(job).side);
  }

  /** A step that leaves the relay, the outcome of its leg and the files alone. */
  lemma QuietKeepsDelivering(w: World, t: World, start: Servers)
    requires Delivering(w, start) && Inv(t.sys) && t.files == Trim(w.files, t.sys.ui.disk)
    requires t.sys.ui.relay.Some? && t.sys.lost == 0 ==>
      var k := t.sys.ui.relay.value.ticket;
      t.sys.ui.relay == w.sys.ui.relay && w.sys.lost == 0 && t.sys.ui.history.batch == w.sys.ui.history.batch
      && OutcomeOf(t.sys, k) == OutcomeOf(w.sys, k) && OnlyLeg(t.sys, k)
    ensures Delivering(t, start)
  {
    var s := t.sys;
    if s.ui.relay.Some? && s.lost == 0 {
      var job := s.ui.relay.value;
      if if job.leg == Pushing then OutcomeOf(s, job.ticket).None? else OutcomeOf(s, job.ticket) == Some(Done) {
        DiskHasCargo(s);
      }
    }
  }

  lemma AppendedOnly(cmds: seq<Command>, extra: seq<Command>, phase: WorkerPhase, k: nat)
    requires OnlyRun(cmds, phase, k) && forall q :: 0 <= q < |extra| ==> extra[q] == ListDir || extra[q] == Cancel
    ensures OnlyRun(cmds + extra, phase, k)
  {
  }

  /** Keys and events that do not count change nothing of it. */
  lemma UiKeepsDelivering(w: World, step: Step, c: Chance, start: Servers)
    requires Inv(w.sys) && Delivering(w, start) && Enabled(w.sys, step) && !Counts(w.sys, step)
    requires step.Press? || step.StageItem? || step.UnstageLast? || step.Browse? || step.Deliver?
    requires w.sys.ui.relay.Some?
    ensures Delivering(WorldNext(w, step, c), start)
  {
    var s, t := w.sys, WorldNext(w, step, c);
    StepKeepsInv(s, step);
    if t.sys.ui.relay.Some? && t.sys.lost == 0 {
      UiKeepsLeg(s, step);
    }
    QuietKeepsDelivering(w, t, start);
  }

  lemma UiKeepsLeg(s: Sys, step: Step)
    requires Inv(s) && Enabled(s, step) && !Counts(s, step) && s.ui.relay.Some? && Next(s, step).ui.relay.Some?
    requires step.Press? || step.StageItem? || step.UnstageLast? || step.Browse? || step.Deliver?
    ensures var t := Next(s, step);
            t.ui.relay == s.ui.relay && t.lost == s.lost && t.ui.history.batch == s.ui.history.batch
            && t.outcomes == s.outcomes && forall k :: OnlyLeg(s, k) ==> OnlyLeg(t, k)
  {
    match step {
      case Deliver(side, dirMade) => DeliverKeepsLeg(s, side, dirMade);
      case Browse(side) => SendKeepsOnly(s, s.ui.Send(side, ListDir), if side == Remote then [ListDir] else [],
                                         if side == Remote then [] else [ListDir]);
      case Press(dirMade) => SendKeepsOnly(s, s.ui, [], []);
      case StageItem(t) => SendKeepsOnly(s, s.ui.Stage(t), [], []);
      case UnstageLast => SendKeepsOnly(s, s.ui.Unstage(), [], []);
    }
  }

  /** What the handlers send beside runs and file operations. */
  lemma SendKeepsOnly(s: Sys, ui: Ui, e1: seq<Command>, e2: seq<Command>)
    requires ui.tx == s.ui.tx + e1 && ui.tx2 == s.ui.tx2 + e2
    requires forall q :: 0 <= q < |e1| ==> e1[q] == ListDir || e1[q] == Cancel
    requires forall q :: 0 <= q < |e2| ==> e2[q] == ListDir || e2[q] == Cancel
    ensures forall k :: OnlyLeg(s, k) ==> OnlyLeg(s.(ui := ui), k)
  {
    forall k | OnlyLeg(s, k) ensures OnlyLeg(s.(ui := ui), k) {
      assert OnlyRun(s.Inbox(Remote), s.At(Remote).phase, k) && OnlyRun(s.Inbox(Local), s.At(Local).phase, k);
      AppendedOnly(s.ui.tx, e1, s.right.phase, k);
      AppendedOnly(s.ui.tx2, e2, s.left.phase, k);
    }
  }

  lemma DeliverKeepsLeg(s: Sys, side: Side, dirMade: bool)
    requires Inv(s) && Enabled(s, Deliver(side, dirMade)) && !Counts(s, Deliver(side, dirMade))
    requires s.ui.relay.Some? && DeliverStep(s, side, dirMade).ui.relay.Some?
    ensures var t := DeliverStep(s, side, dirMade);
            t.ui.relay == s.ui.relay && t.lost == s.lost && t.ui.history.batch == s.ui.history.batch
            && t.outcomes == s.outcomes && forall k :: OnlyLeg(s, k) ==> OnlyLeg(t, k)
  {
    var ui := DeliverStep(s, side, dirMade).ui;
    if s.At(side).outbox[0].OpDone? {
      SendKeepsOnly(s, ui, [ListDir], [ListDir]);
    } else {
      SendKeepsOnly(s, ui, [], []);
    }
    SameInboxes(s.(ui := ui), DeliverStep(s, side, dirMade));
  }

  lemma SameInboxes(s: Sys, t: Sys)
    requires t.ui == s.ui && t.right.phase == s.right.phase && t.left.phase == s.left.phase
    ensures forall k :: OnlyLeg(s, k) ==> OnlyLeg(t, k)
  {
    forall k, side | OnlyLeg(s, k) ensures OnlyRun(t.Inbox(side), t.At(side).phase, k) {
      assert OnlyRun(s.Inbox(side), s.At(side).phase, k);
    }
  }

  // ---------- The workers ----------

  lemma TakeKeepsDelivering(w: World, side: Side, ok: bool, c: Chance, start: Servers)
    requires Inv(w.sys) && Delivering(w, start) && Enabled(w.sys, Take(side, ok)) && w.sys.ui.relay.Some?
    ensures Delivering(WorldNext(w, Take(side, ok), c), start)
  {
    var s, t := w.sys, WorldNext(w, Take(side, ok), c);
    StepKeepsInv(s, Take(side, ok));
    TakeEffect(s, side, ok);
    TakeKeepsJob(s, side, ok);
    if s.lost == 0 {
      TakeKeepsOnly(s, side, ok, s.ui.relay.value.ticket);
      assert OnlyRun(s.Inbox(side), s.At(side).phase, s.ui.relay.value.ticket);
      QuietKeepsDelivering(w, t, start);
    }
  }

  lemma TakeKeepsOnly(s: Sys, side: Side, ok: bool, k: nat)
    requires Enabled(s, Take(side, ok)) && OnlyLeg(s, k)
    ensures OnlyLeg(TakeStep(s, side, ok), k)
  {
    var t := TakeStep(s, side, ok);
    TakeEffect(s, side, ok);
    forall other ensures OnlyRun(t.Inbox(other), t.At(other).phase, k) {
      assert OnlyRun(s.Inbox(other), s.At(other).phase, k);
      if other != side {
        assert other == Other(side);
      }
    }
  }

  /** No cancel stands behind the current leg, so its polls find none. */
  lemma LegIsNotCancelled(s: Sys, side: Side, k: nat)
    requires Inv(s) && Tracking(s) && s.ui.relay.value.ticket == k && OnlyLeg(s, k)
    requires s.At(side).phase.Starting? || s.At(side).phase.Moving?
    ensures s.At(side).phase.ticket == k && Cancel !in s.Inbox(side) && OutcomeOf(s, k).None?
    ensures side == LegOf(s.ui.relay.value).side && s.At(side).phase.item == LegOf(s.ui.relay.value).item
  {
    assert OnlyRun(s.Inbox(side), s.At(side).phase, k);
    assert JobTracked(s, s.ui.relay.value, side);
  }

  lemma PollKeepsDelivering(w: World, side: Side, n: nat, c: Chance, start: Servers)
    requires Inv(w.sys) && Delivering(w, start) && Enabled(w.sys, Poll(side, n)) && w.sys.ui.relay.Some?
    ensures Delivering(WorldNext(w, Poll(side, n), c), start)
  {
    var s, t := w.sys, WorldNext(w, Poll(side, n), c);
    StepKeepsInv(s, Poll(side, n));
    PollKeepsJob(s, side, n);
    if t.sys.lost == 0 {
      LegIsNotCancelled(s, side, s.ui.relay.value.ticket);
      PollKeepsOnly(s, side, n, s.ui.relay.value.ticket);
      QuietKeepsDelivering(w, t, start);
    }
  }

  lemma PollKeepsOnly(s: Sys, side: Side, n: nat, k: nat)
    requires Enabled(s, Poll(side, n)) && OnlyLeg(s, k)
    ensures OnlyLeg(PollStep(s, side, n), k)
  {
    var t := PollStep(s, side, n);
    forall other ensures OnlyRun(t.Inbox(other), t.At(other).phase, k) {
      assert OnlyRun(s.Inbox(other), s.At(other).phase, k);
    }
  }

  lemma EmitKeepsOnly(s: Sys, step: Step, k: nat)
    requires Enabled(s, step) && (step.Report? || step.End? || step.Close?) && OnlyLeg(s, k)
    ensures OnlyLeg(Next(s, step), k)
  {
    var t := Next(s, step);
    forall other ensures OnlyRun(t.Inbox(other), t.At(other).phase, k) {
      assert OnlyRun(s.Inbox(other), s.At(other).phase, k);
    }
  }

  lemma PassiveKeepsDelivering(w: World, step: Step, c: Chance, start: Servers)
    requires Inv(w.sys) && Delivering(w, start) && Enabled(w.sys, step) && (step.Report? || step.Close?)
    requires w.sys.ui.relay.Some?
    ensures Delivering(WorldNext(w, step, c), start)
  {
    StepKeepsInv(w.sys, step);
    if w.sys.lost == 0 {
      EmitKeepsOnly(w.sys, step, w.sys.ui.relay.value.ticket);
    }
    QuietKeepsDelivering(w, WorldNext(w, step, c), start);
  }

  /** The leg's own end: a fetch brings the cargo to scratch, a push takes it to the
      other server. */
  lemma LegArrives(f: Files, job: Job, c: Option<Tree>, before: Servers)
    requires job.items != [] && LegFiles(f, job, None, before, Copied(before, job.items[0]))
    requires At(f, LegOf(job).side, LegOf(job).item.src).Some?
    ensures Fits(LegOf(job).item)
    ensures var item, side := LegOf(job).item, LegOf(job).side;
            var g := Put(f, side, item.dst, Some(Over(At(f, side, item.dst), At(f, side, item.src).value)));
            LegFiles(g, job, Some(Done), before, Copied(before, job.items[0]))
  {
  }

  lemma TrimKeepsLeg(f: Files, job: Job, outcome: Option<Outcome>, before: Servers, after: Servers,
                     disk: map<nat, set<string>>)
    requires job.items != [] && LegFiles(f, job, outcome, before, after)
    requires (if job.leg == Pushing then outcome.None? else outcome == Some(Done)) ==>
      job.dir in disk && job.items[0].name in disk[job.dir]
    ensures LegFiles(Trim(f, disk), job, outcome, before, after)
  {
  }

  lemma DoneOneMore(start: Servers, job: Job, batch: seq<Item>)
    requires job.items != [] && |job.items| <= |batch| && job.items == batch[|batch| - |job.items|..]
    ensures var done := |batch| - |job.items|;
            AllCopied(start, batch[..done + 1]) == Copied(AllCopied(start, batch[..done]), job.items[0])
  {
    var done := |batch| - |job.items|;
    assert batch[..done + 1][..done] == batch[..done] && batch[done] == job.items[0];
  }

  lemma EndLeaves(s: Sys, side: Side, ok: bool)
    requires Enabled(s, End(side, ok))
    ensures var t := EndStep(s, side, ok);
            t.ui == s.ui && t.lost == s.lost
            && OutcomeOf(t, s.At(side).phase.ticket) == Some(if ok then Done else Failed)
  {
  }

  lemma EndKeepsDelivering(w: World, side: Side, ok: bool, c: Chance, start: Servers)
    requires Inv(w.sys) && Delivering(w, start) && Enabled(w.sys, End(side, ok)) && CanMove(w, End(side, ok))
    requires w.sys.ui.relay.Some? && Awaiting(w.sys.ui)
    ensures Delivering(WorldNext(w, End(side, ok), c), start)
  {
    var s := w.sys;
    EndLeaves(s, side, ok);
    if s.lost == 0 {
      var job := s.ui.relay.value;
      LegIsNotCancelled(s, side, job.ticket);
      EmitKeepsOnly(s, End(side, ok), job.ticket);
      if ok {
        EndArrives(w, side, c, start);
      }
    }
  }

  lemma EndArrives(w: World, side: Side, c: Chance, start: Servers)
    requires Inv(w.sys) && Delivering(w, start) && Enabled(w.sys, End(side, true)) && CanMove(w, End(side, true))
    requires Tracking(w.sys) && Awaiting(w.sys.ui)
    requires side == LegOf(w.sys.ui.relay.value).side
    requires w.sys.At(side).phase.item == LegOf(w.sys.ui.relay.value).item
    requires OutcomeOf(w.sys, w.sys.ui.relay.value.ticket).None?
        && w.sys.At(side).phase.ticket == w.sys.ui.relay.value.ticket
    ensures var s := w.sys; var job, batch := s.ui.relay.value, s.ui.history.batch; var done := |batch| - |job.items|;
            LegFiles(WorldNext(w, End(side, true), c).files, job, Some(Done),
                     AllCopied(start, batch[..done]), AllCopied(start, batch[..done + 1]))
  {
    var job, batch := w.sys.ui.relay.value, w.sys.ui.history.batch;
    MovingIsListed(w.sys, side);
    EndLeaves(w.sys, side, true);
    LegPuts(w.files, side, job, batch, w.sys.ui.disk, start);
  }

  lemma LegPuts(f: Files, side: Side, job: Job, batch: seq<Item>, disk: map<nat, set<string>>, start: Servers)
    requires job.items != [] && |job.items| <= |batch| && job.items == batch[|batch| - |job.items|..]
    requires side == LegOf(job).side && (Fits(LegOf(job).item) ==> At(f, side, LegOf(job).item.src).Some?)
    requires job.dir in disk && job.items[0].name in disk[job.dir]
    requires var done := |batch| - |job.items|;
             LegFiles(f, job, None, AllCopied(start, batch[..done]), AllCopied(start, batch[..done + 1]))
    ensures Fits(LegOf(job).item)
    ensures var item, done := LegOf(job).item, |batch| - |job.items|;
            LegFiles(Trim(Put(f, side, item.dst, Some(Over(At(f, side, item.dst), At(f, side, item.src).value))), disk),
                     job, Some(Done), AllCopied(start, batch[..done]), AllCopied(start, batch[..done + 1]))
  {
    var item, before := LegOf(job).item, AllCopied(start, batch[..|batch| - |job.items|]);
    DoneOneMore(start, job, batch);
    LegFits(job);
    LegArrives(f, job, None, before);
    TrimKeepsLeg(Put(f, side, item.dst, Some(Over(At(f, side, item.dst), At(f, side, item.src).value))),
                 job, Some(Done), before, Copied(before, job.items[0]), disk);
  }

  lemma LegFits(job: Job)
    requires job.items != []
    ensures Fits(LegOf(job).item)
  {
  }

  lemma MovingIsListed(s: Sys, side: Side)
    requires Inv(s) && Tracking(s) && s.At(side).phase.Moving? && s.At(side).phase.ticket == s.ui.relay.value.ticket
    requires OutcomeOf(s, s.ui.relay.value.ticket).None? && side == LegOf(s.ui.relay.value).side
    ensures var job := s.ui.relay.value; job.dir in s.ui.disk && job.items[0].name in s.ui.disk[job.dir]
  {
    assert JobTracked(s, s.ui.relay.value, side);
  }

  // ---------- Answers that count ----------

  /** Counting an answer turns a leg that has ended well into the next one. */
  lemma NextLegFiles(f: Files, job: Job, next: Job, before: Servers, after: Servers, later: Servers,
                     disk: map<nat, set<string>>)
    requires job.items != [] && next.items != [] && LegFiles(f, job, Some(Done), before, after)
    requires next == Following(job, next.ticket)
    requires job.dir in disk && disk[job.dir] == Before(next)
    ensures if job.leg == Fetching then LegFiles(Trim(f, disk), next, None, before, after)
            else LegFiles(Trim(f, disk), next, None, after, later)
  {
  }

  lemma FreshIsOnly(s: Sys)
    requires s.ui.relay.Some? && s.ui.relay.value.items != []
    requires forall side :: NoneRun(s.Inbox(side)) && !s.At(side).phase.Starting? && !s.At(side).phase.Moving?
    requires forall side, q :: 0 <= q < |s.Inbox(side)| ==> !s.Inbox(side)[q].FileOp?
    ensures OnlyLeg(s.(ui := s.ui.RelayStep()), s.ui.runs)
  {
    var t := s.(ui := s.ui.RelayStep());
    forall side ensures OnlyRun(t.Inbox(side), t.At(side).phase, s.ui.runs) {
      assert NoneRun(s.Inbox(side));
    }
  }

  lemma CountKeepsDelivering(w: World, side: Side, dirMade: bool, c: Chance, start: Servers)
    requires Inv(w.sys) && Awaiting(w.sys.ui) && Delivering(w, start) && Counts(w.sys, Deliver(side, dirMade))
    ensures Delivering(WorldNext(w, Deliver(side, dirMade), c), start)
  {
    DeliverWorld(w, side, dirMade, c);
    if DeliverStep(w.sys, side, dirMade).ui.relay.Some? {
      CountGoesOn(w, side, dirMade, start);
    }
  }

  lemma CountGoesOn(w: World, side: Side, dirMade: bool, start: Servers)
    requires Inv(w.sys) && Delivering(w, start) && Counts(w.sys, Deliver(side, dirMade))
    requires DeliverStep(w.sys, side, dirMade).ui.relay.Some?
    ensures var t := DeliverStep(w.sys, side, dirMade); Delivering(World(t, Trim(w.files, t.ui.disk)), start)
  {
    CountedLeg(w, side, start);
    CountIs(w.sys, side, dirMade);
    CountedIsOnly(w.sys, side, dirMade);
    GoesOnDelivering(w.files, w.sys.ui, DeliverStep(w.sys, side, dirMade), start);
  }

  lemma GoesOnDelivering(f: Files, ui: Ui, t: Sys, start: Servers)
    requires ui.relay.Some? && ui.relay.value.items != [] && |ui.relay.value.items| <= |ui.history.batch|
    requires ui.relay.value.dir in ui.disk && ui.disk[ui.relay.value.dir] == {ui.relay.value.items[0].name}
    requires var job, batch := ui.relay.value, ui.history.batch; var done := |batch| - |job.items|;
             LegFiles(f, job, Some(Done), AllCopied(start, batch[..done]), AllCopied(start, batch[..done + 1]))
    requires t.ui == ui.RelayQueueDone() && t.ui.relay.Some? && t.lost == 0 && OutcomeOf(t, ui.runs).None?
    requires OnlyLeg(t, ui.runs)
    ensures Delivering(World(t, Trim(f, t.ui.disk)), start)
  {
    CountedUi(f, ui, t, start);
    IsDelivering(World(t, Trim(f, t.ui.disk)), start);
  }

  lemma DeliverWorld(w: World, side: Side, dirMade: bool, c: Chance)
    requires Enabled(w.sys, Deliver(side, dirMade))
    ensures var t := DeliverStep(w.sys, side, dirMade);
            WorldNext(w, Deliver(side, dirMade), c) == World(t, Trim(w.files, t.ui.disk))
  {
  }

  lemma IsDelivering(w: World, start: Servers)
    requires Tracking(w.sys) && |w.sys.ui.relay.value.items| <= |w.sys.ui.history.batch|
    requires OnlyLeg(w.sys, w.sys.ui.relay.value.ticket)
    requires var job, batch := w.sys.ui.relay.value, w.sys.ui.history.batch; var done := |batch| - |job.items|;
             LegFiles(w.files, job, OutcomeOf(w.sys, job.ticket),
                      AllCopied(start, batch[..done]), AllCopied(start, batch[..done + 1]))
    ensures Delivering(w, start)
  {
  }

  lemma CountedUi(f: Files, ui: Ui, t: Sys, start: Servers)
    requires ui.relay.Some? && ui.relay.value.items != [] && |ui.relay.value.items| <= |ui.history.batch|
    requires ui.relay.value.dir in ui.disk && ui.disk[ui.relay.value.dir] == {ui.relay.value.items[0].name}
    requires var job, batch := ui.relay.value, ui.history.batch; var done := |batch| - |job.items|;
             LegFiles(f, job, Some(Done), AllCopied(start, batch[..done]), AllCopied(start, batch[..done + 1]))
    requires t.ui == ui.RelayQueueDone() && t.ui.relay.Some? && t.lost == 0 && OutcomeOf(t, ui.runs).None?
    ensures Tracking(t) && |t.ui.relay.value.items| <= |t.ui.history.batch| && t.ui.relay.value.ticket == ui.runs
    ensures var job, batch := t.ui.relay.value, t.ui.history.batch; var done := |batch| - |job.items|;
            LegFiles(Trim(f, t.ui.disk), job, OutcomeOf(t, job.ticket),
                     AllCopied(start, batch[..done]), AllCopied(start, batch[..done + 1]))
  {
    CountedNext(ui, t.ui);
    CountedFiles(f, ui.relay.value, t.ui.relay.value, ui.history.batch, t.ui.disk, start);
  }

  lemma CountedNext(ui: Ui, t: Ui)
    requires ui.relay.Some? && ui.relay.value.items != [] && t == ui.RelayQueueDone() && t.relay.Some?
    requires ui.relay.value.dir in ui.disk && ui.disk[ui.relay.value.dir] == {ui.relay.value.items[0].name}
    ensures var job, next := ui.relay.value, t.relay.value;
            next.items != [] && |next.items| <= |job.items| && next.ticket == ui.runs
            && next == Following(job, next.ticket)
            && t.history.batch == ui.history.batch && job.dir in t.disk && t.disk[job.dir] == Before(next)
  {
    CountedRelay(ui);
  }

  /** The leg behind a counted answer has ended well, with its files in place. */
  lemma CountedLeg(w: World, side: Side, start: Servers)
    requires Inv(w.sys) && Delivering(w, start) && Counts(w.sys, Deliver(side, true))
    ensures Tracking(w.sys) && |w.sys.ui.relay.value.items| <= |w.sys.ui.history.batch|
    ensures var ui := w.sys.ui; var job, batch := ui.relay.value, ui.history.batch; var done := |batch| - |job.items|;
            job.dir in ui.disk && ui.disk[job.dir] == {job.items[0].name}
            && LegFiles(w.files, job, Some(Done), AllCopied(start, batch[..done]), AllCopied(start, batch[..done + 1]))
    ensures OnlyLeg(w.sys, w.sys.ui.relay.value.ticket)
  {
    AdvanceIsEarned(w.sys, side);
  }

  lemma CountIs(s: Sys, side: Side, dirMade: bool)
    requires Inv(s) && Counts(s, Deliver(side, dirMade)) && s.ui.relay.Some?
    ensures var t := DeliverStep(s, side, dirMade);
            t.ui == s.ui.RelayQueueDone() && t.lost == s.lost && OutcomeOf(t, s.ui.runs).None?
  {
  }

  lemma CountedFiles(f: Files, job: Job, next: Job, batch: seq<Item>, disk: map<nat, set<string>>, start: Servers)
    requires job.items != [] && |job.items| <= |batch| && next.items != [] && next == Following(job, next.ticket)
    requires job.dir in disk && disk[job.dir] == Before(next)
    requires var done := |batch| - |job.items|;
             LegFiles(f, job, Some(Done), AllCopied(start, batch[..done]), AllCopied(start, batch[..done + 1]))
    ensures var done := |batch| - |next.items|;
            LegFiles(Trim(f, disk), next, None, AllCopied(start, batch[..done]), AllCopied(start, batch[..done + 1]))
  {
    var done := |batch| - |job.items|;
    NextLegFiles(f, job, next, AllCopied(start, batch[..done]), AllCopied(start, batch[..done + 1]),
                 AllCopied(start, batch[..|batch| - |next.items| + 1]), disk);
  }

  /** The relay one leg on. */
  function Following(job: Job, ticket: nat): Job {
    if job.leg == Fetching then job.(leg := Pushing, ticket := ticket)
    else job.(items := if job.items == [] then [] else job.items[1..], leg := Fetching, ticket := ticket)
  }

  /** What a counted answer makes of the relay that goes on. */
  lemma CountedRelay(ui: Ui)
    requires ui.relay.Some? && ui.relay.value.items != [] && ui.RelayQueueDone().relay.Some?
    requires ui.relay.value.dir in ui.disk && ui.disk[ui.relay.value.dir] == {ui.relay.value.items[0].name}
    ensures var job, t := ui.relay.value, ui.RelayQueueDone(); var next := t.relay.value;
            next.items != [] && t.history.batch == ui.history.batch && next == Following(job, ui.runs)
            && job.dir in t.disk && t.disk[job.dir] == Before(next)
  {
    NextLegReady(ui);
  }

  lemma CountedIsOnly(s: Sys, side: Side, dirMade: bool)
    requires Inv(s) && Counts(s, Deliver(side, dirMade)) && DeliverStep(s, side, dirMade).ui.relay.Some?
    requires Tracking(s) && OnlyLeg(s, s.ui.relay.value.ticket)
    ensures OnlyLeg(DeliverStep(s, side, dirMade), s.ui.runs)
  {
    var next := s.(ui := s.ui.NextLeg());
    AdvanceIsEarned(s, side);
    forall other, q | 0 <= q < |next.Inbox(other)| ensures !next.Inbox(other)[q].FileOp? {
      assert OnlyRun(s.Inbox(other), s.At(other).phase, s.ui.relay.value.ticket) && next.Inbox(other) == s.Inbox(other);
    }
    forall other ensures NoneRun(next.Inbox(other)) && next.At(other).phase.Idle? {
      assert NoneRun(s.Inbox(other)) && s.At(other).phase.Idle?;
    }
    FreshIsOnly(next);
    SameInboxes(next.(ui := next.ui.RelayStep()), DeliverStep(s, side, dirMade));
  }

  // ---------- Over a whole relay ----------

  lemma StepKeepsDelivering(w: World, step: Step, c: Chance, start: Servers)
    requires Inv(w.sys) && Awaiting(w.sys.ui) && Delivering(w, start) && w.sys.ui.relay.Some?
    requires Enabled(w.sys, step) && CanMove(w, step)
    ensures Delivering(WorldNext(w, step, c), start)
  {
    match step {
      case Take(side, ok) => TakeKeepsDelivering(w, side, ok, c, start);
      case Poll(side, n) => PollKeepsDelivering(w, side, n, c, start);
      case Report(side) => PassiveKeepsDelivering(w, step, c, start);
      case Close(side) => PassiveKeepsDelivering(w, step, c, start);
      case End(side, ok) => EndKeepsDelivering(w, side, ok, c, start);
      case Operate(side) => assert false;
      case Deliver(side, dirMade) =>
        if Counts(w.sys, step) {
          CountKeepsDelivering(w, side, dirMade, c, start);
        } else {
          UiKeepsDelivering(w, step, c, start);
        }
      case _ => UiKeepsDelivering(w, step, c, start);
    }
  }

  /** The batch a live relay was started with stays as it is. */
  lemma StepKeepsBatch(s: Sys, step: Step)
    requires Inv(s) && Awaiting(s.ui) && s.ui.relay.Some? && Enabled(s, step)
    ensures Next(s, step).ui.history.batch == s.ui.history.batch
  {
    match step {
      case Deliver(side, dirMade) => DeliverKeepsBatch(s, side, dirMade);
      case Press(dirMade) => assert s.ui.RunAll(dirMade) == s.ui;
      case StageItem(t) =>
      case UnstageLast =>
      case _ => OtherStepsKeepJob(s, step);
    }
  }

  lemma CountKeepsBatch(ui: Ui)
    requires ui.relay.Some?
    ensures ui.RelayQueueDone().history.batch == ui.history.batch
  {
  }

  lemma DeliverKeepsBatch(s: Sys, side: Side, dirMade: bool)
    requires Inv(s) && Awaiting(s.ui) && s.ui.relay.Some? && Enabled(s, Deliver(side, dirMade))
    ensures DeliverStep(s, side, dirMade).ui.history.batch == s.ui.history.batch
  {
    if Counts(s, Deliver(side, dirMade)) {
      CountIs(s, side, dirMade);
      CountKeepsBatch(s.ui);
    } else {
      EventKeepsJob(s.ui, side, s.At(side).outbox[0], dirMade);
    }
  }

  /** No run and no file operation is under way or waiting on either worker. */
  predicate AtRest(s: Sys) {
    RestsOn(s.ui.tx, s.right.phase) && RestsOn(s.ui.tx2, s.left.phase)
  }

  predicate RestsOn(cmds: seq<Command>, phase: WorkerPhase) {
    !phase.Starting? && !phase.Moving? && forall q :: 0 <= q < |cmds| ==> !cmds[q].RunQueue? && !cmds[q].FileOp?
  }

  /** A relay started on workers at rest has its first fetch ahead of it. */
  lemma PressStartsDelivery(w: World, c: Chance)
    requires Inv(w.sys) && AtRest(w.sys) && w.sys.ui.relay.None? && w.sys.ui.queue != []
    ensures var t := WorldNext(w, Press(true), c);
            t.sys.ui.relay.Some? && t.sys.ui.history.batch == w.sys.ui.queue && Delivering(t, w.files.servers)
  {
    var s := w.sys;
    var armed, t := s.(ui := s.ui.Armed()), s.(ui := s.ui.RunAll(true));
    forall side
      ensures NoneRun(armed.Inbox(side)) && !armed.At(side).phase.Starting? && !armed.At(side).phase.Moving?
      ensures forall q :: 0 <= q < |armed.Inbox(side)| ==> !armed.Inbox(side)[q].FileOp?
    {
      assert RestsOn(armed.Inbox(side), armed.At(side).phase);
    }
    FreshIsOnly(armed);
    assert t == armed.(ui := armed.ui.RelayStep()) && OutcomeOf(t, s.ui.runs).None?;
    assert t.ui.relay == Some(armed.ui.relay.value.(ticket := s.ui.runs)) && t.ui.disk[s.ui.dirs] == {};
    assert s.ui.queue[..0] == [];
    if t.lost == 0 {
      IsDelivering(World(t, Trim(w.files, t.ui.disk)), w.files.servers);
    }
  }

  /** The relay stays live until the last move, an answer after which it is over. */
  ghost predicate EndsWell(w: World, moves: seq<Move>)
    requires Moves(w, moves)
    decreases |moves|
  {
    && moves != [] && w.sys.ui.relay.Some?
    && var t := WorldNext(w, moves[0].step, moves[0].chance);
       if |moves| == 1 then
         moves[0].step.Deliver? && w.sys.At(moves[0].step.side).outbox[0].QueueDone? && t.sys.ui.relay.None?
       else EndsWell(t, moves[1..])
  }

  /** The answer that ends a relay finds everything copied. */
  lemma LastAnswerDelivers(w: World, side: Side, dirMade: bool, c: Chance, start: Servers)
    requires Inv(w.sys) && Awaiting(w.sys.ui) && Delivering(w, start) && w.sys.ui.relay.Some?
    requires w.sys.At(side).outbox != [] && w.sys.At(side).outbox[0].QueueDone?
    requires DeliverStep(w.sys, side, dirMade).ui.relay.None?
    ensures WorldNext(w, Deliver(side, dirMade), c).files.servers == AllCopied(start, w.sys.ui.history.batch)
  {
    var ui := w.sys.ui;
    OnlyAdvancingEnds(ui, side, w.sys.At(side).outbox[0], dirMade);
    EndingCounts(w.sys, side, dirMade);
    CountedLeg(w, side, start);
    DeliverWorld(w, side, dirMade, c);
    var batch := ui.history.batch;
    assert batch[..|batch|] == batch;
  }

  lemma EndingCounts(s: Sys, side: Side, dirMade: bool)
    requires s.ui.relay.Some? && s.At(side).outbox != [] && s.At(side).outbox[0].QueueDone?
    requires DeliverStep(s, side, dirMade).ui.relay.None?
    ensures Counts(s, Deliver(side, dirMade))
  {
  }

  /** However the workers and the keys interleave: a relay that is not stopped has
      copied its batch, item by item, and done nothing else to either server. */
  lemma {:induction false} RelayDelivers(w: World, moves: seq<Move>, start: Servers)
    requires Inv(w.sys) && Awaiting(w.sys.ui) && Delivering(w, start)
    requires Moves(w, moves) && EndsWell(w, moves)
    ensures After(w, moves).files.servers == AllCopied(start, w.sys.ui.history.batch)
    decreases |moves|
  {
    var step, c := moves[0].step, moves[0].chance;
    var t := WorldNext(w, step, c);
    if |moves| == 1 {
      LastAnswerDelivers(w, step.side, step.dirMade, c, start);
      assert After(t, moves[1..]) == t;
    } else {
      StepKeepsInv(w.sys, step);
      StepKeepsAwaiting(w.sys, step);
      StepKeepsBatch(w.sys, step);
      StepKeepsDelivering(w, step, c, start);
      RelayDelivers(t, moves[1..], start);
    }
  }

  /** In particular from the confirm key on workers at rest. */
  lemma PressDelivers(w: World, c: Chance, moves: seq<Move>)
    requires Inv(w.sys) && AtRest(w.sys) && w.sys.ui.relay.None? && w.sys.ui.queue != []
    requires var t := WorldNext(w, Press(true), c); Moves(t, moves) && EndsWell(t, moves)
    ensures After(WorldNext(w, Press(true), c), moves).files.servers == AllCopied(w.files.servers, w.sys.ui.queue)
  {
    PressStartsDelivery(w, c);
    StepKeepsInv(w.sys, Press(true));
    StepKeepsAwaiting(w.sys, Press(true));
    RelayDelivers(WorldNext(w, Press(true), c), moves, w.files.servers);
  }

  /** Every source exists on its server. */
  predicate Stocked(s: Servers, items: seq<Item>) {
    forall i :: 0 <= i < |items| ==> Cargo(s, items[i]).Some?
  }

  /** Copying takes nothing away. */
  lemma {:induction false} CopyingAdds(start: Servers, items: seq<Item>)
    ensures start.right.Keys <= AllCopied(start, items).right.Keys
        && start.left.Keys <= AllCopied(start, items).left.Keys
  {
    if items != [] {
      CopyingAdds(start, items[..|items| - 1]);
    }
  }

  /** With its sources in place a leg can be carried out. */
  lemma LegCanMove(w: World, start: Servers, step: Step)
    requires Going(w.sys) && Delivering(w, start) && Enabled(w.sys, step) && Stocked(start, w.sys.ui.history.batch)
    ensures CanMove(w, step)
  {
    if step.End? && step.ok {
      var s := w.sys;
      var job, batch := s.ui.relay.value, s.ui.history.batch;
      OneIsOwed(s);
      LegIsNotCancelled(s, step.side, job.ticket);
      CopyingAdds(start, batch[..|batch| - |job.items|]);
      assert job.items[0] == batch[|batch| - |job.items|];
    }
  }

  lemma {:induction false} DeliveryCanEnd(w: World, start: Servers, c: Chance) returns (moves: seq<Move>)
    requires Going(w.sys) && Delivering(w, start) && Stocked(start, w.sys.ui.history.batch)
    ensures Moves(w, moves) && EndsWell(w, moves)
    decreases LegsLeft(w.sys.ui), Stage(w.sys), Ahead(w.sys)
  {
    var step, t := GoOn(w.sys);
    LegCanMove(w, start, step);
    StepKeepsDelivering(w, step, c, start);
    var next := WorldNext(w, step, c);
    var rest: seq<Move> := [];
    if t.ui.relay.Some? {
      rest := DeliveryCanEnd(next, start, c);
    }
    moves := [Move(step, c)] + rest;
    assert moves[1..] == rest;
  }

  /** The confirm key, pressed with nothing outstanding and every source in place,
      starts a relay that can deliver its whole queue. */
  lemma PressCanDeliver(w: World, c: Chance) returns (moves: seq<Move>)
    requires Inv(w.sys) && AtRest(w.sys) && w.sys.lost == 0 && Owed(w.sys) == 0 && NoErrors(w.sys)
    requires w.sys.ui.queue != [] && Stocked(w.files.servers, w.sys.ui.queue)
    ensures var t := WorldNext(w, Press(true), c);
            Moves(t, moves) && EndsWell(t, moves)
            && After(t, moves).files.servers == AllCopied(w.files.servers, w.sys.ui.queue)
  {
    assert w.sys.ui.relay.None? && w.sys.ui.swallowDone == 0;
    PressStartsDelivery(w, c);
    PressGoes(w.sys);
    moves := DeliveryCanEnd(WorldNext(w, Press(true), c), w.files.servers, c);
    PressDelivers(w, c, moves);
  }

  // ---------- Item by item ----------

  predicate Writes(item: Item, side: Side, path: string) {
    item.dst == path && (item.direction == Download <==> side == Local)
  }

  predicate Reads(item: Item, side: Side, path: string) {
    item.src == path && (item.direction == Download <==> side == Remote)
  }

  /** Copying leaves every path alone that no item is to be written to. */
  lemma {:induction false} OthersStay(start: Servers, items: seq<Item>, side: Side, path: string)
    requires forall i :: 0 <= i < |items| ==> !Writes(items[i], side, path)
    ensures Found(AllCopied(start, items).On(side), path) == Found(start.On(side), path)
  {
    if items != [] {
      OthersStay(start, items[..|items| - 1], side, path);
      assert !Writes(items[|items| - 1], side, path);
    }
  }

  /** The files of a tree by their paths below its root. */
  function Leaf(t: Tree, path: seq<string>): Option<string>
    decreases |path|
  {
    match t
    case File(data) => if path == [] then Some(data) else None
    case Dir(entries) => if path != [] && path[0] in entries then Leaf(entries[path[0]], path[1..]) else None
  }

  /** Whatever was there, the copy holds every file of the original. */
  lemma {:induction false} OverHolds(before: Option<Tree>, t: Tree, path: seq<string>)
    requires Leaf(t, path).Some?
    ensures Leaf(Over(before, t), path) == Leaf(t, path)
    decreases |path|
  {
    if before.Some? && before.value.Dir? && t.Dir? {
      OverHolds(Found(before.value.entries, path[0]), t.entries[path[0]], path[1..]);
    }
  }

  /** The tree has nothing on the way to the path, nor in its place. */
  predicate Free(t: Tree, path: seq<string>)
    decreases |path|
  {
    t.Dir? && path != [] && (path[0] !in t.entries || Free(t.entries[path[0]], path[1..]))
  }

  /** And it keeps every file of what was there that the original has nothing for. */
  lemma {:induction false} OverKeeps(before: Tree, t: Tree, path: seq<string>)
    requires before.Dir? && Leaf(before, path).Some? && Free(t, path)
    ensures Leaf(Over(Some(before), t), path) == Leaf(before, path)
    decreases |path|
  {
    var name := path[0];
    if name in t.entries && before.entries[name].Dir? {
      OverKeeps(before.entries[name], t.entries[name], path[1..]);
    }
  }

  /** Every item of the batch arrives: on the server its direction names, under its
      destination, with each file its source held on the other server, unless
      another item writes to that source before it or to that destination after it. */
  lemma ItemArrives(start: Servers, items: seq<Item>, i: nat, path: seq<string>)
    requires i < |items|
    requires forall j :: i < j < |items| ==> !(items[j].direction == items[i].direction && items[j].dst == items[i].dst)
    requires forall j :: 0 <= j < i ==> !(items[j].direction != items[i].direction && items[j].dst == items[i].src)
    ensures var end, item := AllCopied(start, items), items[i];
            if item.direction == Download then
              item.src in start.right && Leaf(start.right[item.src], path).Some? ==>
                item.dst in end.left && Leaf(end.left[item.dst], path) == Leaf(start.right[item.src], path)
            else
              item.src in start.left && Leaf(start.left[item.src], path).Some? ==>
                item.dst in end.right && Leaf(end.right[item.dst], path) == Leaf(start.left[item.src], path)
  {
    var item, before := items[i], AllCopied(start, items[..i]);
    var (from, to) := if item.direction == Download then (Remote, Local) else (Local, Remote);
    OthersStay(start, items[..i], from, item.src);
    CopiedThen(start, items, i);
    if Found(start.On(from), item.src).Some? && Leaf(start.On(from)[item.src], path).Some? {
      OverHolds(Found(before.On(to), item.dst), start.On(from)[item.src], path);
      KeptAfter(start, items, i + 1, to, item.dst);
    }
  }

  lemma CopiedThen(start: Servers, items: seq<Item>, i: nat)
    requires i < |items|
    ensures AllCopied(start, items[..i + 1]) == Copied(AllCopied(start, items[..i]), items[i])
  {
    assert items[..i + 1][..i] == items[..i];
  }

  /** What stands at a path is not touched by items that write elsewhere. */
  lemma {:induction false} KeptAfter(start: Servers, items: seq<Item>, i: nat, side: Side, path: string)
    requires i <= |items| && forall j :: i <= j < |items| ==> !Writes(items[j], side, path)
    ensures Found(AllCopied(start, items).On(side), path) == Found(AllCopied(start, items[..i]).On(side), path)
    decreases |items|
  {
    if i == |items| {
      assert items[..i] == items;
    } else {
      var init := items[..|items| - 1];
      assert init[..i] == items[..i] && !Writes(items[|items| - 1], side, path);
      KeptAfter(start, init, i, side, path);
    }
  }

  /** A single file arrives as it is. */
  lemma FileArrives(start: Servers, items: seq<Item>, i: nat, data: string)
    requires i < |items|
    requires forall j :: i < j < |items| ==> !(items[j].direction == items[i].direction && items[j].dst == items[i].dst)
    requires forall j :: 0 <= j < i ==> !(items[j].direction != items[i].direction && items[j].dst == items[i].src)
    ensures var end, item := AllCopied(start, items), items[i];
            if item.direction == Download
            then Found(start.right, item.src) == Some(File(data)) ==> Found(end.left, item.dst) == Some(File(data))
            else Found(start.left, item.src) == Some(File(data)) ==> Found(end.right, item.dst) == Some(File(data))
  {
    ItemArrives(start, items, i, []);
  }
}
