/** Consequences of the relay's invariants: what is sent, what stays queued, and
    when a restart loses a run command. */
module RelayResults {
  import opened Wrappers
  import opened Relay
  import opened RelaySystem
  import opened RelaySafety

  // ---------- The legs of a batch, in order ----------

  /** Fetch then push, per item, in queue order. */
  function Plan(batch: seq<Item>, dir: nat): seq<Sent> {
    if batch == [] then []
    else [LegFor(batch[0], dir, Fetching), LegFor(batch[0], dir, Pushing)] + Plan(batch[1..], dir)
  }

  lemma PlanAt(batch: seq<Item>, dir: nat, i: nat)
    requires i < |batch|
    ensures |Plan(batch, dir)| == 2 * |batch|
    ensures Plan(batch, dir)[2 * i] == LegFor(batch[i], dir, Fetching)
    ensures Plan(batch, dir)[2 * i + 1] == LegFor(batch[i], dir, Pushing)
    ensures forall k :: 2 * i <= k <= 2 * i + 1 ==>
      Plan(batch, dir)[k].item.name == batch[i].name && Plan(batch, dir)[k].item.isDir == batch[i].isDir
  {
    if i > 0 {
      PlanAt(batch[1..], dir, i - 1);
    } else if |batch| > 1 {
      PlanAt(batch[1..], dir, 0);
    }
  }

  lemma PlanLength(batch: seq<Item>, dir: nat)
    ensures |Plan(batch, dir)| == 2 * |batch|
  {
  }

  /** The items still to go are the batch's tail, and the answers counted are two
      per item across plus one when the current item is fetched. */
  predicate Progressed(job: Job, h: History) {
    && |job.items| <= |h.batch| && job.items == h.batch[|h.batch| - |job.items|..]
    && job.total == |h.batch|
    && h.counted == 2 * (|h.batch| - |job.items|) + (if job.leg == Pushing then 1 else 0)
    && (job.items == [] ==> job.leg == Fetching)
  }

  /** The legs sent are exactly the plan's first `n`. */
  predicate SentExactly(job: Job, h: History, n: nat) {
    n <= |Plan(h.batch, job.dir)| && h.legs == Plan(h.batch, job.dir)[..n]
  }

  predicate Ready(ui: Ui) {
    ui.relay.Some? && Progressed(ui.relay.value, ui.history)
        && SentExactly(ui.relay.value, ui.history, ui.history.counted)
  }

  /** A live relay has sent the legs counted so far and the one it waits for. */
  predicate Awaiting(ui: Ui) {
    ui.relay.Some? ==>
      && ui.relay.value.items != [] && Progressed(ui.relay.value, ui.history)
      && SentExactly(ui.relay.value, ui.history, ui.history.counted + 1)
  }

  lemma StepEnds(ui: Ui)
    requires Ready(ui) && ui.relay.value.items == []
    ensures ui.RelayStep().relay.None? && ui.RelayStep().history == ui.history
    ensures ui.history.counted == 2 * |ui.history.batch|
        && ui.history.legs == Plan(ui.history.batch, ui.relay.value.dir)
  {
    var plan := Plan(ui.history.batch, ui.relay.value.dir);
    PlanLength(ui.history.batch, ui.relay.value.dir);
    assert plan[..2 * |ui.history.batch|] == plan;
  }

  lemma NextOnPlan(job: Job, h: History)
    requires Progressed(job, h) && job.items != [] && SentExactly(job, h, h.counted)
    ensures SentExactly(job, h.(legs := h.legs + [LegOf(job)]), h.counted + 1)
  {
    var i, plan := |h.batch| - |job.items|, Plan(h.batch, job.dir);
    PlanAt(h.batch, job.dir, i);
    assert job.items[0] == h.batch[i];
    assert plan[h.counted] == LegOf(job);
    assert plan[..h.counted + 1] == plan[..h.counted] + [LegOf(job)];
  }

  lemma StepSends(ui: Ui)
    requires Ready(ui)
    ensures Awaiting(ui.RelayStep())
  {
    if ui.relay.value.items == [] {
      StepEnds(ui);
    } else {
      NextOnPlan(ui.relay.value, ui.history);
      assert ui.RelayStep().relay == Some(ui.relay.value.(ticket := ui.runs));
    }
  }

  lemma NextIsReady(ui: Ui)
    requires ui.relay.Some? && Awaiting(ui)
    ensures Ready(ui.NextLeg()) && ui.NextLeg().history.batch == ui.history.batch
    ensures ui.NextLeg().relay.value.dir == ui.relay.value.dir
  {
    var job, h := ui.relay.value, ui.history;
    if job.leg == Pushing {
      assert job.items[1..] == h.batch[|h.batch| - |job.items| + 1..];
    }
  }

  lemma ArmedIsReady(ui: Ui)
    requires ui.queue != []
    ensures Ready(ui.Armed())
  {
  }

  /** What the relay, its history and the queue look like before and after a step
      that neither presses, stages, unstages nor counts an answer. */
  predicate SameJob(ui: Ui, after: Ui) {
    && after.history == ui.history && after.queue == ui.queue
    && (after.relay.None? || (after.relay == ui.relay && after.running == ui.running))
  }

  lemma PollKeepsJob(s: Sys, side: Side, n: nat)
    requires Enabled(s, Poll(side, n))
    ensures SameJob(s.ui, PollStep(s, side, n).ui)
  {
  }

  lemma TakeKeepsJob(s: Sys, side: Side, ok: bool)
    requires Enabled(s, Take(side, ok))
    ensures SameJob(s.ui, TakeStep(s, side, ok).ui)
  {
  }

  lemma OtherStepsKeepJob(s: Sys, step: Step)
    requires Enabled(s, step)
    requires step.Browse? || step.Operate? || step.Take? || step.Poll? || step.Report? || step.End? || step.Close?
    ensures SameJob(s.ui, Next(s, step).ui)
  {
    match step {
      case Poll(side, n) => PollKeepsJob(s, side, n);
      case Take(side, ok) => TakeKeepsJob(s, side, ok);
      case _ =>
    }
  }

  lemma EventKeepsJob(ui: Ui, side: Side, ev: Event, dirMade: bool)
    requires ev.QueueDone? ==> ui.swallowDone > 0
    ensures SameJob(ui, ui.OnEvent(side, ev, dirMade))
  {
  }

  /** The answer that counts towards the relay. */
  predicate Counts(s: Sys, step: Step) {
    step.Deliver? && s.At(step.side).outbox != [] && s.At(step.side).outbox[0].QueueDone? && s.ui.swallowDone == 0
  }

  lemma AdvanceKeepsAwaiting(s: Sys, side: Side, dirMade: bool)
    requires Inv(s) && Awaiting(s.ui) && Counts(s, Deliver(side, dirMade))
    ensures Awaiting(DeliverStep(s, side, dirMade).ui)
  {
    AdvanceIsEarned(s, side);
    NextIsReady(s.ui);
    StepSends(s.ui.NextLeg());
  }

  lemma PressKeepsAwaiting(ui: Ui, dirMade: bool)
    requires Awaiting(ui)
    ensures Awaiting(ui.RunAll(dirMade))
  {
    if ui.phase != Running && ui.queue != [] && dirMade {
      ArmedIsReady(ui);
      StepSends(ui.Armed());
    }
  }

  lemma StageKeepsAwaiting(ui: Ui, t: Item)
    requires Awaiting(ui)
    ensures Awaiting(ui.Stage(t))
  {
  }

  lemma UnstageKeepsAwaiting(ui: Ui)
    requires Awaiting(ui)
    ensures Awaiting(ui.Unstage())
  {
  }

  lemma StepKeepsAwaiting(s: Sys, step: Step)
    requires Inv(s) && Awaiting(s.ui) && Enabled(s, step)
    ensures Awaiting(Next(s, step).ui)
  {
    match step {
      case Deliver(side, dirMade) =>
        if Counts(s, step) {
          AdvanceKeepsAwaiting(s, side, dirMade);
        } else {
          EventKeepsJob(s.ui, side, s.At(side).outbox[0], dirMade);
        }
      case Press(dirMade) => PressKeepsAwaiting(s.ui, dirMade);
      case StageItem(t) => StageKeepsAwaiting(s.ui, t);
      case UnstageLast => UnstageKeepsAwaiting(s.ui);
      case _ => OtherStepsKeepJob(s, step);
    }
  }

  lemma OnlyAdvancingEnds(ui: Ui, side: Side, ev: Event, dirMade: bool)
    requires ui.relay.Some? && ev.QueueDone? && ui.OnEvent(side, ev, dirMade).relay.None?
    ensures ui.OnEvent(side, ev, dirMade) == ui.NextLeg().RelayStep() && ui.NextLeg().relay.value.items == []
  {
  }

  /** A relay that ends without an abort has sent exactly fetch then push for each
      item of its batch, in queue order and each to the right worker, and ends on
      the `2n`-th counted answer. */
  lemma FinishIsComplete(s: Sys, side: Side, dirMade: bool)
    requires Inv(s) && Awaiting(s.ui) && s.ui.relay.Some?
    requires s.At(side).outbox != [] && s.At(side).outbox[0].QueueDone?
    requires DeliverStep(s, side, dirMade).ui.relay.None?
    ensures var h := DeliverStep(s, side, dirMade).ui.history;
      && h.batch == s.ui.history.batch && h.counted == 2 * |h.batch|
      && h.legs == Plan(h.batch, s.ui.relay.value.dir)
  {
    OnlyAdvancingEnds(s.ui, side, s.At(side).outbox[0], dirMade);
    NextIsReady(s.ui);
    StepEnds(s.ui.NextLeg());
  }

  // ---------- The queue ----------

  /** No two staged items share both ends, the rule staging enforces. */
  predicate Distinct(queue: seq<Item>) {
    forall i, j :: 0 <= i < j < |queue| ==> !(queue[i].src == queue[j].src && queue[i].dst == queue[j].dst)
  }

  /** While a relay is live the queue is what it has not finished, then whatever
      was staged since it started. */
  predicate QueueKept(ui: Ui) {
    && Distinct(ui.queue)
    && (ui.relay.Some? ==> ui.queue == ui.relay.value.items + ui.history.staged && ui.running == ui.relay.value.items)
  }

  lemma WithoutDistinct(front: Item, rest: seq<Item>)
    requires Distinct([front] + rest)
    ensures Without([front] + rest, front) == rest
  {
    assert ([front] + rest)[1..] == rest;
    forall i | 0 <= i < |rest| ensures rest[i] != front {
      assert ([front] + rest)[i + 1] == rest[i];
    }
    WithoutAbsent(rest, front);
  }

  lemma WithoutAbsent(s: seq<Item>, done: Item)
    requires forall i :: 0 <= i < |s| ==> s[i] != done
    ensures Without(s, done) == s
  {
  }

  /** What a plain run leaves: the items that were not part of it, in order. */
  lemma {:induction false} MinusJoins(a: seq<Item>, b: seq<Item>, done: seq<Item>)
    ensures Minus(a + b, done) == Minus(a, done) + Minus(b, done)
    ensures |a| == 1 ==> Minus(a, done) == if a[0] in done then [] else a
    ensures forall t :: t in Minus(a, done) <==> t in a && t !in done
  {
    if a == [] {
      assert a + b == b;
    } else {
      assert (a + b)[1..] == a[1..] + b && a == [a[0]] + a[1..];
      MinusJoins(a[1..], b, done);
    }
  }

  /** The end of a plain run takes what ran off the queue and nothing else. */
  lemma PlainRunLeavesTheRest(ui: Ui, dirMade: bool, t: Item)
    requires ui.relay.None?
    ensures t in ui.PlainDone(dirMade).queue <==> t in ui.queue && t !in ui.running
  {
    MinusJoins(ui.queue, [], ui.running);
  }

  lemma PopKeepsQueue(ui: Ui)
    requires QueueKept(ui) && ui.relay.Some? && ui.relay.value.items != []
    ensures QueueKept(ui.NextLeg())
  {
    if ui.relay.value.leg == Pushing {
      var done, items, staged := ui.relay.value.items[0], ui.relay.value.items, ui.history.staged;
      assert items == [done] + items[1..];
      assert ui.queue == [done] + (items[1..] + staged);
      WithoutDistinct(done, items[1..] + staged);
      forall i, j | 0 <= i < j < |items| ensures !(items[i].src == items[j].src && items[i].dst == items[j].dst) {
        assert ui.queue[i] == items[i] && ui.queue[j] == items[j];
      }
      WithoutDistinct(done, items[1..]);
      forall i, j | 0 <= i < j < |items[1..] + staged|
        ensures var q := items[1..] + staged; !(q[i].src == q[j].src && q[i].dst == q[j].dst)
      {
        assert ui.queue[i + 1] == (items[1..] + staged)[i] && ui.queue[j + 1] == (items[1..] + staged)[j];
      }
    }
  }

  lemma StageKeepsQueue(ui: Ui, t: Item)
    requires QueueKept(ui)
    ensures QueueKept(ui.Stage(t))
  {
  }

  /** Nothing but the unstage key takes an unfinished item off the queue. */
  lemma StepKeepsQueue(s: Sys, step: Step)
    requires Inv(s) && QueueKept(s.ui) && Enabled(s, step)
    requires step.UnstageLast? ==> s.ui.relay.None?
    ensures QueueKept(Next(s, step).ui)
  {
    if Counts(s, step) {
      AdvanceIsEarned(s, step.side);
      PopKeepsQueue(s.ui);
      RelayStepKeepsQueue(s.ui.NextLeg());
    } else if step.Deliver? {
      EventKeepsJob(s.ui, step.side, s.At(step.side).outbox[0], step.dirMade);
    } else if step.Press? {
      assert s.ui.queue + [] == s.ui.queue;
      RelayStepKeepsQueue(s.ui.Armed());
    } else if step.StageItem? {
      StageKeepsQueue(s.ui, step.t);
    } else if !step.UnstageLast? {
      OtherStepsKeepJob(s, step);
    }
  }

  lemma RelayStepKeepsQueue(ui: Ui)
    requires QueueKept(ui)
    ensures QueueKept(ui.RelayStep())
  {
  }

  /** An error stops the relay with exactly the items whose push was not counted
      still queued, in order, followed by those staged since. */
  lemma AbortKeepsUnfinished(s: Sys, side: Side, dirMade: bool)
    requires QueueKept(s.ui) && Awaiting(s.ui) && s.ui.relay.Some?
    requires s.At(side).outbox != [] && s.At(side).outbox[0].Error?
    ensures var after := DeliverStep(s, side, dirMade).ui;
      && after.relay.None? && after.phase == Browsing && after.runFailed
      && after.queue == s.ui.history.batch[s.ui.history.counted / 2..] + s.ui.history.staged
  {
  }
}
