/** The fixed-window debounce of the config watcher (src/watcher.rs), over a
    scripted source with a virtual clock. */
module Watcher {
  import opened Wrappers

  datatype Kind = Modify | Create | Remove | Access | Any

  type Path = seq<string>

  datatype Event = Event(kind: Kind, paths: seq<Path>)

  datatype Notice = Fine(event: Event) | Broken

  datatype Arrival = Arrival(notice: Notice, at: nat)

  datatype Received = Got(notice: Notice) | Timeout | Disconnected

  /** The last component of a path, unless it climbs. */
  function FileName(p: Path): Option<string> {
    if p == [] || p[|p| - 1] == ".." then None else Some(p[|p| - 1])
  }

  predicate IsConfigChange(event: Event, config: Path) {
    && event.kind in {Modify, Create, Remove}
    && exists p :: p in event.paths && (p == config || FileName(p) == FileName(config))
  }

  predicate Touches(notice: Notice, config: Path) {
    notice.Fine? && IsConfigChange(notice.event, config)
  }

  predicate Sorted(script: seq<Arrival>) {
    |script| > 1 ==> script[0].at <= script[1].at && Sorted(script[1..])
  }

  function Max(a: nat, b: nat): nat {
    if a < b then b else a
  }

  /** Arrivals still to come and the clock; the channel closes with the script. */
  class Source {
    var script: seq<Arrival>
    var clock: nat

    constructor (script: seq<Arrival>, clock: nat)
      ensures this.script == script && this.clock == clock
    {
      this.script, this.clock := script, clock;
    }

    /** Blocks until something arrives or the channel closes. */
    method Recv() returns (notice: Option<Notice>)
      modifies this
      ensures old(script) == [] ==> notice.None? && unchanged(this)
      ensures old(script) != [] ==>
        notice == Some(old(script)[0].notice) && script == old(script)[1..]
        && clock == Max(old(clock), old(script)[0].at)
    {
      if script == [] {
        return None;
      }
      notice := Some(script[0].notice);
      clock := Max(clock, script[0].at);
      script := script[1..];
    }

    method RecvTimeout(timeout: nat) returns (r: Received)
      modifies this
      ensures old(script) == [] ==> r.Disconnected? && unchanged(this)
      ensures old(script) != [] && old(script)[0].at < old(clock) + timeout ==>
        r == Got(old(script)[0].notice) && script == old(script)[1..] && clock == Max(old(clock), old(script)[0].at)
      ensures old(script) != [] && old(script)[0].at >= old(clock) + timeout ==>
        r.Timeout? && script == old(script) && clock == old(clock) + timeout
    {
      if script == [] {
        return Disconnected;
      }
      if script[0].at < clock + timeout {
        r := Got(script[0].notice);
        clock := Max(clock, script[0].at);
        script := script[1..];
      } else {
        clock := clock + timeout;
        r := Timeout;
      }
    }
  }

  /** The receiving end: when each change was reported, and how many reports are
      accepted before the receiver goes away, if it does. */
  class Sink {
    var sent: seq<nat>
    const limit: Option<nat>

    constructor (limit: Option<nat>)
      ensures sent == [] && this.limit == limit
    {
      sent := [];
      this.limit := limit;
    }

    method Send(now: nat) returns (ok: bool)
      modifies this`sent
      ensures ok <==> (limit.Some? ==> |old(sent)| < limit.value)
      ensures sent == if ok then old(sent) + [now] else old(sent)
    {
      if limit.Some? && |sent| >= limit.value {
        return false;
      }
      sent := sent + [now];
      return true;
    }
  }

  // ---------- What the loop computes ----------

  /** The arrivals left once those before `deadline` are swallowed. */
  function Skip(script: seq<Arrival>, deadline: nat): (rest: seq<Arrival>)
    ensures |rest| <= |script|
    ensures rest != [] ==> rest[0].at >= deadline
  {
    if script == [] || script[0].at >= deadline then script else Skip(script[1..], deadline)
  }

  /** The time of the last arrival, `from` if there is none. */
  function LastAt(script: seq<Arrival>, from: nat): nat {
    if script == [] then from else LastAt(script[1..], Max(from, script[0].at))
  }

  /** Greedy windows: the first config-touching arrival opens one, everything
      before its end is swallowed, and so on from there. */
  function Windows(script: seq<Arrival>, config: Path, window: nat): seq<nat>
    decreases |script|
  {
    if script == [] then []
    else if !Touches(script[0].notice, config) then Windows(script[1..], config, window)
    else [script[0].at] + Windows(Skip(script[1..], script[0].at + window), config, window)
  }

  /** When each window is reported: at its end, or, for the last one, already when
      the channel closes. */
  function Reports(script: seq<Arrival>, config: Path, window: nat): seq<nat>
    decreases |script|
  {
    if script == [] then []
    else if !Touches(script[0].notice, config) then Reports(script[1..], config, window)
    else
      var start, rest := script[0].at, Skip(script[1..], script[0].at + window);
      [if rest == [] && window > 0 then LastAt(script[1..], start) else start + window] + Reports(rest, config, window)
  }

  function Capped(times: seq<nat>, room: Option<nat>): seq<nat> {
    if room.Some? && room.value < |times| then times[..room.value] else times
  }

  function Room(sink: Sink): Option<nat>
    reads sink
  {
    match sink.limit
    case None => None
    case Some(n) => Some(if n <= |sink.sent| then 0 else n - |sink.sent|)
  }

  /** The clock never runs ahead of an arrival that was not received yet. */
  ghost predicate InStep(source: Source)
    reads source
  {
    Sorted(source.script) && (source.script != [] ==> source.clock <= source.script[0].at)
  }

  /** Wait out the window that the change just received has opened. */
  method SwallowWindow(source: Source, window: nat)
    requires InStep(source)
    modifies source
    ensures InStep(source) && source.script == Skip(old(source.script), old(source.clock) + window)
    ensures source.clock ==
      if source.script == [] && window > 0 then LastAt(old(source.script), old(source.clock))
      else old(source.clock) + window
  {
    var deadline := source.clock + window;
    ghost var swallowed, last := Skip(source.script, deadline), LastAt(source.script, source.clock);
    while true
      invariant InStep(source) && source.clock <= deadline
      invariant window > 0 ==> source.clock < deadline
      invariant window == 0 ==> source.clock == deadline
      invariant Skip(source.script, deadline) == swallowed && LastAt(source.script, source.clock) == last
      decreases |source.script|
    {
      var remaining := if source.clock < deadline then deadline - source.clock else 0;
      if remaining == 0 {
        break;
      }
      var r := source.RecvTimeout(remaining);
      match r {
        case Got(_) =>
        case Timeout => break;
        case Disconnected => break;
      }
    }
  }

  /** The loop of the watcher thread. Whatever arrives, and whenever the receiver
      leaves, it reports exactly the greedy windows, as far as they are accepted. */
  method DebounceLoop(source: Source, sink: Sink, config: Path, window: nat)
    requires InStep(source)
    modifies source, sink
    ensures sink.sent == old(sink.sent) + Capped(Reports(old(source.script), config, window), old(Room(sink)))
  {
    ghost var due := Capped(Reports(source.script, config, window), Room(sink));
    ghost var all := sink.sent + due;
    while true
      invariant InStep(source)
      invariant sink.sent + Capped(Reports(source.script, config, window), Room(sink)) == all
      decreases |source.script|
    {
      ghost var script, room, sent := source.script, Room(sink), sink.sent;
      var notice := source.Recv();
      if notice.None? {
        break;
      }
      if !Touches(notice.value, config) {
        continue;
      }
      SwallowWindow(source, window);
      var ok := sink.Send(source.clock);
      CappedStep(script, config, window, room, source.clock, source.script);
      if !ok {
        break;
      }
    }
  }

  /** One window's report, as the cap sees it. */
  lemma CappedStep(script: seq<Arrival>, config: Path, window: nat, room: Option<nat>, at: nat, rest: seq<Arrival>)
    requires script != [] && Touches(script[0].notice, config)
    requires rest == Skip(script[1..], script[0].at + window)
    requires at == if rest == [] && window > 0 then LastAt(script[1..], script[0].at) else script[0].at + window
    ensures room == Some(0) ==> Capped(Reports(script, config, window), room) == []
    ensures room != Some(0) ==>
      Capped(Reports(script, config, window), room)
      == [at] + Capped(Reports(rest, config, window), match room case None => None case Some(n) => Some(n - 1))
  {
  }

  // ---------- What the greedy windows promise ----------

  lemma SortedMember(script: seq<Arrival>, a: Arrival)
    requires Sorted(script) && a in script
    ensures a.at >= script[0].at
  {
  }

  lemma SkipSorted(script: seq<Arrival>, deadline: nat)
    requires Sorted(script)
    ensures Sorted(Skip(script, deadline))
  {
  }

  lemma SkipMember(script: seq<Arrival>, deadline: nat, a: Arrival)
    requires a in script
    ensures a.at < deadline || a in Skip(script, deadline)
  {
  }

  lemma SkipBack(script: seq<Arrival>, deadline: nat, a: Arrival)
    requires a in Skip(script, deadline)
    ensures a in script
  {
  }

  lemma LastAtBounds(script: seq<Arrival>, from: nat, a: Arrival)
    ensures LastAt(script, from) >= from
    ensures a in script ==> LastAt(script, from) >= a.at
  {
  }

  lemma LastAtWithin(script: seq<Arrival>, from: nat, deadline: nat)
    requires from < deadline && Skip(script, deadline) == []
    ensures LastAt(script, from) < deadline
  {
  }

  lemma AsManyReports(script: seq<Arrival>, config: Path, window: nat)
    ensures |Reports(script, config, window)| == |Windows(script, config, window)|
    decreases |script|
  {
    if script != [] && Touches(script[0].notice, config) {
      AsManyReports(Skip(script[1..], script[0].at + window), config, window);
    } else if script != [] {
      AsManyReports(script[1..], config, window);
    }
  }

  /** Every window opens at a config-touching arrival. */
  lemma {:induction false} WindowOpensAtChange(script: seq<Arrival>, config: Path, window: nat, i: nat)
    requires i < |Windows(script, config, window)|
    ensures exists a :: a in script && Touches(a.notice, config) && a.at == Windows(script, config, window)[i]
    decreases |script|
  {
    if !Touches(script[0].notice, config) {
      WindowOpensAtChange(script[1..], config, window, i);
      var a :| a in script[1..] && Touches(a.notice, config) && a.at == Windows(script, config, window)[i];
      assert a in script;
    } else if i > 0 {
      var rest := Skip(script[1..], script[0].at + window);
      WindowOpensAtChange(rest, config, window, i - 1);
      var a :| a in rest && Touches(a.notice, config) && a.at == Windows(rest, config, window)[i - 1];
      SkipBack(script[1..], script[0].at + window, a);
      assert a in script;
    } else {
      assert script[0] in script;
    }
  }

  /** Openings are at least one window apart. */
  lemma {:induction false} WindowsSpaced(script: seq<Arrival>, config: Path, window: nat, i: nat, j: nat)
    requires Sorted(script) && i < j < |Windows(script, config, window)|
    ensures Windows(script, config, window)[i] + window <= Windows(script, config, window)[j]
    decreases |script|
  {
    if !Touches(script[0].notice, config) {
      WindowsSpaced(script[1..], config, window, i, j);
    } else {
      var rest := Skip(script[1..], script[0].at + window);
      SkipSorted(script[1..], script[0].at + window);
      if i > 0 {
        WindowsSpaced(rest, config, window, i - 1, j - 1);
      } else {
        WindowOpensAtChange(rest, config, window, j - 1);
        var a :| a in rest && Touches(a.notice, config) && a.at == Windows(rest, config, window)[j - 1];
        SortedMember(rest, a);
      }
    }
  }

  /** The time falls in the window that opens at `start`; a window of length zero
      still covers its own opening. */
  predicate InWindow(at: nat, start: nat, window: nat) {
    start <= at && (at < start + window || at == start)
  }

  /** No change is lost: each lies in some window, whose report comes no earlier
      than the change and within `window` of it. */
  lemma {:induction false} EveryChangeIsReported(script: seq<Arrival>, config: Path, window: nat, a: Arrival)
    returns (i: nat)
    requires Sorted(script) && a in script && Touches(a.notice, config)
    ensures i < |Windows(script, config, window)| == |Reports(script, config, window)|
    ensures InWindow(a.at, Windows(script, config, window)[i], window)
    ensures a.at <= Reports(script, config, window)[i] <= a.at + window
    decreases |script|
  {
    AsManyReports(script, config, window);
    if !Touches(script[0].notice, config) {
      i := EveryChangeIsReported(script[1..], config, window, a);
    } else {
      var start, rest := script[0].at, Skip(script[1..], script[0].at + window);
      SortedMember(script, a);
      if a != script[0] {
        SkipMember(script[1..], start + window, a);
      }
      if a == script[0] || a.at < start + window {
        i := 0;
        LastAtBounds(script[1..], start, a);
        if rest == [] && window > 0 {
          LastAtWithin(script[1..], start, start + window);
        }
      } else {
        SkipSorted(script[1..], start + window);
        i := EveryChangeIsReported(rest, config, window, a);
        i := i + 1;
      }
    }
  }

  function Changes(script: seq<Arrival>, config: Path): seq<Arrival> {
    if script == [] then []
    else (if Touches(script[0].notice, config) then [script[0]] else []) + Changes(script[1..], config)
  }

  lemma SkipChanges(script: seq<Arrival>, config: Path, deadline: nat)
    requires Sorted(script)
    ensures Skip(Changes(script, config), deadline) == Changes(Skip(script, deadline), config)
  {
    var changes := Changes(script, config);
    if script == [] {
    } else if script[0].at < deadline {
      SkipChanges(script[1..], config, deadline);
      assert Touches(script[0].notice, config) ==> changes[1..] == Changes(script[1..], config);
      assert !Touches(script[0].notice, config) ==> changes == Changes(script[1..], config);
    } else if changes != [] {
      ChangesMember(script, config, changes[0]);
      SortedMember(script, changes[0]);
    }
  }

  lemma ChangesMember(script: seq<Arrival>, config: Path, a: Arrival)
    requires a in Changes(script, config)
    ensures a in script
  {
  }

  lemma WindowOfChanges(script: seq<Arrival>, config: Path, window: nat)
    requires script != [] && Sorted(script) && Touches(script[0].notice, config)
    ensures Windows(Changes(script, config), config, window) ==
      [script[0].at] + Windows(Changes(Skip(script[1..], script[0].at + window), config), config, window)
  {
    var changes := Changes(script, config);
    assert changes[0] == script[0] && changes[1..] == Changes(script[1..], config);
    SkipChanges(script[1..], config, script[0].at + window);
  }

  /** Other arrivals neither open a window nor extend one. */
  lemma {:induction false} OnlyChangesMatter(script: seq<Arrival>, config: Path, window: nat)
    requires Sorted(script)
    ensures Windows(Changes(script, config), config, window) == Windows(script, config, window)
    decreases |script|
  {
    if script != [] {
      if Touches(script[0].notice, config) {
        var later := Skip(script[1..], script[0].at + window);
        WindowOfChanges(script, config, window);
        SkipSorted(script[1..], script[0].at + window);
        OnlyChangesMatter(later, config, window);
      } else {
        assert Changes(script, config) == Changes(script[1..], config);
        OnlyChangesMatter(script[1..], config, window);
      }
    }
  }

  // ---------- What counts as a change ----------

  /** The last components are the same, or neither path has one. */
  predicate SameName(p: Path, config: Path) {
    var named := p != [] && p[|p| - 1] != "..";
    var configNamed := config != [] && config[|config| - 1] != "..";
    named == configNamed && (named ==> p[|p| - 1] == config[|config| - 1])
  }

  /** A file of the config's name, in whatever directory, was modified, created or
      removed. */
  ghost predicate Changed(a: Arrival, config: Path) {
    a.notice.Fine? && (a.notice.event.kind.Modify? || a.notice.event.kind.Create? || a.notice.event.kind.Remove?)
    && exists p :: p in a.notice.event.paths && SameName(p, config)
  }

  lemma ChangedMeansTouches(a: Arrival, config: Path)
    ensures Changed(a, config) <==> Touches(a.notice, config)
  {
  }

  /** Nothing is reported exactly when nothing of the kind arrives. */
  lemma {:induction false} SilentIffUnchanged(script: seq<Arrival>, config: Path, window: nat)
    ensures Reports(script, config, window) == [] <==> forall a :: a in script ==> !Changed(a, config)
    decreases |script|
  {
    if script != [] {
      ChangedMeansTouches(script[0], config);
      assert script == [script[0]] + script[1..];
      if !Touches(script[0].notice, config) {
        SilentIffUnchanged(script[1..], config, window);
      }
    }
  }

  /** Each such change is reported within the window, and not before it. */
  lemma ChangeIsReported(script: seq<Arrival>, config: Path, window: nat, a: Arrival)
    requires Sorted(script) && a in script && Changed(a, config)
    ensures exists i :: 0 <= i < |Reports(script, config, window)|
                        && a.at <= Reports(script, config, window)[i] <= a.at + window
  {
    ChangedMeansTouches(a, config);
    var i := EveryChangeIsReported(script, config, window, a);
  }

  /** Every report follows such a change within the window. */
  lemma {:induction false} ReportFollowsChange(script: seq<Arrival>, config: Path, window: nat, i: nat)
    returns (a: Arrival)
    requires Sorted(script) && i < |Reports(script, config, window)|
    ensures a in script && Changed(a, config)
    ensures a.at <= Reports(script, config, window)[i] <= a.at + window
    decreases |script|
  {
    ChangedMeansTouches(script[0], config);
    if !Touches(script[0].notice, config) {
      a := ReportFollowsChange(script[1..], config, window, i);
    } else {
      var start, rest := script[0].at, Skip(script[1..], script[0].at + window);
      if i == 0 {
        a := script[0];
        LastAtBounds(script[1..], start, a);
        if rest == [] && window > 0 {
          LastAtWithin(script[1..], start, start + window);
        }
      } else {
        SkipSorted(script[1..], start + window);
        a := ReportFollowsChange(rest, config, window, i - 1);
        SkipBack(script[1..], start + window, a);
      }
    }
  }

  lemma {:induction false} ChangesSkipOther(front: seq<Arrival>, other: Arrival, rest: seq<Arrival>, config: Path)
    requires !Touches(other.notice, config)
    ensures Changes(front + [other] + rest, config) == Changes(front + rest, config)
  {
    if front == [] {
      assert (front + [other] + rest)[1..] == rest && front + rest == rest;
    } else {
      ChangesSkipOther(front[1..], other, rest, config);
      assert (front + [other] + rest)[1..] == front[1..] + [other] + rest && (front + rest)[1..] == front[1..] + rest;
    }
  }

  /** An arrival of another kind or name, put in anywhere or taken out, changes
      neither the windows nor how many reports there are. */
  lemma OthersChangeNothing(front: seq<Arrival>, other: Arrival, rest: seq<Arrival>, config: Path, window: nat)
    requires Sorted(front + [other] + rest) && Sorted(front + rest) && !Changed(other, config)
    ensures Windows(front + [other] + rest, config, window) == Windows(front + rest, config, window)
    ensures |Reports(front + [other] + rest, config, window)| == |Reports(front + rest, config, window)|
  {
    ChangedMeansTouches(other, config);
    ChangesSkipOther(front, other, rest, config);
    OnlyChangesMatter(front + [other] + rest, config, window);
    OnlyChangesMatter(front + rest, config, window);
    AsManyReports(front + [other] + rest, config, window);
    AsManyReports(front + rest, config, window);
  }

  /** A second change before the end of the first one's window shares its report,
      one at the end of it or later has its own. The last report comes as soon as
      the channel closes. */
  lemma TwoChanges(a: Arrival, b: Arrival, config: Path, window: nat)
    requires a.at <= b.at && window > 0 && Changed(a, config) && Changed(b, config)
    ensures Reports([a, b], config, window) ==
      if b.at < a.at + window then [b.at] else [a.at + window, b.at]
  {
    ChangedMeansTouches(a, config);
    ChangedMeansTouches(b, config);
    assert [a, b][1..] == [b] && [b][1..] == [];
    assert Skip([b], a.at + window) == if b.at >= a.at + window then [b] else [];
    assert Reports([b], config, window) == [b.at] && LastAt([b], a.at) == b.at;
    assert Reports([], config, window) == [];
  }

  /** The indices of the intervals of `cover` that hold the first `n` openings. */
  lemma {:induction false} DistinctHolders(script: seq<Arrival>, config: Path, window: nat, cover: seq<nat>, n: nat)
    returns (used: set<nat>)
    requires Sorted(script) && window > 0 && n <= |Windows(script, config, window)|
    requires forall a :: a in script && Touches(a.notice, config) ==> exists c :: c in cover && c <= a.at < c + window
    ensures |used| == n && forall u :: u in used ==> u < |cover|
    ensures forall u :: u in used ==>
        exists i :: 0 <= i < n && cover[u] <= Windows(script, config, window)[i] < cover[u] + window
    decreases n
  {
    if n == 0 {
      used := {};
    } else {
      var times := Windows(script, config, window);
      used := DistinctHolders(script, config, window, cover, n - 1);
      WindowOpensAtChange(script, config, window, n - 1);
      var a :| a in script && Touches(a.notice, config) && a.at == times[n - 1];
      var c :| c in cover && c <= a.at < c + window;
      var u: nat :| u < |cover| && cover[u] == c;
      if u in used {
        var i :| 0 <= i < n - 1 && cover[u] <= times[i] < cover[u] + window;
        WindowsSpaced(script, config, window, i, n - 1);
      }
      used := used + {u};
      assert cover[u] <= times[n - 1] < cover[u] + window;
    }
  }

  lemma SmallIndexSet(used: set<nat>, n: nat)
    requires forall u :: u in used ==> u < n
    ensures |used| <= n
  {
    if n > 0 {
      var fewer := used - {n - 1};
      SmallIndexSet(fewer, n - 1);
      assert used <= fewer + {n - 1};
      assert |used| <= |fewer + {n - 1}| by {
        SubsetSize(used, fewer + {n - 1});
      }
    } else {
      assert used == {};
    }
  }

  lemma SubsetSize(a: set<nat>, b: set<nat>)
    requires a <= b
    ensures |a| <= |b|
  {
    assert b == a + (b - a);
  }

  /** No scheme of windows of this length that covers every change needs fewer
      reports than the loop makes. */
  lemma ReportsAreFewest(script: seq<Arrival>, config: Path, window: nat, cover: seq<nat>)
    requires Sorted(script) && window > 0
    requires forall a :: a in script && Touches(a.notice, config) ==> exists c :: c in cover && c <= a.at < c + window
    ensures |Reports(script, config, window)| <= |cover|
  {
    AsManyReports(script, config, window);
    var used := DistinctHolders(script, config, window, cover, |Windows(script, config, window)|);
    SmallIndexSet(used, |cover|);
  }
}
