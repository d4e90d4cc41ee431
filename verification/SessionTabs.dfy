/** Embedded session tabs, the session picker over them, and the clipboard relay
    (src/app/session.rs, src/app/session_picker.rs, src/app/session_spawn.rs). */
module SessionTabs {
  import opened Wrappers
  import Arithmetic

  datatype Phase = Connecting | Running | Exited

  /** A session by its phase and the clipboard writes seen since the last frame. */
  datatype Session = Session(name: string, phase: Phase, writes: seq<string>)

  /** Where keys go; `Elsewhere` stands for every other overlay and form. */
  datatype Mode = Dashboard | InConnecting | InSession | InPicker | Elsewhere

  datatype Purpose = NewSession | SftpLeftPane | SwitchSession

  datatype Picker = Picker(purpose: Purpose, query: string, selected: nat, returnMode: Mode)

  predicate IsSessionMode(m: Mode) {
    m == InConnecting || m == InSession
  }

  function ModeOf(phase: Phase): Mode {
    if phase == Connecting then InConnecting else InSession
  }

  /** Remainder as Rust computes it: the sign of the dividend. */
  function Rem(a: int, n: int): int
    requires n > 0
  {
    if a >= 0 then a % n else -((-a) % n)
  }

  /** Indices of the sessions a query finds, all of them when it is empty. */
  function SessionRows(sessions: seq<Session>, query: string, found: (string, Session) -> bool): (r: seq<nat>)
    ensures forall k :: 0 <= k < |r| ==> r[k] < |sessions|
    ensures query == "" ==> |r| == |sessions| && forall k :: 0 <= k < |r| ==> r[k] == k
  {
    if sessions == [] then []
    else
      var last := |sessions| - 1;
      SessionRows(sessions[..last], query, found) + if query == "" || found(query, sessions[last]) then [last] else []
  }

  /** The switcher lists the sessions the query finds, from left to right. */
  lemma {:induction false} RowsAreFound(sessions: seq<Session>, query: string, found: (string, Session) -> bool)
    ensures var r := SessionRows(sessions, query, found);
            (forall i, j :: 0 <= i < j < |r| ==> r[i] < r[j])
            && forall k: nat :: k in r <==> k < |sessions| && (query == "" || found(query, sessions[k]))
  {
    if sessions != [] {
      var init := sessions[..|sessions| - 1];
      var r, before := SessionRows(sessions, query, found), SessionRows(init, query, found);
      RowsAreFound(init, query, found);
      forall k: nat ensures k in r <==> k < |sessions| && (query == "" || found(query, sessions[k])) {
        assert k < |init| ==> init[k] == sessions[k];
        assert k in r <==> k in before || (k == |init| && (query == "" || found(query, sessions[k])));
      }
    }
  }

  datatype PickerKey = Esc | LocalShell | Down | Up | Enter | Backspace | Type(c: char)

  // ---------------------------------------------------------------- operations on the state

  datatype Tabs = Tabs(sessions: seq<Session>, active: Option<nat>, mode: Mode, picker: Option<Picker>)
  {
    /** A successful spawn, from wherever it was asked for. */
    function Spawned(name: string): Tabs {
      this.(sessions := sessions + [Session(name, Connecting, [])], active := Some(|sessions|), mode := InConnecting)
    }

    function Detached(): Tabs {
      this.(mode := Dashboard)
    }

    function Focused(): Tabs {
      if active.None? then if sessions == [] then this.(mode := Dashboard) else this
      else if active.value < |sessions| then this.(mode := ModeOf(sessions[active.value].phase))
      else this
    }

    function Closed(): Tabs {
      if active.None? then this.(mode := Dashboard)
      else
        var i := active.value;
        var left := if i < |sessions| then sessions[..i] + sessions[i + 1..] else sessions;
        if left == [] then this.(sessions := left, active := None, mode := Dashboard)
        else
          var next := if i < |left| - 1 then i else |left| - 1;
          this.(sessions := left, active := Some(next),
                mode := if mode == Dashboard then Dashboard else ModeOf(left[next].phase))
    }

    function Switched(delta: int): Tabs {
      if sessions == [] then this.(active := None, mode := Dashboard)
      else
        var next := ((if active.Some? then active.value else 0) + delta) % |sessions|;
        this.(active := Some(next), mode := if mode == Dashboard then Dashboard else ModeOf(sessions[next].phase))
    }

    function PickerOpened(purpose: Purpose): Tabs {
      if (purpose == SwitchSession && sessions == []) || !(mode == Dashboard || IsSessionMode(mode)) then this
      else
        var selected :=
          if purpose == SwitchSession && active.Some? && active.value < |sessions| then active.value else 0;
        this.(picker := Some(Picker(purpose, "", selected, mode)), mode := InPicker)
    }

    function PickerClosed(): Tabs {
      var back := if picker.Some? then picker.value.returnMode else Dashboard;
      var bare := this.(picker := None);
      var after := if IsSessionMode(back) then bare.Focused() else bare.(mode := back);
      if after.mode == InPicker then after.(mode := Dashboard) else after
    }

    /** Enter on a row of the switcher. */
    function Jumped(index: nat): Tabs {
      this.(active := Some(index), picker := None).Focused()
    }

    /** A key while the picker is up. `hosts` is the number of host rows shown when
        it lists hosts; `spawned` is the name of the session a connection opens, if
        it does. */
    function PickerKeyed(key: PickerKey, hosts: nat, spawned: Option<string>, found: (string, Session) -> bool): Tabs
      requires picker.Some?
    {
      var p := picker.value;
      var rows := if p.purpose == SwitchSession then |SessionRows(sessions, p.query, found)| else hosts;
      match key
      case Esc => PickerClosed()
      case LocalShell => PickerClosed().MaybeSpawned(spawned)
      case Down => if rows == 0 then this else this.(picker := Some(p.(selected := (p.selected + 1) % rows)))
      case Up => if rows == 0 then this else this.(picker := Some(p.(selected := (p.selected + rows - 1) % rows)))
      case Backspace =>
        this.(picker := Some(p.(query := if p.query == "" then "" else p.query[..|p.query| - 1], selected := 0)))
      case Type(c) => this.(picker := Some(p.(query := p.query + [c], selected := 0)))
      case Enter =>
        if p.selected >= rows then this
        else match p.purpose
          case SwitchSession => Jumped(SessionRows(sessions, p.query, found)[p.selected])
          case NewSession => PickerClosed().MaybeSpawned(spawned)
          case SftpLeftPane => PickerClosed()
    }

    function MaybeSpawned(name: Option<string>): Tabs {
      if name.Some? then Spawned(name.value) else this
    }

    /** A session fills the screen, under the picker if that was opened over one. */
    predicate SessionIsRendered() {
      IsSessionMode(mode) || (mode == InPicker && picker.Some? && IsSessionMode(picker.value.returnMode))
    }

    /** The session painted this frame. */
    function Visible(): Option<nat> {
      if SessionIsRendered() then active else None
    }

    function Drained(): Tabs {
      this.(sessions := seq(|sessions|, i requires 0 <= i < |sessions| => sessions[i].(writes := [])))
    }

    function Promoted(): Tabs {
      if mode == InConnecting && active.Some? && active.value < |sessions| && sessions[active.value].phase == Running
      then this.(mode := InSession) else this
    }

    /** What one frame puts on the host clipboard. */
    function Relayed(relayFromPty: bool): seq<string> {
      if relayFromPty && Visible().Some? && Visible().value < |sessions| then sessions[Visible().value].writes else []
    }
  }

  // ---------------------------------------------------------------- the application

  class App {
    var sessions: seq<Session>
    var activeSession: Option<nat>
    var mode: Mode
    var sessionPicker: Option<Picker>
    /** What has been written to the host clipboard so far. */
    var clipboard: seq<string>
    const relayFromPty: bool

    constructor (relayFromPty: bool)
      ensures State() == Start() && clipboard == [] && this.relayFromPty == relayFromPty
    {
      sessions, activeSession, mode, sessionPicker, clipboard := [], None, Dashboard, None, [];
      this.relayFromPty := relayFromPty;
    }

    ghost function State(): Tabs
      reads this
    {
      Tabs(sessions, activeSession, mode, sessionPicker)
    }

    /** spawn_embedded_session once the child runs; a failed spawn changes nothing. */
    method SpawnEmbeddedSession(name: string, spawns: bool)
      modifies this
      ensures State() == if spawns then old(State()).Spawned(name) else old(State())
      ensures clipboard == old(clipboard)
    {
      if spawns {
        sessions := sessions + [Session(name, Connecting, [])];
        activeSession := Some(|sessions| - 1);
        mode := InConnecting;
      }
    }

    method DetachToDashboard()
      modifies this`mode
      ensures State() == old(State()).Detached()
    {
      mode := Dashboard;
    }

    method FocusActiveSession()
      requires activeSession.Some? ==> activeSession.value < |sessions|
      modifies this`mode
      ensures State() == old(State()).Focused()
    {
      if activeSession.None? {
        if sessions == [] {
          mode := Dashboard;
        }
        return;
      }
      match sessions[activeSession.value].phase {
        case Connecting => mode := InConnecting;
        case _ => mode := InSession;
      }
    }

    method CloseActiveSession()
      modifies this
      ensures State() == old(State()).Closed() && clipboard == old(clipboard)
    {
      if activeSession.None? {
        mode := Dashboard;
        return;
      }
      var idx := activeSession.value;
      if idx < |sessions| {
        sessions := sessions[..idx] + sessions[idx + 1..];
      }
      if sessions == [] {
        activeSession := None;
        mode := Dashboard;
      } else {
        var next := if idx < |sessions| - 1 then idx else |sessions| - 1;
        activeSession := Some(next);
        if mode != Dashboard {
          mode := ModeOf(sessions[next].phase);
        }
      }
    }

    method SwitchSession(delta: int)
      modifies this
      ensures State() == old(State()).Switched(delta) && clipboard == old(clipboard)
    {
      if sessions == [] {
        activeSession := None;
        mode := Dashboard;
        return;
      }
      var len := |sessions|;
      var cur := if activeSession.Some? then activeSession.value else 0;
      var next := Rem(Rem(cur + delta, len) + len, len);
      RemWraps(cur + delta, len);
      activeSession := Some(next);
      if mode == Dashboard {
        return;
      }
      mode := ModeOf(sessions[next].phase);
    }

    method OpenSessionPicker(purpose: Purpose)
      modifies this
      ensures State() == old(State()).PickerOpened(purpose) && clipboard == old(clipboard)
    {
      if purpose.SwitchSession? && sessions == [] {
        return;
      }
      if !(mode.Dashboard? || mode.InSession? || mode.InConnecting?) {
        return;
      }
      var selected := 0;
      if purpose.SwitchSession? && activeSession.Some? && activeSession.value < |sessions| {
        selected := activeSession.value;
      }
      sessionPicker := Some(Picker(purpose, "", selected, mode));
      mode := InPicker;
    }

    method CloseSessionPicker()
      requires activeSession.Some? ==> activeSession.value < |sessions|
      modifies this
      ensures State() == old(State()).PickerClosed() && clipboard == old(clipboard)
    {
      var returnMode := if sessionPicker.Some? then sessionPicker.value.returnMode else Dashboard;
      sessionPicker := None;
      match returnMode {
        case InSession => FocusActiveSession();
        case InConnecting => FocusActiveSession();
        case other => mode := other;
      }
      if mode == InPicker {
        mode := Dashboard;
      }
    }

    /** The picker's own key handler. */
    method HandleKeySessionPicker(key: PickerKey, hosts: nat, spawned: Option<string>, found: (string, Session) -> bool)
      requires sessionPicker.Some? && (activeSession.Some? ==> activeSession.value < |sessions|)
      modifies this
      ensures State() == old(State()).PickerKeyed(key, hosts, spawned, found) && clipboard == old(clipboard)
    {
      var picker := sessionPicker.value;
      var rows := if picker.purpose.SwitchSession? then SessionRows(sessions, picker.query, found) else [];
      var len := if picker.purpose.SwitchSession? then |rows| else hosts;
      match key {
        case LocalShell =>
          CloseSessionPicker();
          SpawnEmbeddedSession(if spawned.Some? then spawned.value else "", spawned.Some?);
        case Esc => CloseSessionPicker();
        case Down =>
          if len > 0 {
            sessionPicker := Some(picker.(selected := (picker.selected + 1) % len));
          }
        case Up =>
          if len > 0 {
            sessionPicker := Some(picker.(selected := (picker.selected + len - 1) % len));
          }
        case Enter =>
          if picker.selected >= len {
            return;
          }
          match picker.purpose {
            case SwitchSession =>
              activeSession := Some(rows[picker.selected]);
              sessionPicker := None;
              FocusActiveSession();
            case NewSession =>
              CloseSessionPicker();
              SpawnEmbeddedSession(if spawned.Some? then spawned.value else "", spawned.Some?);
            case SftpLeftPane =>
              CloseSessionPicker();
          }
        case Backspace =>
          var query := if picker.query == "" then "" else picker.query[..|picker.query| - 1];
          sessionPicker := Some(picker.(query := query, selected := 0));
        case Type(c) =>
          sessionPicker := Some(picker.(query := picker.query + [c], selected := 0));
      }
    }

    /** relay_pty_clipboard_with: one loop over all sessions, draining each. */
    method RelayPtyClipboard()
      modifies this`sessions, this`clipboard
      ensures State() == old(State()).Drained()
      ensures clipboard == old(clipboard) + old(State()).Relayed(relayFromPty)
    {
      var relaying: Option<nat> := None;
      if relayFromPty && (IsSessionMode(mode)
                          || (mode == InPicker && sessionPicker.Some?
                              && IsSessionMode(sessionPicker.value.returnMode))) {
        relaying := activeSession;
      }
      ghost var was := sessions;
      var sent: seq<string> := [];
      assert relaying == if relayFromPty then State().Visible() else None;
      for i := 0 to |sessions|
        invariant |sessions| == |was| && clipboard == old(clipboard)
        invariant forall k :: 0 <= k < |was| ==> sessions[k] == if k < i then was[k].(writes := []) else was[k]
        invariant sent == if relaying.Some? && relaying.value < i then was[relaying.value].writes else []
      {
        if relaying == Some(i) {
          assert sent + sessions[i].writes == was[i].writes;
          sent := sent + sessions[i].writes;
        }
        sessions := sessions[i := sessions[i].(writes := [])];
      }
      assert sent == old(State()).Relayed(relayFromPty);
      assert sessions == old(State()).Drained().sessions;
      clipboard := clipboard + sent;
    }
  }

  /** The wrap-around of the source is the mathematical remainder. */
  lemma RemWraps(a: int, n: int)
    requires n > 0
    ensures Rem(Rem(a, n) + n, n) == a % n
  {
    if a >= 0 {
      ModUnique(a % n + n, n, 1, a % n);
    } else {
      var q, r := (-a) / n, (-a) % n;
      assert -a == q * n + r;
      if r == 0 {
        NegateProduct(q, n);
        ModUnique(a, n, -q, 0);
        ModUnique(n, n, 1, 0);
      } else {
        NegateProduct(q, n);
        ModUnique(a, n, -q - 1, n - r);
        ModUnique(n - r, n, 0, n - r);
      }
    }
  }

  lemma NegateProduct(q: int, n: int)
    ensures -q * n == -(q * n) && (-q - 1) * n == -(q * n) - n
  {
  }

  lemma ModUnique(a: int, n: int, q: int, r: int)
    requires n > 0 && 0 <= r < n && a == q * n + r
    ensures a % n == r
  {
    var d := a / n - q;
    assert a == a / n * n + a % n;
    assert d * n == a / n * n - q * n;
    SmallMultiple(d, n);
  }

  lemma SmallMultiple(d: int, n: int)
    requires n > 0 && -n < d * n < n
    ensures d == 0
  {
  }

  function Start(): Tabs {
    Tabs([], None, Dashboard, None)
  }

  // ---------------------------------------------------------------- every run

  datatype Step =
    | Spawn(name: string)
    | Close
    | Detach
    | Focus
    | Switch(delta: int)
    | OpenPicker(purpose: Purpose)
    | PickerKeyPress(key: PickerKey, hosts: nat, spawned: Option<string>)
    | OpenOverlay
    | LeaveOverlay
    /** open_ssh_for_sftp_host finding a session that is already open. */
    | Reattach(index: nat)
    /** A failed SFTP connection puts up a notice over whatever is there. */
    | Notice
    | PhaseChange(index: nat, phase: Phase)
    /** One turn of the event loop: every PTY is read, the relay runs, and a
        connecting view becomes a session once its child has answered. */
    | Frame(arrivals: seq<seq<string>>)

  /** Which keys are looked at in which mode, and what the rest needs. */
  predicate Enabled(t: Tabs, step: Step) {
    match step
    case Spawn(_) => t.mode != InPicker
    case Close => IsSessionMode(t.mode) || (t.mode == Dashboard && t.sessions != [])
    case Detach => IsSessionMode(t.mode) || t.mode == Dashboard
    case Focus => t.mode == Dashboard && t.sessions != []
    case Switch(_) => IsSessionMode(t.mode) || (t.mode == Dashboard && t.sessions != [])
    case OpenPicker(purpose) =>
      t.mode == Dashboard || (IsSessionMode(t.mode) && purpose != SftpLeftPane)
    case PickerKeyPress(_, _, _) => t.mode == InPicker && t.picker.Some?
    case OpenOverlay => t.mode == Dashboard
    case LeaveOverlay => t.mode == Elsewhere
    case Reattach(i) => t.mode == Dashboard && i < |t.sessions|
    case Notice => true
    case PhaseChange(i, _) => i < |t.sessions|
    case Frame(arrivals) => |arrivals| == |t.sessions|
  }

  function Read(sessions: seq<Session>, arrivals: seq<seq<string>>): seq<Session>
    requires |arrivals| == |sessions|
  {
    seq(|sessions|, i requires 0 <= i < |sessions| => sessions[i].(writes := sessions[i].writes + arrivals[i]))
  }

  function Apply(t: Tabs, step: Step, found: (string, Session) -> bool): Tabs
    requires Enabled(t, step)
  {
    match step
    case Spawn(name) => t.Spawned(name)
    case Close => t.Closed()
    case Detach => t.Detached()
    case Focus => t.Focused()
    case Switch(delta) => t.Switched(delta)
    case OpenPicker(purpose) => t.PickerOpened(purpose)
    case PickerKeyPress(key, hosts, spawned) => t.PickerKeyed(key, hosts, spawned, found)
    case OpenOverlay => t.(mode := Elsewhere)
    case LeaveOverlay => t.(mode := Dashboard)
    case Reattach(i) => t.(active := Some(i)).Focused()
    case PhaseChange(i, phase) => t.(sessions := t.sessions[i := t.sessions[i].(phase := phase)])
    case Notice => t.(mode := Elsewhere)
    case Frame(arrivals) => t.(sessions := Read(t.sessions, arrivals)).Drained().Promoted()
  }

  /** An active session exactly when there are tabs, and then one of them; the
      picker mode never without a picker, and that picker was opened over the
      dashboard or a session; what is painted as a session only with sessions;
      nothing is left in a clipboard queue between frames. */
  ghost predicate Inv(t: Tabs) {
    (t.active.None? <==> t.sessions == []) && (t.active.Some? ==> t.active.value < |t.sessions|)
    && (t.mode == InPicker ==> t.picker.Some?)
    && (t.picker.Some? ==> t.picker.value.returnMode == Dashboard || IsSessionMode(t.picker.value.returnMode))
    && (t.SessionIsRendered() ==> t.sessions != [])
    && forall i :: 0 <= i < |t.sessions| ==> t.sessions[i].writes == []
  }

  lemma SpawnKeepsInv(t: Tabs, name: string)
    requires Inv(t) && t.mode != InPicker
    ensures Inv(t.Spawned(name))
  {
  }

  lemma CloseKeepsInv(t: Tabs)
    requires Inv(t) && t.mode != InPicker
    ensures Inv(t.Closed())
  {
  }

  lemma SwitchKeepsInv(t: Tabs, delta: int)
    requires Inv(t) && t.mode != InPicker
    ensures Inv(t.Switched(delta))
  {
  }

  lemma PickerCloseKeepsInv(t: Tabs)
    requires Inv(t) && t.mode == InPicker
    ensures Inv(t.PickerClosed()) && t.PickerClosed().mode != InPicker
  {
  }

  lemma JumpKeepsInv(t: Tabs, index: nat)
    requires Inv(t) && t.mode == InPicker && index < |t.sessions|
    ensures Inv(t.Jumped(index)) && t.Jumped(index).active == Some(index) && IsSessionMode(t.Jumped(index).mode)
  {
  }

  lemma PickerKeyKeepsInv(t: Tabs, key: PickerKey, hosts: nat, spawned: Option<string>,
                          found: (string, Session) -> bool)
    requires Inv(t) && t.mode == InPicker
    ensures Inv(t.PickerKeyed(key, hosts, spawned, found))
  {
  }

  lemma StepKeepsInv(t: Tabs, step: Step, found: (string, Session) -> bool)
    requires Inv(t) && Enabled(t, step)
    ensures Inv(Apply(t, step, found))
  {
    match step {
      case Spawn(name) => SpawnKeepsInv(t, name);
      case Close => CloseKeepsInv(t);
      case Switch(delta) => SwitchKeepsInv(t, delta);
      case PickerKeyPress(key, hosts, spawned) => PickerKeyKeepsInv(t, key, hosts, spawned, found);
      case _ =>
    }
  }

  /** Only a notice leaves a picker behind without its mode. */
  lemma OnlyNoticesStrandThePicker(t: Tabs, step: Step, found: (string, Session) -> bool)
    requires Inv(t) && Enabled(t, step) && (t.picker.Some? ==> t.mode == InPicker)
    ensures (Apply(t, step, found).picker.Some? && Apply(t, step, found).mode != InPicker) <==>
            step.Notice? && t.picker.Some?
  {
  }

  // ---------------------------------------------------------------- which tab comes next

  /** One step forward is the tab to the right, from the last the first; one back
      the other way; and steps add up. */
  lemma SwitchesToNeighbour(t: Tabs, i: nat)
    requires t.active == Some(i) && i < |t.sessions|
    ensures t.Switched(1).active == Some(if i + 1 < |t.sessions| then i + 1 else 0)
    ensures t.Switched(-1).active == Some(if i > 0 then i - 1 else |t.sessions| - 1)
  {
    var n := |t.sessions|;
    Arithmetic.Quotient(i + 1, if i + 1 < n then 0 else 1, n, if i + 1 < n then i + 1 else 0);
    Arithmetic.Quotient(i - 1, if i > 0 then 0 else -1, n, if i > 0 then i - 1 else n - 1);
  }

  lemma SwitchesAdd(t: Tabs, a: int, b: int)
    requires t.active.Some? ==> t.active.value < |t.sessions|
    ensures t.Switched(a).Switched(b) == t.Switched(a + b)
  {
    if t.sessions != [] {
      var i := if t.active.Some? then t.active.value else 0;
      Arithmetic.RemainderAdds(i + a, b, |t.sessions|);
    }
  }

  /** Closing a tab shows its right neighbour, or for the last one its left; the
      others stay in their order. */
  lemma CloseShowsNeighbour(t: Tabs, i: nat)
    requires t.active == Some(i) && i < |t.sessions| && |t.sessions| > 1
    ensures var c := t.Closed();
            c.active.Some? && c.active.value < |c.sessions| == |t.sessions| - 1
            && c.sessions[c.active.value] == t.sessions[if i + 1 < |t.sessions| then i + 1 else i - 1]
            && (forall k :: 0 <= k < i ==> c.sessions[k] == t.sessions[k])
            && (forall k :: i < k < |t.sessions| ==> c.sessions[k - 1] == t.sessions[k])
            && c.mode == if t.mode == Dashboard then Dashboard else ModeOf(c.sessions[c.active.value].phase)
  {
  }

  lemma ClosingTheLastLeaves(t: Tabs)
    requires t.active == Some(0) && |t.sessions| == 1
    ensures t.Closed().sessions == [] && t.Closed().active.None? && t.Closed().mode == Dashboard
  {
  }

  /** A session that has connected is entered with the next frame, nothing else is. */
  lemma ConnectedIsEntered(t: Tabs, i: nat)
    requires t.active == Some(i) && i < |t.sessions|
    ensures t.Promoted() ==
      if t.mode == InConnecting && t.sessions[i].phase.Running? then t.(mode := InSession) else t
  {
  }

  /** A notice can come up at any time, under an open picker too. */
  lemma NoticeStrandsThePicker(t: Tabs, found: (string, Session) -> bool)
    ensures Enabled(t, Notice)
    ensures t.picker.Some? ==> Apply(t, Notice, found).picker.Some? && Apply(t, Notice, found).mode != InPicker
  {
  }

  /** In the picker Down and Up undo each other, and Down goes one row on. */
  lemma PickerMoves(t: Tabs, hosts: nat, spawned: Option<string>, found: (string, Session) -> bool)
    requires t.picker.Some? && t.picker.value.purpose != SwitchSession && t.picker.value.selected < hosts
    ensures var p := t.picker.value;
            t.PickerKeyed(Down, hosts, spawned, found) ==
              t.(picker := Some(p.(selected := if p.selected + 1 < hosts then p.selected + 1 else 0)))
            && t.PickerKeyed(Down, hosts, spawned, found).PickerKeyed(Up, hosts, spawned, found) == t
  {
    var i := t.picker.value.selected;
    Arithmetic.Quotient(i + 1, if i + 1 < hosts then 0 else 1, hosts, if i + 1 < hosts then i + 1 else 0);
    var j := (i + 1) % hosts;
    Arithmetic.Quotient(j + hosts - 1, if j > 0 then 1 else 0, hosts, i);
  }

  // ---------------------------------------------------------------- the clipboard over a run

  /** The tabs together with everything put on the host clipboard. */
  datatype World = World(tabs: Tabs, clipboard: seq<string>)

  /** A frame relays between reading the PTYs and going on. */
  function Next(w: World, step: Step, relay: bool, found: (string, Session) -> bool): World {
    if !Enabled(w.tabs, step) then w
    else
      World(Apply(w.tabs, step, found),
            if step.Frame? then w.clipboard + w.tabs.(sessions := Read(w.tabs.sessions, step.arrivals)).Relayed(relay)
            else w.clipboard)
  }

  function Run(steps: seq<Step>, relay: bool, found: (string, Session) -> bool): World {
    if steps == [] then World(Start(), [])
    else Next(Run(steps[..|steps| - 1], relay, found), steps[|steps| - 1], relay, found)
  }

  lemma {:induction false} RunKeepsInv(steps: seq<Step>, relay: bool, found: (string, Session) -> bool)
    ensures Inv(Run(steps, relay, found).tabs)
  {
    if steps != [] {
      var init, last := steps[..|steps| - 1], steps[|steps| - 1];
      RunKeepsInv(init, relay, found);
      if Enabled(Run(init, relay, found).tabs, last) {
        StepKeepsInv(Run(init, relay, found).tabs, last, found);
      }
    }
  }

  /** What a step may put on the clipboard: the writes that arrive in a frame for
      the session painted in that frame. */
  function Admitted(t: Tabs, step: Step, relay: bool): seq<string> {
    if step.Frame? && Enabled(t, step) && relay && t.Visible().Some? && t.Visible().value < |t.sessions|
    then step.arrivals[t.Visible().value] else []
  }

  function AdmittedOver(steps: seq<Step>, relay: bool, found: (string, Session) -> bool): seq<string> {
    if steps == [] then []
    else
      var init := steps[..|steps| - 1];
      AdmittedOver(init, relay, found) + Admitted(Run(init, relay, found).tabs, steps[|steps| - 1], relay)
  }

  /** Over every run the host clipboard received exactly those writes, in order:
      what arrived while its session was not on screen never shows up later. */
  lemma {:induction false} ClipboardIsWhatWasVisible(steps: seq<Step>, relay: bool, found: (string, Session) -> bool)
    ensures Run(steps, relay, found).clipboard == AdmittedOver(steps, relay, found)
  {
    if steps != [] {
      var init, last := steps[..|steps| - 1], steps[|steps| - 1];
      ClipboardIsWhatWasVisible(init, relay, found);
      RunKeepsInv(init, relay, found);
      var t := Run(init, relay, found).tabs;
      if last.Frame? && Enabled(t, last) {
        FrameRelaysArrivals(t, last.arrivals, relay);
      }
    }
  }

  lemma FrameRelaysArrivals(t: Tabs, arrivals: seq<seq<string>>, relay: bool)
    requires Inv(t) && |arrivals| == |t.sessions|
    ensures t.(sessions := Read(t.sessions, arrivals)).Relayed(relay) == Admitted(t, Frame(arrivals), relay)
  {
  }

  // ---------------------------------------------------------------- moving between tabs

  /** Cycling one way and back, or all the way round, returns to the same tab. */
  lemma SwitchBack(t: Tabs, delta: int)
    requires Inv(t) && t.sessions != []
    ensures t.Switched(delta).Switched(-delta).active == t.active
    ensures t.Switched(|t.sessions|).active == t.active
  {
    var n, a := |t.sessions|, t.active.value;
    var b := (a + delta) % n;
    assert a + delta == (a + delta) / n * n + b;
    NegateProduct((a + delta) / n, n);
    ModUnique(b - delta, n, -((a + delta) / n), a);
    ModUnique(a + n, n, 1, a);
  }

  /** A picker that is opened and dismissed is gone, the tabs are as they were, and the
      mode as a look at the active session's phase gives it. */
  lemma DismissedPickerChangesNothing(t: Tabs, purpose: Purpose)
    requires Inv(t)
    requires t.mode == Dashboard || (IsSessionMode(t.mode) && t.mode == ModeOf(t.sessions[t.active.value].phase))
    ensures t.PickerOpened(purpose).mode == InPicker ==> t.PickerOpened(purpose).PickerClosed() == t.(picker := None)
  {
  }
}
