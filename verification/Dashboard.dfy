/**
 * The dashboard's key-handling state machine (internal/tui/tui.go). `Update` works on a
 * copy of the model and returns it with the commands to start, as in the source.
 * The handlers that draw, fetch or log only to the event panel leave no trace here.
 */
module Dashboard {
  import opened Common

  datatype Container = Container(id: string, name: string)
  datatype LogEntry = LogEntry(container: string, text: string)

  datatype Action = Stop | Restart

  /** The keys some handler tests for; `Unbound` is any other. */
  datatype Key =
    | LowerA | UpperA | LowerB | LowerC | UpperC | LowerF | LowerI | LowerJ | LowerK
    | LowerL | UpperL | LowerM | UpperM | LowerQ | LowerR | UpperR | LowerS | UpperS
    | LowerV | LowerX | LowerY | UpperY | Slash | Space | Question | Enter | Esc
    | Up | Down | CtrlC | Unbound

  datatype Modes = Modes(confirm: Option<Action>, stress: bool, cleanup: bool, search: bool)

  datatype Views = Views(logs: bool, detail: bool, netmap: bool, help: bool)

  datatype Tail = Tail(lines: seq<LogEntry>, sources: seq<string>, offset: int, filter: string)

  /** The source's flat model, its fields grouped by what they are for. */
  datatype Model = Model(
    containers: seq<Container>, cursor: int, modes: Modes, views: Views, tail: Tail,
    showAll: bool, selectedIDs: set<string>, pruning: bool, quitting: bool)

  datatype Outcome = Outcome(model: Model, cmds: seq<Cmd>)

  datatype Cmd =
    | Refresh | FetchDiskUsage | WatchEvents | NextTick | Quit
    | Act(action: Action, id: string, name: string)
    | Stress(mode: string) | Prune(target: string) | Shell(name: string) | NextLog(container: string)

  datatype Msg =
    | KeyPress(key: Key)
    | ContainerList(containers: seq<Container>)
    | LogLine(container: string, line: string, more: bool)
    | DockerEvent
    | ActionResult
    | StressResult
    | PruneResult
    | Tick
    | Other   // window size, statistics, disk usage, host statistics, daemon errors

  const LOG_LIMIT: nat := 1000

  const NO_MODE := Modes(None, false, false, false)

  function Initial(): Model {
    Model([], 0, NO_MODE, Views(false, false, false, false), Tail([], [], 0, ""), false, {}, false, false)
  }

  // ---- Messages ---------------------------------------------------------------------------

  /** `streams` are the containers whose log stream the daemon opens. */
  function Update(m: Model, msg: Msg, streams: set<string>): Outcome {
    match msg
    case KeyPress(k) => HandleKey(m, k, streams)
    case ContainerList(cs) =>
      Outcome(m.(containers := cs, cursor := if m.cursor >= |cs| && |cs| > 0 then |cs| - 1 else m.cursor), [])
    case LogLine(c, line, more) =>
      Outcome(m.(tail := AppendLine(m.tail, LogEntry(c, line))), if more then [NextLog(c)] else [])
    case DockerEvent => Outcome(m, [Refresh, WatchEvents])
    case ActionResult => Outcome(m, [Refresh])
    case StressResult => Outcome(m, [Refresh])
    case PruneResult => Outcome(m.(pruning := false), [FetchDiskUsage])
    case Tick =>
      Outcome(m, if !m.views.logs && !m.views.netmap && m.modes.confirm.None? then [Refresh, NextTick] else [NextTick])
    case Other => Outcome(m, [])
  }

  function AppendLine(t: Tail, entry: LogEntry): Tail {
    var lines := t.lines + [entry];
    t.(lines := if |lines| > LOG_LIMIT then lines[|lines| - LOG_LIMIT..] else lines)
  }

  // ---- Keys ----------------------------------------------------------------------------------

  predicate Modal(m: Model) {
    m.modes.confirm.Some? || m.modes.stress || m.modes.cleanup || m.modes.search
  }

  function HandleKey(m: Model, k: Key, streams: set<string>): Outcome {
    if Modal(m) then ModalKey(m, k) else NormalKey(m, k, streams)
  }

  function ModalKey(m: Model, k: Key): Outcome
    requires Modal(m)
  {
    if m.modes.confirm.Some? then ConfirmKey(m, k)
    else if m.modes.stress then StressKey(m, k)
    else if m.modes.cleanup then CleanupKey(m, k)
    else SearchKey(m, k)
  }

  predicate OnContainer(m: Model) {
    0 <= m.cursor < |m.containers|
  }

  function ConfirmKey(m: Model, k: Key): Outcome
    requires m.modes.confirm.Some?
  {
    Outcome(m.(modes := m.modes.(confirm := None)),
            if (k == LowerY || k == UpperY) && OnContainer(m)
            then [Act(m.modes.confirm.value, m.containers[m.cursor].id, m.containers[m.cursor].name)]
            else [])
  }

  function StressKey(m: Model, k: Key): Outcome {
    Outcome(m.(modes := m.modes.(stress := false)),
            if k == LowerC then [Stress("cpu")] else if k == LowerM then [Stress("memory")]
            else if k == LowerB then [Stress("both")] else [])
  }

  function CleanupKey(m: Model, k: Key): Outcome {
    if k == Esc || k == LowerC || k == UpperC then Outcome(m.(modes := m.modes.(cleanup := false)), [])
    else if k == LowerI then Outcome(m.(pruning := true), [Prune("images")])
    else if k == LowerV then Outcome(m.(pruning := true), [Prune("volumes")])
    else Outcome(m, [])
  }

  function SearchKey(m: Model, k: Key): Outcome {
    Outcome(if k == Esc then m.(modes := m.modes.(search := false), tail := m.tail.(filter := "")) else m, [])
  }

  function NormalKey(m: Model, k: Key, streams: set<string>): Outcome {
    match k
    case LowerA | UpperA => Outcome(m.(showAll := !m.showAll), [Refresh])
    case LowerQ | CtrlC => Outcome(m.(quitting := true), [Quit])
    case Slash | Up | LowerK | Down | LowerJ | LowerF | Space => Outcome(NavigationKey(m, k), [])
    case LowerL | UpperL => LogKey(m, k, streams)
    case LowerS | UpperR | LowerX | UpperS => ActionKey(m, k)
    case LowerR => Outcome(m, [Refresh])
    case Question | Enter | Esc | UpperC | LowerM | UpperM => ViewKey(m, k)
    case _ => Outcome(m, [])
  }

  function NavigationKey(m: Model, k: Key): Model {
    match k
    case Slash => if m.views.logs then m.(modes := m.modes.(search := true)) else m
    case Up | LowerK => ScrollUp(m)
    case Down | LowerJ => ScrollDown(m)
    case LowerF => if m.views.logs then m.(tail := m.tail.(offset := 0)) else m
    case Space => ToggleSelection(m)
    case _ => m
  }

  function LogKey(m: Model, k: Key, streams: set<string>): Outcome {
    if k == UpperL then StartMultiTail(m, streams) else ToggleLogs(m, streams)
  }

  function ActionKey(m: Model, k: Key): Outcome {
    match k
    case LowerS => Outcome(if OnContainer(m) then m.(modes := m.modes.(confirm := Some(Stop))) else m, [])
    case UpperR => Outcome(if OnContainer(m) then m.(modes := m.modes.(confirm := Some(Restart))) else m, [])
    case LowerX =>
      Outcome(m, if !m.views.logs && !m.views.detail && !m.views.netmap && OnContainer(m)
                 then [Shell(m.containers[m.cursor].name)] else [])
    case UpperS => Outcome(m.(modes := m.modes.(stress := true)), [])
    case _ => Outcome(m, [])
  }

  function ViewKey(m: Model, k: Key): Outcome {
    match k
    case Question => Outcome(m.(views := m.views.(help := !m.views.help)), [])
    case Enter => Outcome(m.(views := m.views.(detail := !m.views.detail)), [])
    case Esc => Outcome(CloseViews(m), [])
    case UpperC =>
      if m.views.logs || m.views.detail || m.views.netmap then Outcome(m, [])
      else Outcome(m.(modes := m.modes.(cleanup := !m.modes.cleanup)),
                   if !m.modes.cleanup then [FetchDiskUsage] else [])
    case LowerM | UpperM => Outcome(m.(views := m.views.(netmap := !m.views.netmap)), [])
    case _ => Outcome(m, [])
  }

  function ScrollUp(m: Model): Model {
    if m.views.logs then m.(tail := m.tail.(offset := m.tail.offset + 1))
    else if m.cursor > 0 then m.(cursor := m.cursor - 1)
    else m
  }

  function ScrollDown(m: Model): Model {
    if m.views.logs then (if m.tail.offset > 0 then m.(tail := m.tail.(offset := m.tail.offset - 1)) else m)
    else if m.cursor < |m.containers| - 1 then m.(cursor := m.cursor + 1)
    else m
  }

  function ToggleSelection(m: Model): Model {
    if !m.views.logs && !m.views.detail && !m.views.netmap && OnContainer(m) then
      var id := m.containers[m.cursor].id;
      m.(selectedIDs := if id in m.selectedIDs then m.selectedIDs - {id} else m.selectedIDs + {id})
    else m
  }

  function OpenTail(m: Model, line: LogEntry, sources: seq<string>): Model {
    m.(views := m.views.(logs := true), tail := Tail([line], sources, 0, m.tail.filter))
  }

  function StartMultiTail(m: Model, streams: set<string>): Outcome {
    if m.views.logs || m.selectedIDs == {} then Outcome(m, [])
    else
      var names := FlatMap((c: Container) => if c.id in m.selectedIDs then [c.name] else [], m.containers);
      Outcome(OpenTail(m, LogEntry("System", "Loading aggregate logs..."), names),
              FlatMap(TailCmd(m, streams), m.containers))
  }

  function TailCmd(m: Model, streams: set<string>): Container -> seq<Cmd> {
    (c: Container) => if c.id in m.selectedIDs && c.id in streams then [NextLog(c.name)] else []
  }

  function ToggleLogs(m: Model, streams: set<string>): Outcome {
    if m.views.logs then
      Outcome(m.(views := m.views.(logs := false), tail := m.tail.(lines := [])), [])
    else if !OnContainer(m) then
      Outcome(m, [])
    else
      var c := m.containers[m.cursor];
      Outcome(OpenTail(m, LogEntry(c.name, "Loading logs..."), [c.name]),
              if c.id in streams then [NextLog(c.name)] else [])
  }

  function CloseViews(m: Model): Model {
    m.(modes := NO_MODE, views := Views(false, false, false, false), tail := m.tail.(lines := [], filter := ""))
  }

  // ---- What every message keeps -------------------------------------------------------------

  /** At most one mode; search shows logs; cleanup hides logs, detail and map. */
  predicate SoundModes(o: Modes, v: Views) {
    && (o.confirm.Some? ==> !o.stress && !o.cleanup && !o.search)
    && (o.stress ==> !o.cleanup && !o.search)
    && (o.cleanup ==> !o.search)
    && (o.search ==> v.logs)
    && (o.cleanup ==> !v.logs && !v.detail && !v.netmap)
  }

  predicate Bounded(m: Model) {
    && 0 <= m.cursor && (m.containers != [] ==> m.cursor < |m.containers|)
    && 0 <= m.tail.offset && |m.tail.lines| <= LOG_LIMIT
  }

  lemma NormalKeyKeepsModes(m: Model, k: Key, streams: set<string>)
    requires SoundModes(m.modes, m.views) && !Modal(m)
    ensures var n := NormalKey(m, k, streams).model; SoundModes(n.modes, n.views)
  {
    NavigationKeepsModes(m, k);
    ViewKeyKeepsModes(m, k);
    LogKeyKeepsModes(m, k, streams);
    ActionKeyKeepsModes(m, k);
  }

  lemma LogKeyKeepsModes(m: Model, k: Key, streams: set<string>)
    requires SoundModes(m.modes, m.views) && !Modal(m)
    ensures var n := LogKey(m, k, streams).model; SoundModes(n.modes, n.views)
  {
  }

  lemma ActionKeyKeepsModes(m: Model, k: Key)
    requires SoundModes(m.modes, m.views) && !Modal(m)
    ensures var n := ActionKey(m, k).model; SoundModes(n.modes, n.views)
  {
  }

  lemma NavigationKeepsModes(m: Model, k: Key)
    requires SoundModes(m.modes, m.views) && !Modal(m)
    ensures var n := NavigationKey(m, k); SoundModes(n.modes, n.views)
  {
  }

  lemma ViewKeyKeepsModes(m: Model, k: Key)
    requires SoundModes(m.modes, m.views) && !Modal(m)
    ensures var n := ViewKey(m, k).model; SoundModes(n.modes, n.views)
  {
  }

  lemma ModalKeyKeepsModes(m: Model, k: Key)
    requires SoundModes(m.modes, m.views) && Modal(m)
    ensures var n := ModalKey(m, k).model; SoundModes(n.modes, n.views)
  {
    ModalKeyLeavesOrStays(m, k);
  }

  lemma ModalKeyLeavesOrStays(m: Model, k: Key)
    requires SoundModes(m.modes, m.views) && Modal(m)
    ensures ModalKey(m, k).model.modes == NO_MODE || ModalKey(m, k).model.modes == m.modes
    ensures ModalKey(m, k).model.views == m.views
  {
    if m.modes.confirm.Some? {
      assert ModalKey(m, k) == ConfirmKey(m, k);
    } else if m.modes.stress {
      assert ModalKey(m, k) == StressKey(m, k);
    } else if m.modes.cleanup {
      assert ModalKey(m, k) == CleanupKey(m, k);
    } else {
      assert ModalKey(m, k) == SearchKey(m, k);
    }
  }

  lemma UpdateKeepsModes(m: Model, msg: Msg, streams: set<string>)
    requires SoundModes(m.modes, m.views)
    ensures var n := Update(m, msg, streams).model; SoundModes(n.modes, n.views)
  {
    if msg.KeyPress? {
      if Modal(m) {
        ModalKeyKeepsModes(m, msg.key);
      } else {
        NormalKeyKeepsModes(m, msg.key, streams);
      }
    }
  }

  lemma KeyKeepsBounds(m: Model, k: Key, streams: set<string>)
    requires Bounded(m)
    ensures Bounded(NormalKey(m, k, streams).model)
  {
    NavigationKeepsBounds(m, k);
    ViewKeyKeepsBounds(m, k);
    LogKeyKeepsBounds(m, k, streams);
    ActionKeyKeepsBounds(m, k);
  }

  lemma NavigationKeepsBounds(m: Model, k: Key)
    requires Bounded(m)
    ensures Bounded(NavigationKey(m, k))
  {
  }

  lemma ViewKeyKeepsBounds(m: Model, k: Key)
    requires Bounded(m)
    ensures Bounded(ViewKey(m, k).model)
  {
  }

  lemma LogKeyKeepsBounds(m: Model, k: Key, streams: set<string>)
    requires Bounded(m)
    ensures Bounded(LogKey(m, k, streams).model)
  {
  }

  lemma ActionKeyKeepsBounds(m: Model, k: Key)
    requires Bounded(m)
    ensures Bounded(ActionKey(m, k).model)
  {
  }

  lemma UpdateKeepsBounds(m: Model, msg: Msg, streams: set<string>)
    requires Bounded(m)
    ensures Bounded(Update(m, msg, streams).model)
  {
    if msg.KeyPress? {
      KeyKeepsBounds(m, msg.key, streams);
    }
  }

  // ---- Confirmations and actions ----------------------------------------------------------------

  predicate Opens(k: Key, action: Action) {
    (k == LowerS && action == Stop) || (k == UpperR && action == Restart)
  }

  /** The confirmation is untouched and no stop or restart starts. */
  predicate Quiet(m: Model, r: Outcome) {
    r.model.modes.confirm == m.modes.confirm && NoAct(r.cmds)
  }

  predicate NoAct(cmds: seq<Cmd>) {
    forall c :: c in cmds ==> !c.Act?
  }

  lemma LogKeyQuiet(m: Model, k: Key, streams: set<string>)
    ensures Quiet(m, LogKey(m, k, streams))
  {
    TailsOnly(TailCmd(m, streams), m.containers);
  }

  lemma {:induction false} TailsOnly(f: Container -> seq<Cmd>, cs: seq<Container>)
    requires forall c :: NoAct(f(c))
    ensures NoAct(FlatMap(f, cs))
  {
    if cs != [] {
      TailsOnly(f, cs[..|cs| - 1]);
    }
  }

  lemma NavigationQuiet(m: Model, k: Key)
    ensures NavigationKey(m, k).modes.confirm == m.modes.confirm
  {
  }

  lemma ViewKeyQuiet(m: Model, k: Key)
    requires m.modes.confirm.None?
    ensures Quiet(m, ViewKey(m, k))
  {
  }

  lemma ActionKeyOpens(m: Model, k: Key, action: Action)
    requires m.modes.confirm.None?
    ensures ActionKey(m, k).model.modes.confirm == Some(action) <==> Opens(k, action) && OnContainer(m)
    ensures NoAct(ActionKey(m, k).cmds)
  {
  }

  /** In normal mode exactly `s` and `R` on a container open a confirmation. */
  lemma NormalKeyOpens(m: Model, k: Key, streams: set<string>, action: Action)
    requires m.modes.confirm.None?
    ensures NormalKey(m, k, streams).model.modes.confirm == Some(action) <==> Opens(k, action) && OnContainer(m)
  {
    LogKeyQuiet(m, k, streams);
    NavigationQuiet(m, k);
    ViewKeyQuiet(m, k);
    ActionKeyOpens(m, k, action);
  }

  lemma NormalKeyNeverActs(m: Model, k: Key, streams: set<string>)
    requires m.modes.confirm.None?
    ensures NoAct(NormalKey(m, k, streams).cmds)
  {
    LogKeyQuiet(m, k, streams);
    ViewKeyQuiet(m, k);
    ActionKeyOpens(m, k, Stop);
  }

  /** In a mode no key opens a confirmation. */
  lemma ModalKeyCloses(m: Model, k: Key)
    requires SoundModes(m.modes, m.views) && Modal(m)
    ensures ModalKey(m, k).model.modes.confirm.None?
  {
    if m.modes.confirm.Some? {
      assert ModalKey(m, k) == ConfirmKey(m, k);
    } else {
      ModalKeyLeavesOrStays(m, k);
    }
  }

  lemma ConfirmKeyActs(m: Model, k: Key, a: Action, id: string, name: string)
    requires m.modes.confirm.Some?
    ensures Act(a, id, name) in ConfirmKey(m, k).cmds <==>
              && (k == LowerY || k == UpperY) && m.modes.confirm == Some(a) && OnContainer(m)
              && m.containers[m.cursor] == Container(id, name)
  {
  }

  lemma OtherModesNeverAct(m: Model, k: Key)
    ensures NoAct(StressKey(m, k).cmds) && NoAct(CleanupKey(m, k).cmds) && NoAct(SearchKey(m, k).cmds)
  {
  }

  lemma KeyOpens(m: Model, k: Key, streams: set<string>, action: Action)
    requires SoundModes(m.modes, m.views)
    ensures HandleKey(m, k, streams).model.modes.confirm == Some(action) <==>
              Opens(k, action) && !Modal(m) && OnContainer(m)
  {
    if Modal(m) {
      ModalKeyCloses(m, k);
    } else {
      NormalKeyOpens(m, k, streams, action);
    }
  }

  /** Exactly `y` on an open confirmation acts, on the container under the cursor. */
  lemma KeyActs(m: Model, k: Key, streams: set<string>, a: Action, id: string, name: string)
    ensures Act(a, id, name) in HandleKey(m, k, streams).cmds <==>
              && (k == LowerY || k == UpperY) && m.modes.confirm == Some(a) && OnContainer(m)
              && m.containers[m.cursor] == Container(id, name)
  {
    if Modal(m) {
      OtherModesNeverAct(m, k);
      if m.modes.confirm.Some? {
        ConfirmKeyActs(m, k, a, id, name);
      }
    } else {
      NormalKeyNeverActs(m, k, streams);
    }
  }

  lemma OtherMessageQuiet(m: Model, msg: Msg, streams: set<string>)
    requires !msg.KeyPress?
    ensures Quiet(m, Update(m, msg, streams))
  {
  }

  // ---- What every key starts and moves --------------------------------------------------------

  /** The modes in the order in which they take a key. */
  lemma ModalKeyStartsExactly(m: Model, k: Key, streams: set<string>, cmd: Cmd)
    requires Modal(m) && !cmd.Act?
    ensures cmd in HandleKey(m, k, streams).cmds <==>
              && m.modes.confirm.None?
              && if m.modes.stress
                 then || (k == LowerC && cmd == Stress("cpu")) || (k == LowerM && cmd == Stress("memory"))
                      || (k == LowerB && cmd == Stress("both"))
                 else m.modes.cleanup
                      && ((k == LowerI && cmd == Prune("images")) || (k == LowerV && cmd == Prune("volumes")))
  {
    if m.modes.confirm.Some? {
      assert ModalKey(m, k) == ConfirmKey(m, k);
    } else if m.modes.stress {
      assert ModalKey(m, k) == StressKey(m, k);
    } else if m.modes.cleanup {
      assert ModalKey(m, k) == CleanupKey(m, k);
    } else {
      assert ModalKey(m, k) == SearchKey(m, k);
    }
  }

  /** Outside the modes: lists are refreshed, disk usage is fetched when the cleanup panel opens,
      a shell opens on the container under the cursor, logs are read from the daemon's streams. */
  lemma NormalKeyStartsExactly(m: Model, k: Key, streams: set<string>, cmd: Cmd)
    requires !Modal(m)
    ensures cmd in HandleKey(m, k, streams).cmds <==>
              || (cmd == Refresh && (k == LowerA || k == UpperA || k == LowerR))
              || (cmd == Quit && (k == LowerQ || k == CtrlC))
              || (cmd == FetchDiskUsage && k == UpperC && !m.views.logs && !m.views.detail && !m.views.netmap)
              || (cmd.Shell? && k == LowerX && !m.views.logs && !m.views.detail && !m.views.netmap
                  && OnContainer(m) && cmd.name == m.containers[m.cursor].name)
              || (cmd.NextLog? && k == LowerL && !m.views.logs && OnContainer(m)
                  && m.containers[m.cursor].id in streams && cmd.container == m.containers[m.cursor].name)
              || (cmd.NextLog? && k == UpperL && !m.views.logs
                  && exists c :: c in m.containers && c.id in m.selectedIDs && c.id in streams
                              && cmd.container == c.name)
  {
    if k == LowerL || k == UpperL {
      LogKeyStartsExactly(m, k, streams, cmd);
    } else {
      OtherKeyStartsExactly(m, k, streams, cmd);
    }
  }

  lemma OtherKeyStartsExactly(m: Model, k: Key, streams: set<string>, cmd: Cmd)
    requires !Modal(m) && k != LowerL && k != UpperL
    ensures cmd in NormalKey(m, k, streams).cmds <==>
              || (cmd == Refresh && (k == LowerA || k == UpperA || k == LowerR))
              || (cmd == Quit && (k == LowerQ || k == CtrlC))
              || (cmd == FetchDiskUsage && k == UpperC && !m.views.logs && !m.views.detail && !m.views.netmap)
              || (cmd.Shell? && k == LowerX && !m.views.logs && !m.views.detail && !m.views.netmap
                  && OnContainer(m) && cmd.name == m.containers[m.cursor].name)
  {
  }

  lemma LogKeyStartsExactly(m: Model, k: Key, streams: set<string>, cmd: Cmd)
    ensures cmd in LogKey(m, LowerL, streams).cmds <==>
              cmd.NextLog? && !m.views.logs && OnContainer(m)
              && m.containers[m.cursor].id in streams && cmd.container == m.containers[m.cursor].name
    ensures cmd in LogKey(m, UpperL, streams).cmds <==>
              cmd.NextLog? && !m.views.logs
              && exists c :: c in m.containers && c.id in m.selectedIDs && c.id in streams
                          && cmd.container == c.name
  {
    InFlatMap(TailCmd(m, streams), m.containers, cmd);
  }

  lemma {:induction false} InFlatMap<T, U>(f: T -> seq<U>, s: seq<T>, y: U)
    ensures y in FlatMap(f, s) <==> exists x :: x in s && y in f(x)
  {
    if s != [] {
      var n := |s| - 1;
      assert s == s[..n] + [s[n]];
      InFlatMap(f, s[..n], y);
    }
  }

  /** Cursor and scroll offset move by one, in the list or in the logs, and only by these keys;
      opening logs goes to their end. */
  lemma KeyMovesExactly(m: Model, k: Key, streams: set<string>)
    requires Bounded(m)
    ensures HandleKey(m, k, streams).model.containers == m.containers
    ensures HandleKey(m, k, streams).model.cursor ==
              if Modal(m) || m.views.logs then m.cursor
              else if (k == Up || k == LowerK) && m.cursor > 0 then m.cursor - 1
              else if (k == Down || k == LowerJ) && m.cursor + 1 < |m.containers| then m.cursor + 1
              else m.cursor
    ensures HandleKey(m, k, streams).model.tail.offset ==
              if Modal(m) then m.tail.offset
              else if m.views.logs then
                (if k == Up || k == LowerK then m.tail.offset + 1
                 else if (k == Down || k == LowerJ) && m.tail.offset > 0 then m.tail.offset - 1
                 else if k == LowerF then 0 else m.tail.offset)
              else if (k == LowerL && OnContainer(m)) || (k == UpperL && m.selectedIDs != {}) then 0
              else m.tail.offset
  {
    if Modal(m) {
      ModalKeyMovesNothing(m, k);
    } else {
      NormalKeyMoves(m, k, streams);
    }
  }

  lemma ModalKeyMovesNothing(m: Model, k: Key)
    requires Modal(m)
    ensures var n := ModalKey(m, k).model;
            n.containers == m.containers && n.cursor == m.cursor && n.tail.offset == m.tail.offset
  {
    if m.modes.confirm.Some? {
      assert ModalKey(m, k) == ConfirmKey(m, k);
    } else if m.modes.stress {
      assert ModalKey(m, k) == StressKey(m, k);
    } else if m.modes.cleanup {
      assert ModalKey(m, k) == CleanupKey(m, k);
    } else {
      assert ModalKey(m, k) == SearchKey(m, k);
    }
  }

  lemma NormalKeyMoves(m: Model, k: Key, streams: set<string>)
    requires Bounded(m) && !Modal(m)
    ensures var n := NormalKey(m, k, streams).model;
            && n.containers == m.containers
            && n.cursor ==
                 (if m.views.logs then m.cursor
                  else if (k == Up || k == LowerK) && m.cursor > 0 then m.cursor - 1
                  else if (k == Down || k == LowerJ) && m.cursor + 1 < |m.containers| then m.cursor + 1
                  else m.cursor)
            && n.tail.offset ==
                 if m.views.logs then
                   (if k == Up || k == LowerK then m.tail.offset + 1
                    else if (k == Down || k == LowerJ) && m.tail.offset > 0 then m.tail.offset - 1
                    else if k == LowerF then 0 else m.tail.offset)
                 else if (k == LowerL && OnContainer(m)) || (k == UpperL && m.selectedIDs != {}) then 0
                 else m.tail.offset
  {
    if k == LowerL || k == UpperL {
      LogKeyMoves(m, k, streams);
    } else if k in {Up, LowerK, Down, LowerJ, LowerF} {
      ScrollKeyMoves(m, k);
    } else {
      StillKeyMoves(m, k, streams);
    }
  }

  lemma LogKeyMoves(m: Model, k: Key, streams: set<string>)
    requires k == LowerL || k == UpperL
    ensures var n := LogKey(m, k, streams).model;
            && n.containers == m.containers && n.cursor == m.cursor
            && n.tail.offset ==
                 if m.views.logs then m.tail.offset
                 else if (k == LowerL && OnContainer(m)) || (k == UpperL && m.selectedIDs != {}) then 0
                 else m.tail.offset
  {
  }

  lemma ScrollKeyMoves(m: Model, k: Key)
    requires Bounded(m) && k in {Up, LowerK, Down, LowerJ, LowerF}
    ensures var n := NavigationKey(m, k);
            && n.containers == m.containers
            && n.cursor ==
                 (if m.views.logs then m.cursor
                  else if (k == Up || k == LowerK) && m.cursor > 0 then m.cursor - 1
                  else if (k == Down || k == LowerJ) && m.cursor + 1 < |m.containers| then m.cursor + 1
                  else m.cursor)
            && n.tail.offset ==
                 if !m.views.logs then m.tail.offset
                 else if k == Up || k == LowerK then m.tail.offset + 1
                 else if k == LowerF then 0
                 else if m.tail.offset > 0 then m.tail.offset - 1 else m.tail.offset
  {
  }

  lemma StillKeyMoves(m: Model, k: Key, streams: set<string>)
    requires k !in {LowerL, UpperL, Up, LowerK, Down, LowerJ, LowerF}
    ensures var n := NormalKey(m, k, streams).model;
            n.containers == m.containers && n.cursor == m.cursor && n.tail.offset == m.tail.offset
  {
  }

  /** What is shown after a key: one key per panel, and escape closes all of them. */
  lemma KeyShowsExactly(m: Model, k: Key, streams: set<string>)
    ensures var v, w := m.views, HandleKey(m, k, streams).model.views;
            if Modal(m) then w == v
            else if k == Esc then w == Views(false, false, false, false)
            else && w.help == (v.help != (k == Question))
                 && w.detail == (v.detail != (k == Enter))
                 && w.netmap == (v.netmap != (k == LowerM || k == UpperM))
                 && w.logs == (if k == LowerL then !v.logs && OnContainer(m)
                               else v.logs || (k == UpperL && m.selectedIDs != {}))
  {
    if Modal(m) {
      ModalKeyShowsNothing(m, k);
    } else if k in {Question, Enter, Esc, UpperC, LowerM, UpperM} {
      ViewKeyShows(m, k);
    } else if k == LowerL || k == UpperL {
      LogKeyShows(m, k, streams);
    } else {
      OtherKeyShowsNothing(m, k, streams);
    }
  }

  lemma ViewKeyShows(m: Model, k: Key)
    requires k in {Question, Enter, Esc, UpperC, LowerM, UpperM}
    ensures var v, w := m.views, ViewKey(m, k).model.views;
            if k == Esc then w == Views(false, false, false, false)
            else w == Views(v.logs, v.detail != (k == Enter), v.netmap != (k == LowerM || k == UpperM),
                            v.help != (k == Question))
  {
  }

  lemma LogKeyShows(m: Model, k: Key, streams: set<string>)
    requires k == LowerL || k == UpperL
    ensures LogKey(m, k, streams).model.views ==
            m.views.(logs := if k == LowerL then !m.views.logs && OnContainer(m)
                             else m.views.logs || m.selectedIDs != {})
  {
  }

  lemma OtherKeyShowsNothing(m: Model, k: Key, streams: set<string>)
    requires k !in {LowerL, UpperL, Question, Enter, Esc, UpperC, LowerM, UpperM}
    ensures NormalKey(m, k, streams).model.views == m.views
  {
  }

  lemma ModalKeyShowsNothing(m: Model, k: Key)
    requires Modal(m)
    ensures ModalKey(m, k).model.views == m.views
  {
    if m.modes.confirm.Some? {
      assert ModalKey(m, k) == ConfirmKey(m, k);
    } else if m.modes.stress {
      assert ModalKey(m, k) == StressKey(m, k);
    } else if m.modes.cleanup {
      assert ModalKey(m, k) == CleanupKey(m, k);
    } else {
      assert ModalKey(m, k) == SearchKey(m, k);
    }
  }

  /** Which mode is open after a key: outside the modes one key opens each; a confirmation and
      the stress menu close at any key, the cleanup panel and the search at theirs. */
  lemma KeyModesExactly(m: Model, k: Key, streams: set<string>)
    requires SoundModes(m.modes, m.views)
    ensures var o := m.modes;
            HandleKey(m, k, streams).model.modes ==
              if o.confirm.Some? || o.stress then NO_MODE
              else if o.cleanup then Modes(None, false, k != Esc && k != LowerC && k != UpperC, false)
              else if o.search then Modes(None, false, false, k != Esc)
              else Modes(if k == LowerS && OnContainer(m) then Some(Stop)
                         else if k == UpperR && OnContainer(m) then Some(Restart) else None,
                         k == UpperS,
                         k == UpperC && !m.views.logs && !m.views.detail && !m.views.netmap,
                         k == Slash && m.views.logs)
  {
    if Modal(m) {
      ModalKeyModes(m, k);
    } else if k in {LowerS, UpperR, LowerX, UpperS} {
      ActionKeyModes(m, k);
    } else if k in {Question, Enter, Esc, UpperC, LowerM, UpperM} {
      ViewKeyModes(m, k);
    } else {
      OtherKeyModes(m, k, streams);
    }
  }

  lemma ModalKeyModes(m: Model, k: Key)
    requires SoundModes(m.modes, m.views) && Modal(m)
    ensures ModalKey(m, k).model.modes ==
              if m.modes.confirm.Some? || m.modes.stress then NO_MODE
              else if m.modes.cleanup then Modes(None, false, k != Esc && k != LowerC && k != UpperC, false)
              else Modes(None, false, false, k != Esc)
  {
    if m.modes.confirm.Some? {
      assert ModalKey(m, k) == ConfirmKey(m, k);
    } else if m.modes.stress {
      assert ModalKey(m, k) == StressKey(m, k);
    } else if m.modes.cleanup {
      assert ModalKey(m, k) == CleanupKey(m, k);
    } else {
      assert ModalKey(m, k) == SearchKey(m, k);
    }
  }

  lemma ActionKeyModes(m: Model, k: Key)
    requires !Modal(m) && k in {LowerS, UpperR, LowerX, UpperS}
    ensures ActionKey(m, k).model.modes ==
              Modes(if k == LowerS && OnContainer(m) then Some(Stop)
                    else if k == UpperR && OnContainer(m) then Some(Restart) else None,
                    k == UpperS, false, false)
  {
  }

  lemma ViewKeyModes(m: Model, k: Key)
    requires !Modal(m) && k in {Question, Enter, Esc, UpperC, LowerM, UpperM}
    ensures ViewKey(m, k).model.modes ==
              Modes(None, false, k == UpperC && !m.views.logs && !m.views.detail && !m.views.netmap, false)
  {
  }

  lemma OtherKeyModes(m: Model, k: Key, streams: set<string>)
    requires !Modal(m)
    requires k !in {LowerS, UpperR, LowerX, UpperS, Question, Enter, Esc, UpperC, LowerM, UpperM}
    ensures NormalKey(m, k, streams).model.modes == Modes(None, false, false, k == Slash && m.views.logs)
  {
    if k == LowerL || k == UpperL {
      assert NormalKey(m, k, streams) == LogKey(m, k, streams);
    }
  }

  /** The space bar toggles the container under the cursor, `a` the filter; `q` quits. */
  lemma KeyTogglesExactly(m: Model, k: Key, streams: set<string>)
    requires !Modal(m)
    ensures var n := HandleKey(m, k, streams).model;
            && n.showAll == (m.showAll != (k == LowerA || k == UpperA))
            && n.quitting == (m.quitting || k == LowerQ || k == CtrlC)
            && n.pruning == m.pruning
            && forall id :: id in n.selectedIDs <==>
                 (id in m.selectedIDs) !=
                   (k == Space && !m.views.logs && !m.views.detail && !m.views.netmap
                    && OnContainer(m) && id == m.containers[m.cursor].id)
  {
    if k == Space {
      assert NormalKey(m, k, streams).model == ToggleSelection(m);
    } else {
      OtherKeyTogglesNothing(m, k, streams);
    }
  }

  lemma OtherKeyTogglesNothing(m: Model, k: Key, streams: set<string>)
    requires k != Space
    ensures var n := NormalKey(m, k, streams).model;
            && n.selectedIDs == m.selectedIDs && n.pruning == m.pruning
            && n.showAll == (m.showAll != (k == LowerA || k == UpperA))
            && n.quitting == (m.quitting || k == LowerQ || k == CtrlC)
  {
    LogKeyTogglesNothing(m, k, streams);
    NavigationTogglesNothing(m, k);
    ViewKeyTogglesNothing(m, k);
    ActionKeyTogglesNothing(m, k);
  }

  /** The two models differ in no toggle. */
  predicate SameToggles(m: Model, n: Model) {
    n.selectedIDs == m.selectedIDs && n.pruning == m.pruning && n.showAll == m.showAll && n.quitting == m.quitting
  }

  lemma LogKeyTogglesNothing(m: Model, k: Key, streams: set<string>)
    ensures SameToggles(m, LogKey(m, k, streams).model)
  {
  }

  lemma NavigationTogglesNothing(m: Model, k: Key)
    requires k != Space
    ensures SameToggles(m, NavigationKey(m, k))
  {
  }

  lemma ViewKeyTogglesNothing(m: Model, k: Key)
    ensures SameToggles(m, ViewKey(m, k).model)
  {
  }

  lemma ActionKeyTogglesNothing(m: Model, k: Key)
    ensures SameToggles(m, ActionKey(m, k).model)
  {
  }

  /** What other messages start. */
  lemma MessageStartsExactly(m: Model, msg: Msg, streams: set<string>)
    requires !msg.KeyPress?
    ensures Update(m, msg, streams).cmds ==
              if msg.DockerEvent? then [Refresh, WatchEvents]
              else if msg.ActionResult? || msg.StressResult? then [Refresh]
              else if msg.PruneResult? then [FetchDiskUsage]
              else if msg.LogLine? && msg.more then [NextLog(msg.container)]
              else if msg.Tick? && !m.views.logs && !m.views.netmap && m.modes.confirm.None? then [Refresh, NextTick]
              else if msg.Tick? then [NextTick]
              else []
  {
  }

  /** A new list replaces the old one, and the cursor moves only when the list ends before it. */
  lemma ListKeepsCursor(m: Model, cs: seq<Container>, streams: set<string>)
    ensures var n := Update(m, ContainerList(cs), streams).model;
            && n.containers == cs && n.modes == m.modes && n.views == m.views
            && n.cursor == if cs == [] || m.cursor < |cs| then m.cursor else |cs| - 1
  {
  }

  /** A log line joins the end of the buffer, which keeps the newest thousand. */
  lemma LogLineKeepsNewest(m: Model, container: string, line: string, more: bool, streams: set<string>)
    ensures var all := m.tail.lines + [LogEntry(container, line)];
            var kept := Update(m, LogLine(container, line, more), streams).model.tail.lines;
            kept == if |all| > 1000 then all[|all| - 1000..] else all
  {
  }

  // ---- Runs -----------------------------------------------------------------------------------

  datatype Input = Input(msg: Msg, streams: set<string>)

  ghost predicate IsRun(inputs: seq<Input>, models: seq<Model>) {
    && |models| == |inputs| + 1
    && models[0] == Initial()
    && forall i :: 0 <= i < |inputs| ==> models[i + 1] == Update(models[i], inputs[i].msg, inputs[i].streams).model
  }

  /** In every reachable model at most one of the four modes is active, search shows
      logs, cleanup hides logs, detail and map, cursor, scroll offset and log buffer
      are within bounds, and the cursor is on a container whenever there is one. */
  lemma {:induction false} ReachableSound(inputs: seq<Input>, models: seq<Model>, n: nat)
    requires IsRun(inputs, models) && n <= |inputs|
    ensures SoundModes(models[n].modes, models[n].views) && Bounded(models[n])
    ensures OnContainer(models[n]) <==> models[n].containers != []
  {
    if n > 0 {
      ReachableSound(inputs, models, n - 1);
      UpdateKeepsModes(models[n - 1], inputs[n - 1].msg, inputs[n - 1].streams);
      UpdateKeepsBounds(models[n - 1], inputs[n - 1].msg, inputs[n - 1].streams);
    }
  }

  /** Input `p` is the last key press before `n`, and it opened the confirmation. */
  ghost predicate OpenedBy(inputs: seq<Input>, models: seq<Model>, n: nat, p: nat, action: Action)
    requires |models| == |inputs| + 1 && n <= |inputs|
  {
    && p < n
    && inputs[p].msg.KeyPress? && Opens(inputs[p].msg.key, action)
    && !Modal(models[p]) && OnContainer(models[p])
    && forall q :: p < q < n ==> !inputs[q].msg.KeyPress?
  }

  /** A confirmation is open exactly when the last key press opened it. */
  lemma {:induction false} ConfirmationOrigin(inputs: seq<Input>, models: seq<Model>, n: nat, action: Action)
    requires IsRun(inputs, models) && n <= |inputs|
    ensures models[n].modes.confirm == Some(action) <==> exists p: nat :: OpenedBy(inputs, models, n, p, action)
  {
    if n > 0 {
      var m, msg, streams := models[n - 1], inputs[n - 1].msg, inputs[n - 1].streams;
      if msg.KeyPress? {
        ReachableSound(inputs, models, n - 1);
        KeyOpens(m, msg.key, streams, action);
        OpenedByLastKey(inputs, models, n, action);
      } else {
        ConfirmationOrigin(inputs, models, n - 1, action);
        OtherMessageQuiet(m, msg, streams);
        OpenedBySkips(inputs, models, n, action);
      }
    }
  }

  lemma OpenedByLastKey(inputs: seq<Input>, models: seq<Model>, n: nat, action: Action)
    requires |models| == |inputs| + 1 && 0 < n <= |inputs| && inputs[n - 1].msg.KeyPress?
    ensures (exists p: nat :: OpenedBy(inputs, models, n, p, action)) <==>
              Opens(inputs[n - 1].msg.key, action) && !Modal(models[n - 1]) && OnContainer(models[n - 1])
  {
    if Opens(inputs[n - 1].msg.key, action) && !Modal(models[n - 1]) && OnContainer(models[n - 1]) {
      assert OpenedBy(inputs, models, n, n - 1, action);
    }
    if p: nat :| OpenedBy(inputs, models, n, p, action) {
      assert p == n - 1;
    }
  }

  lemma OpenedBySkips(inputs: seq<Input>, models: seq<Model>, n: nat, action: Action)
    requires |models| == |inputs| + 1 && 0 < n <= |inputs| && !inputs[n - 1].msg.KeyPress?
    ensures (exists p: nat :: OpenedBy(inputs, models, n, p, action)) <==> OpenedBefore(inputs, models, n - 1, action)
  {
    if p: nat :| OpenedBy(inputs, models, n, p, action) {
      assert OpenedBy(inputs, models, n - 1, p, action);
    }
    if OpenedBefore(inputs, models, n - 1, action) {
      var p: nat :| OpenedBy(inputs, models, n - 1, p, action);
      assert OpenedBy(inputs, models, n, p, action);
    }
  }

  ghost predicate OpenedBefore(inputs: seq<Input>, models: seq<Model>, n: nat, action: Action)
    requires |models| == |inputs| + 1 && n <= |inputs|
  {
    exists p: nat :: OpenedBy(inputs, models, n, p, action)
  }

  /** Over any message sequence a stop or restart is issued exactly by a `y` or `Y` whose
      preceding key press was the `s` or `R` that opened the confirmation, on the
      container under the cursor when it is pressed. */
  lemma ActionExactlyAfterConfirmation(inputs: seq<Input>, models: seq<Model>, n: nat,
                                       action: Action, id: string, name: string)
    requires IsRun(inputs, models) && n < |inputs|
    ensures Act(action, id, name) in Update(models[n], inputs[n].msg, inputs[n].streams).cmds <==>
              && inputs[n].msg.KeyPress? && (inputs[n].msg.key == LowerY || inputs[n].msg.key == UpperY)
              && (exists p: nat :: OpenedBy(inputs, models, n, p, action))
              && OnContainer(models[n]) && models[n].containers[models[n].cursor] == Container(id, name)
  {
    if inputs[n].msg.KeyPress? {
      KeyActs(models[n], inputs[n].msg.key, inputs[n].streams, action, id, name);
      ConfirmationOrigin(inputs, models, n, action);
    } else {
      OtherMessageQuiet(models[n], inputs[n].msg, inputs[n].streams);
    }
  }
}
