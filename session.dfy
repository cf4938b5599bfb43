/**
 * The tray's connection state as a value, and each control operation as a function
 * from the old state to the new one. The class `TorTray` in module `App` keeps the
 * same state in fields and its methods are proved to perform exactly these steps.
 *
 * The environment enters as parameters: `pathExists` (whether a file exists),
 * `binaryFound` (whether `Popen` finds the tor executable, that is, does not raise
 * `FileNotFoundError`),
 * `tmpName` (the temporary torrc file's name), `graceful` (whether tor exits within
 * the 5-second grace period after `terminate()`), and `now` (a formatted clock
 * reading). Log records are kept without their timestamp prefix.
 */
module Session {
  import opened Wrappers
  import opened Torrc
  import opened BridgeMenu

  /** What `terminate()` and `kill()` send to the tor process. */
  datatype Signal = Terminate | Kill

  /**
   * A launched tor process: the executable, the torrc file it was given and that
   * file's text, and whether `poll()` still returns `None`.
   */
  datatype Handle = Handle(executable: string, torrcFile: string, torrc: string, alive: bool)

  /**
   * The tray's state: the configuration, `tor_proc`, the Connect item's title, the
   * check state of each Bridges item, the log file's records, and the signals sent
   * to tor processes so far.
   */
  datatype Snapshot = Snapshot(
    cfg: Config,
    proc: Option<Handle>,
    title: string,
    checks: map<string, bool>,
    log: seq<string>,
    signals: seq<Signal>)

  const CONNECT: string := "Connect"
  const DISCONNECT: string := "Disconnect"
  const DISCONNECTING: string := "Disconnecting Tor..."
  const MISSING_TOR: string := "ERROR: Tor binary not found. Install with: brew install tor"
  const SHUTTING_DOWN: string := "TorTray shutting down"

  /** The line of sixty `=` that frames a session header. */
  const RULE: string := "============================================================"

  /** The lines the log gains when a session starts. */
  function SessionHeader(now: string): seq<string> {
    ["", RULE, "TorTray Session Started: " + now, RULE]
  }

  /** The titles of the Bridges items, as a set. */
  function TitleSet(): set<string> {
    set t | t in BRIDGE_TITLES
  }

  /**
   * The state invariant: there is a check state for each Bridges item and for nothing
   * else, and the Connect item reads "Disconnect" exactly when `tor_proc` holds a
   * process — not when that process is alive, since one that exits on its own is
   * never cleared.
   */
  predicate Valid(s: Snapshot) {
    s.checks.Keys == TitleSet()
    && s.title == (if s.proc.Some? then DISCONNECT else CONNECT)
  }

  /** `self.tor_proc and self.tor_proc.poll() is None`. */
  predicate IsAlive(s: Snapshot) {
    s.proc.Some? && s.proc.value.alive
  }

  /** `__init__`: no process, title "Connect", the configured bridge checked, a session header logged. */
  function Init(cfg: Config, priorLog: seq<string>, now: string): Snapshot {
    Snapshot(cfg, None, CONNECT, CheckStates(cfg.bridge.GetOr("snowflake")), priorLog + SessionHeader(now), [])
  }

  /** `_append_log`: one more record. */
  function AppendLog(s: Snapshot, line: string): Snapshot {
    s.(log := s.log + [line])
  }

  /** `clear_logs`: the log is replaced by a single record of the clearing. */
  function ClearLogs(s: Snapshot, now: string): Snapshot {
    s.(log := ["Logs cleared: " + now])
  }

  /** The signals `_disconnect` sends: `terminate()`, then `kill()` if the wait times out. */
  function StopSignals(graceful: bool): seq<Signal> {
    if graceful then [Terminate] else [Terminate, Kill]
  }

  /** `_disconnect`. */
  function Disconnect(s: Snapshot, graceful: bool): (r: Snapshot)
    ensures r.proc == None && r.title == CONNECT
  {
    var stopped :=
      if IsAlive(s) then s.(log := s.log + [DISCONNECTING], signals := s.signals + StopSignals(graceful))
      else s;
    stopped.(proc := None, title := CONNECT)
  }

  /** `_connect`: build the command, then launch tor unless the build or the launch fails. */
  function Connect(s: Snapshot, pathExists: string -> bool, binaryFound: bool, tmpName: string): Snapshot
    requires HasPluginPaths(s.cfg)
  {
    match BuildTorCommand(s.cfg, pathExists)
    case Err(e) => AppendLog(s, "Config error: " + e)
    case Ok(command) =>
      var announced := s.(log := s.log + ["Starting Tor with bridge: " + s.cfg.bridge.GetOr("none"),
                                          "Torrc file: " + tmpName]);
      if !binaryFound then AppendLog(announced, MISSING_TOR)
      else announced.(proc := Some(Handle(command.executable, tmpName, command.torrc, true)), title := DISCONNECT)
  }

  /** `toggle_connect`: disconnect a live process, connect otherwise. */
  function Toggle(s: Snapshot, graceful: bool, pathExists: string -> bool, binaryFound: bool, tmpName: string): Snapshot
    requires !IsAlive(s) ==> HasPluginPaths(s.cfg)
  {
    if IsAlive(s) then Disconnect(s, graceful) else Connect(s, pathExists, binaryFound, tmpName)
  }

  /** `set_bridge`: store the normalised title as the bridge and re-tick the Bridges items. */
  function SetBridge(s: Snapshot, title: string): Snapshot {
    var name := Normalise(title);
    var cfg := s.cfg.(bridge := Some(if name != "none" then name else "none"));
    s.(cfg := cfg, checks := CheckStates(cfg.bridge.value))
  }

  /** The tor process exits by itself: `poll()` starts returning its exit code. */
  function ProcessExits(s: Snapshot): (r: Snapshot)
    ensures !IsAlive(r) && r.proc.Some? == s.proc.Some? && r.title == s.title
  {
    if s.proc.Some? then s.(proc := Some(s.proc.value.(alive := false))) else s
  }

  /** `quit_app`, up to leaving the application: disconnect, then log the shutdown. */
  function Quit(s: Snapshot, graceful: bool): Snapshot {
    AppendLog(Disconnect(s, graceful), SHUTTING_DOWN)
  }

  /** A fresh tray satisfies the invariant, starts idle, and has logged the session header. */
  lemma InitIsValid(cfg: Config, priorLog: seq<string>, now: string)
    ensures Valid(Init(cfg, priorLog, now)) && !IsAlive(Init(cfg, priorLog, now))
    ensures Init(cfg, priorLog, now).log[..|priorLog|] == priorLog
  {
    assert (priorLog + SessionHeader(now))[..|priorLog|] == priorLog;
  }

  /** Every operation keeps the invariant. */
  lemma StepsKeepValid(s: Snapshot, title: string, graceful: bool, pathExists: string -> bool,
                       binaryFound: bool, tmpName: string, line: string, now: string)
    requires Valid(s)
    ensures Valid(AppendLog(s, line)) && Valid(ClearLogs(s, now))
    ensures Valid(Disconnect(s, graceful)) && Valid(ProcessExits(s)) && Valid(Quit(s, graceful))
    ensures Valid(SetBridge(s, title))
    ensures HasPluginPaths(s.cfg) ==> Valid(Connect(s, pathExists, binaryFound, tmpName))
  {
  }

  /**
   * `_disconnect` always ends idle with the title "Connect"; it logs and signals only
   * a live process, and whether tor exits in time or is killed changes nothing but
   * the extra `kill()`.
   */
  lemma DisconnectEndsIdle(s: Snapshot, graceful: bool)
    ensures var d := Disconnect(s, graceful);
      d.proc == None && d.title == CONNECT && d.cfg == s.cfg && d.checks == s.checks
    ensures IsAlive(s) ==>
      Disconnect(s, graceful).log == s.log + [DISCONNECTING]
      && Disconnect(s, graceful).signals[..|s.signals|] == s.signals
      && Disconnect(s, graceful).signals[|s.signals|] == Terminate
    ensures !IsAlive(s) ==> Disconnect(s, graceful).log == s.log && Disconnect(s, graceful).signals == s.signals
    ensures Disconnect(s, true).(signals := s.signals) == Disconnect(s, false).(signals := s.signals)
    ensures IsAlive(s) ==> Disconnect(s, false).signals == Disconnect(s, true).signals + [Kill]
  {
  }

  /** Disconnecting twice is disconnecting once: the second call finds no process and logs nothing. */
  lemma DisconnectIdempotent(s: Snapshot, first: bool, second: bool)
    ensures Disconnect(Disconnect(s, first), second) == Disconnect(s, first)
  {
  }

  /**
   * A configuration error is logged as "Config error: <message>" and changes nothing
   * else: no process is launched, and `tor_proc` and the title stay as they were.
   */
  lemma ConfigErrorChangesOnlyLog(s: Snapshot, pathExists: string -> bool, binaryFound: bool, tmpName: string)
    requires HasPluginPaths(s.cfg)
    requires BuildTorCommand(s.cfg, pathExists).Err?
    ensures Connect(s, pathExists, binaryFound, tmpName)
      == s.(log := s.log + ["Config error: " + BuildTorCommand(s.cfg, pathExists).error])
  {
  }

  /**
   * When the tor executable cannot be found, the start and the error are logged and
   * `tor_proc` and the title stay as they were.
   */
  lemma MissingBinaryChangesOnlyLog(s: Snapshot, pathExists: string -> bool, tmpName: string)
    requires HasPluginPaths(s.cfg)
    requires BuildTorCommand(s.cfg, pathExists).Ok?
    ensures var c := Connect(s, pathExists, false, tmpName);
      c.proc == s.proc && c.title == s.title && c.cfg == s.cfg && c.checks == s.checks
      && c.signals == s.signals
      && c.log == s.log + ["Starting Tor with bridge: " + s.cfg.bridge.GetOr("none"),
                           "Torrc file: " + tmpName, MISSING_TOR]
  {
  }

  /**
   * A successful connect leaves a live process started with the built command and
   * torrc, and the title "Disconnect".
   */
  lemma ConnectLaunches(s: Snapshot, pathExists: string -> bool, tmpName: string)
    requires HasPluginPaths(s.cfg)
    requires BuildTorCommand(s.cfg, pathExists).Ok?
    ensures var c := Connect(s, pathExists, true, tmpName);
      var command := BuildTorCommand(s.cfg, pathExists).value;
      IsAlive(c) && c.title == DISCONNECT
      && c.proc.value.executable == command.executable
      && c.proc.value.torrcFile == tmpName
      && c.proc.value.torrc == command.torrc
      && c.log == s.log + ["Starting Tor with bridge: " + s.cfg.bridge.GetOr("none"), "Torrc file: " + tmpName]
      && c.cfg == s.cfg && c.checks == s.checks && c.signals == s.signals
  {
  }

  /**
   * Starting from idle, toggling twice launches tor and then stops it: the tray is
   * idle again, and the log holds the start records followed by the disconnect record.
   */
  lemma ToggleTwiceReturnsToIdle(s: Snapshot, graceful: bool, pathExists: string -> bool, tmpName: string)
    requires Valid(s) && s.proc == None
    requires HasPluginPaths(s.cfg) && BuildTorCommand(s.cfg, pathExists).Ok?
    ensures var once := Toggle(s, graceful, pathExists, true, tmpName);
      IsAlive(once)
      && var twice := Toggle(once, graceful, pathExists, true, tmpName);
      twice.proc == None && twice.title == CONNECT && twice.cfg == s.cfg && twice.checks == s.checks
      && twice.log == s.log + ["Starting Tor with bridge: " + s.cfg.bridge.GetOr("none"),
                               "Torrc file: " + tmpName, DISCONNECTING]
      && twice.signals == s.signals + StopSignals(graceful)
  {
    ConnectLaunches(s, pathExists, tmpName);
  }

  /**
   * A process that exits on its own stays in `tor_proc` and the title keeps saying
   * "Disconnect"; the next toggle sees it dead and connects again rather than
   * disconnecting.
   */
  lemma ExitedProcessIsReconnected(s: Snapshot, graceful: bool, pathExists: string -> bool,
                                   binaryFound: bool, tmpName: string)
    requires Valid(s) && s.proc.Some?
    requires HasPluginPaths(s.cfg)
    ensures var e := ProcessExits(s);
      e.proc.Some? && !IsAlive(e) && e.title == DISCONNECT
      && Toggle(e, graceful, pathExists, binaryFound, tmpName) == Connect(e, pathExists, binaryFound, tmpName)
  {
  }

  /**
   * After choosing a Bridges item, the configured bridge is its normalised title and
   * that item is the only one checked; the other settings, the running process, the
   * log and the signals sent are untouched, so the choice takes effect at the next connect.
   */
  lemma SetBridgeSelects(s: Snapshot, title: string)
    requires title in BRIDGE_TITLES
    ensures var b := SetBridge(s, title);
      b.cfg.bridge == Some(Normalise(title))
      && title in b.checks && b.checks[title]
      && (forall u :: u in b.checks && b.checks[u] ==> u == title)
      && b.cfg == s.cfg.(bridge := Some(Normalise(title)))
      && b.proc == s.proc && b.title == s.title && b.log == s.log && b.signals == s.signals
  {
    TitlesNormalise();
    var i :| 0 <= i < 4 && BRIDGE_TITLES[i] == title;
    ExactlyOneChecked(BRIDGE_VALUES[i]);
  }

  /** Quitting ends idle with the shutdown record last. */
  lemma QuitEndsIdle(s: Snapshot, graceful: bool)
    ensures var q := Quit(s, graceful);
      q.proc == None && |q.log| >= 1 && q.log[|q.log| - 1] == SHUTTING_DOWN
      && q.log[..|q.log| - 1] == Disconnect(s, graceful).log
  {
  }

  /** Clearing the log leaves exactly one record, and clearing again only replaces its time. */
  lemma ClearLogsLeavesOneRecord(s: Snapshot, now: string, later: string)
    ensures |ClearLogs(s, now).log| == 1
    ensures ClearLogs(ClearLogs(s, now), later) == ClearLogs(s, later)
  {
  }
}
