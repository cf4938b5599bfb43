/**
 * The menu-bar application object. Its fields are the state `TorTray` keeps between
 * menu callbacks; each method is proved to perform exactly the step that module
 * `Session` defines for it, so the properties proved there hold of the object.
 */
module App {
  import opened Wrappers
  import opened Torrc
  import opened BridgeMenu
  import Session

  class TorTray {
    /** The loaded configuration (`self.cfg`). */
    var cfg: Config
    /** `self.tor_proc`. */
    var proc: Option<Session.Handle>
    /** The title of the Connect menu item. */
    var title: string
    /** The check state of each item of the Bridges submenu, by title. */
    var checks: map<string, bool>
    /** The records of the log file, without their timestamps. */
    var log: seq<string>
    /** The signals sent to tor processes so far. */
    var signals: seq<Session.Signal>

    /** The object's state as a value. */
    function State(): Session.Snapshot
      reads this
    {
      Session.Snapshot(cfg, proc, title, checks, log, signals)
    }

    /** The object's invariant: the one `Session.Valid` states of its state. */
    predicate Valid()
      reads this
    {
      Session.Valid(State())
    }

    /**
     * `__init__`: the menu starts with the title "Connect" and no Bridges item
     * checked, the configured bridge (by default "snowflake") is then checked, and
     * a session header is written to the log.
     */
    constructor (config: Config, priorLog: seq<string>, now: string)
      ensures State() == Session.Init(config, priorLog, now)
      ensures Valid()
    {
      cfg := config;
      proc := None;
      title := Session.CONNECT;
      checks := map t | t in BRIDGE_TITLES :: false;
      log := priorLog;
      signals := [];
      new;
      SetBridgeChecks(config.bridge.GetOr("snowflake"));
      InitLogFile(now);
      Session.InitIsValid(config, priorLog, now);
    }

    /** `_init_log_file`: the header of a new session is appended to the log. */
    method InitLogFile(now: string)
      modifies this`log
      ensures log == old(log) + Session.SessionHeader(now)
    {
      log := log + Session.SessionHeader(now);
    }

    /** `_append_log`. */
    method AppendLog(line: string)
      requires Valid()
      modifies this`log
      ensures State() == Session.AppendLog(old(State()), line)
      ensures Valid()
    {
      log := log + [line];
    }

    /** `clear_logs`. */
    method ClearLogs(now: string)
      requires Valid()
      modifies this`log
      ensures State() == Session.ClearLogs(old(State()), now)
      ensures Valid()
    {
      log := ["Logs cleared: " + now];
    }

    /**
     * `_set_bridge_checks`: each Bridges item is checked exactly when its normalised
     * title is `current`.
     */
    method SetBridgeChecks(current: string)
      requires checks.Keys == Session.TitleSet()
      modifies this`checks
      ensures checks == CheckStates(current)
    {
      for i := 0 to |BRIDGE_TITLES|
        invariant checks.Keys == Session.TitleSet()
        invariant forall t :: t in BRIDGE_TITLES[..i] ==> checks[t] == (Normalise(t) == current)
      {
        var t := BRIDGE_TITLES[i];
        checks := checks[t := Normalise(t) == current];
      }
      assert BRIDGE_TITLES[..|BRIDGE_TITLES|] == BRIDGE_TITLES;
    }

    /** `set_bridge`: the chosen item's normalised title becomes the bridge, and is the one checked. */
    method SetBridge(itemTitle: string)
      requires Valid()
      modifies this`cfg, this`checks
      ensures State() == Session.SetBridge(old(State()), itemTitle)
      ensures Valid()
    {
      var name := Normalise(itemTitle);
      cfg := cfg.(bridge := Some(if name != "none" then name else "none"));
      SetBridgeChecks(cfg.bridge.value);
    }

    /** `_connect`. */
    method Connect(pathExists: string -> bool, binaryFound: bool, tmpName: string)
      requires HasPluginPaths(cfg)
      requires Valid()
      modifies this`log, this`proc, this`title
      ensures State() == Session.Connect(old(State()), pathExists, binaryFound, tmpName)
      ensures Valid()
    {
      ghost var before := State();
      var built := BuildTorCommand(cfg, pathExists);
      if built.Err? {
        Session.ConfigErrorChangesOnlyLog(before, pathExists, binaryFound, tmpName);
        AppendLog("Config error: " + built.error);
        return;
      }
      var command := built.value;
      AppendLog("Starting Tor with bridge: " + cfg.bridge.GetOr("none"));
      AppendLog("Torrc file: " + tmpName);
      if !binaryFound {
        Session.MissingBinaryChangesOnlyLog(before, pathExists, tmpName);
        AppendLog(Session.MISSING_TOR);
        return;
      }
      Session.ConnectLaunches(before, pathExists, tmpName);
      proc := Some(Session.Handle(command.executable, tmpName, command.torrc, true));
      title := Session.DISCONNECT;
    }

    /** `_disconnect`. */
    method Disconnect(graceful: bool)
      requires Valid()
      modifies this`log, this`proc, this`title, this`signals
      ensures State() == Session.Disconnect(old(State()), graceful)
      ensures Valid()
    {
      if proc.Some? && proc.value.alive {
        AppendLog(Session.DISCONNECTING);
        signals := signals + [Session.Terminate];
        if !graceful {
          signals := signals + [Session.Kill];
        }
      }
      proc := None;
      title := Session.CONNECT;
    }

    /** `toggle_connect`. */
    method ToggleConnect(graceful: bool, pathExists: string -> bool, binaryFound: bool, tmpName: string)
      requires !Session.IsAlive(State()) ==> HasPluginPaths(cfg)
      requires Valid()
      modifies this`log, this`proc, this`title, this`signals
      ensures State() == Session.Toggle(old(State()), graceful, pathExists, binaryFound, tmpName)
      ensures Valid()
    {
      if proc.Some? && proc.value.alive {
        Disconnect(graceful);
      } else {
        Connect(pathExists, binaryFound, tmpName);
      }
    }

    /** `quit_app`, up to leaving the application. */
    method Quit(graceful: bool)
      requires Valid()
      modifies this`log, this`proc, this`title, this`signals
      ensures State() == Session.Quit(old(State()), graceful)
      ensures Valid()
    {
      Disconnect(graceful);
      AppendLog(Session.SHUTTING_DOWN);
    }

    /** The tor process exits by itself. */
    method ProcessExits()
      requires Valid()
      modifies this`proc
      ensures State() == Session.ProcessExits(old(State()))
      ensures Valid()
    {
      if proc.Some? {
        proc := Some(proc.value.(alive := false));
      }
    }

    /**
     * `_poll_status`: tor counts as alive when `tor_proc` holds a process that has
     * not exited, and the SOCKS port (by default 9050) is probed only then.
     * `portOpen` stands for `_port_open("127.0.0.1", port)`.
     */
    method PollStatus(portOpen: int -> bool) returns (alive: bool, socksOk: bool)
      ensures alive <==> Session.IsAlive(State())
      ensures socksOk <==> alive && portOpen(cfg.socksPort.GetOr(DEFAULT_SOCKS_PORT))
      ensures !alive ==> !socksOk
    {
      alive := proc.Some? && proc.value.alive;
      socksOk := if alive then portOpen(cfg.socksPort.GetOr(DEFAULT_SOCKS_PORT)) else false;
    }
  }
}
