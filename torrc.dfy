/**
 * `_build_tor_command`: turns the tray's configuration dictionary into the tor
 * executable to launch and the text of the torrc file it is given.
 */
module Torrc {
  import opened Wrappers
  import opened Text
  import opened PathResolve

  const DEFAULT_SOCKS_PORT: int := 9050
  const DEFAULT_CONTROL_PORT: int := 9051

  /** The head of the built-in Snowflake bridge directive: transport and address. */
  const SNOWFLAKE_ADDRESS: string := "Bridge snowflake 192.0.2.4:80"
  const SNOWFLAKE_FINGERPRINT: string := "8838024498816A039FCBBAB14E6F40A0843051FA"
  /** The STUN servers of the Snowflake bridge, in three groups. */
  const SNOWFLAKE_ICE_1: string := "stun:stun.l.google.com:19302,stun:stun.altar.com.pl:3478,stun:stun.antisip.com:3478"
  const SNOWFLAKE_ICE_2: string := "stun:stun.bluesip.net:3478,stun:stun.dus.net:3478,stun:stun.epygi.com:3478"
  const SNOWFLAKE_ICE_3: string := "stun:stun.sonetel.com:3478,stun:stun.uls.co.za:3478,stun:stun.voipgate.com:3478,stun:stun.voys.nl:3478"

  /** The built-in Snowflake bridge directive, as one line. */
  const SNOWFLAKE_BRIDGE: string := SNOWFLAKE_ADDRESS
    + (" " + SNOWFLAKE_FINGERPRINT + " fingerprint=" + SNOWFLAKE_FINGERPRINT
       + " url=https://1098762253.rsc.cdn77.org/ fronts=www.cdn77.com,www.phpmyadmin.net"
       + " ice=" + SNOWFLAKE_ICE_1 + "," + SNOWFLAKE_ICE_2 + "," + SNOWFLAKE_ICE_3
       + " utls-imitate=hellorandomizedalpn")

  /** The built-in meek-azure bridge directive, as one line. */
  const MEEK_BRIDGE: string := "Bridge meek_lite 192.0.2.18:80"
    + " BE776A53492E1E044A26F17306E1BC46A55A1625 url=https://meek.azureedge.net/ front=ajax.aspnetcdn.com"

  /** The message of the `RuntimeError` raised when obfs4 has no usable bridge line. */
  const NO_BRIDGES_ERROR: string := "No obfs4 bridges in config.json. Add obfs4 bridge lines to use this option."

  /**
   * The keys of the configuration dictionary that the generator reads. An absent
   * optional key is `None`; `ptPaths` maps a transport name to its colon-separated
   * candidate list.
   */
  datatype Config = Config(
    torPath: Option<string>,
    socksPort: Option<int>,
    controlPort: Option<int>,
    bridge: Option<string>,
    ptPaths: map<string, string>,
    obfs4Bridges: Option<seq<string>>)

  /** The launch command and the torrc text. */
  datatype TorCommand = TorCommand(executable: string, torrc: string)

  /** The bridge mode; an absent `bridge` key means Snowflake. */
  function Mode(cfg: Config): string {
    cfg.bridge.GetOr("snowflake")
  }

  /** The `pt_paths` key a mode looks up, if it uses a transport plugin. */
  function PluginKey(mode: string): Option<string> {
    if mode == "obfs4" then Some("obfs4proxy")
    else if mode == "snowflake" then Some("snowflake-client")
    else if mode == "meek-azure" then Some("meek-client")
    else None
  }

  /** The plugin's candidate list is present; otherwise the lookup raises `KeyError`. */
  predicate HasPluginPaths(cfg: Config) {
    PluginKey(Mode(cfg)).Some? ==> PluginKey(Mode(cfg)).value in cfg.ptPaths
  }

  /**
   * `resolve_first_existing(paths) or bare`: the first existing candidate, or the bare
   * plugin name (left to the `PATH` search) when none exists or when the one found is
   * the empty string, which Python's `or` treats as false.
   */
  function PluginPath(paths: string, bare: string, pathExists: string -> bool): (p: string)
    ensures p == bare || (p != "" && p in SplitOn(paths, ':') && pathExists(p))
    ensures p != bare ==> FirstExisting(SplitOn(paths, ':'), pathExists) == Some(p)
    ensures (forall c :: c in SplitOn(paths, ':') ==> !pathExists(c)) ==> p == bare
    ensures var found := FirstExisting(SplitOn(paths, ':'), pathExists);
      found.Some? && found.value != "" ==> p == found.value
    ensures FirstExisting(SplitOn(paths, ':'), pathExists) == Some("") ==> p == bare
  {
    match FirstExisting(SplitOn(paths, ':'), pathExists)
    case Some(found) => if found != "" then found else bare
    case None => bare
  }

  /** The five directives every torrc starts with. */
  function BaselineLines(cfg: Config): seq<string> {
    [ "SOCKSPort " + IntToDecimal(cfg.socksPort.GetOr(DEFAULT_SOCKS_PORT)),
      "ControlPort " + IntToDecimal(cfg.controlPort.GetOr(DEFAULT_CONTROL_PORT)),
      "CookieAuthentication 1",
      "Log notice stdout",
      "ClientOnly 1" ]
  }

  /** An obfs4 bridge entry counts unless, once stripped, it is blank or starts with `#`. */
  predicate Usable(b: string) {
    var t := Strip(b);
    !(|t| >= 1 && t[0] == '#') && t != ""
  }

  /** An entry is usable exactly when its first non-blank character exists and is not `#`. */
  lemma UsableIff(b: string)
    ensures Usable(b) <==>
      exists k :: 0 <= k < |b| && !IsSpace(b[k]) && b[k] != '#'
        && forall j :: 0 <= j < k ==> IsSpace(b[j])
  {
    StripStart(b);
    if Usable(b) {
      var k :| 0 <= k < |b| && Strip(b)[0] == b[k] && !IsSpace(b[k])
        && forall j :: 0 <= j < k ==> IsSpace(b[j]);
      assert b[k] != '#';
    } else if Strip(b) != [] {
      forall k | 0 <= k < |b| && !IsSpace(b[k]) && forall j :: 0 <= j < k ==> IsSpace(b[j])
        ensures b[k] == '#'
      {
        var k' :| 0 <= k' < |b| && Strip(b)[0] == b[k'] && !IsSpace(b[k'])
          && forall j :: 0 <= j < k' ==> IsSpace(b[j]);
        assert k == k';
      }
    }
  }

  /** The usable entries of `obfs4_bridges`, unchanged and in input order. */
  function UsableBridges(bs: seq<string>): (r: seq<string>)
    ensures |r| <= |bs|
    ensures forall b :: b in r <==> b in bs && Usable(b)
    decreases |bs|
  {
    if bs == [] then []
    else
      var rest := UsableBridges(bs[1..]);
      assert forall b :: b in bs <==> b == bs[0] || b in bs[1..];
      if Usable(bs[0]) then [bs[0]] + rest else rest
  }

  /** Filtering a concatenation filters each part and keeps the parts in order. */
  lemma {:induction false} UsableBridgesAppend(xs: seq<string>, ys: seq<string>)
    ensures UsableBridges(xs + ys) == UsableBridges(xs) + UsableBridges(ys)
    decreases |xs|
  {
    if xs == [] {
      assert xs + ys == ys;
    } else {
      assert (xs + ys)[0] == xs[0];
      assert (xs + ys)[1..] == xs[1..] + ys;
      UsableBridgesAppend(xs[1..], ys);
    }
  }

  /** One `Bridge <b>` directive per entry, in order. */
  function BridgeDirectives(bs: seq<string>): seq<string> {
    seq(|bs|, i requires 0 <= i < |bs| => "Bridge " + bs[i])
  }

  /** The obfs4 directives, or the error raised when no bridge entry is usable. */
  function Obfs4Lines(cfg: Config, pathExists: string -> bool): Result<seq<string>, string>
    requires "obfs4proxy" in cfg.ptPaths
  {
    var obfs4 := PluginPath(cfg.ptPaths["obfs4proxy"], "obfs4proxy", pathExists);
    var bridges := UsableBridges(cfg.obfs4Bridges.GetOr([]));
    if bridges == [] then Err(NO_BRIDGES_ERROR)
    else Ok(["UseBridges 1", "ClientTransportPlugin obfs4 exec " + obfs4] + BridgeDirectives(bridges))
  }

  /** The Snowflake directives. */
  function SnowflakeLines(cfg: Config, pathExists: string -> bool): seq<string>
    requires "snowflake-client" in cfg.ptPaths
  {
    var sfc := PluginPath(cfg.ptPaths["snowflake-client"], "snowflake-client", pathExists);
    ["UseBridges 1", "ClientTransportPlugin snowflake exec " + sfc + " -log /dev/null", SNOWFLAKE_BRIDGE]
  }

  /** The meek-azure directives. */
  function MeekLines(cfg: Config, pathExists: string -> bool): seq<string>
    requires "meek-client" in cfg.ptPaths
  {
    var meek := PluginPath(cfg.ptPaths["meek-client"], "meek-client", pathExists);
    ["UseBridges 1", "ClientTransportPlugin meek_lite exec " + meek, MEEK_BRIDGE]
  }

  /** The directives that follow the baseline, chosen by the bridge mode. */
  function ModeLines(cfg: Config, pathExists: string -> bool): Result<seq<string>, string>
    requires HasPluginPaths(cfg)
  {
    var mode := Mode(cfg);
    if mode == "obfs4" then Obfs4Lines(cfg, pathExists)
    else if mode == "snowflake" then Ok(SnowflakeLines(cfg, pathExists))
    else if mode == "meek-azure" then Ok(MeekLines(cfg, pathExists))
    else Ok([])
  }

  /** The torrc directive list, or the configuration error. */
  function TorrcLines(cfg: Config, pathExists: string -> bool): Result<seq<string>, string>
    requires HasPluginPaths(cfg)
  {
    match ModeLines(cfg, pathExists)
    case Err(e) => Err(e)
    case Ok(extra) => Ok(BaselineLines(cfg) + extra)
  }

  /** `_build_tor_command`: the executable (default `tor`) and the rendered torrc. */
  function BuildTorCommand(cfg: Config, pathExists: string -> bool): (r: Result<TorCommand, string>)
    requires HasPluginPaths(cfg)
    ensures r.Ok? ==> r.value.executable == cfg.torPath.GetOr("tor")
    ensures r.Err? ==> Mode(cfg) == "obfs4" && r.error == NO_BRIDGES_ERROR
  {
    match TorrcLines(cfg, pathExists)
    case Err(e) => Err(e)
    case Ok(lines) => Ok(TorCommand(cfg.torPath.GetOr("tor"), Render(lines)))
  }

  /**
   * Every torrc is its directive list joined by newlines plus a final newline, and its
   * first five lines are the baseline directives, in order, with ports 9050 and 9051
   * unless configured.
   */
  lemma TorrcStartsWithBaseline(cfg: Config, pathExists: string -> bool)
    requires HasPluginPaths(cfg)
    requires BuildTorCommand(cfg, pathExists).Ok?
    ensures TorrcLines(cfg, pathExists).Ok?
    ensures BuildTorCommand(cfg, pathExists).value.torrc == Render(TorrcLines(cfg, pathExists).value)
    ensures var t := BuildTorCommand(cfg, pathExists).value.torrc;
      |t| >= 1 && t[|t| - 1] == '\n'
      && |SplitOn(t, '\n')| >= 6
      && SplitOn(t, '\n')[0] == "SOCKSPort " + IntToDecimal(cfg.socksPort.GetOr(9050))
      && SplitOn(t, '\n')[1] == "ControlPort " + IntToDecimal(cfg.controlPort.GetOr(9051))
      && SplitOn(t, '\n')[2] == "CookieAuthentication 1"
      && SplitOn(t, '\n')[3] == "Log notice stdout"
      && SplitOn(t, '\n')[4] == "ClientOnly 1"
  {
    var base := BaselineLines(cfg);
    var extra := ModeLines(cfg, pathExists).value;
    assert TorrcLines(cfg, pathExists) == Ok(base + extra);
    assert BuildTorCommand(cfg, pathExists).value.torrc == Render(base + extra);
    BaselineSingleLines(cfg);
    RenderPrefix(base, extra);
    var parts := SplitOn(Render(base + extra), '\n');
    assert parts[..5] == base;
    assert parts[0] == base[0] && parts[1] == base[1] && parts[2] == base[2];
    assert parts[3] == base[3] && parts[4] == base[4];
  }

  /**
   * The numbers after `SOCKSPort ` and `ControlPort ` on the first two lines of the
   * torrc read back as the configured ports (9050 and 9051 by default).
   */
  lemma TorrcPortsReadBack(cfg: Config, pathExists: string -> bool)
    requires HasPluginPaths(cfg)
    requires BuildTorCommand(cfg, pathExists).Ok?
    ensures var parts := SplitOn(BuildTorCommand(cfg, pathExists).value.torrc, '\n');
      |parts| >= 2
      && |parts[0]| >= 10 && parts[0][..10] == "SOCKSPort "
      && IsNumeral(parts[0][10..]) && IntValue(parts[0][10..]) == cfg.socksPort.GetOr(9050)
      && |parts[1]| >= 12 && parts[1][..12] == "ControlPort "
      && IsNumeral(parts[1][12..]) && IntValue(parts[1][12..]) == cfg.controlPort.GetOr(9051)
  {
    TorrcStartsWithBaseline(cfg, pathExists);
    var socks := IntToDecimal(cfg.socksPort.GetOr(9050));
    var control := IntToDecimal(cfg.controlPort.GetOr(9051));
    IntRoundTrip(cfg.socksPort.GetOr(9050));
    IntRoundTrip(cfg.controlPort.GetOr(9051));
    assert ("SOCKSPort " + socks)[10..] == socks;
    assert ("ControlPort " + control)[12..] == control;
  }

  /** No baseline directive holds a newline, so each stays one line of the file. */
  lemma BaselineSingleLines(cfg: Config)
    ensures forall i :: 0 <= i < |BaselineLines(cfg)| ==> '\n' !in BaselineLines(cfg)[i]
  {
    var socks := IntToDecimal(cfg.socksPort.GetOr(DEFAULT_SOCKS_PORT));
    var control := IntToDecimal(cfg.controlPort.GetOr(DEFAULT_CONTROL_PORT));
    assert '\n' !in "SOCKSPort " + socks;
    assert '\n' !in "ControlPort " + control;
  }

  /** Only obfs4 can fail; any other mode yields a command. */
  lemma OnlyObfs4Fails(cfg: Config, pathExists: string -> bool)
    requires HasPluginPaths(cfg)
    requires Mode(cfg) != "obfs4"
    ensures BuildTorCommand(cfg, pathExists).Ok?
  {
  }

  /**
   * In obfs4 mode the command fails, with the no-bridges message, exactly when every
   * `obfs4_bridges` entry (an absent list counts as empty) is blank or a comment.
   */
  lemma Obfs4FailsWithoutUsableBridge(cfg: Config, pathExists: string -> bool)
    requires HasPluginPaths(cfg)
    requires Mode(cfg) == "obfs4"
    ensures var bs := cfg.obfs4Bridges.GetOr([]);
      BuildTorCommand(cfg, pathExists).Err? <==> forall i :: 0 <= i < |bs| ==> !Usable(bs[i])
    ensures BuildTorCommand(cfg, pathExists).Err? ==>
      BuildTorCommand(cfg, pathExists).error == NO_BRIDGES_ERROR
  {
    var bs := cfg.obfs4Bridges.GetOr([]);
    var u := UsableBridges(bs);
    if u != [] {
      assert u[0] in u;
    } else {
      forall i | 0 <= i < |bs| ensures !Usable(bs[i]) {
        assert bs[i] in bs;
      }
    }
  }

  /**
   * In obfs4 mode with a usable entry, the baseline is followed by `UseBridges 1`, the
   * obfs4 plugin line and one `Bridge` line per usable entry, each carrying the entry
   * as written (not stripped), in input order.
   */
  lemma Obfs4Directives(cfg: Config, pathExists: string -> bool)
    requires HasPluginPaths(cfg)
    requires Mode(cfg) == "obfs4"
    requires UsableBridges(cfg.obfs4Bridges.GetOr([])) != []
    ensures TorrcLines(cfg, pathExists).Ok?
    ensures var lines := TorrcLines(cfg, pathExists).value;
      var u := UsableBridges(cfg.obfs4Bridges.GetOr([]));
      |lines| == 7 + |u|
      && lines[..5] == BaselineLines(cfg)
      && lines[5] == "UseBridges 1"
      && lines[6] == "ClientTransportPlugin obfs4 exec "
           + PluginPath(cfg.ptPaths["obfs4proxy"], "obfs4proxy", pathExists)
      && forall i :: 0 <= i < |u| ==> lines[7 + i] == "Bridge " + u[i]
  {
    Obfs4LinesShape(cfg, pathExists);
    assert ModeLines(cfg, pathExists) == Obfs4Lines(cfg, pathExists);
  }

  /** The obfs4 directives on their own: plugin line, then one `Bridge` line per usable entry. */
  lemma Obfs4LinesShape(cfg: Config, pathExists: string -> bool)
    requires "obfs4proxy" in cfg.ptPaths
    requires UsableBridges(cfg.obfs4Bridges.GetOr([])) != []
    ensures Obfs4Lines(cfg, pathExists).Ok?
    ensures var extra := Obfs4Lines(cfg, pathExists).value;
      var u := UsableBridges(cfg.obfs4Bridges.GetOr([]));
      |extra| == 2 + |u|
      && extra[0] == "UseBridges 1"
      && extra[1] == "ClientTransportPlugin obfs4 exec "
           + PluginPath(cfg.ptPaths["obfs4proxy"], "obfs4proxy", pathExists)
      && forall i :: 0 <= i < |u| ==> extra[2 + i] == "Bridge " + u[i]
  {
    var u := UsableBridges(cfg.obfs4Bridges.GetOr([]));
    var head := ["UseBridges 1", "ClientTransportPlugin obfs4 exec "
                   + PluginPath(cfg.ptPaths["obfs4proxy"], "obfs4proxy", pathExists)];
    Obfs4LinesValue(cfg, pathExists);
    HeadThenDirectives(head, u);
  }

  /** The obfs4 directives as one list. */
  lemma Obfs4LinesValue(cfg: Config, pathExists: string -> bool)
    requires "obfs4proxy" in cfg.ptPaths
    requires UsableBridges(cfg.obfs4Bridges.GetOr([])) != []
    ensures Obfs4Lines(cfg, pathExists)
      == Ok(["UseBridges 1", "ClientTransportPlugin obfs4 exec "
               + PluginPath(cfg.ptPaths["obfs4proxy"], "obfs4proxy", pathExists)]
            + BridgeDirectives(UsableBridges(cfg.obfs4Bridges.GetOr([]))))
  {
  }

  /** Two lines followed by the `Bridge` directives of `u`: one directive per entry, in order. */
  lemma HeadThenDirectives(head: seq<string>, u: seq<string>)
    requires |head| == 2
    ensures var extra := head + BridgeDirectives(u);
      |extra| == 2 + |u| && extra[0] == head[0] && extra[1] == head[1]
      && forall i :: 0 <= i < |u| ==> extra[2 + i] == "Bridge " + u[i]
  {
    var extra := head + BridgeDirectives(u);
    forall i | 0 <= i < |u| ensures extra[2 + i] == "Bridge " + u[i] {
      assert extra[2 + i] == BridgeDirectives(u)[i];
    }
  }

  /**
   * Snowflake and meek-azure each add exactly three directives: `UseBridges 1`, the
   * plugin line, and their built-in `Bridge` line.
   */
  lemma FixedBridgeDirectives(cfg: Config, pathExists: string -> bool)
    requires HasPluginPaths(cfg)
    requires Mode(cfg) == "snowflake" || Mode(cfg) == "meek-azure"
    ensures TorrcLines(cfg, pathExists).Ok?
    ensures var lines := TorrcLines(cfg, pathExists).value;
      |lines| == 8 && lines[..5] == BaselineLines(cfg) && lines[5] == "UseBridges 1"
      && (Mode(cfg) == "snowflake" ==>
            lines[6] == "ClientTransportPlugin snowflake exec "
              + PluginPath(cfg.ptPaths["snowflake-client"], "snowflake-client", pathExists)
              + " -log /dev/null"
            && lines[7] == SNOWFLAKE_BRIDGE)
      && (Mode(cfg) == "meek-azure" ==>
            lines[6] == "ClientTransportPlugin meek_lite exec "
              + PluginPath(cfg.ptPaths["meek-client"], "meek-client", pathExists)
            && lines[7] == MEEK_BRIDGE)
  {
    var base := BaselineLines(cfg);
    if Mode(cfg) == "snowflake" {
      assert ModeLines(cfg, pathExists) == Ok(SnowflakeLines(cfg, pathExists));
      assert TorrcLines(cfg, pathExists) == Ok(base + SnowflakeLines(cfg, pathExists));
    } else {
      assert ModeLines(cfg, pathExists) == Ok(MeekLines(cfg, pathExists));
      assert TorrcLines(cfg, pathExists) == Ok(base + MeekLines(cfg, pathExists));
    }
  }

  /** A string that differs from `prefix` at some position before either ends does not start with it. */
  lemma DiffersAt(s: string, prefix: string, k: nat)
    requires k < |s| && k < |prefix| && s[k] != prefix[k]
    ensures !StartsWith(s, prefix)
  {
    if |prefix| <= |s| {
      assert s[..|prefix|][k] != prefix[k];
    }
  }

  /** A directive that configures bridges: `UseBridges`, `ClientTransportPlugin` or `Bridge`. */
  predicate IsBridgeDirective(l: string) {
    StartsWith(l, "UseBridges") || StartsWith(l, "ClientTransportPlugin") || StartsWith(l, "Bridge")
  }

  /** No baseline directive is a bridge directive. */
  lemma BaselineHasNoBridgeDirective(cfg: Config)
    ensures forall i :: 0 <= i < |BaselineLines(cfg)| ==> !IsBridgeDirective(BaselineLines(cfg)[i])
  {
    var b := BaselineLines(cfg);
    forall i | 0 <= i < 5 ensures !IsBridgeDirective(b[i]) {
      if i == 0 {
        NotBridgeDirective(b[0], 0);
      } else if i == 1 {
        NotBridgeDirective(b[1], 1);
      } else if i == 2 {
        NotBridgeDirective(b[2], 1);
      } else if i == 3 {
        NotBridgeDirective(b[3], 0);
      } else {
        NotBridgeDirective(b[4], 6);
      }
    }
  }

  /**
   * A line whose first character is neither `U` nor `B`, and which differs from
   * `ClientTransportPlugin` at position `k`, is not a bridge directive.
   */
  lemma NotBridgeDirective(l: string, k: nat)
    requires k < |l| && k < |"ClientTransportPlugin"|
    requires l[0] != 'U' && l[0] != 'B' && l[k] != "ClientTransportPlugin"[k]
    ensures !IsBridgeDirective(l)
  {
    DiffersAt(l, "UseBridges", 0);
    DiffersAt(l, "Bridge", 0);
    DiffersAt(l, "ClientTransportPlugin", k);
  }

  /**
   * Any other mode, `"none"` included, yields the baseline alone: no `UseBridges`,
   * `ClientTransportPlugin` or `Bridge` directive.
   */
  lemma OtherModesBaselineOnly(cfg: Config, pathExists: string -> bool)
    requires Mode(cfg) != "obfs4" && Mode(cfg) != "snowflake" && Mode(cfg) != "meek-azure"
    ensures HasPluginPaths(cfg) && TorrcLines(cfg, pathExists) == Ok(BaselineLines(cfg))
    ensures var lines := TorrcLines(cfg, pathExists).value;
      forall i :: 0 <= i < |lines| ==> !IsBridgeDirective(lines[i])
  {
    assert BaselineLines(cfg) + [] == BaselineLines(cfg);
    BaselineHasNoBridgeDirective(cfg);
  }

  /** A configuration without a `bridge` key behaves as `"snowflake"`. */
  lemma AbsentBridgeIsSnowflake(cfg: Config, pathExists: string -> bool)
    requires cfg.bridge == None
    requires "snowflake-client" in cfg.ptPaths
    ensures HasPluginPaths(cfg) && HasPluginPaths(cfg.(bridge := Some("snowflake")))
    ensures BuildTorCommand(cfg, pathExists) == BuildTorCommand(cfg.(bridge := Some("snowflake")), pathExists)
  {
  }

  /**
   * With Snowflake and SOCKS port 9050 the torrc holds `SOCKSPort 9050` and a line
   * starting `Bridge snowflake 192.0.2.4:80`.
   */
  lemma SnowflakeScenario(cfg: Config, pathExists: string -> bool)
    requires cfg.bridge == Some("snowflake") && cfg.socksPort == Some(9050)
    requires "snowflake-client" in cfg.ptPaths
    ensures HasPluginPaths(cfg) && BuildTorCommand(cfg, pathExists).Ok?
    ensures var parts := SplitOn(BuildTorCommand(cfg, pathExists).value.torrc, '\n');
      "SOCKSPort 9050" in parts
      && exists l :: l in parts && StartsWith(l, "Bridge snowflake 192.0.2.4:80")
  {
    FixedBridgeDirectives(cfg, pathExists);
    TorrcStartsWithBaseline(cfg, pathExists);
    PortRendering();
    var lines := TorrcLines(cfg, pathExists).value;
    assert SplitOn(Render(lines), '\n')[0] == "SOCKSPort 9050";
    SnowflakeBridgeHead();
    RenderKeepsHead(lines, 7, SNOWFLAKE_ADDRESS);
  }

  /** The SOCKS directive for port 9050. */
  lemma PortRendering()
    ensures "SOCKSPort " + IntToDecimal(9050) == "SOCKSPort 9050"
  {
    assert IntToDecimal(9050) == "9050";
  }

  /** The built-in Snowflake directive starts with its transport and address. */
  lemma SnowflakeBridgeHead()
    ensures StartsWith(SNOWFLAKE_BRIDGE, SNOWFLAKE_ADDRESS) && '\n' !in SNOWFLAKE_ADDRESS
  {
  }
}
