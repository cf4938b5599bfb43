# TorTray in Dafny

TorTray is a macOS menu-bar application that starts and stops a `tor` client. This
project models its core and proves properties of it:

- **torrc generation** (`_build_tor_command`): the configuration dictionary becomes
  the `tor` executable plus the text of a torrc file. The text has five baseline
  directives and then the directives of the bridge mode (obfs4, Snowflake or
  meek-azure). The transport plugin path is found by `resolve_first_existing` over a
  colon-separated candidate list.
- **bridge selection** (`set_bridge`, `_set_bridge_checks`): a Bridges menu title is
  normalised into the configured bridge value, and the matching item is ticked.
- **connect / disconnect** (`toggle_connect`, `_connect`, `_disconnect`, `quit_app`):
  the state of `tor_proc`, the Connect item's title and the log file.

Modules, one file each:

- `Wrappers` (wrappers.dfy): `Option` and `Result`.
- `Text` (text.dfy): the Python string operations the core relies on.
  - `str.split` on one separator (empty fields kept, `""` splits to `[""]`).
  - `"\n".join(lines) + "\n"`.
  - `str.strip()` over Python's whitespace set.
  - `str(int)`.
- `PathResolve` (resolve.dfy): `resolve_first_existing`.
- `Torrc` (torrc.dfy): `_build_tor_command`.
- `BridgeMenu` (bridge_menu.dfy): title normalisation and the menu check states.
- `Session` (session.dfy): the tray's state as a value, with each operation as a step
  function, and the properties of those steps.
- `App` (tortray.dfy): the class `TorTray`. Its fields are that state, and each
  state-changing callback is proved to perform exactly the corresponding `Session`
  step. `InitLogFile`, `SetBridgeChecks` and `PollStatus` have no `Session` step and
  carry their own contracts.

The environment enters as parameters:

- `pathExists` stands for `Path(p).exists()`.
- `binaryFound` says whether `Popen` finds the tor executable, that is, does not raise
  `FileNotFoundError`.
- `tmpName` is the name of the temporary torrc file.
- `graceful` says whether tor exits within the 5-second wait after `terminate()`.
- `now` is a formatted clock reading.
- `portOpen` stands for `_port_open`.

Log records are kept without their per-record timestamp prefix.

Things the code does that the model keeps as written:

- A missing `bridge` key means Snowflake when the torrc is built (tortray.py:244).
  The log record "Starting Tor with bridge: …" uses the default `none` for the same
  key instead (tortray.py:177), so a configuration without the key starts Snowflake
  while logging "none".
- The conditional on tortray.py:135 picks `name` on both branches, so the bridge is
  always the normalised title.
- `resolve_first_existing(...) or name` also falls back to the bare plugin name when
  the candidate found is the empty string, because `""` is false in Python.
- The title reads "Disconnect" exactly while `tor_proc` holds a process, whether or
  not that process is still alive. A process that exits on its own is never cleared.
  The title then stays "Disconnect", and the next toggle reconnects.

## Model

| member | source | states |
|---|---|---|
| Text.SplitOn | tortray.py:64 | `str.split` on one separator: at least one field, and no field contains the separator |
| Text.JoinSplit | tortray.py:64 | joining the fields of a split with the separator gives back the original string |
| Text.SplitJoin | tortray.py:64 | splitting a join of separator-free fields gives back the fields |
| Text.SplitOfField | tortray.py:64 | a string without the separator splits into itself alone |
| Text.RenderSplit | tortray.py:275 | `"\n".join(lines) + "\n"` ends in a newline and splits back into the lines followed by one empty field |
| Text.RenderPrefix | tortray.py:275 | newline-free leading lines come back first, in order, when the rendered text is split at newlines |
| Text.RenderKeepsHead | tortray.py:275 | a line of the list that starts with a newline-free head is still a line of the rendered text starting with that head |
| Text.Render | tortray.py:275 | `"\n".join(lines) + "\n"`; RenderSplit and RenderPrefix state its properties |
| Text.StripStart | tortray.py:248 | `strip()` is empty exactly when every character is whitespace; otherwise it starts at the first non-whitespace character |
| Text.TrimLeft | tortray.py:248 | drops leading whitespace: the result is a suffix, everything dropped is whitespace, and it starts with a non-whitespace character unless empty |
| Text.TrimRight | tortray.py:248 | drops trailing whitespace: the result is a prefix, everything dropped is whitespace, and it ends with a non-whitespace character unless empty |
| Text.Strip | tortray.py:248 | `str.strip()`: both ends trimmed; StripStart states what is left |
| Text.IntRoundTrip | tortray.py:233-238 | the decimal text of a port number reads back as that number |
| Text.DecimalRoundTrip | tortray.py:233-238 | the decimal digits of a natural number read back as that number |
| Text.NaturalRoundTrip | tortray.py:233-238 | the numeral of a non-negative port is plain digits and reads back as the port |
| Text.NegativeRoundTrip | tortray.py:233-238 | the numeral of a negative port is a minus sign before digits and reads back as the port |
| Text.IntToDecimal | tortray.py:237-238 | `str(i)` for a port: no newline; IntRoundTrip states that it reads back as the port |
| PathResolve.FirstExisting | tortray.py:63-67 | `None` exactly when no candidate exists; otherwise a candidate that exists, with no existing candidate before it |
| PathResolve.ResolveFirstExisting | tortray.py:63-67 | the loop with early return yields the first existing field of `paths.split(":")`, or `None` |
| PathResolve.SecondCandidateFound | tortray.py:63-67 | for `/a:/b` with only `/b` present, the result is `/b` |
| Torrc.Mode | tortray.py:244 | the bridge mode, `snowflake` when the key is absent; AbsentBridgeIsSnowflake states it of the build |
| Torrc.BaselineLines | tortray.py:236-242 | the five baseline directives; TorrcStartsWithBaseline and TorrcPortsReadBack state them of the torrc |
| Torrc.Usable | tortray.py:248 | the filter condition of the obfs4 list; UsableIff states it in terms of the first non-whitespace character |
| Torrc.PluginPath | tortray.py:247 | the plugin path is the first existing candidate when that is non-empty, and the bare name when no candidate exists or the first existing one is the empty string |
| Torrc.UsableIff | tortray.py:248 | an obfs4 entry is kept exactly when its first non-whitespace character exists and is not `#` |
| Torrc.UsableBridges | tortray.py:248 | the kept entries are exactly the input entries that are usable, and there are no more of them than inputs |
| Torrc.UsableBridgesAppend | tortray.py:248 | the filter keeps input order: filtering a concatenation concatenates the filtered parts |
| Torrc.Obfs4Lines | tortray.py:246-254 | the obfs4 block or the no-bridges error; Obfs4LinesShape and Obfs4FailsWithoutUsableBridge state it |
| Torrc.SnowflakeLines | tortray.py:256-264 | the Snowflake block; FixedBridgeDirectives states it |
| Torrc.MeekLines | tortray.py:266-273 | the meek-azure block; FixedBridgeDirectives states it |
| Torrc.ModeLines | tortray.py:244-273 | the block of the configured mode, nothing for any other mode; OtherModesBaselineOnly states the latter |
| Torrc.TorrcLines | tortray.py:236-273 | the baseline followed by the mode's block, or the obfs4 error; Obfs4Directives and FixedBridgeDirectives state it |
| Torrc.BuildTorCommand | tortray.py:230-275 | the executable is `tor_path` (default `tor`); the only failure is obfs4's, with the no-bridges message; the lemmas below state the torrc |
| Torrc.TorrcPortsReadBack | tortray.py:233-238 | the numbers after `SOCKSPort ` and `ControlPort ` on the first two torrc lines read back as the configured ports, 9050 and 9051 by default |
| Torrc.TorrcStartsWithBaseline | tortray.py:232-242 | the torrc is the rendered directive list and ends in a newline; its first five lines are the baseline directives in order, with ports 9050 and 9051 by default |
| Torrc.BaselineSingleLines | tortray.py:236-242 | no baseline directive contains a newline |
| Torrc.OnlyObfs4Fails | tortray.py:244-275 | every mode other than obfs4 builds a command |
| Torrc.Obfs4FailsWithoutUsableBridge | tortray.py:246-250 | in obfs4 mode the build fails, with the no-bridges message, exactly when every entry (an absent list counts as empty) is blank or a comment |
| Torrc.Obfs4Directives | tortray.py:246-254 | obfs4 output: baseline, `UseBridges 1`, the obfs4 plugin line, then one `Bridge <b>` per usable entry as written, in input order, and nothing else |
| Torrc.Obfs4LinesShape | tortray.py:251-254 | the obfs4 directives alone: `UseBridges 1`, the plugin line, one `Bridge` line per usable entry |
| Torrc.HeadThenDirectives | tortray.py:251-254 | two lines followed by the `Bridge` directives give one `Bridge <b>` line per entry, in order |
| Torrc.FixedBridgeDirectives | tortray.py:256-273 | Snowflake and meek-azure add exactly three lines: `UseBridges 1`, their plugin line with the resolved or bare plugin, and their built-in bridge line |
| Torrc.OtherModesBaselineOnly | tortray.py:244-275 | any other mode, `none` included, gives exactly the baseline, with no `UseBridges`, `ClientTransportPlugin` or `Bridge` line |
| Torrc.BaselineHasNoBridgeDirective | tortray.py:236-242 | no baseline directive starts with `UseBridges`, `ClientTransportPlugin` or `Bridge` |
| Torrc.NotBridgeDirective | tortray.py:236-242 | a line starting with neither `U` nor `B` and differing from `ClientTransportPlugin` at some position is not a bridge directive |
| Torrc.DiffersAt | tortray.py:236-242 | a string that differs from a prefix at a position inside both does not start with it |
| Torrc.AbsentBridgeIsSnowflake | tortray.py:244 | a configuration without a `bridge` key builds the same command as one with `snowflake` |
| Torrc.SnowflakeScenario | tortray.py:236-264 | with Snowflake on port 9050 the torrc has the line `SOCKSPort 9050` and a line starting `Bridge snowflake 192.0.2.4:80` |
| Torrc.PortRendering | tortray.py:237 | port 9050 renders as `SOCKSPort 9050` |
| Torrc.SnowflakeBridgeHead | tortray.py:263 | the built-in Snowflake line starts with its transport and address |
| BridgeMenu.Lower | tortray.py:134 | lower-casing keeps the length, maps each of `A`–`Z` to its lower-case letter and keeps every other character in place |
| BridgeMenu.WithoutSpaces | tortray.py:134 | removing spaces leaves no space, never lengthens, and keeps exactly the characters other than space |
| BridgeMenu.WithoutSpacesAppend | tortray.py:134 | removing spaces distributes over concatenation, so the other characters keep their order and number |
| BridgeMenu.Normalise | tortray.py:134 | `title.lower().replace(" ", "")`: the result has no space and is no longer than the title; NormaliseIdempotent and TitlesNormalise state the rest |
| BridgeMenu.LowerOfLower | tortray.py:134 | lower-casing text without upper-case letters changes nothing |
| BridgeMenu.WithoutSpacesOfSpaceless | tortray.py:134 | removing spaces from text without spaces changes nothing |
| BridgeMenu.NormaliseIdempotent | tortray.py:134 | normalising a title twice is normalising it once |
| BridgeMenu.NormalisesTo | tortray.py:134 | a title whose lower-case form is a space-free value normalises to that value |
| BridgeMenu.TitlesNormalise | tortray.py:82-85 | the four Bridges items normalise to `obfs4`, `snowflake`, `meek-azure`, `none`, in menu order |
| BridgeMenu.BridgeValuesDistinct | tortray.py:82-85 | the four bridge values are pairwise distinct |
| BridgeMenu.Obfs4Title | tortray.py:82 | `obfs4` normalises to `obfs4` |
| BridgeMenu.SnowflakeTitle | tortray.py:83 | `Snowflake` normalises to `snowflake` |
| BridgeMenu.MeekTitle | tortray.py:84 | `meek-azure` normalises to `meek-azure` |
| BridgeMenu.NoneTitle | tortray.py:85 | `None` normalises to `none` |
| BridgeMenu.CheckStates | tortray.py:161-163 | the check state of each of the four items for a bridge value; ExactlyOneChecked and NothingCheckedForOtherValues state its properties |
| BridgeMenu.ExactlyOneChecked | tortray.py:161-163 | for one of the four bridge values exactly one item is checked |
| BridgeMenu.NothingCheckedForOtherValues | tortray.py:161-163 | for any other value no item is checked |
| Session.Valid | tortray.py:78-85 | the invariant: one check state per Bridges item, and the title is "Disconnect" exactly when `tor_proc` is set |
| Session.Init | tortray.py:96-115 | `__init__`; InitIsValid states its properties |
| Session.AppendLog | tortray.py:211-217 | `_append_log` on the state; StepsKeepValid and the connect lemmas use it |
| Session.ClearLogs | tortray.py:149-153 | `clear_logs` on the state; ClearLogsLeavesOneRecord states it |
| Session.Disconnect | tortray.py:195-204 | `_disconnect`: always ends with no process and the title "Connect"; DisconnectEndsIdle states the rest |
| Session.Connect | tortray.py:165-193 | `_connect`; ConfigErrorChangesOnlyLog, MissingBinaryChangesOnlyLog and ConnectLaunches state its three outcomes |
| Session.Toggle | tortray.py:117-121 | `toggle_connect`; ToggleTwiceReturnsToIdle and ExitedProcessIsReconnected state it |
| Session.SetBridge | tortray.py:133-137 | `set_bridge`; SetBridgeSelects states it |
| Session.Quit | tortray.py:156-159 | `quit_app`; QuitEndsIdle states it |
| Session.ProcessExits | tortray.py:118 | tor exits by itself: the process is no longer alive but stays in `tor_proc`, and the title is unchanged |
| Session.InitIsValid | tortray.py:96-115 | a new tray keeps the invariant, has no live process, and its log keeps the earlier records |
| Session.StepsKeepValid | tortray.py:117-221 | every operation keeps the invariant: one check state per Bridges item, and the title is "Disconnect" exactly when `tor_proc` is set |
| Session.DisconnectEndsIdle | tortray.py:195-204 | disconnect always leaves no process and the title "Connect"; it logs "Disconnecting Tor..." and sends `terminate` only to a live process; the kill path differs only by the extra `kill` |
| Session.DisconnectIdempotent | tortray.py:195-204 | disconnecting twice is disconnecting once: the second call logs and signals nothing |
| Session.ConfigErrorChangesOnlyLog | tortray.py:165-171 | a configuration error adds "Config error: <message>" to the log and changes nothing else |
| Session.MissingBinaryChangesOnlyLog | tortray.py:177-190 | a missing tor binary logs the start and the error, and leaves `tor_proc`, the title, the configuration, the check states and the signals as they were |
| Session.ConnectLaunches | tortray.py:165-193 | a successful connect leaves a live process started with the built executable and torrc, and the title "Disconnect"; the configuration, the check states and the signals are unchanged |
| Session.ToggleTwiceReturnsToIdle | tortray.py:117-121 | from idle, two toggles start tor and stop it: idle again, with the start and disconnect records logged and the stop signals sent |
| Session.ExitedProcessIsReconnected | tortray.py:117-121 | a process that exits by itself stays in `tor_proc` and the title stays "Disconnect"; the next toggle connects |
| Session.SetBridgeSelects | tortray.py:133-137 | after choosing an item the bridge is its normalised title and it is the only checked item; the other configuration keys, process, title, log and signals are untouched |
| Session.QuitEndsIdle | tortray.py:156-159 | quitting disconnects and then logs "TorTray shutting down" as the last record |
| Session.ClearLogsLeavesOneRecord | tortray.py:149-153 | clearing leaves one record, and clearing again only replaces it |
| App.TorTray.constructor | tortray.py:96-106 | the new object's state is the initial state: title "Connect", no process, the configured bridge checked, the session header logged |
| App.TorTray.InitLogFile | tortray.py:109-115 | the log gains the session header: a blank line, a rule, the start time, a rule |
| App.TorTray.AppendLog | tortray.py:211-217 | the log gains one record, nothing else changes, and the invariant is kept |
| App.TorTray.ClearLogs | tortray.py:149-153 | the log becomes the single record "Logs cleared: <time>", and the invariant is kept |
| App.TorTray.SetBridgeChecks | tortray.py:161-163 | the loop over the four items leaves each checked exactly when its normalised title is the current bridge |
| App.TorTray.SetBridge | tortray.py:133-137 | performs the bridge-selection step and keeps the invariant |
| App.TorTray.Connect | tortray.py:165-193 | performs the connect step and keeps the invariant |
| App.TorTray.Disconnect | tortray.py:195-204 | performs the disconnect step and keeps the invariant |
| App.TorTray.ToggleConnect | tortray.py:117-121 | disconnects exactly when the process is set and alive, connects otherwise, and keeps the invariant |
| App.TorTray.Quit | tortray.py:156-159 | disconnects, then logs the shutdown, and keeps the invariant |
| App.TorTray.ProcessExits | tortray.py:118 | performs the process-exit step and keeps the invariant |
| App.TorTray.PollStatus | tortray.py:219-221 | alive exactly when `tor_proc` holds a process that has not exited; the SOCKS port (by default 9050) counts only when alive |

Helpers without a row, whose behaviour the rows of the members that use them describe:
`Session.IsAlive` (`tor_proc and tor_proc.poll() is None`, tortray.py:118, 196 and 220),
`Session.StopSignals` (terminate, then kill on timeout, tortray.py:198-202),
`Session.SessionHeader` (tortray.py:113-115), `Torrc.BridgeDirectives` (the comprehension on
tortray.py:254), `Text.IsSpace` (the whitespace set of `strip()`, tortray.py:248) and
`Text.JoinWith` (`sep.join`, tortray.py:275), `Torrc.PluginKey` (the `pt_paths` keys of
tortray.py:247, 257 and 267), `Text.NatToDecimal` (`str(n)` for a natural number, tortray.py:237-238)
and `BridgeMenu.LowerChar` (`lower()` on one character, tortray.py:134). `Torrc.Obfs4LinesValue` is a proof step of
`Obfs4LinesShape`.

## Left out

- The rumps menu bar, notifications and the status timer are left out. Only the Connect title and the Bridges check states are modelled, as fields.
- `load_config`, `save_config` and `ensure_app_support` (JSON file I/O) are left out. The configuration is a value, and `set_bridge` does not persist it.
- `int()` conversion of ports is left out. The configuration holds integers, so a non-numeric port, which would raise `ValueError`, is not modelled.
- Values of the wrong JSON type are left out. For example, a non-list `obfs4_bridges` or a non-string entry is not modelled.
- `Popen`, `terminate`, `wait` and `kill` become a process handle plus the `binaryFound` and `graceful` parameters. `Popen` errors other than `FileNotFoundError` are not modelled.
- Writing the temporary torrc file is left out. Its name is the `tmpName` parameter, and the handle records it together with the torrc text.
- `_read_tor_output` is left out, because it runs on a daemon thread and interleaves records with everything else. So is the log lock. A process exit is the `ProcessExits` step, which adds no record.
- `_port_open` (socket probing) is the `portOpen` parameter. `_poll_status` computes its two values and discards them, so `PollStatus` only returns them.
- Timestamps are left out of log records. The two that are part of a record's text (the session header and "Logs cleared") come from the `now` parameter.
- `rumps.quit_application()` is left out; `Quit` stops after the shutdown record.
- `toggle_run_on_launch` and the login-item plist and `launchctl` calls are left out, as is the "Run on Launch" check state.
- The `open` shell-outs of `edit_config` and `show_logs` are left out.
- Torrc.HasPluginPaths: a missing `pt_paths` entry for the chosen mode raises `KeyError`, which `_connect` does not catch. The model makes that entry a precondition of the build, of `Connect` and of `Toggle`.
- BridgeMenu.Lower: lower-cases ASCII letters only. The four menu titles are ASCII, but Python's `lower()` also maps other scripts.
