/**
 * The installation run: an ordered sequence of stages, each of which adds
 * entries to the progress log and may raise. A raise ends the run with an
 * "Installation failed" entry; the optional stages run only when selected.
 * The machine's file system and the programs the installer starts are
 * values: a `Host` (what exists) and an `Environment` (how the outside
 * world answers).
 */
module Pipeline {
  import opened Wrappers
  import opened Text
  import opened Progress
  import opened Packages
  import opened ShellPatches

  /** One line a started program printed, already stripped. */
  datatype OutputLine = Stdout(text: string) | Stderr(text: string)

  /** What starting a program gives: its exit status and its output in the
      order it was read, or the error raised because it could not start. */
  datatype CommandResult = Exited(code: int, output: seq<OutputLine>) | SpawnFailed(reason: string)

  /** The machine: texts of the shell rc files, the other paths that exist,
      and which of them are executable. */
  datatype Host = Host(files: map<string, string>, artifacts: set<string>, executable: set<string>)

  /** The outside world's answers: the programs `shutil.which` finds, the
      result of running each command, the size of the downloaded file (None
      when curl left no file), whether `chmod` made it executable, and the
      error text raised by writing or creating each failing path. */
  datatype Environment = Environment(
    onPath: set<string>,
    run: seq<string> -> CommandResult,
    downloaded: Option<nat>,
    chmodEffective: bool,
    faults: map<string, string>)

  /** The wizard's choices: the distro name and the two optional components. */
  datatype Config = Config(distro: string, home: string, applyPatches: bool, installMonitor: bool)

  /** What one stage did: its log entries, the machine afterwards, and the
      message of the exception it raised, if any. */
  datatype StageResult = StageResult(log: seq<LogEntry>, host: Host, raised: Option<string>)

  datatype RunResult = RunResult(log: seq<LogEntry>, host: Host, succeeded: bool)

  // ---------------------------------------------------------------- packages

  /** How `run_command` hands one output line to the log. */
  function Forwarded(line: OutputLine): LogEntry
  {
    match line
    case Stdout(t) => LogEntry(t, Normal)
    case Stderr(t) => LogEntry("ERROR: " + t, Error)
  }

  /** The log entries for a program's output: blank lines are skipped, the
      rest are forwarded in order. */
  function ForwardOutput(out: seq<OutputLine>): (r: seq<LogEntry>)
    ensures |r| <= |out|
    ensures forall e | e in r :: e.text != "" && (e.color == Normal || e.color == Error)
    ensures forall line | line in out && line.text != "" :: Forwarded(line) in r
    ensures forall e | e in r :: exists line | line in out :: line.text != "" && e == Forwarded(line)
    decreases |out|
  {
    if out == [] then []
    else
      var rest := ForwardOutput(out[1..]);
      assert forall line | line in out[1..] :: line in out;
      if out[0].text == "" then rest else [Forwarded(out[0])] + rest
  }

  /** Output read in two parts is forwarded part by part, so the entries keep
      the order and the multiplicity of the lines. */
  lemma {:induction false} ForwardOutputAppend(a: seq<OutputLine>, b: seq<OutputLine>)
    ensures ForwardOutput(a + b) == ForwardOutput(a) + ForwardOutput(b)
    decreases |a|
  {
    if a == [] {
      assert a + b == b;
    } else {
      assert (a + b)[0] == a[0];
      assert (a + b)[1..] == a[1..] + b;
      ForwardOutputAppend(a[1..], b);
      AppendAssoc([Forwarded(a[0])], ForwardOutput(a[1..]), ForwardOutput(b));
    }
  }

  /** A single line is forwarded unless it is blank. */
  lemma ForwardOutputSingle(line: OutputLine)
    ensures ForwardOutput([line]) == if line.text == "" then [] else [Forwarded(line)]
  {
    assert [line][1..] == [];
  }

  const PackagesFailed := LogEntry("Package installation failed", Error)
  const PackagesInstalled := LogEntry("System packages installed successfully", Success)

  /** `install_system_packages`: announce the family, run `apt update` first
      where the plan asks for it, then the install command with its output
      forwarded. A non-zero exit is logged, not raised. */
  function PackagesStage(cfg: Config, host: Host, env: Environment): (r: StageResult)
    ensures r.host == host
    ensures |r.log| > 0 && r.log[0] == LogEntry(Announcement(FamilyOf(cfg.distro)), Normal)
    ensures ResolvePlan(cfg.distro, env.onPath).Err? ==> r.raised == Some(NoManagerError)
    ensures var p := ResolvePlan(cfg.distro, env.onPath);
      r.raised.None? <==>
        p.Ok? && (p.value.update.Some? ==> !env.run(p.value.update.value).SpawnFailed?) && env.run(p.value.command).Exited?
  {
    var announce := [LogEntry(Announcement(FamilyOf(cfg.distro)), Normal)];
    match ResolvePlan(cfg.distro, env.onPath)
    case Err(e) => StageResult(announce, host, Some(e))
    case Ok(plan) =>
      var updateFailed := if plan.update.Some? && env.run(plan.update.value).SpawnFailed?
                          then Some(env.run(plan.update.value).reason) else None;
      if updateFailed.Some? then StageResult(announce, host, updateFailed)
      else
        var running := announce + [LogEntry("Running: " + JoinWords(plan.command), Normal)];
        match env.run(plan.command)
        case SpawnFailed(reason) => StageResult(running, host, Some(reason))
        case Exited(code, out) =>
          StageResult(running + ForwardOutput(out) + [if code != 0 then PackagesFailed else PackagesInstalled], host, None)
  }

  // ---------------------------------------------------------------- download

  const DownloadUrl := "https://cdn.optimihost.com/Player2_latest.AppImage"
  const DownloadFailurePrefix := "Failed to install Player2: "
  const EmptyDownload := "Download failed - file is empty or missing"
  const NotExecutable := "Failed to set executable permissions"
  const Downloaded := LogEntry("Player2 AppImage downloaded and installed successfully", Success)

  function Player2Dir(home: string): string
  {
    PathJoin(home, "player2")
  }

  /** Where the application is installed. */
  function AppImagePath(home: string): (p: string)
    ensures Player2Dir(home) <= p
  {
    PathJoin(Player2Dir(home), "Player2.AppImage")
  }

  function DownloadCommand(path: string): seq<string>
  {
    ["curl", "-L", "-o", path, "--retry", "3", "--retry-delay", "2", "--connect-timeout", "10",
     "--progress-bar", DownloadUrl]
  }

  /** `os.makedirs(dir, exist_ok=True)` raises only when the directory does
      not exist yet and cannot be created. */
  predicate MakedirsFails(dir: string, host: Host, env: Environment)
  {
    dir in env.faults && dir !in host.artifacts
  }

  /** The handler of `install_player2`: the file is removed and the error is
      raised again with the stage's prefix. */
  function DownloadFailed(log: seq<LogEntry>, host: Host, path: string, error: string): StageResult
  {
    StageResult(log, host.(artifacts := host.artifacts - {path}, executable := host.executable - {path}),
                Some(DownloadFailurePrefix + error))
  }

  /** `install_player2`: create the directory, download with curl, then
      check that the file exists, is not empty and became executable. */
  function DownloadStage(cfg: Config, host: Host, env: Environment): (r: StageResult)
    ensures r.host.files == host.files
    ensures r.raised.Some? ==> AppImagePath(cfg.home) !in r.host.artifacts && DownloadFailurePrefix <= r.raised.value
  {
    var dir := Player2Dir(cfg.home);
    var path := AppImagePath(cfg.home);
    if MakedirsFails(dir, host, env) then DownloadFailed([], host, path, env.faults[dir])
    else
      var h1 := host.(artifacts := host.artifacts + {dir});
      var log := [LogEntry("Created player2 directory", Normal), LogEntry("Downloading Player2...", Normal)];
      match env.run(DownloadCommand(path))
      case SpawnFailed(reason) => DownloadFailed(log, h1, path, reason)
      case Exited(_, _) =>
        if env.downloaded.None? || env.downloaded.value == 0 then DownloadFailed(log, h1, path, EmptyDownload)
        else
          var h2 := h1.(artifacts := h1.artifacts + {path});
          if !env.chmodEffective then DownloadFailed(log, h2, path, NotExecutable)
          else StageResult(log + [Downloaded], h2.(executable := h2.executable + {path}), None)
  }

  /** The download succeeds exactly when the directory exists or can be created, curl
      starts, the file it leaves is not empty and `chmod` takes effect; the
      application is then installed and executable, and otherwise it is
      gone and the raised message carries the stage's prefix. */
  lemma DownloadOutcome(cfg: Config, host: Host, env: Environment)
    ensures var r := DownloadStage(cfg, host, env);
      && (r.raised.None? <==>
            !MakedirsFails(Player2Dir(cfg.home), host, env) && env.run(DownloadCommand(AppImagePath(cfg.home))).Exited?
            && env.downloaded.Some? && env.downloaded.value > 0 && env.chmodEffective)
      && (r.raised.None? ==> AppImagePath(cfg.home) in r.host.artifacts * r.host.executable)
      && (r.raised.Some? ==> AppImagePath(cfg.home) !in r.host.artifacts
                             && DownloadFailurePrefix <= r.raised.value)
      && r.host.files == host.files
  {
  }

  // ----------------------------------------------------------------- patches

  const NoShellNotice := LogEntry("No shell config files found, creating .bashrc", Highlight)
  const PatchesApplied := LogEntry("WebKit patches applied successfully", Success)
  const PatchFailurePrefix := "Failed to apply patches: "

  /** `apply_patches`: pick the shells, patch each rc file, and raise with
      the stage's prefix when a file cannot be written. */
  function PatchStage(cfg: Config, host: Host, env: Environment): (r: StageResult)
    ensures r.host.artifacts == host.artifacts && r.host.executable == host.executable
    ensures r.raised.Some? ==> PatchFailurePrefix <= r.raised.value
    ensures r.raised.None? ==> |r.log| > 0 && r.log[|r.log| - 1] == PatchesApplied
  {
    var shells := SelectShells(env.onPath, host.files, cfg.home);
    var notice := if !Qualifies(env.onPath, host.files, cfg.home, Bash) && !Qualifies(env.onPath, host.files, cfg.home, Zsh)
                  then [NoShellNotice] else [];
    var o := PatchShells(cfg.home, shells, host.files, env.faults);
    match o.raised
    case Some(e) => StageResult(notice + o.log, host.(files := o.files), Some(PatchFailurePrefix + e))
    case None => StageResult(notice + o.log + [PatchesApplied], host.(files := o.files), None)
  }

  // ----------------------------------------------------------------- monitor

  const MonitorDir := "/etc/p2monitor"
  const MonitorScript := "/etc/p2monitor/monitor.py"
  const ServiceFile := "/etc/systemd/system/p2monitor.service"
  const MonitorFailurePrefix := "Failed to setup monitor service: "
  const ServiceStarted := LogEntry("P2Monitor service installed and started", Success)
  const ServiceManual := LogEntry("P2Monitor service created (manual start required)", Highlight)

  function MonitorFailed(log: seq<LogEntry>, host: Host, error: string): StageResult
  {
    StageResult(log, host, Some(MonitorFailurePrefix + error))
  }

  /** The commands that follow the three files, when each one starts. */
  function ServiceCommands(log: seq<LogEntry>, host: Host, env: Environment): StageResult
  {
    var chmod := env.run(["chmod", "+x", MonitorScript]);
    var reload := env.run(["systemctl", "daemon-reload"]);
    var enable := env.run(["systemctl", "enable", "p2monitor"]);
    var start := env.run(["systemctl", "start", "p2monitor"]);
    if chmod.SpawnFailed? then MonitorFailed(log, host, chmod.reason)
    else if reload.SpawnFailed? then MonitorFailed(log, host, reload.reason)
    else if enable.SpawnFailed? then MonitorFailed(log, host, enable.reason)
    else if enable.code != 0 then StageResult(log + [ServiceManual], host, None)
    else if start.SpawnFailed? then MonitorFailed(log, host, start.reason)
    else StageResult(log + [ServiceStarted], host, None)
  }

  /** `setup_monitor_service`: the directory, the daemon script, the systemd
      unit, then chmod and systemctl; a unit that cannot be enabled is
      reported, not raised. */
  function MonitorStage(host: Host, env: Environment): (r: StageResult)
    ensures r.host.files == host.files && r.host.executable == host.executable
    ensures host.artifacts <= r.host.artifacts
    ensures r.raised.Some? ==> MonitorFailurePrefix <= r.raised.value
  {
    if MakedirsFails(MonitorDir, host, env) then MonitorFailed([], host, env.faults[MonitorDir])
    else
      var h1 := host.(artifacts := host.artifacts + {MonitorDir});
      var log1 := [LogEntry("Created monitor directory", Normal)];
      if MonitorScript in env.faults then MonitorFailed(log1, h1, env.faults[MonitorScript])
      else
        var h2 := h1.(artifacts := h1.artifacts + {MonitorScript});
        var log2 := log1 + [LogEntry("Created monitor script", Normal)];
        if ServiceFile in env.faults then MonitorFailed(log2, h2, env.faults[ServiceFile])
        else
          ServiceCommands(log2 + [LogEntry("Created systemd service", Normal)],
                          h2.(artifacts := h2.artifacts + {ServiceFile}), env)
  }

  /** The monitor stage fails only when its directory is missing and cannot
      be created, a file cannot be written or a command cannot start; a systemd unit that cannot be enabled is still a
      success. Once the unit file is written both files are in place. */
  lemma MonitorOutcome(host: Host, env: Environment)
    ensures var r := MonitorStage(host, env);
      && (r.raised.None? <==>
            !MakedirsFails(MonitorDir, host, env) && MonitorScript !in env.faults && ServiceFile !in env.faults
            && !env.run(["chmod", "+x", MonitorScript]).SpawnFailed?
            && !env.run(["systemctl", "daemon-reload"]).SpawnFailed?
            && !env.run(["systemctl", "enable", "p2monitor"]).SpawnFailed?
            && (env.run(["systemctl", "enable", "p2monitor"]).code == 0 ==>
                  !env.run(["systemctl", "start", "p2monitor"]).SpawnFailed?))
      && (r.raised.None? ==> {MonitorScript, ServiceFile} <= r.host.artifacts
                             && r.log[|r.log| - 1] in {ServiceStarted, ServiceManual})
      && (r.raised.Some? ==> MonitorFailurePrefix <= r.raised.value)
      && r.host.files == host.files
  {
  }

  // ------------------------------------------------------------- uninstaller

  const UninstallerPath := "/usr/local/bin/p2uninstall"
  const UninstallerFailurePrefix := "Failed to create uninstaller: "
  const UninstallerCreated := LogEntry("Created uninstaller script: p2uninstall", Success)

  /** `create_uninstaller`: write the script and make it executable. */
  function UninstallerStage(host: Host, env: Environment): (r: StageResult)
    ensures r.raised.None? <==> UninstallerPath !in env.faults
    ensures r.raised.None? ==> UninstallerPath in r.host.artifacts * r.host.executable && r.log == [UninstallerCreated]
    ensures r.raised.Some? ==> r.host == host && r.log == [] && UninstallerFailurePrefix <= r.raised.value
    ensures r.host.files == host.files
    ensures r.raised.None? ==>
      r.host.artifacts == host.artifacts + {UninstallerPath} && r.host.executable == host.executable + {UninstallerPath}
  {
    if UninstallerPath in env.faults then StageResult([], host, Some(UninstallerFailurePrefix + env.faults[UninstallerPath]))
    else StageResult([UninstallerCreated],
                     host.(artifacts := host.artifacts + {UninstallerPath}, executable := host.executable + {UninstallerPath}),
                     None)
  }

  // ------------------------------------------------------------------- stages

  datatype Stage = PackagesStep | DownloadStep | PatchesStep | MonitorStep | UninstallerStep | Finished

  /** How many stages are left at most. */
  function Rank(s: Stage): nat
  {
    match s
    case PackagesStep => 5
    case DownloadStep => 4
    case PatchesStep => 3
    case MonitorStep => 2
    case UninstallerStep => 1
    case Finished => 0
  }

  /** The stage after `s`, skipping the optional ones not selected. */
  function NextStage(s: Stage, cfg: Config): (t: Stage)
    ensures s != Finished ==> Rank(t) < Rank(s)
  {
    match s
    case PackagesStep => DownloadStep
    case DownloadStep => if cfg.applyPatches then PatchesStep else if cfg.installMonitor then MonitorStep else UninstallerStep
    case PatchesStep => if cfg.installMonitor then MonitorStep else UninstallerStep
    case MonitorStep => UninstallerStep
    case UninstallerStep => Finished
    case Finished => Finished
  }

  /** The stages that run from `s` on when none raises. */
  function Schedule(s: Stage, cfg: Config): (r: seq<Stage>)
    ensures |r| <= Rank(s) && Finished !in r
    ensures s != Finished ==> |r| > 0 && r[0] == s && r[|r| - 1] == UninstallerStep
    decreases Rank(s)
  {
    if s == Finished then [] else [s] + Schedule(NextStage(s, cfg), cfg)
  }

  /** The full run goes through packages, download, the selected optional
      stages in order (patches before monitor), then the uninstaller. */
  lemma FullSchedule(cfg: Config)
    ensures Schedule(PackagesStep, cfg) ==
      [PackagesStep, DownloadStep] + (if cfg.applyPatches then [PatchesStep] else [])
      + (if cfg.installMonitor then [MonitorStep] else []) + [UninstallerStep]
  {
  }

  function HeaderText(s: Stage): string
  {
    match s
    case PackagesStep => "Installing system packages..."
    case DownloadStep => "Downloading Player2 AppImage..."
    case PatchesStep => "Applying WebKit patches..."
    case MonitorStep => "Setting up P2Monitor service..."
    case UninstallerStep => "Creating uninstaller..."
    case Finished => ""
  }

  /** The entry the run logs before starting a stage. */
  function Header(s: Stage): LogEntry
  {
    LogEntry(HeaderText(s), Highlight)
  }

  function RunStage(s: Stage, cfg: Config, host: Host, env: Environment): StageResult
  {
    match s
    case PackagesStep => PackagesStage(cfg, host, env)
    case DownloadStep => DownloadStage(cfg, host, env)
    case PatchesStep => PatchStage(cfg, host, env)
    case MonitorStep => MonitorStage(host, env)
    case UninstallerStep => UninstallerStage(host, env)
    case Finished => StageResult([], host, None)
  }

  const Started := LogEntry("Starting installation...", Info)
  const PressAnyKey := LogEntry("Press any key to exit...", Info)
  const Completed := LogEntry("Installation completed successfully!", Success)

  function SuccessTail(cfg: Config): seq<LogEntry>
  {
    [Completed, LogEntry("Player2 installed to: " + AppImagePath(cfg.home), Normal),
     LogEntry("To uninstall, run: sudo p2uninstall", Info), PressAnyKey]
  }

  function FailureTail(error: string): seq<LogEntry>
  {
    [LogEntry("Installation failed: " + error, Error), PressAnyKey]
  }

  /** How the stages behave on a given machine. */
  type Step = (Stage, Host) -> StageResult

  /** The installer's own stages, for one configuration and environment. */
  function Steps(cfg: Config, env: Environment): Step
  {
    (s: Stage, h: Host) => RunStage(s, cfg, h, env)
  }

  /** The `try` block of `show_installation_screen` from stage `s` on: each
      stage is announced before it runs, and the first one that raises ends
      the block with its exception. */
  function RunFrom(s: Stage, cfg: Config, host: Host, step: Step): (r: StageResult)
    ensures s != Finished ==> |r.log| > 0 && r.log[0] == Header(s)
    decreases Rank(s)
  {
    if s == Finished then StageResult([], host, None)
    else
      var r := step(s, host);
      var log := [Header(s)] + r.log;
      if r.raised.Some? then StageResult(log, r.host, r.raised)
      else
        var rest := RunFrom(NextStage(s, cfg), cfg, r.host, step);
        StageResult(log + rest.log, rest.host, rest.raised)
  }

  /** The entries `before` followed by what the block does. */
  function Prefixed(before: seq<LogEntry>, t: StageResult): StageResult
  {
    StageResult(before + t.log, t.host, t.raised)
  }

  /** The `except` clause and the closing entries: the completion entries
      when the block got through, otherwise the failure entry with the
      exception's text; then the prompt. */
  function Close(cfg: Config, t: StageResult): (r: RunResult)
    ensures r.host == t.host && (r.succeeded <==> t.raised.None?)
    ensures |r.log| >= |t.log| + 2 && r.log[..|t.log|] == t.log && r.log[|r.log| - 1] == PressAnyKey
    ensures t.raised.Some? ==> r.log[|r.log| - 2] == LogEntry("Installation failed: " + t.raised.value, Error)
  {
    match t.raised
    case None => RunResult(t.log + SuccessTail(cfg), t.host, true)
    case Some(e) => RunResult(t.log + FailureTail(e), t.host, false)
  }

  /** The log of `show_installation_screen` after the policy gate, for stages
      that behave as `step` says: the opening entry, the block, and how it
      closes. */
  function Run(cfg: Config, host: Host, step: Step): (r: RunResult)
    ensures |r.log| > 0 && r.log[0] == Started && r.log[|r.log| - 1] == PressAnyKey
  {
    Close(cfg, Prefixed([Started], RunFrom(PackagesStep, cfg, host, step)))
  }

  /** The installation with the installer's own stages. */
  function Install(cfg: Config, host: Host, env: Environment): RunResult
  {
    Run(cfg, host, Steps(cfg, env))
  }

  // ----------------------------------------------------------- header trace

  /** The stage an entry announces, if it is a stage header. */
  function HeaderStage(e: LogEntry): (r: Option<Stage>)
    ensures r.Some? ==> r.value != Finished && e == Header(r.value)
  {
    if e.color != Highlight then None
    else if e.text == HeaderText(PackagesStep) then Some(PackagesStep)
    else if e.text == HeaderText(DownloadStep) then Some(DownloadStep)
    else if e.text == HeaderText(PatchesStep) then Some(PatchesStep)
    else if e.text == HeaderText(MonitorStep) then Some(MonitorStep)
    else if e.text == HeaderText(UninstallerStep) then Some(UninstallerStep)
    else None
  }

  /** The stages a log announces, in order. */
  function Headers(log: seq<LogEntry>): seq<Stage>
    decreases |log|
  {
    if log == [] then []
    else (match HeaderStage(log[0]) case Some(s) => [s] case None => []) + Headers(log[1..])
  }

  predicate NoHeader(log: seq<LogEntry>)
  {
    forall e | e in log :: HeaderStage(e).None?
  }

  lemma {:induction false} HeadersAppend(a: seq<LogEntry>, b: seq<LogEntry>)
    ensures Headers(a + b) == Headers(a) + Headers(b)
    decreases |a|
  {
    if a != [] {
      var m := match HeaderStage(a[0]) case Some(s) => [s] case None => [];
      assert (a + b)[0] == a[0];
      assert (a + b)[1..] == a[1..] + b;
      assert Headers(a + b) == m + Headers(a[1..] + b);
      HeadersAppend(a[1..], b);
      assert Headers(a) == m + Headers(a[1..]);
      assert m + (Headers(a[1..]) + Headers(b)) == (m + Headers(a[1..])) + Headers(b);
    } else {
      assert a + b == b;
    }
  }

  lemma {:induction false} HeadersOfNoHeader(log: seq<LogEntry>)
    requires NoHeader(log)
    ensures Headers(log) == []
    decreases |log|
  {
    if log != [] {
      assert log[0] in log;
      assert forall e | e in log[1..] :: e in log;
      HeadersOfNoHeader(log[1..]);
    }
  }

  /** An entry that no header can be: not highlighted, or of a length no
      header text has. */
  predicate Plain(e: LogEntry)
  {
    e.color != Highlight || |e.text| !in {23, 26, 29, 31}
  }

  lemma PlainIsNoHeader(e: LogEntry)
    requires Plain(e)
    ensures HeaderStage(e).None?
  {
  }

  lemma PlainLog(log: seq<LogEntry>)
    requires forall e | e in log :: Plain(e)
    ensures NoHeader(log)
  {
    forall e | e in log ensures HeaderStage(e).None? {
      PlainIsNoHeader(e);
    }
  }

  /** The per-shell patch messages are not stage headers. */
  lemma PatchMessageNotHeader(sh: Shell, content: string)
    ensures HeaderStage(PatchMessage(sh, content)).None?
  {
    var e := PatchMessage(sh, content);
    assert |ShellName(sh)| == 3 || |ShellName(sh)| == 4;
    assert e.color == Highlight ==> |e.text| == 24 + |ShellName(sh)|;
    PlainIsNoHeader(e);
  }

  lemma {:induction false} PatchLogNoHeader(home: string, shells: seq<Shell>, files: map<string, string>, faults: map<string, string>)
    ensures NoHeader(PatchShells(home, shells, files, faults).log)
    decreases |shells|
  {
    if shells != [] {
      var path := RcPath(home, shells[0]);
      if !WriteFails(files, path, faults) {
        var content := Current(files, path);
        PatchMessageNotHeader(shells[0], content);
        PatchLogNoHeader(home, shells[1..], files[path := PatchContent(content)], faults);
      }
    }
  }

  lemma PackagesLogNoHeader(cfg: Config, host: Host, env: Environment)
    ensures NoHeader(PackagesStage(cfg, host, env).log)
  {
    var r := PackagesStage(cfg, host, env);
    assert forall e | e in r.log :: e.color != Highlight;
    PlainLog(r.log);
  }

  lemma PatchStageLogNoHeader(cfg: Config, host: Host, env: Environment)
    ensures NoHeader(PatchStage(cfg, host, env).log)
  {
    PatchLogNoHeader(cfg.home, SelectShells(env.onPath, host.files, cfg.home), host.files, env.faults);
    assert Plain(NoShellNotice) && Plain(PatchesApplied);
    PlainIsNoHeader(NoShellNotice);
    PlainIsNoHeader(PatchesApplied);
  }

  /** The service commands add at most one of their two closing entries. */
  lemma ServiceCommandsEntries(env: Environment)
    ensures forall log, host, e | e in ServiceCommands(log, host, env).log ::
      e in log || e == ServiceManual || e == ServiceStarted
  {
  }

  lemma ServiceEntriesPlain()
    ensures Plain(ServiceManual) && Plain(ServiceStarted)
  {
  }

  /** The monitor stage highlights nothing but the manual-start notice. */
  lemma MonitorEntries(host: Host, env: Environment)
    ensures forall e | e in MonitorStage(host, env).log :: e.color != Highlight || e == ServiceManual || e == ServiceStarted
  {
    var log3 := [LogEntry("Created monitor directory", Normal), LogEntry("Created monitor script", Normal),
                 LogEntry("Created systemd service", Normal)];
    if !MakedirsFails(MonitorDir, host, env) && MonitorScript !in env.faults && ServiceFile !in env.faults {
      var h3 := host.(artifacts := host.artifacts + {MonitorDir} + {MonitorScript} + {ServiceFile});
      assert MonitorStage(host, env) == ServiceCommands(log3, h3, env);
      ServiceCommandsEntries(env);
    } else {
      assert forall e | e in MonitorStage(host, env).log :: e in log3;
    }
  }

  lemma MonitorLogNoHeader(host: Host, env: Environment)
    ensures NoHeader(MonitorStage(host, env).log)
  {
    MonitorEntries(host, env);
    ServiceEntriesPlain();
    PlainLog(MonitorStage(host, env).log);
  }

  lemma DownloadLogNoHeader(cfg: Config, host: Host, env: Environment)
    ensures NoHeader(DownloadStage(cfg, host, env).log)
  {
    var r := DownloadStage(cfg, host, env);
    assert forall e | e in r.log :: e.color != Highlight;
    PlainLog(r.log);
  }

  /** A stage's own log never looks like a stage header. */
  lemma StageLogHasNoHeader(s: Stage, cfg: Config, host: Host, env: Environment)
    ensures NoHeader(RunStage(s, cfg, host, env).log)
  {
    match s
    case PackagesStep => PackagesLogNoHeader(cfg, host, env);
    case DownloadStep => DownloadLogNoHeader(cfg, host, env);
    case PatchesStep => PatchStageLogNoHeader(cfg, host, env);
    case MonitorStep => MonitorLogNoHeader(host, env);
    case UninstallerStep =>
    case Finished =>
  }

  ghost predicate StepsQuiet(step: Step)
  {
    forall s: Stage, h: Host :: NoHeader(step(s, h).log)
  }

  lemma InstallerStepsQuiet(cfg: Config, env: Environment)
    ensures StepsQuiet(Steps(cfg, env))
  {
    forall s: Stage, h: Host ensures NoHeader(Steps(cfg, env)(s, h).log) {
      StageLogHasNoHeader(s, cfg, h, env);
    }
  }

  lemma TailsHaveNoHeader(cfg: Config, error: string)
    ensures NoHeader(SuccessTail(cfg)) && NoHeader(FailureTail(error))
  {
    PlainLog(SuccessTail(cfg));
    PlainLog(FailureTail(error));
  }

  lemma PrefixCons(x: Stage, a: seq<Stage>, b: seq<Stage>)
    requires |b| <= |a| && b == a[..|b|]
    ensures [x] + b == ([x] + a)[..|b| + 1]
  {
    assert forall i | 0 <= i < |b| + 1 :: ([x] + b)[i] == ([x] + a)[i];
  }

  /** Each stage header is read back as its own stage. */
  lemma HeaderStageOfHeader(s: Stage)
    requires s != Finished
    ensures HeaderStage(Header(s)) == Some(s)
  {
  }

  /** A stage's header followed by its quiet log announces just that stage. */
  lemma AnnouncedStage(s: Stage, log: seq<LogEntry>)
    requires s != Finished && NoHeader(log)
    ensures Headers([Header(s)] + log) == [s]
  {
    HeadersOfNoHeader(log);
    HeadersAppend([Header(s)], log);
    HeaderStageOfHeader(s);
    assert Headers([Header(s)]) == [s];
  }

  /** One announced stage followed by a run that announced `sched`. */
  lemma ChainSucceeded(s: Stage, sched: seq<Stage>, log: seq<LogEntry>, rest: seq<LogEntry>)
    requires Headers(log) == [s] && Headers(rest) == sched
    ensures Headers(log + rest) == [s] + sched
  {
    HeadersAppend(log, rest);
  }

  /** One announced stage followed by a run that announced a prefix of `sched`. */
  lemma ChainFailed(s: Stage, sched: seq<Stage>, log: seq<LogEntry>, rest: seq<LogEntry>)
    requires Headers(log) == [s]
    requires 0 < |Headers(rest)| <= |sched| && Headers(rest) == sched[..|Headers(rest)|]
    ensures 0 < |Headers(log + rest)| <= |[s] + sched| && Headers(log + rest) == ([s] + sched)[..|Headers(log + rest)|]
  {
    HeadersAppend(log, rest);
    PrefixCons(s, sched, Headers(rest));
  }

  /** The block announces exactly the scheduled stages when nothing raises,
      and a non-empty prefix of them when a stage raises. */
  lemma {:induction false} RunFromHeaders(s: Stage, cfg: Config, host: Host, step: Step)
    requires StepsQuiet(step)
    ensures var t := RunFrom(s, cfg, host, step);
      && (t.raised.None? ==> Headers(t.log) == Schedule(s, cfg))
      && (t.raised.Some? ==> 0 < |Headers(t.log)| <= |Schedule(s, cfg)|
                             && Headers(t.log) == Schedule(s, cfg)[..|Headers(t.log)|])
    decreases Rank(s)
  {
    if s != Finished {
      var st := step(s, host);
      var log := [Header(s)] + st.log;
      AnnouncedStage(s, st.log);
      var next := NextStage(s, cfg);
      assert Schedule(s, cfg) == [s] + Schedule(next, cfg);
      if st.raised.None? {
        var rest := RunFrom(next, cfg, st.host, step);
        RunFromHeaders(next, cfg, st.host, step);
        if rest.raised.None? {
          ChainSucceeded(s, Schedule(next, cfg), log, rest.log);
        } else {
          ChainFailed(s, Schedule(next, cfg), log, rest.log);
        }
      }
    }
  }

  /** Stages that keep the installed application in place once it is there. */
  ghost predicate KeepsApp(step: Step, path: string)
  {
    forall s: Stage, h: Host | s != PackagesStep && s != DownloadStep && path in h.artifacts * h.executable ::
      step(s, h).raised.None? ==> path in step(s, h).host.artifacts * step(s, h).host.executable
  }

  /** A download that succeeds leaves the application in place. */
  ghost predicate DownloadInstalls(step: Step, path: string)
  {
    forall h: Host :: step(DownloadStep, h).raised.None? ==>
      path in step(DownloadStep, h).host.artifacts * step(DownloadStep, h).host.executable
  }

  lemma SuffixOfAppend<T>(a: seq<T>, b: seq<T>, k: nat)
    requires k <= |b|
    ensures (a + b)[|a + b| - k..] == b[|b| - k..]
  {
    assert forall i | |a| <= i < |a + b| :: (a + b)[i] == b[i - |a|];
  }

  /** When the block gets through, an application installed by the download
      stage is still there. */
  lemma {:induction false} SuccessfulRunKeepsApp(s: Stage, cfg: Config, host: Host, step: Step, path: string)
    requires KeepsApp(step, path) && DownloadInstalls(step, path)
    requires s != PackagesStep && s != DownloadStep ==> path in host.artifacts * host.executable
    ensures var t := RunFrom(s, cfg, host, step);
      t.raised.None? ==> path in t.host.artifacts * t.host.executable
    decreases Rank(s)
  {
    if s != Finished {
      var st := step(s, host);
      if st.raised.None? {
        var next := NextStage(s, cfg);
        SuccessfulRunKeepsApp(next, cfg, st.host, step, path);
      }
    }
  }

  /** The later stages leave the application alone. */
  lemma InstallerKeepsApp(cfg: Config, env: Environment)
    ensures KeepsApp(Steps(cfg, env), AppImagePath(cfg.home))
  {
    var path := AppImagePath(cfg.home);
    forall s: Stage, h: Host | s != PackagesStep && s != DownloadStep && path in h.artifacts * h.executable
      ensures Steps(cfg, env)(s, h).raised.None? ==>
        path in Steps(cfg, env)(s, h).host.artifacts * Steps(cfg, env)(s, h).host.executable
    {
      if s == MonitorStep {
        MonitorKeeps(h, env);
      }
    }
  }

  lemma MonitorKeeps(host: Host, env: Environment)
    ensures host.artifacts <= MonitorStage(host, env).host.artifacts
    ensures MonitorStage(host, env).host.executable == host.executable
  {
  }

  lemma InstallerDownloadInstalls(cfg: Config, env: Environment)
    ensures DownloadInstalls(Steps(cfg, env), AppImagePath(cfg.home))
  {
    forall h: Host ensures Steps(cfg, env)(DownloadStep, h).raised.None? ==>
      AppImagePath(cfg.home) in Steps(cfg, env)(DownloadStep, h).host.artifacts * Steps(cfg, env)(DownloadStep, h).host.executable
    {
      DownloadOutcome(cfg, h, env);
    }
  }

  /** A stage that does not raise hands over to the next one. */
  lemma RunPasses(s: Stage, cfg: Config, host: Host, step: Step)
    requires s != Finished && step(s, host).raised.None?
    ensures var rest := RunFrom(NextStage(s, cfg), cfg, step(s, host).host, step);
      RunFrom(s, cfg, host, step) == StageResult([Header(s)] + step(s, host).log + rest.log, rest.host, rest.raised)
  {
  }

  /** A stage that raises ends the block. */
  lemma RunStops(s: Stage, cfg: Config, host: Host, step: Step)
    requires s != Finished && step(s, host).raised.Some?
    ensures RunFrom(s, cfg, host, step) == StageResult([Header(s)] + step(s, host).log, step(s, host).host, step(s, host).raised)
  {
  }

  /** The block after `before`, one stage further on. */
  lemma BlockAdvance(s: Stage, cfg: Config, host: Host, step: Step, before: seq<LogEntry>)
    requires s != Finished && step(s, host).raised.None?
    ensures Prefixed(before, RunFrom(s, cfg, host, step)) ==
      Prefixed(before + [Header(s)] + step(s, host).log, RunFrom(NextStage(s, cfg), cfg, step(s, host).host, step))
  {
    var st := step(s, host);
    var rest := RunFrom(NextStage(s, cfg), cfg, st.host, step);
    assert before + ([Header(s)] + st.log + rest.log) == before + [Header(s)] + st.log + rest.log;
  }

  /** The block after `before`, ended by a stage that raises. */
  lemma BlockStops(s: Stage, cfg: Config, host: Host, step: Step, before: seq<LogEntry>)
    requires s != Finished && step(s, host).raised.Some?
    ensures Prefixed(before, RunFrom(s, cfg, host, step)) ==
      StageResult(before + [Header(s)] + step(s, host).log, step(s, host).host, step(s, host).raised)
  {
    var st := step(s, host);
    assert before + ([Header(s)] + st.log) == before + [Header(s)] + st.log;
  }

  /** The block after `before` once every stage has run. */
  lemma BlockEnds(cfg: Config, host: Host, step: Step, before: seq<LogEntry>)
    ensures Prefixed(before, RunFrom(Finished, cfg, host, step)) == StageResult(before, host, None)
  {
    assert before + [] == before;
  }

  /** A stage that raises is the last one announced. */
  lemma StopHeaders(s: Stage, cfg: Config, host: Host, step: Step)
    requires StepsQuiet(step)
    requires s != Finished && step(s, host).raised.Some?
    ensures Headers(RunFrom(s, cfg, host, step).log) == [s]
  {
    RunStops(s, cfg, host, step);
    AnnouncedStage(s, step(s, host).log);
  }

  /** A stage that does not raise adds its own header to what follows. */
  lemma PassHeaders(s: Stage, cfg: Config, host: Host, step: Step)
    requires StepsQuiet(step)
    requires s != Finished && step(s, host).raised.None?
    ensures Headers(RunFrom(s, cfg, host, step).log) ==
      [s] + Headers(RunFrom(NextStage(s, cfg), cfg, step(s, host).host, step).log)
  {
    var st := step(s, host);
    RunPasses(s, cfg, host, step);
    AnnouncedStage(s, st.log);
    HeadersAppend([Header(s)] + st.log, RunFrom(NextStage(s, cfg), cfg, st.host, step).log);
  }

  /** The closing entries announce no stage. */
  lemma CloseHeaders(cfg: Config, t: StageResult)
    ensures Headers(Close(cfg, t).log) == Headers(t.log)
  {
    var tail := if t.raised.None? then SuccessTail(cfg) else FailureTail(t.raised.value);
    assert Close(cfg, t).log == t.log + tail;
    TailsHaveNoHeader(cfg, if t.raised.None? then "" else t.raised.value);
    HeadersOfNoHeader(tail);
    HeadersAppend(t.log, tail);
  }

  /** The opening entry and the closing entries announce no stage. */
  lemma RunHeaders(cfg: Config, host: Host, step: Step)
    ensures Headers(Run(cfg, host, step).log) == Headers(RunFrom(PackagesStep, cfg, host, step).log)
  {
    var t := RunFrom(PackagesStep, cfg, host, step);
    CloseHeaders(cfg, Prefixed([Started], t));
    HeadersAppend([Started], t.log);
  }

  /** How the log ends: the completion entries when the block got through,
      otherwise the failure entry with the exception's text; then the prompt. */
  lemma RunEnds(cfg: Config, host: Host, step: Step)
    ensures var t := RunFrom(PackagesStep, cfg, host, step);
      var r := Run(cfg, host, step);
      && r.log[0] == Started && r.log[|r.log| - 1] == PressAnyKey
      && r.host == t.host && (r.succeeded <==> t.raised.None?)
      && (r.succeeded ==> r.log[|r.log| - 4..] == SuccessTail(cfg))
      && (!r.succeeded ==> r.log[|r.log| - 2] == LogEntry("Installation failed: " + t.raised.value, Error))
  {
    var t := RunFrom(PackagesStep, cfg, host, step);
    if t.raised.None? {
      SuffixOfAppend([Started] + t.log, SuccessTail(cfg), 4);
    }
  }

  /** For any stage behaviour: the run opens with "Starting installation...",
      ends with the prompt, and announces exactly the scheduled stages when it
      succeeds and a non-empty prefix of them when it fails. */
  lemma RunShape(cfg: Config, host: Host, step: Step)
    requires StepsQuiet(step)
    ensures var r := Run(cfg, host, step);
      && r.log[0] == Started && r.log[|r.log| - 1] == PressAnyKey
      && (r.succeeded ==> Headers(r.log) == Schedule(PackagesStep, cfg))
      && (!r.succeeded ==> 0 < |Headers(r.log)| <= |Schedule(PackagesStep, cfg)|
                           && Headers(r.log) == Schedule(PackagesStep, cfg)[..|Headers(r.log)|])
  {
    RunEnds(cfg, host, step);
    RunHeaders(cfg, host, step);
    RunFromHeaders(PackagesStep, cfg, host, step);
  }

  /** The block from a stage opens with that stage's header. */
  lemma RunFromOpensWithHeader(s: Stage, cfg: Config, host: Host, step: Step)
    requires s != Finished
    ensures |RunFrom(s, cfg, host, step).log| > 0 && RunFrom(s, cfg, host, step).log[0] == Header(s)
  {
  }

  /** Where the last entry of a stage's log and the next header sit in the
      whole log. */
  lemma Junction<T>(x: T, y: T, b: seq<T>, c: seq<T>, d: seq<T>)
    requires |b| > 0 && |c| > 0
    ensures var s := [x] + ([y] + b + c) + d;
      |s| > |b| + 2 && s[|b| + 1] == b[|b| - 1] && s[|b| + 2] == c[0]
  {
  }

  /** For any stage behaviour: a package stage that logs `last` and does not
      raise is followed directly by the download header. */
  lemma PackageStageFollowedByDownload(cfg: Config, host: Host, step: Step, last: LogEntry)
    requires step(PackagesStep, host).raised.None?
    requires |step(PackagesStep, host).log| > 0 && step(PackagesStep, host).log[|step(PackagesStep, host).log| - 1] == last
    ensures var log := Run(cfg, host, step).log;
      exists i | 0 <= i < |log| - 1 :: log[i] == last && log[i + 1] == Header(DownloadStep)
  {
    var p := step(PackagesStep, host);
    RunPasses(PackagesStep, cfg, host, step);
    var rest := RunFrom(DownloadStep, cfg, p.host, step);
    RunFromOpensWithHeader(DownloadStep, cfg, p.host, step);
    var t := RunFrom(PackagesStep, cfg, host, step);
    var tail := if t.raised.None? then SuccessTail(cfg) else FailureTail(t.raised.value);
    Junction(Started, Header(PackagesStep), p.log, rest.log, tail);
    var log := Run(cfg, host, step).log;
    assert log[|p.log| + 1] == last && log[|p.log| + 2] == Header(DownloadStep);
  }

  /** For any stage behaviour: when the first stage raises, only it is announced. */
  lemma FirstStageAborts(cfg: Config, host: Host, step: Step)
    requires StepsQuiet(step)
    requires step(PackagesStep, host).raised.Some?
    ensures var t := RunFrom(PackagesStep, cfg, host, step);
      t.raised == step(PackagesStep, host).raised && t.host == step(PackagesStep, host).host
      && Headers(t.log) == [PackagesStep]
  {
    RunStops(PackagesStep, cfg, host, step);
    StopHeaders(PackagesStep, cfg, host, step);
  }

  /** For any stage behaviour: when the second stage raises, nothing after it
      is announced. */
  lemma SecondStageAborts(cfg: Config, host: Host, step: Step)
    requires StepsQuiet(step)
    requires step(PackagesStep, host).raised.None?
    requires step(DownloadStep, step(PackagesStep, host).host).raised.Some?
    ensures var d := step(DownloadStep, step(PackagesStep, host).host);
      var t := RunFrom(PackagesStep, cfg, host, step);
      t.raised == d.raised && t.host == d.host && Headers(t.log) == [PackagesStep, DownloadStep]
  {
    var h1 := step(PackagesStep, host).host;
    RunPasses(PackagesStep, cfg, host, step);
    RunStops(DownloadStep, cfg, h1, step);
    PassHeaders(PackagesStep, cfg, host, step);
    StopHeaders(DownloadStep, cfg, h1, step);
  }

  /** For any stage behaviour: when the patches are selected and raise,
      neither the monitor nor the uninstaller stage is announced. */
  lemma PatchStageAborts(cfg: Config, host: Host, step: Step)
    requires StepsQuiet(step) && cfg.applyPatches
    requires step(PackagesStep, host).raised.None?
    requires step(DownloadStep, step(PackagesStep, host).host).raised.None?
    requires step(PatchesStep, step(DownloadStep, step(PackagesStep, host).host).host).raised.Some?
    ensures var p := step(PatchesStep, step(DownloadStep, step(PackagesStep, host).host).host);
      var t := RunFrom(PackagesStep, cfg, host, step);
      t.raised == p.raised && t.host == p.host && Headers(t.log) == [PackagesStep, DownloadStep, PatchesStep]
  {
    var h1 := step(PackagesStep, host).host;
    var h2 := step(DownloadStep, h1).host;
    RunPasses(PackagesStep, cfg, host, step);
    RunPasses(DownloadStep, cfg, h1, step);
    RunStops(PatchesStep, cfg, h2, step);
    PassHeaders(PackagesStep, cfg, host, step);
    PassHeaders(DownloadStep, cfg, h1, step);
    StopHeaders(PatchesStep, cfg, h2, step);
  }

  // -------------------------------------------------------- whole-run claims

  /** The installer's run opens with "Starting installation...", ends with
      the prompt, and announces exactly the scheduled stages when it succeeds
      and a non-empty prefix of them when it fails. */
  lemma InstallShape(cfg: Config, host: Host, env: Environment)
    ensures var r := Install(cfg, host, env);
      && r.log[0] == Started && r.log[|r.log| - 1] == PressAnyKey
      && (r.succeeded ==> Headers(r.log) == Schedule(PackagesStep, cfg))
      && (!r.succeeded ==> 0 < |Headers(r.log)| <= |Schedule(PackagesStep, cfg)|
                           && Headers(r.log) == Schedule(PackagesStep, cfg)[..|Headers(r.log)|])
  {
    InstallerStepsQuiet(cfg, env);
    RunShape(cfg, host, Steps(cfg, env));
  }

  /** A successful run ends with "Installation completed successfully!", the
      install path, the uninstall hint and the prompt, with the application
      downloaded and executable. */
  lemma SuccessfulInstall(cfg: Config, host: Host, env: Environment)
    ensures var r := Install(cfg, host, env);
      r.succeeded ==> r.log[|r.log| - 4..] == SuccessTail(cfg)
                      && AppImagePath(cfg.home) in r.host.artifacts * r.host.executable
  {
    var step := Steps(cfg, env);
    InstallerKeepsApp(cfg, env);
    InstallerDownloadInstalls(cfg, env);
    SuccessfulRunKeepsApp(PackagesStep, cfg, host, step, AppImagePath(cfg.home));
    RunEnds(cfg, host, step);
  }

  /** The package stage never changes the machine. */
  lemma PackagesKeepHost(cfg: Config, host: Host, env: Environment)
    ensures Steps(cfg, env)(PackagesStep, host) == PackagesStage(cfg, host, env)
    ensures PackagesStage(cfg, host, env).host == host
  {
  }

  /** A package installation that exits non-zero is logged, not raised. */
  lemma PackageExitLogged(cfg: Config, host: Host, env: Environment, plan: Plan)
    requires ResolvePlan(cfg.distro, env.onPath) == Ok(plan)
    requires plan.update.Some? ==> !env.run(plan.update.value).SpawnFailed?
    requires env.run(plan.command).Exited?
    ensures var p := PackagesStage(cfg, host, env);
      && p.raised.None? && |p.log| >= 3
      && p.log[|p.log| - 1] == (if env.run(plan.command).code != 0 then PackagesFailed else PackagesInstalled)
  {
  }

  /** A package installation that exits non-zero is logged and the run goes
      on to the download: the failure entry is directly followed by the
      download header. */
  lemma PackageFailureTolerated(cfg: Config, host: Host, env: Environment, plan: Plan)
    requires ResolvePlan(cfg.distro, env.onPath) == Ok(plan)
    requires plan.update.Some? ==> !env.run(plan.update.value).SpawnFailed?
    requires env.run(plan.command).Exited? && env.run(plan.command).code != 0
    ensures var log := Install(cfg, host, env).log;
      exists i | 0 <= i < |log| - 1 :: log[i] == PackagesFailed && log[i + 1] == Header(DownloadStep)
  {
    PackagesKeepHost(cfg, host, env);
    PackageExitLogged(cfg, host, env, plan);
    PackageStageFollowedByDownload(cfg, host, Steps(cfg, env), PackagesFailed);
  }

  /** When no package manager is found the run stops at the first stage. */
  lemma NoManagerAborts(cfg: Config, host: Host, env: Environment)
    requires ResolvePlan(cfg.distro, env.onPath).Err?
    ensures var r := Install(cfg, host, env);
      && !r.succeeded && r.host == host && Headers(r.log) == [PackagesStep]
      && r.log[|r.log| - 2] == LogEntry("Installation failed: " + NoManagerError, Error)
  {
    var step := Steps(cfg, env);
    PackagesKeepHost(cfg, host, env);
    InstallerStepsQuiet(cfg, env);
    FirstStageAborts(cfg, host, step);
    RunEnds(cfg, host, step);
    RunHeaders(cfg, host, step);
  }

  /** A failed download ends the run: no stage after it is announced, the
      rc files are untouched, the application is absent, and the failure is
      reported with the download stage's message. */
  lemma DownloadFailureAborts(cfg: Config, host: Host, env: Environment)
    requires PackagesStage(cfg, host, env).raised.None?
    requires DownloadStage(cfg, host, env).raised.Some?
    ensures var r := Install(cfg, host, env);
      && !r.succeeded
      && Headers(r.log) == [PackagesStep, DownloadStep]
      && r.host.files == host.files
      && AppImagePath(cfg.home) !in r.host.artifacts
      && r.log[|r.log| - 2] == LogEntry("Installation failed: " + DownloadStage(cfg, host, env).raised.value, Error)
      && DownloadFailurePrefix <= DownloadStage(cfg, host, env).raised.value
  {
    var step := Steps(cfg, env);
    PackagesKeepHost(cfg, host, env);
    assert step(DownloadStep, host) == DownloadStage(cfg, host, env);
    DownloadOutcome(cfg, host, env);
    InstallerStepsQuiet(cfg, env);
    SecondStageAborts(cfg, host, step);
    RunEnds(cfg, host, step);
    RunHeaders(cfg, host, step);
  }

  /** The installer's patch stage, raising, ends the block. */
  lemma PatchFailureEndsBlock(cfg: Config, host: Host, env: Environment)
    requires cfg.applyPatches
    requires PackagesStage(cfg, host, env).raised.None?
    requires DownloadStage(cfg, host, env).raised.None?
    requires PatchStage(cfg, DownloadStage(cfg, host, env).host, env).raised.Some?
    ensures var t := RunFrom(PackagesStep, cfg, host, Steps(cfg, env));
      && t.raised.Some? && Headers(t.log) == [PackagesStep, DownloadStep, PatchesStep]
      && t.host.artifacts == DownloadStage(cfg, host, env).host.artifacts
  {
    var step := Steps(cfg, env);
    var d := DownloadStage(cfg, host, env);
    PackagesKeepHost(cfg, host, env);
    assert step(DownloadStep, host) == d;
    assert step(PatchesStep, d.host) == PatchStage(cfg, d.host, env);
    InstallerStepsQuiet(cfg, env);
    PatchStageAborts(cfg, host, step);
  }

  /** A patch stage that raises is fatal too: the monitor and the
      uninstaller are not set up and the run reports failure. */
  lemma PatchFailureIsFatal(cfg: Config, host: Host, env: Environment)
    requires cfg.applyPatches
    requires PackagesStage(cfg, host, env).raised.None?
    requires DownloadStage(cfg, host, env).raised.None?
    requires PatchStage(cfg, DownloadStage(cfg, host, env).host, env).raised.Some?
    ensures var r := Install(cfg, host, env);
      && !r.succeeded
      && Headers(r.log) == [PackagesStep, DownloadStep, PatchesStep]
      && r.host.artifacts == DownloadStage(cfg, host, env).host.artifacts
  {
    var step := Steps(cfg, env);
    PatchFailureEndsBlock(cfg, host, env);
    RunEnds(cfg, host, step);
    RunHeaders(cfg, host, step);
  }
}
