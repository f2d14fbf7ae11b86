/**
 * The installer object: the wizard's key loops update its fields in place,
 * the patch loop walks the selected shells, and the installation screen
 * appends to its progress log stage by stage.
 */
module Installer {
  import opened Wrappers
  import opened Progress
  import opened ShellPatches
  import opened Screens
  import opened Pipeline

  class Player2ConsoleInstaller {
    const distros: seq<string>
    var prettyName: string
    const homeDir: string
    const appImagePath: string
    var installMonitor: bool
    var installPatches: bool

    /** The state `__init__` sets up for the home directory `home` (that of
        the sudo user, found by the caller). */
    constructor (home: string)
      ensures distros == DistroMenu && prettyName == "Unknown Linux Distribution"
      ensures homeDir == home && appImagePath == AppImagePath(home)
      ensures !installMonitor && installPatches
    {
      distros := DistroMenu;
      prettyName := "Unknown Linux Distribution";
      homeDir := home;
      appImagePath := AppImagePath(home);
      installMonitor := false;
      installPatches := true;
    }

    /** The configuration the installation screen runs with. */
    function Choices(): Config
      reads this
    {
      Config(prettyName, homeDir, installPatches, installMonitor)
    }

    /** `show_distro_selection_screen` over the keys pressed: ENTER stores the
        highlighted name, q or Q leaves it as it was. */
    method ShowDistroSelectionScreen(keys: seq<int>) returns (exit: Exit)
      requires |distros| > 0
      modifies this`prettyName
      ensures exit == DistroRun(|distros|, 0, keys).exit
      ensures exit == Confirmed ==> prettyName == distros[DistroRun(|distros|, 0, keys).selected] && prettyName in distros
      ensures exit != Confirmed ==> prettyName == old(prettyName)
    {
      var selected := 0;
      var i := 0;
      while i < |keys|
        invariant 0 <= i <= |keys| && 0 <= selected < |distros|
        invariant DistroRun(|distros|, selected, keys[i..]) == DistroRun(|distros|, 0, keys)
        invariant prettyName == old(prettyName)
      {
        var key := keys[i];
        assert keys[i..][1..] == keys[i + 1..];
        if key == KeyUp && selected > 0 {
          selected := selected - 1;
        } else if key == KeyDown && selected < |distros| - 1 {
          selected := selected + 1;
        } else if key == Newline {
          prettyName := distros[selected];
          return Confirmed;
        } else if key == LowerQ || key == UpperQ {
          return Cancelled;
        }
        i := i + 1;
      }
      return Pending;
    }

    /** `show_addons_screen` over the keys pressed: ENTER or RETURN stores the
        patch and monitor toggles, q or Q leaves both as they were. */
    method ShowAddonsScreen(keys: seq<int>) returns (exit: Exit)
      modifies this`installPatches, this`installMonitor
      ensures var run := AddonsRun(0, InitialOptions, keys);
        && exit == run.exit
        && (exit == Confirmed ==> installPatches == run.states[1] && installMonitor == run.states[2])
        && (exit != Confirmed ==> installPatches == old(installPatches) && installMonitor == old(installMonitor))
    {
      var selected := 0;
      var states := InitialOptions;
      var i := 0;
      while i < |keys|
        invariant 0 <= i <= |keys| && 0 <= selected < |states| == 3
        invariant AddonsRun(selected, states, keys[i..]) == AddonsRun(0, InitialOptions, keys)
        invariant installPatches == old(installPatches) && installMonitor == old(installMonitor)
      {
        var key := keys[i];
        assert keys[i..][1..] == keys[i + 1..];
        if key == KeyUp && selected > 0 {
          selected := selected - 1;
        } else if key == KeyDown && selected < |states| - 1 {
          selected := selected + 1;
        } else if key == Space {
          if selected != 0 {
            states := states[selected := !states[selected]];
          }
        } else if key == Newline || key == CarriageReturn {
          installPatches := states[1];
          installMonitor := states[2];
          return Confirmed;
        } else if key == LowerQ || key == UpperQ {
          return Cancelled;
        }
        i := i + 1;
      }
      return Pending;
    }

    /** `show_privacy_policy` on a terminal `rows` lines high over the keys
        pressed; it changes nothing but its own scroll state. */
    method ShowPrivacyPolicy(rows: int, keys: seq<int>) returns (exit: Exit)
      ensures exit == PolicyRun(PolicyLength, PolicyWindow(rows), 0, false, keys).exit
      ensures exit == Confirmed ==> PolicyRun(PolicyLength, PolicyWindow(rows), 0, false, keys).hasRead
    {
      var window := PolicyWindow(rows);
      var readPosition := PolicyLength - window;
      var pos := 0;
      var hasRead := false;
      var i := 0;
      PolicyInvariant(PolicyLength, window, 0, false, keys);
      while i < |keys|
        invariant 0 <= i <= |keys|
        invariant PolicyRun(PolicyLength, window, pos, hasRead, keys[i..]) == PolicyRun(PolicyLength, window, 0, false, keys)
      {
        var key := keys[i];
        assert keys[i..][1..] == keys[i + 1..];
        if key == KeyDown && pos < PolicyLength - window {
          pos := pos + 1;
          if pos >= readPosition {
            hasRead := true;
          }
        } else if key == KeyUp && pos > 0 {
          pos := pos - 1;
        } else if key == Space && hasRead {
          return Confirmed;
        } else if key == LowerQ || key == UpperQ {
          return Cancelled;
        }
        i := i + 1;
      }
      return Pending;
    }

    /** `apply_patches`: the loop over the selected shells, appending the
        patch to each rc file that lacks the export line. */
    method ApplyPatches(host: Host, env: Environment) returns (res: StageResult)
      ensures res == PatchStage(Choices(), host, env)
    {
      var shells := SelectShells(env.onPath, host.files, homeDir);
      var notice := [];
      if !Qualifies(env.onPath, host.files, homeDir, Bash) && !Qualifies(env.onPath, host.files, homeDir, Zsh) {
        notice := [NoShellNotice];
      }
      ghost var whole := PatchShells(homeDir, shells, host.files, env.faults);
      var files := host.files;
      var done: seq<LogEntry> := [];
      ResumeBounds(homeDir, shells, files, done, env.faults);
      for i := 0 to |shells|
        invariant Resume(homeDir, shells, i, files, done, env.faults) == whole
      {
        var shell := shells[i];
        var rcPath := RcPath(homeDir, shell);
        var content := Current(files, rcPath);
        if WriteFails(files, rcPath, env.faults) {
          ResumeFault(homeDir, shells, i, files, done, env.faults);
          return StageResult(notice + done, host.(files := files), Some(PatchFailurePrefix + env.faults[rcPath]));
        }
        var entry := PatchMessage(shell, content);
        ResumeAdvance(homeDir, shells, i, files, done, env.faults);
        files := files[rcPath := PatchContent(content)];
        done := done + [entry];
      }
      ResumeBounds(homeDir, shells, files, done, env.faults);
      return StageResult(notice + done + [PatchesApplied], host.(files := files), None);
    }

    /** `show_installation_screen`: when the monitor is selected the policy
        must be accepted first; then the stages run in order, each announced
        in the log, and the first exception ends the run with its message.
        The stages behave as `step` says; `Steps(Choices(), env)` is the
        installer's own, with which the run is `Install(Choices(), host, env)`. */
    method ShowInstallationScreen(rows: int, policyKeys: seq<int>, host: Host, step: Step)
      returns (ran: bool, run: RunResult)
      ensures ran <==> !installMonitor || PolicyRun(PolicyLength, PolicyWindow(rows), 0, false, policyKeys).exit == Confirmed
      ensures ran ==> run == Run(Choices(), host, step)
      ensures !ran ==> run == RunResult([], host, false)
    {
      if installMonitor {
        var policy := ShowPrivacyPolicy(rows, policyKeys);
        if policy != Confirmed {
          return false, RunResult([], host, false);
        }
      }
      var cfg := Choices();
      var log := [Started];

      ghost var before := log;
      log := log + [Header(PackagesStep)];
      var packages := step(PackagesStep, host);
      log := log + packages.log;
      if packages.raised.Some? {
        BlockStops(PackagesStep, cfg, host, step, before);
        return true, RunResult(log + FailureTail(packages.raised.value), packages.host, false);
      }
      BlockAdvance(PackagesStep, cfg, host, step, before);

      var h := packages.host;
      before := log;
      log := log + [Header(DownloadStep)];
      var download := step(DownloadStep, h);
      log := log + download.log;
      if download.raised.Some? {
        BlockStops(DownloadStep, cfg, h, step, before);
        return true, RunResult(log + FailureTail(download.raised.value), download.host, false);
      }
      BlockAdvance(DownloadStep, cfg, h, step, before);
      h := download.host;

      if installPatches {
        before := log;
        log := log + [Header(PatchesStep)];
        var patches := step(PatchesStep, h);
        log := log + patches.log;
        if patches.raised.Some? {
          BlockStops(PatchesStep, cfg, h, step, before);
          return true, RunResult(log + FailureTail(patches.raised.value), patches.host, false);
        }
        BlockAdvance(PatchesStep, cfg, h, step, before);
        h := patches.host;
      }

      if installMonitor {
        before := log;
        log := log + [Header(MonitorStep)];
        var monitor := step(MonitorStep, h);
        log := log + monitor.log;
        if monitor.raised.Some? {
          BlockStops(MonitorStep, cfg, h, step, before);
          return true, RunResult(log + FailureTail(monitor.raised.value), monitor.host, false);
        }
        BlockAdvance(MonitorStep, cfg, h, step, before);
        h := monitor.host;
      }

      before := log;
      log := log + [Header(UninstallerStep)];
      var uninstaller := step(UninstallerStep, h);
      log := log + uninstaller.log;
      if uninstaller.raised.Some? {
        BlockStops(UninstallerStep, cfg, h, step, before);
        return true, RunResult(log + FailureTail(uninstaller.raised.value), uninstaller.host, false);
      }
      BlockAdvance(UninstallerStep, cfg, h, step, before);
      BlockEnds(cfg, uninstaller.host, step, log);
      return true, RunResult(log + SuccessTail(cfg), uninstaller.host, true);
    }
  }
}
