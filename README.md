# P2Installer core, modelled in Dafny

P2Installer is a curses installer for the Player2 desktop application (a
single Python file, `main.py`). The user walks through the screens below, and
the installer then runs a fixed sequence of stages. Each stage writes to a
scrolling progress log:

- a distro menu, then an add-on screen (the WebKit patch and the P2Monitor
  service), then the privacy policy when the monitor was chosen;
- system packages, then the application download, then optionally the
  WebKit patch of the shell rc files, then optionally the monitor service,
  and finally a generated uninstaller.

This project models the decision logic under that I/O and proves what it
promises:

- `Packages`: the package plan chosen for a distribution name.
- `ShellPatches`: shell selection and the append-if-absent rc-file edit.
- `Uninstall`: the line filter of the generated uninstaller's
  `remove_webkit_patches`.
- `Progress`: the progress window, line truncation and `safe_addstr`
  clipping.
- `Screens`: the three key loops as functions of the keys pressed.
- `Pipeline`: the stages as functions of the machine (`Host`) and the
  outside world (`Environment`), plus the `try` block that sequences them
  and the entries it logs.
- `Installer`: the class `Player2ConsoleInstaller`. Its key-loop methods
  update `prettyName`, `installPatches` and `installMonitor` in place.
  `ApplyPatches` is the patch loop. `ShowInstallationScreen` builds the log
  stage by stage. Each method is proved equal to the function that
  specifies it.
- `Text`: Python's string operations as the code uses them: substring
  tests, `os.path.join`, slicing with negative bounds, `readlines`.

The outside world enters as values:

- Which programs are on the PATH.
- The result each command gives: its exit status plus its stripped output
  lines, or a failure to start.
- The size of the downloaded file, whether `chmod` takes effect, and the
  `OSError` text for each path that cannot be written or created. A fault
  takes effect only where `main.py` writes: an rc file that already holds
  the export line is only read, and `os.makedirs(..., exist_ok=True)` on a
  directory that exists does nothing.

`ShowInstallationScreen` takes the stage behaviour as a parameter `step`.
`Steps(cfg, env)` is the installer's own behaviour, and
`Install(cfg, host, env)` is `Run` with it. The lemmas about `Run` hold for
any stage behaviour whose logs contain no stage header. The lemmas about
`Install` hold for the installer's stages.

Three facts about `main.py` shape the model:

- A package manager that exits non-zero does not end the run: the stage
  logs "Package installation failed" and the download follows
  (`PackageFailureTolerated`). Any exception raised in a stage ends the
  run with "Installation failed"; the download, patch, monitor and
  uninstaller stages re-raise theirs with the stage's prefix
  (`PatchFailureIsFatal`).
- The Arch test is `"Arch" in name or "Manjaro" in name`, so it matches
  only names that mention Arch or Manjaro.
- The policy text has 45 entries: the literals at main.py:396-397 have no
  comma between them and are concatenated into one. `Screens.PolicyLength`
  is 45.

## Model

| member | source | states |
|---|---|---|
| Packages.FamilyOf | main.py:570-591 | First match wins: the family chosen is named in the distro string (unless it is the generic fallback), and no family tested before it is. |
| Packages.ResolvePlan | main.py:566-605 | The only error is "No supported package manager found". A plan's command starts with its manager's program. `apt update` is run first exactly for apt plans. |
| Packages.NamedFamilyPlan | main.py:570-590 | A name matching one of the four named families gets that family's manager and package list, whatever is on the PATH. |
| Packages.GenericPreference | main.py:591-605 | The generic branch picks apt, then dnf, then zypper, then pacman. It fails exactly when none is on the PATH, and installs curl, wget and file. |
| Packages.PlansInstallBasePackages | main.py:570-603 | Every plan the resolver returns installs curl, wget and file. |
| Packages.OnlyAptPlansUpdate | main.py:576-597 | `apt update` precedes precisely the Debian/Ubuntu plan and the generic plan when apt is on the PATH. |
| Packages.MenuEntriesResolve | main.py:570-591 | Each of the five menu entries falls in the branch it names; "Other (Generic)" reaches the generic branch. |
| Progress.SafeAddstr | main.py:145-155 | Nothing is handed to curses exactly when `y >= max_y` or `x >= max_x`. Otherwise what is handed over is the text itself when it fits, and its first `max_x - x - 1` characters when it does not. |
| Progress.VisibleEntries | main.py:513-516 | The entries drawn are the first `max(box_height - 3, 0)` entries of `log[-(box_height - 4):]`, in log order; that slice is the whole log when `box_height` is 4, and a box at most 3 high draws none. |
| Progress.FitLine | main.py:517-519 | A line that fits is drawn as it is. A longer one is drawn as a prefix of it followed by "...", and within `box_width - 4` columns when `box_width >= 7`. |
| Progress.DisplayedLines | main.py:513-520 | One drawn line per visible entry, in order, each being that entry's text fitted to the box. |
| Progress.LowBoxDrawsNothing | main.py:514-516 | When `box_height <= 3` no entry passes `i < box_height - 3`, so the pane draws nothing. |
| Progress.VisibleEntriesAreNewest | main.py:513-515 | With `box_height >= 5` the pane shows exactly the newest `box_height - 4` entries, or all of them while there are fewer. |
| Progress.NewestEntryShown | main.py:463-466 | With `box_height >= 5`, after `add_log` the new entry is the bottom line of the pane. |
| Progress.ZeroWindowShowsOldest | main.py:513-515 | At `box_height == 4`, `log_lines[-0:]` is the whole list and only its oldest entry is drawn. |
| Progress.FitLineFits | main.py:516-519 | For `box_width >= 7` a shown line is at most `box_width - 4` long and a fitting line is unchanged. A cut line keeps its first `box_width - 7` characters and ends in "...". |
| Progress.FitLineNarrowBox | main.py:516-519 | Below width 7 the negative slice bound makes every cut line longer than the pane's `box_width - 4` columns. |
| Progress.DisplayedLinesFit | main.py:513-520 | Every line the pane draws fits in `box_width - 4` columns. |
| Screens.DistroRun | main.py:261-270 | The distro cursor stays within `[0, n-1]`. |
| Screens.DistroDownMoves | main.py:261-264 | `k` presses of DOWN move the cursor `k` entries while there is room. |
| Screens.EveryDistroSelectable | main.py:261-268 | Every menu entry can be confirmed: DOWN `i` times, then ENTER. |
| Screens.DistroIgnoresCarriageReturn | main.py:265-268 | The distro screen confirms on '\n' only; a carriage return changes nothing. |
| Screens.AddonsRun | main.py:326-339 | The add-on cursor stays on an option, the number of states is kept, and option 0 never changes state. |
| Screens.AddonsToggleTwice | main.py:330-333 | SPACE twice leaves every option as it was. |
| Screens.EveryAddonChoiceReachable | main.py:326-337 | Every combination of patches and monitor can be confirmed from the initial states. |
| Screens.PolicyRun | main.py:428-438 | The policy loop never clears `has_read`, and it is accepted only with `has_read` set. |
| Screens.PolicyInvariant | main.py:403-438 | `current_pos` stays within `[0, len - max_display_lines]`. `has_read` is never cleared. SPACE ends the loop only when `has_read` holds. At the last position `has_read` is set. |
| Screens.PolicyFitsNeverRead | main.py:428-438 | A text that fits its window never sets `has_read`, so the policy cannot be accepted. |
| Screens.PolicyDownMoves | main.py:429-432 | `k` presses of DOWN scroll `k` lines while there is room, setting `has_read` on reaching the end. |
| Screens.PolicyAcceptable | main.py:403-438 | The policy can be accepted exactly when it is longer than its window. |
| Screens.InstallerPolicyAcceptable | main.py:348-405 | With 45 entries and at most 16 shown, the installer's policy can be accepted at every terminal height. |
| ShellPatches.SelectShells | main.py:677-684 | A shell is chosen exactly when it is on the PATH or its rc file exists, with bash alone when neither qualifies. The list is never empty and bash comes before zsh. |
| ShellPatches.PatchContent | main.py:698-703 | The old text is a prefix of the result and the result contains the export line. The text is unchanged exactly when it already contained the line. |
| ShellPatches.PatchIdempotent | main.py:698-703 | Patching twice equals patching once. |
| ShellPatches.PatchShells | main.py:686-705 | The loop logs at most one line per shell, exactly one each when nothing raises. A raise carries the error of a selected rc file that lacks the export line and cannot be written. |
| ShellPatches.PatchShellsFacts | main.py:686-707 | One log line per shell handled. The loop raises exactly when a selected rc file lacks the export line and cannot be written; a faulted file that already holds the line is only read. Files are only appended to, and only selected rc files are created. |
| ShellPatches.PatchShellsSplit | main.py:686-705 | The loop over `a + b` is the loop over `a` and then, unless that raised, the loop over `b` from the files `a` left: a raise at one shell keeps the patches and log lines of the earlier shells and ends the loop. |
| ShellPatches.PatchedFilesHoldEnvLine | main.py:686-705 | After a loop that does not raise, every selected rc file holds the export line. |
| ShellPatches.PatchTouchesOnlyRcFiles | main.py:672-705 | Files other than the selected rc files are neither created nor changed. |
| ShellPatches.PatchShellsIdempotent | main.py:686-705 | A second loop over the result changes no file and logs "Patch already exists in <shell>" for each shell. |
| ShellPatches.AlreadyPatchedUnchanged | main.py:698-705 | Over files that already hold the export line the loop changes nothing, raises nothing whatever the faults, and logs "Patch already exists" for each shell. |
| Uninstall.RemovePatchLines | main.py:826-830 | The kept lines are exactly the lines without `WEBKIT_DISABLE_DMABUF_RENDERER`, and no more than were read. |
| Uninstall.RemovePatchLinesAppend | main.py:828-830 | Filtering distributes over concatenation, so the kept lines keep their order. |
| Uninstall.RemovePatchLinesIdempotent | main.py:828-830 | Filtering twice equals filtering once. |
| Uninstall.KeptLinesUnchanged | main.py:828-830 | Lines none of which mention the variable pass through unchanged. |
| Uninstall.MarkerSurvives | main.py:828-830 | The "# Added by Player2 installer" line is not removed. |
| Uninstall.PatchBlockLines | main.py:700 | Of the two lines the patch adds, the filter drops the export line and keeps the marker comment. |
| Uninstall.PatchedLines | main.py:698-703 | Read back by `readlines`, a patched file is the old lines closed by '\n', then the marker and export lines. |
| Uninstall.RemovePatchesFromText | main.py:822-830 | The rewritten file reads back as exactly the kept lines, none of which mentions the variable. |
| Uninstall.RemovePatchesFromTextIdempotent | main.py:822-830 | Rewriting a second time changes nothing. |
| Uninstall.UninstallAfterPatch | main.py:812-831 | Uninstalling after the patch was added to a file that never mentioned the variable returns the old text followed by '\n' and the marker comment line. |
| Uninstall.RemoveWebkitPatches | main.py:812-831 | Without `SUDO_USER` nothing changes. Otherwise each of the user's `.bashrc` and `.zshrc` that exists becomes `RemovePatchesFromText` of its old text. No other file changes, no file is created, and no line left in them mentions the variable. |
| Pipeline.ForwardOutput | main.py:535-549 | Blank lines are dropped and every other line is forwarded, stderr lines with the "ERROR: " prefix. No entry is blank or invented. |
| Pipeline.ForwardOutputAppend | main.py:535-549 | Output read in two parts is forwarded part by part, so the entries keep the lines' order and multiplicity. |
| Pipeline.ForwardOutputSingle | main.py:536-549 | A single line is forwarded exactly when it is not blank. |
| Pipeline.PackagesStage | main.py:566-618 | The stage never changes the machine and opens with its family's announcement. With no manager it raises "No supported package manager found". It raises exactly when there is no plan, `apt update` cannot start, or the install command cannot start. |
| Pipeline.DownloadStage | main.py:620-664 | rc files are untouched; a failure leaves no AppImage and raises with "Failed to install Player2: ". |
| Pipeline.DownloadOutcome | main.py:620-664 | The download succeeds exactly when the directory already exists or can be created, curl starts, the file is non-empty and `chmod` takes effect. On failure the file is gone and the message carries "Failed to install Player2: ". rc files are untouched. |
| Pipeline.PatchStage | main.py:666-707 | Only rc-file texts change. A raise carries "Failed to apply patches: ", and a stage that gets through ends with "WebKit patches applied successfully". |
| Pipeline.MonitorStage | main.py:709-787 | rc files are untouched and existing paths stay. The model does not record the monitor script's mode (see "## Left out"), so its `executable` set is unchanged. A raise carries "Failed to setup monitor service: ". |
| Pipeline.MonitorOutcome | main.py:709-787 | The monitor stage fails exactly when `/etc/p2monitor` is missing and cannot be created, the script or unit file cannot be written, or a command cannot start. A unit that cannot be enabled is reported, not raised. |
| Pipeline.UninstallerStage | main.py:789-898 | The uninstaller is created and executable exactly when its path can be written, and nothing else on the machine changes. Otherwise the stage raises with "Failed to create uninstaller: " and changes nothing. |
| Pipeline.NextStage | main.py:471-492 | Each stage hands over to one later in the fixed order, so the block ends. |
| Pipeline.Schedule | main.py:471-492 | The schedule from a stage starts with that stage and always ends with the uninstaller, at most one entry per remaining stage. |
| Pipeline.FullSchedule | main.py:471-492 | The stages run in the order packages, download, patches (if chosen), monitor (if chosen), uninstaller. |
| Pipeline.RunFrom | main.py:471-491 | The `try` block from a stage opens with that stage's header. |
| Pipeline.Close | main.py:492-501 | The block's log is kept and the machine it left is kept. The run succeeds exactly when the block did not raise, a failure entry carries the exception's text, and the prompt comes last. |
| Pipeline.Run | main.py:468-501 | The log opens with "Starting installation..." and ends with "Press any key to exit...". |
| Pipeline.RunFromHeaders | main.py:471-501 | For any quiet stage behaviour the block announces exactly the schedule, or a non-empty prefix of it when a stage raises. |
| Pipeline.RunEnds | main.py:468-501 | The log opens with "Starting installation..." and ends with the prompt. After the completion lines on success, or after "Installation failed: <message>" on failure. |
| Pipeline.RunShape | main.py:468-501 | For any quiet stage behaviour: the opening and closing entries, all scheduled stages announced on success and a non-empty prefix of them on failure. |
| Pipeline.PackageStageFollowedByDownload | main.py:471-478 | A package stage that does not raise is followed directly by the download header. |
| Pipeline.FirstStageAborts | main.py:471-501 | When the first stage raises, only it is announced. |
| Pipeline.SecondStageAborts | main.py:471-501 | When the download raises, no later stage is announced. |
| Pipeline.PatchStageAborts | main.py:480-501 | When the selected patch stage raises, neither monitor nor uninstaller is announced. |
| Pipeline.InstallShape | main.py:468-501 | The installer's own run opens and closes as above and announces its schedule, or a prefix of it when it fails. |
| Pipeline.SuccessfulInstall | main.py:492-497 | A successful run ends with the completion message, the install path, the uninstall hint and the prompt, with the application downloaded and executable. |
| Pipeline.PackageExitLogged | main.py:607-618 | A package command that exits does not raise. Its last entry is "Package installation failed" for a non-zero exit, otherwise the success message. |
| Pipeline.PackageFailureTolerated | main.py:611-618 | A non-zero package exit is logged and followed directly by the download header. |
| Pipeline.NoManagerAborts | main.py:600-605 | With no package manager the run fails at the first stage with "Installation failed: No supported package manager found", changing nothing. |
| Pipeline.DownloadFailureAborts | main.py:646-664 | A failed download ends the run: only packages and download are announced, rc files are untouched, the application is absent and the failure entry carries the download message. |
| Pipeline.PatchFailureIsFatal | main.py:706-707 | A patch stage that raises ends the run in failure before the monitor and the uninstaller. |
| Installer.Player2ConsoleInstaller.constructor | main.py:33-51 | The distro menu, "Unknown Linux Distribution", the home directory, the AppImage path, no monitor and patches on. |
| Installer.Player2ConsoleInstaller.ShowDistroSelectionScreen | main.py:245-270 | The loop's exit is that of `DistroRun`. ENTER stores the highlighted menu entry in `prettyName`; otherwise `prettyName` is unchanged. |
| Installer.Player2ConsoleInstaller.ShowAddonsScreen | main.py:296-339 | The loop's exit is that of `AddonsRun`. ENTER or RETURN stores toggle states 1 and 2 in `installPatches` and `installMonitor`; otherwise both are unchanged. |
| Installer.Player2ConsoleInstaller.ShowPrivacyPolicy | main.py:403-440 | The loop's exit is that of `PolicyRun` over the 45-entry text, and acceptance implies `has_read`. |
| Installer.Player2ConsoleInstaller.ApplyPatches | main.py:666-707 | The loop over the selected shells yields exactly `PatchStage`: the notice, one line per shell, the files patched, and the prefixed error when an rc file lacking the export line cannot be written. |
| Installer.Player2ConsoleInstaller.ShowInstallationScreen | main.py:442-501 | The run happens exactly when the monitor is not chosen or the policy is accepted. Its log and machine are then `Run(Choices(), host, step)`; otherwise nothing is logged. |

## Left out

- Curses drawing is not modelled: `draw_box`, colours, clearing, the intro
  screen and the borders and scroll arrows.
- `getch` is a sequence of key codes. A loop that runs out of keys ends as
  `Pending` and keeps its state.
- `run_command` is not modelled: its two reader threads, `strip()` and
  universal-newline reading. A command result carries its already stripped
  lines in one arrival order, and the interleaving of stdout and stderr is
  left out.
- The file system is a `Host` value that the stages take and return. The
  answers of `subprocess`, `shutil.which`, `curl`, `chmod` and `systemctl`
  are values in `Environment`. A fault is one `OSError` text per path, and
  exception texts are not modelled beyond the stage prefixes.
- PatchShells: assumes reading an existing rc file succeeds. A fault
  raises only where the loop writes, so an `open(rc_path, "r")` that
  raises at main.py:694-695 is not modelled.
- The `pwd` lookup of the sudo user's home directory is not modelled: the
  home directory is the constructor's `home` parameter (`Config.home` in a
  run, `sudoHome` in the uninstaller).
- Running the download and `chmod` affects only the model's sets of paths.
  File modes and the AppImage contents are not modelled.
- The monitor daemon script and the unit file's contents are not modelled.
  The monitor stage records only which files exist. The exit statuses of
  `chmod`, `daemon-reload` and `systemctl start` are ignored, as in
  `main.py`.
- MonitorStage: does not record the mode `chmod +x` gives the monitor
  script, because file modes are not modelled; its `executable` set is
  left as it was.
- The generated uninstaller's `remove_player2`, `remove_p2monitor`,
  `main` and menu are not modelled.
- `RemoveWebkitPatches` does not model the `print` and the home-directory
  lookup. A file that cannot be read or written raises in the uninstaller;
  the model assumes each file can be rewritten.
- Logging, timestamps, `time.sleep`, the sudo check, `main`'s screen
  sequence and the final "Press any key" of `main` are not modelled.
- The policy text's wording is not modelled; only its length of 45 is used.
- `Text.Lines` models `readlines` after universal-newline translation:
  every line break is '\n'.
