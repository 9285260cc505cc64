# BrowserOS installer model

A Dafny model of `agent-browser install [--with-deps]`, the command in
`cli/src/install.rs` that downloads a pinned BrowserOS release (0.39.0.3) and
installs it under `~/.browseros`. The model covers the decisions this code
makes once every external effect has been replaced by an answer supplied
from outside:

- which release artifact belongs to the platform (`get_browseros_package`);
- where the install root is (`get_browseros_home`);
- on Linux, which package manager is used, which dependency list it gets
  (with the renamed audio library on newer Debian/Ubuntu), the shell command
  that installs it, and what a failure of that command does;
- how `download_file` chooses between PowerShell, curl and wget and turns
  the exit status into a result;
- the macOS disk-image installer (`install_macos_dmg`) as a sequence of
  transitions over an abstract filesystem, with its mount-directory cleanup;
- the Linux AppImage installer (`install_linux_appimage`);
- the order of `run_install`'s phases and which failures end the run with
  exit status 1.

Everything is a pure function. The compile-time `#[cfg]` switches become
the runtime value `Host.os`. A `World` holds the set of existing paths,
whether the disk image is attached, and the trace of every effect issued:
each `which`/`apt-cache` probe, child process and filesystem call. The
`Host` record answers every effect. `onPath` and `aptHas` answer the
`which_exists` and `package_exists_apt` probes. `status` and `io` answer
child processes and filesystem calls. Those two are keyed by the position
in the trace, so the same command may succeed once and fail later.
`diskImage` lists the disk image's contents.

Files: `wrappers.dfy` (`Option`, `Result`), `text.dfy` (string helpers:
prefix, suffix, containment, join, split), `paths.dfy` (paths as component
sequences, `display()` and `to_str()`), `machine.dfy` (platform, commands,
oracles, world, effect primitives), `probing.dfy` (the first-available rule),
`artifact.dfy`, `dependencies.dfy`, `download.dfy`, `macos_dmg.dfy`,
`linux_appimage.dfy`, `install.dfy`.

## Model

| member | source | states |
|---|---|---|
| Artifact.GetPackage | cli/src/install.rs:253-286 | macOS picks `_arm64.dmg` for `aarch64` and `_x64.dmg` for `x86_64`, and falls back to `_universal.dmg` for every other arch, so macOS never gets nothing. Windows and Linux get one descriptor each, whatever the arch. The result is absent exactly on any other OS. |
| Artifact.DescriptorShape | cli/src/install.rs:257-282 | Every descriptor's URL starts with the release directory of version 0.39.0.3 and ends with `/` followed by its file name, and the file name contains the version. |
| Artifact.UrlSpelling | cli/src/install.rs:257-282 | Each of the five descriptors' URLs equals, character for character, the literal URL the source writes for it. |
| Artifact.FileNameSpelling | cli/src/install.rs:258-281 | The five file names equal the literal names the source writes. |
| Probing.FirstAvailable | cli/src/install.rs:21-118 | The reference rule for the if/else probing chains: the index of the first candidate present, with every earlier one absent. It is absent exactly when no candidate is present. |
| Dependencies.SelectDependencies | cli/src/install.rs:21-118 | No manager is selected exactly when none of apt-get, dnf and yum is on the path. The chosen manager is present and every manager before it in the order is absent. apt gets its list with the audio library chosen by the `apt-cache` probe, and dnf and yum get their fixed lists. No file is touched. |
| Dependencies.SelectionIsFirstAvailable | cli/src/install.rs:21-118 | The selection equals the first-available rule over `apt-get, dnf, yum`. The probes issued are exactly the candidates up to the winner, plus `apt-cache show libasound2t64` when apt-get wins, or all three when none is present. |
| Dependencies.AptPackages | cli/src/install.rs:29-63 | The apt list has 32 entries, and the audio library sits at position 19. |
| Dependencies.AudioSlotOnly | cli/src/install.rs:22-26 | The apt lists for the two audio names agree at every position except the audio slot. |
| Dependencies.AudioVariant | cli/src/install.rs:22-26 | The apt list contains `libasound2t64` exactly when the probe succeeds and `libasound2` exactly when it fails, so exactly one of them appears. |
| Dependencies.InstallCommandShape | cli/src/install.rs:120-128 | The command starts with the manager's install prefix. The rest splits at spaces back into exactly the package list, in order. It starts with `sudo apt-get update && ` exactly for apt-get. |
| Dependencies.AptNamesAreWords | cli/src/install.rs:29-63 | Every apt package name is a single shell word, which `InstallCommandShape` needs. |
| Dependencies.DnfNamesAreWords | cli/src/install.rs:66-91 | Every dnf package name is a single shell word. |
| Dependencies.YumNamesAreWords | cli/src/install.rs:94-110 | Every yum package name is a single shell word. |
| Download.DownloadFile | cli/src/install.rs:288-330 | A path that is not valid Unicode fails with `Invalid output path: ...` before any effect. The result is `Ok` exactly when the last process run exited successfully. An unsuccessful exit gives an error naming the URL and the status. On `Ok` the output file is added to the existing paths. Otherwise the paths are unchanged. No filesystem call is made. |
| Download.Fetch | cli/src/install.rs:322-329 | Runs exactly one command. `Ok` exactly on successful exit. On unsuccessful exit the error contains the URL and the shown status. |
| Download.FailedMessageMentions | cli/src/install.rs:325-328 | The download-failure message contains both the URL and the exit status. |
| Download.ToolIsFirstAvailable | cli/src/install.rs:305-320 | Off Windows the fetch tool is the first of curl and wget found, and probing stops at it. With neither present, nothing is run and the result is `Err("Neither curl nor wget is available in PATH")`. |
| Download.WindowsUsesPowerShell | cli/src/install.rs:293-303 | On Windows the only step is the PowerShell fetch, and no probe is made. |
| Download.CurlSucceedsWhenItWorks | cli/src/install.rs:305-323 | Off Windows, with curl on the path and every process exiting successfully, the download of a convertible path succeeds. |
| MacosDmg.Prepare | cli/src/install.rs:337-353 | A failure to create `home` ends it at once with `Failed to prepare BrowserOS directory <home>: <e>`. Otherwise its last call creates the mount directory, and it succeeds exactly when that call does; a failure gives `Failed to create mount directory <mount>: <e>`. On success the mount directory exists. Every filesystem call stays below the install root, and nothing outside the mount directory and the bundle is deleted. |
| MacosDmg.ClearStaleMount | cli/src/install.rs:345-351 | An existing mount directory is force-detached and then removed. Otherwise nothing happens. |
| MacosDmg.TearDown | cli/src/install.rs:408-411 | Issues the quiet detach and then the removal of the mount directory. Nothing outside the mount directory is lost. A successful removal leaves nothing below it, and a successful detach leaves the image unattached. |
| MacosDmg.AttachAndCopy | cli/src/install.rs:355-413 | An attach that cannot be started gives `Failed to mount BrowserOS DMG: <e>`, and one that exits unsuccessfully gives `Failed to mount BrowserOS DMG`. After a successful attach the result is the outcome of the copy out of the attached image. |
| MacosDmg.CopyBundle | cli/src/install.rs:367-406 | An image without `BrowserOS.app` gives `BrowserOS.app not found in mounted DMG: <mount>`, with no effect. Otherwise a failed removal of the previous bundle ends the closure with that removal's error. After a successful removal, the outcome is the copy-and-check step's. On `Ok` the result is the installed executable and it exists. |
| MacosDmg.RemovePrevious | cli/src/install.rs:376-384 | Without a previous bundle nothing happens. With one, the step succeeds exactly when its removal does, and a failure gives `Failed to remove previous BrowserOS.app at <target>: <e>`. |
| MacosDmg.CopyAndCheck | cli/src/install.rs:386-405 | A `cp` that cannot be started gives `Failed to copy BrowserOS.app: <e>`, and one that exits unsuccessfully gives `Failed to copy BrowserOS.app from DMG`. After a successful copy the only possible error is `Installed BrowserOS executable not found: <exe>`. |
| MacosDmg.CopiedExecutable | cli/src/install.rs:386-405 | After a successful `cp -R`, the executable check passes exactly when the image held `BrowserOS.app/Contents/MacOS/BrowserOS` or the executable was already there. |
| MacosDmg.ExecutableComesFromImage | cli/src/install.rs:367-405 | Once a previous bundle has been removed and the copy has succeeded, the bundle step succeeds exactly when the image held the executable. |
| MacosDmg.InstallMacosDmg | cli/src/install.rs:332-414 | A failed preparation is returned as it is. After a successful one, the result and effects are those of the attach-and-copy stage; an attach that cannot be started or exits unsuccessfully gives the mount error. On `Ok` the result is `<home>/BrowserOS.app/Contents/MacOS/BrowserOS` and it exists. Every filesystem call stays below `home`. Nothing outside the mount directory and the bundle is deleted. |
| MacosDmg.ExecutableOutsideMount | cli/src/install.rs:334-335 | The installed executable is not below the mount directory. |
| MacosDmg.StaleMountClearedFirst | cli/src/install.rs:337-353 | After `home` is created, a pre-existing mount directory is detached and removed and only then created afresh. Without one, the mount directory is created right away. |
| MacosDmg.MountDirCleanedAfterAttach | cli/src/install.rs:362-411 | Once attach has run and exited, the last step is always the removal of the mount directory, preceded by the detach when the attach succeeded. If that removal succeeds, nothing below the mount directory remains, on the `Ok` path and the `Err` path alike. |
| MacosDmg.AttachSpawnFailureLeavesMountDir | cli/src/install.rs:357-360 | When `hdiutil attach` cannot be started, the `?` returns `Failed to mount BrowserOS DMG: <reason>` at once. No cleanup runs, and the mount directory is left behind. |
| MacosDmg.InstallsWhenEverythingWorks | cli/src/install.rs:367-405 | When every call succeeds and the image holds the bundle's executable, the install returns `<home>/BrowserOS.app/Contents/MacOS/BrowserOS`. |
| LinuxAppImage.InstallLinuxAppImage | cli/src/install.rs:416-450 | On `Ok` the result is `<home>/bin/BrowserOS` and it exists. Calls stay below `home`, and no path is lost. |
| LinuxAppImage.SucceedsExactlyWhenAllStepsDo | cli/src/install.rs:418-449 | `Ok` exactly when the bin directory is created, the copy succeeds and chmod exits successfully. Each failure stops the sequence at the failing step. |
| Install.DependencyPhase | cli/src/install.rs:17-151 | The phase ends the run exactly on Linux with `--with-deps` and no package manager present, and then its last line is the only error. Otherwise it prints no error. Off Linux it does nothing. It never touches a file. |
| Install.WithDependencies | cli/src/install.rs:18-142 | Stops, printing the no-manager error, exactly when none of the three managers is present. |
| Install.InstallDependencies | cli/src/install.rs:120-142 | Runs exactly `sh -c <install command>` and always continues. The third line is the success line exactly when the command exited successfully, and a warning otherwise. |
| Install.RunInstall | cli/src/install.rs:14-245 | Either the run stops: exit 1, the last line is the only error, nothing reported. Or it finishes: exit 0, no error, the package at `<root>/downloads/<file name>` and the platform's executable in place. All filesystem calls stay below the install root. A dependency phase that ends the run gives exit 1 with its lines and nothing else; one that continues hands on to the download stage. |
| Install.PlatformInstall | cli/src/install.rs:187-212 | macOS runs the DMG installer and Linux the AppImage installer. The result is `Ok` exactly when that installer's is, its error is passed on unchanged, and its effects are the only ones. Other platforms do nothing and report no executable. |
| Install.ExitStatusFollowsErrors | cli/src/install.rs:14-245 | The exit status is 0 or 1. It is 1 exactly when an error was printed, and then the error is the last line. Only exit 0 reports the downloaded package and the platform's executable, and both exist. |
| Install.UnsupportedPlatformStopsFirst | cli/src/install.rs:153-161 | On an unsupported OS the run prints one error naming OS and arch and exits 1. It has no effect at all: no directory, no download. |
| Install.MissingManagerStopsFirst | cli/src/install.rs:112-118 | On Linux with `--with-deps` and no manager, the run exits 1 after exactly the three probes. No directory is created and nothing is downloaded. |
| Install.DependencyFailureOnlyWarns | cli/src/install.rs:131-173 | With a manager present, the dependency phase continues whatever the install command's outcome. The effect right after the install command is creating the downloads directory. |
| Install.InstallCommandOnlyWarns | cli/src/install.rs:120-142 | With a manager present, `sh -c <install command>` is the only effect after the probes. The third line is a warning exactly when that command failed to start or exited unsuccessfully. |
| Install.DownloadsDirComesNext | cli/src/install.rs:163-173 | On a supported platform, the first effect after the dependency phase is creating `<root>/downloads`. |
| Install.DownloadsDirAfterDependencies | cli/src/install.rs:142-165 | On a supported platform, when the dependency phase lets the run go on, the run's very next effect creates `<root>/downloads`. |
| Install.InstallLayout | cli/src/install.rs:247-251 | The install root is `.browseros` directly inside the home directory, or inside the temporary directory when there is none. The package goes to `<root>/downloads/<file name>`. The executables are `<root>/BrowserOS.app/Contents/MacOS/BrowserOS` and `<root>/bin/BrowserOS`. All lie below the root. |
| Install.DownloadsApart | cli/src/install.rs:175 | The downloaded package is neither below the mount directory nor below the installed bundle, so the macOS installer never deletes it. |
| Install.DownloadsDirDecides | cli/src/install.rs:163-173 | A failure to create `<root>/downloads` ends the run with exit 1 and `Failed to create download directory <dir>: <e>` as its last line. Success moves on to the download. |
| Install.DownloadDecides | cli/src/install.rs:175-185 | The download fetches the package URL into `<root>/downloads/<file name>`. A successful download hands the package to the installer, after the `Downloading` line. |
| Install.DownloadFailureStops | cli/src/install.rs:182-185 | A failed download ends the run with exit 1 and the download's error as the last line, after the `Downloading` line. No installer runs, and nothing is reported. |
| Install.InstallerDecides | cli/src/install.rs:187-212 | The installer's effects are the run's from here on. An installer error ends the run with exit 1 and that error as the last line. An installer success leads to exit 0. |
| Install.LinuxInstallSucceeds | cli/src/install.rs:14-245 | On Linux, when curl is on the path, every filesystem call and process succeeds, the install root converts to text, and a manager is present if dependencies are requested, the run exits 0. It reports `<root>/downloads/BrowserOS_v0.39.0.3_x64.AppImage` and `<root>/bin/BrowserOS`. |
| Install.MacosInstallSucceeds | cli/src/install.rs:14-245 | On macOS, when curl is on the path, every filesystem call and process succeeds, the install root converts to text, and the image holds the bundle and its executable, the run exits 0 whatever the architecture. It reports `<root>/downloads/<file name>` of the arch's disk image and `<root>/BrowserOS.app/Contents/MacOS/BrowserOS`. |
| Install.DownloadPathConverts | cli/src/install.rs:289-291 | The package path converts to text exactly when the install root does. Otherwise the download is refused with `Invalid output path: <path>` before any effect. |

## Left out

- Process spawning, the network and download contents are not modelled. Every child process (`which`, `where`, `apt-cache`, `sh`, curl, wget, PowerShell, hdiutil, cp, chmod) is an oracle answer: a successful or failed exit, or a spawn error.
- `which_exists` runs `where` on Windows. It is only ever probed off Windows, so the model has one probe oracle.
- The filesystem is a set of paths. `create_dir_all`, `remove_dir_all` and `copy` succeed or fail per the `io` oracle. Their effects are adding a path, removing a subtree, and adding the target.
- A failed call is assumed to change nothing, so partial effects of a failed call (a half-done `cp -R`) are not modelled.
- `dirs::home_dir()` and `env::temp_dir()` are the host fields `homeDir` and `tempDir`.
- `ExitStatus`'s text comes from the operating system's library, so it is an opaque `shown` string on the status.
- The PowerShell script is modelled as a command built from the URL and the output path, with no check of its quoting.
- Colours and indicators are not modelled. Printed lines carry only their kind (info, warning, error) and text.
- Download.DownloadFile: the promise "the error names the URL and the status" covers an unsuccessful exit only. When curl, wget or PowerShell cannot be started, the error carries the tool name and the spawn error instead.
- MacosDmg.MountDirCleanedAfterAttach: the source ignores the result of the final `remove_dir_all`. So "nothing below the mount directory remains" is conditional on that removal succeeding.
- MacosDmg.InstallMacosDmg: `cp -R` is modelled as copying every path below the bundle in the image into `<home>/BrowserOS.app`. The contents of files are not modelled.
- LinuxAppImage.InstallLinuxAppImage: the executable bit is not part of the abstract filesystem, so "made executable" is the successful exit of chmod.
- Install.RunInstall: `exit(1)` is an exit code in the report, not a process exit.
- Machine.WritesBelow: it covers the filesystem calls the installer makes itself. Where child processes write (the download tool's output path, `cp -R`'s destination) is fixed only by their command arguments, not by the predicate.
- Paths.Display: it always joins components with `/`. Rust's `Path::display` joins with `\` on Windows, so Windows paths in messages and commands are shown with the wrong separator.
