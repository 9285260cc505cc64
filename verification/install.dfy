/** `run_install(with_deps)`: the order of the installer's phases and which
    failures end the run with exit status 1. */
module Install {
  import opened Wrappers
  import opened Paths
  import opened Machine
  import opened Probing
  import opened Dependencies
  import Artifact
  import Download
  import MacosDmg
  import LinuxAppImage

  /** One line the installer prints, with the indicator it carries: plain or
      success output, a warning, or an error. */
  datatype Line = Info(text: string) | Warning(text: string) | Error(text: string)

  /** How the run ended: its exit status, what it printed, the downloaded
      package and the executable it reports, and the world it left. */
  datatype Report = Report(exitCode: nat, lines: seq<Line>, downloaded: Option<Path>, executable: Option<Path>, world: World)

  /** Whether the run goes on past a phase, with the lines the phase printed. */
  datatype Flow = Continue(lines: seq<Line>) | Exit(lines: seq<Line>)

  /** `get_browseros_home()`: `.browseros` in the user's home directory, or in
      the temporary directory when there is no home. */
  function BrowserosHome(h: Host): Path
  {
    Join(if h.homeDir.Some? then h.homeDir.value else h.tempDir, ".browseros")
  }

  function DownloadsDir(home: Path): Path { Join(home, "downloads") }

  function DownloadPath(home: Path, pkg: Artifact.Package): Path
  {
    Join(DownloadsDir(home), pkg.fileName)
  }

  /** The executable each platform's installer reports; other platforms
      install nothing themselves. */
  function InstalledExecutable(os: OS, home: Path): Option<Path>
  {
    match os
    case MacOS => Some(MacosDmg.Executable(home))
    case Linux => Some(LinuxAppImage.Executable(home))
    case _ => None
  }

  const InstallingDependencies: string := "Installing system dependencies..."
  const NoManagerMessage: string := "No supported package manager found (apt-get, dnf, or yum)"
  const DependenciesInstalled: string := "System dependencies installed"
  const DependenciesFailed: string := "Failed to install some dependencies. You may need to run manually with sudo."
  const WithDepsHint: string := "  agent-browser install --with-deps"

  /** The shell command that runs the package manager. */
  function Shell(script: string): Command { Command("sh", ["-c", script]) }

  /** The run ended with an error: exactly its last line is an error. */
  predicate EndsInError(lines: seq<Line>)
  {
    && |lines| > 0 && lines[|lines| - 1].Error?
    && forall k :: 0 <= k < |lines| - 1 ==> !lines[k].Error?
  }

  predicate NoErrors(lines: seq<Line>)
  {
    forall k :: 0 <= k < |lines| ==> !lines[k].Error?
  }

  /** The Linux-only dependency phase. Without `--with-deps` it prints a hint;
      with it, a missing package manager ends the run, and a failing install
      command only warns. */
  function DependencyPhase(h: Host, w: World, withDeps: bool): (r: After<Flow>)
    ensures r.value.Exit? <==> h.os == Linux && withDeps && !h.onPath("apt-get") && !h.onPath("dnf") && !h.onPath("yum")
    ensures r.value.Exit? ==> EndsInError(r.value.lines)
    ensures r.value.Continue? ==> NoErrors(r.value.lines)
    ensures h.os != Linux ==> r == After(Continue([]), w)
    ensures r.world.paths == w.paths && r.world.mounted == w.mounted
    ensures Extends(w, r.world) && FilesUntouched(w, r.world)
  {
    if h.os != Linux then After(Continue([]), w)
    else if !withDeps then After(Continue(LaunchHint), w)
    else WithDependencies(h, w)
  }

  /** What Linux prints instead of installing dependencies. */
  const LaunchHint: seq<Line> := [Warning("Linux detected. If browser fails to launch, run:"), Info(WithDepsHint), Info("")]

  /** `--with-deps`: select a package manager and run its install command. */
  function WithDependencies(h: Host, w: World): (r: After<Flow>)
    ensures r.value.Exit? <==> !h.onPath("apt-get") && !h.onPath("dnf") && !h.onPath("yum")
    ensures r.value.Exit? ==> r.value.lines == [Info(InstallingDependencies), Error(NoManagerMessage)]
    ensures r.value.Continue? ==> NoErrors(r.value.lines)
    ensures r.world.paths == w.paths && r.world.mounted == w.mounted
    ensures Extends(w, r.world) && FilesUntouched(w, r.world)
  {
    var sel := SelectDependencies(h, w);
    match sel.value
    case None => After(Exit([Info(InstallingDependencies), Error(NoManagerMessage)]), sel.world)
    case Some(s) => InstallDependencies(h, sel.world, s)
  }

  /** Runs the selected install command through `sh -c`; whatever happens,
      the run continues, and the third line says how the command went. */
  function InstallDependencies(h: Host, w: World, s: Selection): (r: After<Flow>)
    ensures r.value.Continue? && NoErrors(r.value.lines) && |r.value.lines| == 3
    ensures r.world == w.(trace := w.trace + [Exec(Shell(InstallCommand(s.manager, s.packages)))])
    ensures var st := h.status(|w.trace|, Shell(InstallCommand(s.manager, s.packages)));
      && (r.value.lines[2] == Info(DependenciesInstalled) <==> st.Exited? && st.status.success)
      && (r.value.lines[2].Warning? <==> !(st.Exited? && st.status.success))
  {
    var cmd := InstallCommand(s.manager, s.packages);
    var run := Run(h, w, Shell(cmd));
    var outcome := match run.value
      case Exited(st) => if st.success then Info(DependenciesInstalled) else Warning(DependenciesFailed)
      case SpawnError(e) => Warning("Could not run install command: " + e);
    After(Continue([Info(InstallingDependencies), Info("Running: " + cmd), outcome]), run.world)
  }

  /** The run stopped: exit status 1, its last line and only its last line an
      error, nothing reported as downloaded or installed. */
  predicate Stopped(r: Report)
  {
    r.exitCode == 1 && EndsInError(r.lines) && r.downloaded.None? && r.executable.None?
  }

  /** The run finished: exit status 0, no error printed, the package at its
      place in the downloads directory and the platform's executable in
      place. */
  predicate Finished(r: Report, h: Host, pkg: Artifact.Package)
  {
    var home := BrowserosHome(h);
    && r.exitCode == 0 && NoErrors(r.lines)
    && r.downloaded == Some(DownloadPath(home, pkg)) && DownloadPath(home, pkg) in r.world.paths
    && r.executable == InstalledExecutable(h.os, home)
    && (r.executable.Some? ==> r.executable.value in r.world.paths)
  }

  /** Ends the run with an error line after `lines`. */
  function Stop(lines: seq<Line>, message: string, w: World): (r: Report)
    requires NoErrors(lines)
    ensures Stopped(r) && r.world == w
  {
    Report(1, lines + [Error(message)], None, None, w)
  }

  /** `run_install(with_deps)`: the run either stops with an error or
      finishes with the package and the executable in place. Every filesystem
      call lands below the install root. */
  function RunInstall(h: Host, w: World, withDeps: bool): (r: Report)
    ensures Stopped(r) || (Artifact.GetPackage(h.os, h.arch).Some? && Finished(r, h, Artifact.GetPackage(h.os, h.arch).value))
    ensures Extends(w, r.world) && WritesBelow(BrowserosHome(h), w, r.world)
    ensures var d := DependencyPhase(h, w, withDeps);
      && (d.value.Exit? ==> r == Report(1, d.value.lines, None, None, d.world))
      && (d.value.Continue? ==> r == FetchPackage(h, d.world, withDeps, d.value.lines))
  {
    var deps := DependencyPhase(h, w, withDeps);
    match deps.value
    case Exit(lines) => Report(1, lines, None, None, deps.world)
    case Continue(lines) =>
      var r := FetchPackage(h, deps.world, withDeps, lines);
      WritesBelowChain(BrowserosHome(h), w, deps.world, r.world);
      r
  }

  /** Looks up the platform's package and creates the downloads directory;
      an unsupported platform or a failure to create the directory ends the
      run with its error; otherwise the package is downloaded. */
  function FetchPackage(h: Host, w: World, withDeps: bool, lines: seq<Line>): (r: Report)
    requires NoErrors(lines)
    ensures Stopped(r) || (Artifact.GetPackage(h.os, h.arch).Some? && Finished(r, h, Artifact.GetPackage(h.os, h.arch).value))
    ensures Extends(w, r.world) && WritesBelow(BrowserosHome(h), w, r.world)
  {
    match Artifact.GetPackage(h.os, h.arch)
    case None =>
      Stop(lines, "Unsupported platform for BrowserOS install: " + Artifact.OsName(h.os) + " / " + h.arch, w)
    case Some(pkg) =>
      var home := BrowserosHome(h);
      var dir := DownloadsDir(home);
      var mk := MakeDirAll(h, w, dir);
      JoinFacts(home, "downloads");
      assert WritesBelow(home, w, mk.world);
      match mk.value
      case IoError(e) => Stop(lines, "Failed to create download directory " + Display(dir) + ": " + e, mk.world)
      case IoOk =>
        var r := DownloadAndInstall(h, mk.world, withDeps, lines, pkg);
        WritesBelowChain(home, w, mk.world, r.world);
        r
  }

  /** The line printed before the download starts. */
  const Downloading: Line := Info("Installing Downloading BrowserOS " + Artifact.Version + "...")

  /** Downloads the package from its URL to `<root>/downloads/<file name>`
      and hands it to the platform's installer. A failed download ends the
      run with the download's error and runs no installer. */
  function DownloadAndInstall(h: Host, w: World, withDeps: bool, lines: seq<Line>, pkg: Artifact.Package): (r: Report)
    requires NoErrors(lines)
    ensures Stopped(r) || Finished(r, h, pkg)
    ensures Extends(w, r.world) && WritesBelow(BrowserosHome(h), w, r.world)
  {
    var home := BrowserosHome(h);
    var path := DownloadPath(home, pkg);
    var announced := lines + [Downloading];
    var got := Download.DownloadFile(h, w, pkg.url, path);
    match got.value
    case Err(e) => Stop(announced, e, got.world)
    case Ok(_) =>
      var r := InstallDownloaded(h, got.world, withDeps, announced, pkg);
      WritesBelowChain(home, w, got.world, r.world);
      r
  }

  /** Runs the platform installer on the downloaded package: its failure
      ends the run with its error, its success ends the run with exit
      status 0. */
  function InstallDownloaded(h: Host, w: World, withDeps: bool, lines: seq<Line>, pkg: Artifact.Package): (r: Report)
    requires NoErrors(lines) && DownloadPath(BrowserosHome(h), pkg) in w.paths
    ensures Stopped(r) || Finished(r, h, pkg)
    ensures Extends(w, r.world) && WritesBelow(BrowserosHome(h), w, r.world)
  {
    var home := BrowserosHome(h);
    var path := DownloadPath(home, pkg);
    var inst := PlatformInstall(h, w, path, home);
    DownloadsApart(home, pkg.fileName);
    match inst.value
    case Err(e) => Stop(lines, e, inst.world)
    case Ok(exe) => Report(0, lines + Summary(h.os, path, exe, withDeps), Some(path), exe, inst.world)
  }

  /** Creating the downloads directory decides whether the run goes on: a
      failure ends it with an error naming the directory, success moves on
      to the download. */
  lemma DownloadsDirDecides(h: Host, w: World, withDeps: bool, lines: seq<Line>)
    requires NoErrors(lines) && Artifact.GetPackage(h.os, h.arch).Some?
    ensures var dir := DownloadsDir(BrowserosHome(h));
      var made := MakeDirAll(h, w, dir);
      var r := FetchPackage(h, w, withDeps, lines);
      && (made.value.IoError? ==>
            r == Report(1, lines + [Error("Failed to create download directory " + Display(dir) + ": " + made.value.reason)], None, None, made.world))
      && (made.value.IoOk? ==> r == DownloadAndInstall(h, made.world, withDeps, lines, Artifact.GetPackage(h.os, h.arch).value))
  {
  }

  /** The download fetches the package's URL into
      `<root>/downloads/<file name>`; a successful download hands the
      package to the installer. */
  lemma DownloadDecides(h: Host, w: World, withDeps: bool, lines: seq<Line>, pkg: Artifact.Package)
    requires NoErrors(lines)
    ensures var got := Download.DownloadFile(h, w, pkg.url, DownloadPath(BrowserosHome(h), pkg));
      var r := DownloadAndInstall(h, w, withDeps, lines, pkg);
      && Extends(got.world, r.world)
      && (got.value.Ok? ==> r == InstallDownloaded(h, got.world, withDeps, lines + [Downloading], pkg))
  {
    var got := Download.DownloadFile(h, w, pkg.url, DownloadPath(BrowserosHome(h), pkg));
    if got.value.Ok? {
      assert DownloadAndInstall(h, w, withDeps, lines, pkg) == InstallDownloaded(h, got.world, withDeps, lines + [Downloading], pkg);
    }
  }

  /** A failed download ends the run with the download's error after the
      `Downloading` line, and no installer runs. */
  lemma DownloadFailureStops(h: Host, w: World, withDeps: bool, lines: seq<Line>, pkg: Artifact.Package)
    requires NoErrors(lines)
    ensures var got := Download.DownloadFile(h, w, pkg.url, DownloadPath(BrowserosHome(h), pkg));
      got.value.Err? ==>
        DownloadAndInstall(h, w, withDeps, lines, pkg) == Report(1, lines + [Downloading, Error(got.value.error)], None, None, got.world)
  {
    var got := Download.DownloadFile(h, w, pkg.url, DownloadPath(BrowserosHome(h), pkg));
    var announced := lines + [Downloading];
    if got.value.Err? {
      assert announced + [Error(got.value.error)] == lines + [Downloading, Error(got.value.error)];
      assert DownloadAndInstall(h, w, withDeps, lines, pkg) == Stop(announced, got.value.error, got.world);
    }
  }

  /** The platform installer's outcome decides the exit status: its error
      ends the run as the last line, its success gives exit status 0. */
  lemma InstallerDecides(h: Host, w: World, withDeps: bool, lines: seq<Line>, pkg: Artifact.Package)
    requires NoErrors(lines) && DownloadPath(BrowserosHome(h), pkg) in w.paths
    ensures var inst := PlatformInstall(h, w, DownloadPath(BrowserosHome(h), pkg), BrowserosHome(h));
      var r := InstallDownloaded(h, w, withDeps, lines, pkg);
      && r.world == inst.world
      && (inst.value.Err? ==> r.exitCode == 1 && r.lines == lines + [Error(inst.value.error)])
      && (inst.value.Ok? ==> r.exitCode == 0)
  {
  }

  /** The installer compiled in for the platform: the disk image on macOS,
      the AppImage on Linux, nothing elsewhere. */
  function PlatformInstall(h: Host, w: World, package: Path, home: Path): (r: After<Result<Option<Path>>>)
    ensures r.value.Ok? ==> r.value.value == InstalledExecutable(h.os, home)
    ensures r.value.Ok? && r.value.value.Some? ==> r.value.value.value in r.world.paths
    ensures !(h.os == MacOS || h.os == Linux) ==> r == After(Ok(None), w)
    ensures MacosDmg.Spares(w, r.world, home)
    ensures Extends(w, r.world) && WritesBelow(home, w, r.world)
    ensures h.os == MacOS ==>
      var inst := MacosDmg.InstallMacosDmg(h, w, package, home);
      && r.world == inst.world && (r.value.Ok? <==> inst.value.Ok?)
      && (inst.value.Err? ==> r.value == Err(inst.value.error))
    ensures h.os == Linux ==>
      var inst := LinuxAppImage.InstallLinuxAppImage(h, w, package, home);
      && r.world == inst.world && (r.value.Ok? <==> inst.value.Ok?)
      && (inst.value.Err? ==> r.value == Err(inst.value.error))
  {
    match h.os
    case MacOS =>
      var inst := MacosDmg.InstallMacosDmg(h, w, package, home);
      After(if inst.value.Ok? then Ok(Some(inst.value.value)) else Err(inst.value.error), inst.world)
    case Linux =>
      var inst := LinuxAppImage.InstallLinuxAppImage(h, w, package, home);
      After(if inst.value.Ok? then Ok(Some(inst.value.value)) else Err(inst.value.error), inst.world)
    case _ => After(Ok(None), w)
  }

  /** The closing report of a successful run. */
  function Summary(os: OS, package: Path, executable: Option<Path>, withDeps: bool): (r: seq<Line>)
    ensures NoErrors(r)
  {
    [Info("BrowserOS package downloaded"), Info("  " + Display(package))]
    + (if executable.Some? then ExecutableReady(executable.value)
       else if os == Windows then WindowsNextSteps
       else [])
    + (if os == Linux && !withDeps then LibraryReminder else [])
  }

  function ExecutableReady(exe: Path): seq<Line>
  {
    [ Info("BrowserOS executable ready:"), Info("  " + Display(exe)), Info(""), Info("Set this in your shell:"),
      Info("  export AGENT_BROWSER_EXECUTABLE_PATH=\"" + Display(exe) + "\"") ]
  }

  const WindowsNextSteps: seq<Line> := [
    Info(""), Info("Run the downloaded installer, then set:"),
    Info("  set AGENT_BROWSER_EXECUTABLE_PATH=C:\\Program Files\\BrowserOS\\BrowserOS.exe")]

  const LibraryReminder: seq<Line> := [
    Info(""), Info("Note: If BrowserOS fails to start due to missing shared libraries, run:"), Info(WithDepsHint)]

  /** The downloaded package lies neither below the mount directory nor
      below the installed bundle, so the macOS installer leaves it alone. */
  lemma DownloadsApart(home: Path, name: string)
    ensures !Within(MacosDmg.MountDir(home), Join(DownloadsDir(home), name))
    ensures !Within(MacosDmg.AppTarget(home), Join(DownloadsDir(home), name))
  {
    var p := Join(DownloadsDir(home), name);
    assert p[|home|] == Name("downloads");
    assert MacosDmg.MountDir(home)[|home|] == Name("mount");
    assert MacosDmg.AppTarget(home)[|home|] == Name("BrowserOS.app");
  }

  /** The package's path converts to text exactly when the install root
      does. So the download is refused with `Invalid output path` before
      any effect exactly when the root holds a component that is not valid
      Unicode, whatever the package. */
  lemma DownloadPathConverts(h: Host, w: World, pkg: Artifact.Package)
    ensures var out := DownloadPath(BrowserosHome(h), pkg);
      && (ToStr(out).Some? <==> IsUnicode(BrowserosHome(h)))
      && (!IsUnicode(BrowserosHome(h)) ==>
            Download.DownloadFile(h, w, pkg.url, out) == After(Err("Invalid output path: " + Display(out)), w))
  {
    var home := BrowserosHome(h);
    var out := DownloadPath(home, pkg);
    JoinFacts(home, "downloads");
    JoinFacts(DownloadsDir(home), pkg.fileName);
    assert forall k :: 0 <= k < |home| ==> out[k] == home[k];
  }

  /** The exit status is 0 or 1, and it is 1 exactly when the run printed an
      error, which is then its last line; only a run that exits 0 reports
      the package at `<home>/.browseros/downloads/<file name>` and the
      platform's executable. */
  lemma ExitStatusFollowsErrors(h: Host, w: World, withDeps: bool)
    ensures var r := RunInstall(h, w, withDeps);
      && (r.exitCode == 0 || r.exitCode == 1)
      && (r.exitCode == 1 <==> EndsInError(r.lines))
      && (r.exitCode == 0 <==> NoErrors(r.lines))
      && (r.exitCode == 1 ==> r.downloaded.None? && r.executable.None?)
      && (r.exitCode == 0 ==>
            && Artifact.GetPackage(h.os, h.arch).Some?
            && r.downloaded == Some(DownloadPath(BrowserosHome(h), Artifact.GetPackage(h.os, h.arch).value))
            && r.downloaded.value in r.world.paths
            && r.executable == InstalledExecutable(h.os, BrowserosHome(h))
            && (r.executable.Some? ==> r.executable.value in r.world.paths))
  {
    var r := RunInstall(h, w, withDeps);
    if r.exitCode == 1 {
      assert Stopped(r);
      assert r.lines[|r.lines| - 1].Error?;
    } else {
      assert Finished(r, h, Artifact.GetPackage(h.os, h.arch).value);
    }
  }

  /** An unsupported platform ends the run at once: one error line naming
      the platform, exit status 1, and no effect at all. */
  lemma UnsupportedPlatformStopsFirst(h: Host, w: World, withDeps: bool)
    requires h.os.OtherOS?
    ensures RunInstall(h, w, withDeps)
      == Report(1, [Error("Unsupported platform for BrowserOS install: " + h.os.name + " / " + h.arch)], None, None, w)
  {
    assert DependencyPhase(h, w, withDeps) == After(Continue([]), w);
  }

  /** On Linux with `--with-deps` and none of apt-get, dnf and yum present,
      the run ends after the three probes: exit status 1, no directory
      created and nothing downloaded. */
  lemma MissingManagerStopsFirst(h: Host, w: World)
    requires h.os == Linux && !h.onPath("apt-get") && !h.onPath("dnf") && !h.onPath("yum")
    ensures var r := RunInstall(h, w, true);
      && r.exitCode == 1
      && r.lines == [Info(InstallingDependencies), Error(NoManagerMessage)]
      && r.world.paths == w.paths
      && Since(w, r.world) == Locates(ManagerNames)
  {
    SelectionIsFirstAvailable(h, w);
    assert FirstAvailable(ManagerNames, h.onPath).None?;
  }

  /** On Linux with `--with-deps` and a package manager present, the
      dependency phase never ends the run, whatever the install command's
      outcome, and the effect right after that command creates the downloads
      directory. */
  lemma DependencyFailureOnlyWarns(h: Host, w: World)
    requires h.os == Linux && (h.onPath("apt-get") || h.onPath("dnf") || h.onPath("yum"))
    ensures DependencyPhase(h, w, true).value.Continue?
    ensures var n := |SelectDependencies(h, w).world.trace|;
      var r := RunInstall(h, w, true);
      && n + 1 < |r.world.trace|
      && r.world.trace[n + 1] == Fs(CreateDirAll(DownloadsDir(BrowserosHome(h))))
  {
    InstallCommandOnlyWarns(h, w);
    var d := DependencyPhase(h, w, true);
    assert |d.world.trace| == |SelectDependencies(h, w).world.trace| + 1;
    DownloadsDirAfterDependencies(h, w, true);
  }

  /** When the dependency phase lets the run go on, on a supported platform,
      the very next effect of the run creates the downloads directory. */
  lemma DownloadsDirAfterDependencies(h: Host, w: World, withDeps: bool)
    requires !h.os.OtherOS? && DependencyPhase(h, w, withDeps).value.Continue?
    ensures var d := DependencyPhase(h, w, withDeps);
      var r := RunInstall(h, w, withDeps);
      && |d.world.trace| < |r.world.trace|
      && r.world.trace[|d.world.trace|] == Fs(CreateDirAll(DownloadsDir(BrowserosHome(h))))
  {
    var d := DependencyPhase(h, w, withDeps);
    DownloadsDirComesNext(h, d.world, withDeps, d.value.lines);
  }

  /** On Linux with `--with-deps` and a package manager present, the install
      command runs through `sh -c` right after the probes, and a failed or
      unspawnable command shows as a warning on the third line instead of
      the success line. */
  lemma InstallCommandOnlyWarns(h: Host, w: World)
    requires h.os == Linux && (h.onPath("apt-get") || h.onPath("dnf") || h.onPath("yum"))
    ensures SelectDependencies(h, w).value.Some?
    ensures var sel := SelectDependencies(h, w);
      var n := |sel.world.trace|;
      var cmd := Shell(InstallCommand(sel.value.value.manager, sel.value.value.packages));
      var d := DependencyPhase(h, w, true);
      && d.value.Continue?
      && d.world.trace == sel.world.trace + [Exec(cmd)]
      && (d.value.lines[2].Warning? <==> !(h.status(n, cmd).Exited? && h.status(n, cmd).status.success))
  {
    var sel := SelectDependencies(h, w);
    assert DependencyPhase(h, w, true) == InstallDependencies(h, sel.world, sel.value.value);
  }

  /** Once a package exists for the platform, the next effect is creating the
      downloads directory. */
  lemma DownloadsDirComesNext(h: Host, w: World, withDeps: bool, lines: seq<Line>)
    requires NoErrors(lines) && !h.os.OtherOS?
    ensures var r := FetchPackage(h, w, withDeps, lines);
      |w.trace| < |r.world.trace| && r.world.trace[|w.trace|] == Fs(CreateDirAll(DownloadsDir(BrowserosHome(h))))
  {
    var mk := MakeDirAll(h, w, DownloadsDir(BrowserosHome(h)));
    var r := FetchPackage(h, w, withDeps, lines);
    assert Extends(mk.world, r.world);
  }

  /** Where everything goes: the install root is `.browseros` directly in the
      user's home (or the temporary directory), the package is downloaded to
      `<root>/downloads/<file name>`, and the executables the installers
      report are `<root>/BrowserOS.app/Contents/MacOS/BrowserOS` and
      `<root>/bin/BrowserOS`; all of them lie below the root. */
  lemma InstallLayout(h: Host, pkg: Artifact.Package)
    ensures var base := if h.homeDir.Some? then h.homeDir.value else h.tempDir;
      var home := BrowserosHome(h);
      && home == base + [Name(".browseros")]
      && DownloadPath(home, pkg) == home + [Name("downloads"), Name(pkg.fileName)]
      && MacosDmg.Executable(home) == home + [Name("BrowserOS.app"), Name("Contents"), Name("MacOS"), Name("BrowserOS")]
      && LinuxAppImage.Executable(home) == home + [Name("bin"), Name("BrowserOS")]
      && Within(base, home)
      && Within(home, DownloadPath(home, pkg))
      && Within(home, MacosDmg.Executable(home))
      && Within(home, LinuxAppImage.Executable(home))
  {
    var base := if h.homeDir.Some? then h.homeDir.value else h.tempDir;
    var home := BrowserosHome(h);
    assert home[..|base|] == base;
    assert DownloadPath(home, pkg)[..|home|] == home;
    assert MacosDmg.Executable(home)[..|home|] == home;
    assert LinuxAppImage.Executable(home)[..|home|] == home;
  }

  /** On Linux, when curl is on the path, every filesystem call and child
      process succeeds, the install root's path is valid Unicode, and (with
      `--with-deps`) a package manager is present, the run exits 0 with the
      AppImage installed at `<root>/bin/BrowserOS`. */
  lemma LinuxInstallSucceeds(h: Host, w: World, withDeps: bool)
    requires h.os == Linux && h.onPath("curl")
    requires forall k, c :: h.io(k, c).IoOk?
    requires forall k, c :: h.status(k, c).Exited? && h.status(k, c).status.success
    requires IsUnicode(BrowserosHome(h))
    requires withDeps ==> h.onPath("apt-get") || h.onPath("dnf") || h.onPath("yum")
    ensures var r := RunInstall(h, w, withDeps);
      && r.exitCode == 0
      && r.downloaded == Some(DownloadPath(BrowserosHome(h), Artifact.LinuxAppImage))
      && r.executable == Some(LinuxAppImage.Executable(BrowserosHome(h)))
  {
    var home := BrowserosHome(h);
    var pkg := Artifact.LinuxAppImage;
    var d := DependencyPhase(h, w, withDeps);
    assert d.value.Continue?;
    var made := MakeDirAll(h, d.world, DownloadsDir(home));
    DownloadsDirDecides(h, d.world, withDeps, d.value.lines);
    assert RunInstall(h, w, withDeps) == DownloadAndInstall(h, made.world, withDeps, d.value.lines, pkg);
    LinuxDownloadInstalls(h, made.world, withDeps, d.value.lines);
  }

  /** The download-and-install stage of `LinuxInstallSucceeds`. */
  lemma LinuxDownloadInstalls(h: Host, w: World, withDeps: bool, lines: seq<Line>)
    requires h.os == Linux && h.onPath("curl") && NoErrors(lines)
    requires forall k, c :: h.io(k, c).IoOk?
    requires forall k, c :: h.status(k, c).Exited? && h.status(k, c).status.success
    requires IsUnicode(BrowserosHome(h))
    ensures DownloadAndInstall(h, w, withDeps, lines, Artifact.LinuxAppImage).exitCode == 0
  {
    var home := BrowserosHome(h);
    var pkg := Artifact.LinuxAppImage;
    var path := DownloadPath(home, pkg);
    JoinFacts(home, "downloads");
    JoinFacts(DownloadsDir(home), pkg.fileName);
    var got := Download.DownloadFile(h, w, pkg.url, path);
    Download.CurlSucceedsWhenItWorks(h, w, pkg.url, path);
    DownloadDecides(h, w, withDeps, lines, pkg);
    InstallerDecides(h, got.world, withDeps, lines + [Downloading], pkg);
    LinuxAppImage.SucceedsExactlyWhenAllStepsDo(h, got.world, path, home);
  }

  /** On macOS, when curl is on the path, every filesystem call and child
      process succeeds, the install root's path is valid Unicode, and the disk
      image holds the bundle with its executable, the run exits 0 with the
      bundle installed at `<root>/BrowserOS.app`, whatever the architecture. */
  lemma MacosInstallSucceeds(h: Host, w: World, withDeps: bool)
    requires h.os == MacOS && h.onPath("curl")
    requires forall k, c :: h.io(k, c).IoOk?
    requires forall k, c :: h.status(k, c).Exited? && h.status(k, c).status.success
    requires IsUnicode(BrowserosHome(h))
    requires MacosDmg.BundleInImage in h.diskImage && MacosDmg.ExecutableInImage in h.diskImage
    ensures var r := RunInstall(h, w, withDeps);
      && r.exitCode == 0
      && r.downloaded == Some(DownloadPath(BrowserosHome(h), Artifact.GetPackage(h.os, h.arch).value))
      && r.executable == Some(MacosDmg.Executable(BrowserosHome(h)))
  {
    var home := BrowserosHome(h);
    var pkg := Artifact.GetPackage(h.os, h.arch).value;
    var d := DependencyPhase(h, w, withDeps);
    assert d == After(Continue([]), w);
    var made := MakeDirAll(h, w, DownloadsDir(home));
    DownloadsDirDecides(h, w, withDeps, []);
    assert RunInstall(h, w, withDeps) == DownloadAndInstall(h, made.world, withDeps, [], pkg);
    MacosDownloadInstalls(h, made.world, withDeps, pkg);
  }

  /** The download-and-install stage of `MacosInstallSucceeds`. */
  lemma MacosDownloadInstalls(h: Host, w: World, withDeps: bool, pkg: Artifact.Package)
    requires h.os == MacOS && h.onPath("curl")
    requires forall k, c :: h.io(k, c).IoOk?
    requires forall k, c :: h.status(k, c).Exited? && h.status(k, c).status.success
    requires IsUnicode(BrowserosHome(h))
    requires MacosDmg.BundleInImage in h.diskImage && MacosDmg.ExecutableInImage in h.diskImage
    ensures DownloadAndInstall(h, w, withDeps, [], pkg).exitCode == 0
  {
    var home := BrowserosHome(h);
    var path := DownloadPath(home, pkg);
    JoinFacts(home, "downloads");
    JoinFacts(DownloadsDir(home), pkg.fileName);
    var got := Download.DownloadFile(h, w, pkg.url, path);
    Download.CurlSucceedsWhenItWorks(h, w, pkg.url, path);
    DownloadDecides(h, w, withDeps, [], pkg);
    MacosInstallerSucceeds(h, got.world, withDeps, pkg);
  }

  /** The installer stage of `MacosInstallSucceeds`. */
  lemma MacosInstallerSucceeds(h: Host, w: World, withDeps: bool, pkg: Artifact.Package)
    requires h.os == MacOS && DownloadPath(BrowserosHome(h), pkg) in w.paths
    requires forall k, c :: h.io(k, c).IoOk?
    requires forall k, c :: h.status(k, c).Exited? && h.status(k, c).status.success
    requires MacosDmg.BundleInImage in h.diskImage && MacosDmg.ExecutableInImage in h.diskImage
    ensures InstallDownloaded(h, w, withDeps, [Downloading], pkg).exitCode == 0
  {
    var home := BrowserosHome(h);
    InstallerDecides(h, w, withDeps, [Downloading], pkg);
    MacosDmg.InstallsWhenEverythingWorks(h, w, DownloadPath(home, pkg), home);
  }
}
