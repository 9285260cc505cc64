/** The Linux installer (`install_linux_appimage`): copy the downloaded
    AppImage to `<home>/bin/BrowserOS` and make it executable. */
module LinuxAppImage {
  import opened Wrappers
  import opened Paths
  import opened Machine

  function BinDir(home: Path): Path { Join(home, "bin") }

  /** The fixed path the AppImage is installed at. */
  function Executable(home: Path): Path { Join(BinDir(home), "BrowserOS") }

  function Chmod(home: Path): Command
  {
    Command("chmod", ["+x", Display(Executable(home))])
  }

  /** `install_linux_appimage(appimage_path, browseros_home)`. */
  function InstallLinuxAppImage(h: Host, w: World, appImage: Path, home: Path): (r: After<Result<Path>>)
    ensures r.value.Ok? ==> r.value.value == Executable(home) && Executable(home) in r.world.paths
    ensures Extends(w, r.world) && WritesBelow(home, w, r.world) && r.world.mounted == w.mounted
    ensures w.paths <= r.world.paths
  {
    var bin := BinDir(home);
    var mk := MakeDirAll(h, w, bin);
    match mk.value
    case IoError(e) =>
      After(Err("Failed to create BrowserOS bin directory " + Display(bin) + ": " + e), mk.world)
    case IoOk => CopyAndMark(h, mk.world, appImage, home)
  }

  /** Copies the AppImage over `<home>/bin/BrowserOS` and marks it runnable. */
  function CopyAndMark(h: Host, w: World, appImage: Path, home: Path): (r: After<Result<Path>>)
    ensures r.value.Ok? ==> r.value.value == Executable(home) && Executable(home) in r.world.paths
    ensures Extends(w, r.world) && WritesBelow(home, w, r.world) && r.world.mounted == w.mounted
    ensures w.paths <= r.world.paths
  {
    var exe := Executable(home);
    var cp := Copy(h, w, appImage, exe);
    match cp.value
    case IoError(e) =>
      After(Err("Failed to install BrowserOS AppImage to " + Display(exe) + ": " + e), cp.world)
    case IoOk => MarkRunnable(h, cp.world, home)
  }

  /** Runs `chmod +x` on the installed file; a spawn failure and a non-zero
      exit are distinct errors. */
  function MarkRunnable(h: Host, w: World, home: Path): (r: After<Result<Path>>)
    requires Executable(home) in w.paths
    ensures r.value.Ok? ==> r.value.value == Executable(home) && Executable(home) in r.world.paths
    ensures r.world.paths == w.paths && r.world.mounted == w.mounted
    ensures r.world.trace == w.trace + [Exec(Chmod(home))]
    ensures r.value.Ok? <==> h.status(|w.trace|, Chmod(home)).Exited? && h.status(|w.trace|, Chmod(home)).status.success
  {
    var exe := Executable(home);
    var chmod := Run(h, w, Chmod(home));
    match chmod.value
    case SpawnError(e) =>
      After(Err("Failed to run chmod +x on " + Display(exe) + ": " + e), chmod.world)
    case Exited(st) =>
      if !st.success then
        After(Err("Failed to mark BrowserOS executable as runnable: " + Display(exe)), chmod.world)
      else After(Ok(exe), chmod.world)
  }

  /** The install succeeds exactly when creating the bin directory, copying
      the AppImage and `chmod +x` all succeed, in that order; each failure
      stops the sequence at the step that failed. */
  lemma SucceedsExactlyWhenAllStepsDo(h: Host, w: World, appImage: Path, home: Path)
    ensures var r := InstallLinuxAppImage(h, w, appImage, home);
      var n := |w.trace|;
      var mkOk := h.io(n, CreateDirAll(BinDir(home))).IoOk?;
      var cpOk := h.io(n + 1, CopyFile(appImage, Executable(home))).IoOk?;
      var chmodOk := h.status(n + 2, Chmod(home)).Exited? && h.status(n + 2, Chmod(home)).status.success;
      && (r.value.Ok? <==> mkOk && cpOk && chmodOk)
      && (!mkOk ==> r.world.trace == w.trace + [Fs(CreateDirAll(BinDir(home)))])
      && (mkOk && !cpOk ==> r.world.trace == w.trace + [Fs(CreateDirAll(BinDir(home))), Fs(CopyFile(appImage, Executable(home)))])
      && (mkOk && cpOk ==>
            r.world.trace == w.trace + [Fs(CreateDirAll(BinDir(home))), Fs(CopyFile(appImage, Executable(home))), Exec(Chmod(home))])
  {
  }
}
