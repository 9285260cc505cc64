/** The macOS installer (`install_macos_dmg`): attach the downloaded disk
    image at `<home>/mount`, copy `BrowserOS.app` out of it into `<home>`,
    and detach and remove the mount directory again. */
module MacosDmg {
  import opened Wrappers
  import opened Paths
  import opened Machine

  function MountDir(home: Path): Path { Join(home, "mount") }
  function AppTarget(home: Path): Path { Join(home, "BrowserOS.app") }
  function AppInImage(home: Path): Path { Join(MountDir(home), "BrowserOS.app") }

  /** `<bundle>/Contents/MacOS/BrowserOS`, the executable inside a bundle. */
  function BundleExecutable(bundle: Path): Path
  {
    Join(Join(Join(bundle, "Contents"), "MacOS"), "BrowserOS")
  }

  /** The path the installer reports on success. */
  function Executable(home: Path): Path { BundleExecutable(AppTarget(home)) }

  function DetachForce(home: Path): Command
  {
    Command("hdiutil", ["detach", Display(MountDir(home)), "-force"])
  }

  function Attach(dmg: Path, home: Path): Command
  {
    Command("hdiutil", ["attach", "-nobrowse", "-quiet", "-mountpoint", Display(MountDir(home)), Display(dmg)])
  }

  function DetachQuiet(home: Path): Command
  {
    Command("hdiutil", ["detach", Display(MountDir(home)), "-quiet"])
  }

  function CopyApp(home: Path): Command
  {
    Command("cp", ["-R", Display(AppInImage(home)), Display(AppTarget(home))])
  }

  predicate Succeeded(s: Spawn)
  {
    s.Exited? && s.status.success
  }

  /** A successful attach: the image's contents appear below the mount
      directory. */
  function Mounted(w: World, mount: Path, image: set<Path>): World
  {
    w.(paths := w.paths + (set q | q in image :: mount + q), mounted := true)
  }

  /** A successful detach: only the empty mount directory stays behind. */
  function Unmounted(w: World, mount: Path): World
  {
    w.(paths := (set q | q in w.paths && !(Within(mount, q) && q != mount)), mounted := false)
  }

  /** A successful `cp -R src dst` into a `dst` that does not exist: the tree
      below `src` is reproduced below `dst`. */
  function CopiedTree(w: World, src: Path, dst: Path): World
  {
    w.(paths := w.paths + (set q | q in w.paths && Within(src, q) :: dst + q[|src|..]))
  }

  /** Every path that existed before and is neither below the mount
      directory nor below the installed bundle still exists: the installer
      deletes nothing else. */
  predicate Spares(w: World, w': World, home: Path)
  {
    forall q :: q in w.paths && !Within(MountDir(home), q) && !Within(AppTarget(home), q) ==> q in w'.paths
  }

  /** The preparation: make sure `home` exists, detach and remove a mount
      directory left over from an earlier run (ignoring whether that works),
      and create the mount directory afresh. */
  function Prepare(h: Host, w: World, home: Path): (r: After<Result<()>>)
    ensures r.value.Ok? ==> MountDir(home) in r.world.paths
    ensures var mk := h.io(|w.trace|, CreateDirAll(home));
      mk.IoError? ==>
        && r.value == Err("Failed to prepare BrowserOS directory " + Display(home) + ": " + mk.reason)
        && r.world.trace == w.trace + [Fs(CreateDirAll(home))]
    ensures h.io(|w.trace|, CreateDirAll(home)).IoOk? ==>
      && |r.world.trace| > |w.trace|
      && var last := |r.world.trace| - 1;
         var made := h.io(last, CreateDirAll(MountDir(home)));
         && r.world.trace[last] == Fs(CreateDirAll(MountDir(home)))
         && (r.value.Ok? <==> made.IoOk?)
         && (made.IoError? ==>
               r.value == Err("Failed to create mount directory " + Display(MountDir(home)) + ": " + made.reason))
    ensures Extends(w, r.world) && WritesBelow(home, w, r.world)
    ensures Spares(w, r.world, home)
  {
    var mk := MakeDirAll(h, w, home);
    if mk.value.IoError? then
      After(Err("Failed to prepare BrowserOS directory " + Display(home) + ": " + mk.value.reason), mk.world)
    else
      var cleared := ClearStaleMount(h, mk.world, home);
      var mount := MakeDirAll(h, cleared, MountDir(home));
      if mount.value.IoError? then
        After(Err("Failed to create mount directory " + Display(MountDir(home)) + ": " + mount.value.reason), mount.world)
      else After(Ok(()), mount.world)
  }

  /** A stale mount directory is force-detached and removed. */
  function ClearStaleMount(h: Host, w: World, home: Path): (r: World)
    ensures MountDir(home) in w.paths ==>
      r.trace == w.trace + [Exec(DetachForce(home)), Fs(RemoveDirAll(MountDir(home)))]
    ensures MountDir(home) !in w.paths ==> r == w
    ensures Extends(w, r) && WritesBelow(home, w, r)
    ensures Spares(w, r, home)
  {
    var mount := MountDir(home);
    if mount in w.paths then
      var d := Run(h, w, DetachForce(home));
      var w' := if Succeeded(d.value) then Unmounted(d.world, mount) else d.world;
      RemoveTree(h, w', mount).world
    else w
  }

  /** The rest of the install, from `hdiutil attach` on. */
  function AttachAndCopy(h: Host, w: World, dmg: Path, home: Path): (r: After<Result<Path>>)
    ensures r.value.Ok? ==> r.value.value == Executable(home) && Executable(home) in r.world.paths
    ensures Extends(w, r.world) && WritesBelow(home, w, r.world)
    ensures Spares(w, r.world, home)
    ensures var a := h.status(|w.trace|, Attach(dmg, home));
      && (a.SpawnError? ==> r.value == Err("Failed to mount BrowserOS DMG: " + a.reason))
      && (a.Exited? && !a.status.success ==> r.value == Err("Failed to mount BrowserOS DMG"))
      && (Succeeded(a) ==>
            r.value == CopyBundle(h, Mounted(Record(w, Exec(Attach(dmg, home))), MountDir(home), h.diskImage), home).value)
  {
    var attach := Run(h, w, Attach(dmg, home));
    match attach.value
    case SpawnError(e) => After(Err("Failed to mount BrowserOS DMG: " + e), attach.world)
    case Exited(st) =>
      if !st.success then
        After(Err("Failed to mount BrowserOS DMG"), RemoveTree(h, attach.world, MountDir(home)).world)
      else
        var inner := CopyBundle(h, Mounted(attach.world, MountDir(home), h.diskImage), home);
        ExecutableOutsideMount(home);
        After(inner.value, TearDown(h, inner.world, home))
  }

  /** The cleanup, run whatever the copy's outcome: detach the image and
      remove the mount directory, ignoring failures of either. Nothing outside
      the mount directory is lost; if the removal succeeds nothing below it is
      left, and if the detach succeeds the image is no longer attached. */
  function TearDown(h: Host, w: World, home: Path): (r: World)
    ensures r.trace == w.trace + [Exec(DetachQuiet(home)), Fs(RemoveDirAll(MountDir(home)))]
    ensures forall q :: q in w.paths && !Within(MountDir(home), q) ==> q in r.paths
    ensures h.io(|w.trace| + 1, RemoveDirAll(MountDir(home))).IoOk? ==>
      forall q :: q in r.paths ==> !Within(MountDir(home), q)
    ensures Succeeded(h.status(|w.trace|, DetachQuiet(home))) ==> !r.mounted
    ensures Extends(w, r) && WritesBelow(home, w, r)
  {
    var mount := MountDir(home);
    var d := Run(h, w, DetachQuiet(home));
    var w' := if Succeeded(d.value) then Unmounted(d.world, mount) else d.world;
    RemoveTree(h, w', mount).world
  }

  /** The closure run while the image is attached: find the bundle in the image, replace any
      installed bundle with a copy of it, and check its executable. */
  function CopyBundle(h: Host, w: World, home: Path): (r: After<Result<Path>>)
    ensures r.value.Ok? ==> r.value.value == Executable(home) && Executable(home) in r.world.paths
    ensures AppInImage(home) !in w.paths ==>
      r == After(Err("BrowserOS.app not found in mounted DMG: " + Display(MountDir(home))), w)
    ensures AppInImage(home) in w.paths ==>
      var rm := RemovePrevious(h, w, home);
      && (rm.value.Err? ==> r == After(Err(rm.value.error), rm.world))
      && (rm.value.Ok? ==> r == CopyAndCheck(h, rm.world, home))
    ensures Extends(w, r.world) && r.world.mounted == w.mounted && WritesBelow(home, w, r.world)
    ensures Spares(w, r.world, home)
  {
    if AppInImage(home) !in w.paths then
      After(Err("BrowserOS.app not found in mounted DMG: " + Display(MountDir(home))), w)
    else
      var rm := RemovePrevious(h, w, home);
      match rm.value
      case Err(e) => After(Err(e), rm.world)
      case Ok(_) => CopyAndCheck(h, rm.world, home)
  }

  /** An installed bundle is removed before the copy. */
  function RemovePrevious(h: Host, w: World, home: Path): (r: After<Result<()>>)
    ensures AppTarget(home) !in w.paths ==> r == After(Ok(()), w)
    ensures AppTarget(home) in w.paths ==>
      var e := h.io(|w.trace|, RemoveDirAll(AppTarget(home)));
      && (r.value.Ok? <==> e.IoOk?)
      && (e.IoError? ==> r.value == Err("Failed to remove previous BrowserOS.app at " + Display(AppTarget(home)) + ": " + e.reason))
    ensures Extends(w, r.world) && r.world.mounted == w.mounted && WritesBelow(home, w, r.world)
    ensures Spares(w, r.world, home)
  {
    var target := AppTarget(home);
    if target !in w.paths then After(Ok(()), w)
    else
      var rm := RemoveTree(h, w, target);
      match rm.value
      case IoError(e) => After(Err("Failed to remove previous BrowserOS.app at " + Display(target) + ": " + e), rm.world)
      case IoOk => After(Ok(()), rm.world)
  }

  /** `cp -R` the bundle and check that its executable is
      there. */
  function CopyAndCheck(h: Host, w: World, home: Path): (r: After<Result<Path>>)
    ensures r.value.Ok? ==> r.value.value == Executable(home) && Executable(home) in r.world.paths
    ensures var c := h.status(|w.trace|, CopyApp(home));
      && (c.SpawnError? ==> r.value == Err("Failed to copy BrowserOS.app: " + c.reason))
      && (c.Exited? && !c.status.success ==> r.value == Err("Failed to copy BrowserOS.app from DMG"))
      && (r.value.Err? && Succeeded(c) ==>
            r.value == Err("Installed BrowserOS executable not found: " + Display(Executable(home))))
    ensures Extends(w, r.world) && r.world.mounted == w.mounted && WritesBelow(home, w, r.world)
    ensures Spares(w, r.world, home)
  {
    var cp := Run(h, w, CopyApp(home));
    match cp.value
    case SpawnError(e) => After(Err("Failed to copy BrowserOS.app: " + e), cp.world)
    case Exited(st) =>
      if !st.success then After(Err("Failed to copy BrowserOS.app from DMG"), cp.world)
      else
        CheckInstalled(CopiedTree(cp.world, AppInImage(home), AppTarget(home)), home)
  }

  /** The copied bundle must hold its executable. */
  function CheckInstalled(w: World, home: Path): (r: After<Result<Path>>)
    ensures r.world == w
    ensures r.value.Ok? <==> Executable(home) in w.paths
    ensures r.value.Ok? ==> r.value.value == Executable(home)
  {
    if Executable(home) !in w.paths then
      After(Err("Installed BrowserOS executable not found: " + Display(Executable(home))), w)
    else After(Ok(Executable(home)), w)
  }

  /** `install_macos_dmg(dmg_path, browseros_home)`. */
  function InstallMacosDmg(h: Host, w: World, dmg: Path, home: Path): (r: After<Result<Path>>)
    ensures r.value.Ok? ==> r.value.value == Executable(home) && Executable(home) in r.world.paths
    ensures Extends(w, r.world) && WritesBelow(home, w, r.world)
    ensures Spares(w, r.world, home)
    ensures var p := Prepare(h, w, home);
      var a := h.status(|p.world.trace|, Attach(dmg, home));
      && (p.value.Err? ==> r == After(Err(p.value.error), p.world))
      && (p.value.Ok? && a.SpawnError? ==> r.value == Err("Failed to mount BrowserOS DMG: " + a.reason))
      && (p.value.Ok? && a.Exited? && !a.status.success ==> r.value == Err("Failed to mount BrowserOS DMG"))
      && (p.value.Ok? ==> r == AttachAndCopy(h, p.world, dmg, home))
  {
    var prep := Prepare(h, w, home);
    match prep.value
    case Err(e) => After(Err(e), prep.world)
    case Ok(_) => AttachAndCopy(h, prep.world, dmg, home)
  }

  /** The installed executable is not below the mount directory, so tearing
      the mount down never touches it. */
  lemma ExecutableOutsideMount(home: Path)
    ensures !Within(MountDir(home), Executable(home))
  {
    assert Executable(home)[|home|] == Name("BrowserOS.app");
    assert MountDir(home)[|home|] == Name("mount");
  }

  /** The steps begin by creating `home`; a mount directory
      left behind by an earlier run is force-detached and removed before the
      mount directory is created again, and no detach is issued otherwise. */
  lemma StaleMountClearedFirst(h: Host, w: World, dmg: Path, home: Path)
    requires h.io(|w.trace|, CreateDirAll(home)).IoOk?
    ensures var t := InstallMacosDmg(h, w, dmg, home).world.trace;
      var n := |w.trace|;
      && |t| >= n + 2
      && t[n] == Fs(CreateDirAll(home))
      && (MountDir(home) in w.paths ==>
            && |t| >= n + 4
            && t[n + 1] == Exec(DetachForce(home))
            && t[n + 2] == Fs(RemoveDirAll(MountDir(home)))
            && t[n + 3] == Fs(CreateDirAll(MountDir(home))))
      && (MountDir(home) !in w.paths ==> t[n + 1] == Fs(CreateDirAll(MountDir(home))))
  {
    var mk := MakeDirAll(h, w, home);
    assert MountDir(home) != home;
    assert MountDir(home) in mk.world.paths <==> MountDir(home) in w.paths;
    var cleared := ClearStaleMount(h, mk.world, home);
    var p := Prepare(h, w, home);
    var r := InstallMacosDmg(h, w, dmg, home);
    assert Extends(p.world, r.world);
  }

  /** Once `hdiutil attach` has run, the last step is always the removal of
      the mount directory, preceded by a detach when the attach succeeded;
      when that removal succeeds nothing below the mount directory is left,
      whether the install succeeded or not. */
  lemma MountDirCleanedAfterAttach(h: Host, w: World, dmg: Path, home: Path)
    ensures var p := Prepare(h, w, home);
      var r := InstallMacosDmg(h, w, dmg, home);
      var a := h.status(|p.world.trace|, Attach(dmg, home));
      var last := |r.world.trace| - 1;
      p.value.Ok? && a.Exited? ==>
        && last >= 1
        && r.world.trace[last] == Fs(RemoveDirAll(MountDir(home)))
        && (a.status.success ==> r.world.trace[last - 1] == Exec(DetachQuiet(home)))
        && (h.io(last, RemoveDirAll(MountDir(home))).IoOk? ==>
              forall q :: q in r.world.paths ==> !Within(MountDir(home), q))
  {
    var p := Prepare(h, w, home);
    if p.value.Ok? {
      var r := InstallMacosDmg(h, w, dmg, home);
      assert r.world == AttachAndCopy(h, p.world, dmg, home).world;
      AttachCleanup(h, p.world, dmg, home);
    }
  }

  /** The cleanup property of `MountDirCleanedAfterAttach`, from the attach
      on. */
  lemma AttachCleanup(h: Host, w: World, dmg: Path, home: Path)
    ensures var r := AttachAndCopy(h, w, dmg, home);
      var a := h.status(|w.trace|, Attach(dmg, home));
      var last := |r.world.trace| - 1;
      a.Exited? ==>
        && last >= 1
        && r.world.trace[last] == Fs(RemoveDirAll(MountDir(home)))
        && (a.status.success ==> r.world.trace[last - 1] == Exec(DetachQuiet(home)))
        && (h.io(last, RemoveDirAll(MountDir(home))).IoOk? ==>
              forall q :: q in r.world.paths ==> !Within(MountDir(home), q))
  {
    var a := h.status(|w.trace|, Attach(dmg, home));
    if Succeeded(a) {
      AttachSucceededCleanup(h, w, dmg, home);
    } else if a.Exited? {
      AttachFailedCleanup(h, w, dmg, home);
    }
  }

  /** `AttachCleanup` after a successful attach: the detach and the removal
      of the teardown come last. */
  lemma AttachSucceededCleanup(h: Host, w: World, dmg: Path, home: Path)
    requires Succeeded(h.status(|w.trace|, Attach(dmg, home)))
    ensures var r := AttachAndCopy(h, w, dmg, home).world;
      var last := |r.trace| - 1;
      && last >= 1
      && r.trace[last] == Fs(RemoveDirAll(MountDir(home)))
      && r.trace[last - 1] == Exec(DetachQuiet(home))
      && (h.io(last, RemoveDirAll(MountDir(home))).IoOk? ==>
            forall q :: q in r.paths ==> !Within(MountDir(home), q))
  {
    var attach := Run(h, w, Attach(dmg, home));
    var inner := CopyBundle(h, Mounted(attach.world, MountDir(home), h.diskImage), home);
    assert AttachAndCopy(h, w, dmg, home).world == TearDown(h, inner.world, home);
  }

  /** `AttachCleanup` after an attach that exits unsuccessfully: the mount
      directory's removal is the only step after it. */
  lemma AttachFailedCleanup(h: Host, w: World, dmg: Path, home: Path)
    requires h.status(|w.trace|, Attach(dmg, home)).Exited?
    requires !h.status(|w.trace|, Attach(dmg, home)).status.success
    ensures var r := AttachAndCopy(h, w, dmg, home).world;
      var last := |r.trace| - 1;
      && last >= 1
      && r.trace[last] == Fs(RemoveDirAll(MountDir(home)))
      && (h.io(last, RemoveDirAll(MountDir(home))).IoOk? ==>
            forall q :: q in r.paths ==> !Within(MountDir(home), q))
  {
    var mount := MountDir(home);
    var attach := Run(h, w, Attach(dmg, home));
    var rm := RemoveTree(h, attach.world, mount);
    assert AttachAndCopy(h, w, dmg, home).world == rm.world;
    assert |rm.world.trace| - 1 == |attach.world.trace|;
  }

  /** When `hdiutil attach` cannot be started at all, the `?`
      returns at once and the cleanup is skipped, so the freshly created
      mount directory is left behind. */
  lemma AttachSpawnFailureLeavesMountDir(h: Host, w: World, dmg: Path, home: Path)
    ensures var p := Prepare(h, w, home);
      var r := InstallMacosDmg(h, w, dmg, home);
      var a := h.status(|p.world.trace|, Attach(dmg, home));
      p.value.Ok? && a.SpawnError? ==>
        && r.value == Err("Failed to mount BrowserOS DMG: " + a.reason)
        && MountDir(home) in r.world.paths
        && r.world.trace == p.world.trace + [Exec(Attach(dmg, home))]
  {
  }

  /** The bundle as the disk image holds it, and its executable. */
  const BundleInImage: Path := [Name("BrowserOS.app")]
  const ExecutableInImage: Path := BundleExecutable(BundleInImage)

  /** When every filesystem call and every child process succeeds and the
      image holds the bundle with its executable, the install succeeds and
      reports `<home>/BrowserOS.app/Contents/MacOS/BrowserOS`. */
  lemma InstallsWhenEverythingWorks(h: Host, w: World, dmg: Path, home: Path)
    requires forall k, c :: h.io(k, c).IoOk?
    requires forall k, c :: Succeeded(h.status(k, c))
    requires BundleInImage in h.diskImage && ExecutableInImage in h.diskImage
    ensures InstallMacosDmg(h, w, dmg, home).value == Ok(Executable(home))
  {
    var mount := MountDir(home);
    var p := Prepare(h, w, home);
    assert p.value.Ok?;
    var attach := Run(h, p.world, Attach(dmg, home));
    var m := Mounted(attach.world, mount, h.diskImage);
    assert mount + BundleInImage == AppInImage(home);
    assert AppInImage(home) in m.paths;
    assert mount + ExecutableInImage in m.paths;
    CopiesWhenEverythingWorks(h, m, home);
  }

  /** The copy out of an attached image that holds the bundle's executable
      succeeds when every call does. */
  lemma CopiesWhenEverythingWorks(h: Host, w: World, home: Path)
    requires forall k, c :: h.io(k, c).IoOk?
    requires forall k, c :: Succeeded(h.status(k, c))
    requires AppInImage(home) in w.paths && MountDir(home) + ExecutableInImage in w.paths
    ensures CopyBundle(h, w, home).value == Ok(Executable(home))
  {
    var source := MountDir(home) + ExecutableInImage;
    var rm := RemovePrevious(h, w, home);
    assert !Within(AppTarget(home), source) by {
      assert source[|home|] == Name("mount");
    }
    assert source in rm.world.paths;
    assert rm.value.Ok?;
    var cp := Run(h, rm.world, CopyApp(home));
    assert Within(AppInImage(home), source);
    assert AppTarget(home) + source[|AppInImage(home)|..] == Executable(home);
    assert Executable(home) in CopiedTree(cp.world, AppInImage(home), AppTarget(home)).paths;
  }

  /** The bundle's executable after a copy that exits successfully is there
      exactly when the image held it: once a previous bundle is gone, the
      checked path can only have come from the copy out of the mount. A
      world in which the executable exists without its bundle is excluded. */
  lemma ExecutableComesFromImage(h: Host, w: World, home: Path)
    requires AppInImage(home) in w.paths
    requires Executable(home) in w.paths ==> AppTarget(home) in w.paths
    requires AppTarget(home) in w.paths ==> h.io(|w.trace|, RemoveDirAll(AppTarget(home))).IoOk?
    requires Succeeded(h.status(|w.trace| + (if AppTarget(home) in w.paths then 1 else 0), CopyApp(home)))
    ensures CopyBundle(h, w, home).value.Ok? <==> MountDir(home) + ExecutableInImage in w.paths
  {
    var rm := RemovePrevious(h, w, home);
    assert Within(AppTarget(home), Executable(home)) by {
      assert Executable(home)[..|AppTarget(home)|] == AppTarget(home);
    }
    assert Executable(home) !in rm.world.paths;
    assert MountDir(home) + ExecutableInImage in rm.world.paths <==> MountDir(home) + ExecutableInImage in w.paths by {
      assert (MountDir(home) + ExecutableInImage)[|home|] == Name("mount");
    }
    assert CopyBundle(h, w, home) == CopyAndCheck(h, rm.world, home);
    CopiedExecutable(h, rm.world, home);
  }

  /** After a successful `cp -R`, the executable check passes exactly when
      the executable was already there or the image held it. */
  lemma CopiedExecutable(h: Host, w: World, home: Path)
    requires Succeeded(h.status(|w.trace|, CopyApp(home)))
    ensures CopyAndCheck(h, w, home).value.Ok? <==>
      MountDir(home) + ExecutableInImage in w.paths || Executable(home) in w.paths
  {
    var src := AppInImage(home);
    var dst := AppTarget(home);
    var tail: Path := [Name("Contents"), Name("MacOS"), Name("BrowserOS")];
    var source := MountDir(home) + ExecutableInImage;
    assert Executable(home) == dst + tail;
    assert source == src + tail;
    var cp := Run(h, w, CopyApp(home));
    var copied := CopiedTree(cp.world, src, dst);
    assert CopyAndCheck(h, w, home) == CheckInstalled(copied, home);
    if source in w.paths {
      assert Within(src, source) && source[|src|..] == tail;
      assert Executable(home) in copied.paths;
    }
    if Executable(home) in copied.paths && Executable(home) !in w.paths {
      var q :| q in cp.world.paths && Within(src, q) && dst + q[|src|..] == Executable(home);
      assert q[|src|..] == tail by {
        assert |q[|src|..]| == |tail|;
        forall i | 0 <= i < |tail| ensures q[|src|..][i] == tail[i] {
          assert (dst + q[|src|..])[|dst| + i] == (dst + tail)[|dst| + i];
        }
      }
      assert q == q[..|src|] + q[|src|..];
      assert q == source;
    }
  }
}
